// Recording one respondent's answer against options that may have moved since
// they last answered, and proposing a new option.
module Submission {
  import opened Model
  import opened MergeGraph
  import opened Editing
  import opened Tally

  const SEEN_INSERT_BATCH: nat := 1000

  /******* What a submission does, on sets *******/

  // visibleTo: prior is what the respondent had chosen before, allow the option
  // they are proposing in this request ("" when none).
  predicate Visible(o: Opt, prior: set<Id>, allow: Id) {
    o.status.Approved? || (o.status.Pending? && (o.id == allow || o.id in prior))
  }

  predicate Hidden(o: Opt) {
    o.status.Removed? || o.status.Rejected? || o.status.Merged?
  }

  // Visible and submitted, or not visible and previously chosen.
  function NewChoices(opts: seq<Opt>, prior: set<Id>, submitted: set<Id>, allow: Id): set<Id> {
    set o | o in opts && (if Visible(o, prior, allow) then o.id in submitted else o.id in prior) :: o.id
  }

  function OnBallot(opts: seq<Opt>, prior: set<Id>, allow: Id): set<Id> {
    set o | o in opts && Visible(o, prior, allow) :: o.id
  }

  function PriorChoices(prev: Maybe<Row>): set<Id> {
    if prev.Some? then prev.value.choices else {}
  }

  function PriorSeen(prev: Maybe<Row>): set<Id> {
    if prev.Some? then prev.value.seen else {}
  }

  // The seen list as it is computed: the union, walked in the survey's order.
  function WalkedSeen(opts: seq<Opt>, prev: Maybe<Row>, allow: Id): set<Id> {
    (OnBallot(opts, PriorChoices(prev), allow) + PriorSeen(prev)) * Ids(opts)
  }

  // What ends up stored: nothing is written when the length did not change.
  function StoredSeen(opts: seq<Opt>, prev: Maybe<Row>, allow: Id): set<Id> {
    var walked := WalkedSeen(opts, prev, allow);
    if prev.Some? && |walked| == |prev.value.seen| then prev.value.seen else PriorSeen(prev) + walked
  }

  function SavedRow(sv: Survey, prev: Maybe<Row>, submitted: set<Id>, comment: string, allow: Id, now: Time): Row {
    Row(NewChoices(sv.options, PriorChoices(prev), submitted, allow),
        StoredSeen(sv.options, prev, allow),
        if sv.allowComment then comment else "",
        if prev.Some? then prev.value.created else now,
        now)
  }

  function RowOf(rows: map<Voter, Row>, voter: Voter): Maybe<Row> {
    if voter in rows then Some(rows[voter]) else None
  }

  function SaveResponse(sv: Survey, rows: map<Voter, Row>, voter: Voter, submitted: set<Id>, comment: string,
      allow: Id, preview: bool, now: Time): Result<map<Voter, Row>>
  {
    if !AcceptingFrom(sv, now, preview) then Err(NotAccepting)
    else Ok(rows[voter := SavedRow(sv, RowOf(rows, voter), submitted, comment, allow, now)])
  }

  function PendingIds(opts: seq<Opt>): set<Id> {
    set o | o in opts && o.status.Pending? :: o.id
  }

  // The checks of addWriteIn and the survey with the new option in it.
  function Proposed(sv: Survey, prior: set<Id>, text: string, newId: Id, preview: bool, now: Time): Result<Survey> {
    if !sv.allowWriteIn then Err(NoWriteIns)
    else if !AcceptingFrom(sv, now, preview) then Err(NotAccepting)
    else if |PendingIds(sv.options) * prior| >= MAX_WRITE_INS_PER_VOTER then Err(TooManySuggestions)
    else if |PendingIds(sv.options)| >= MAX_PENDING_PER_SURVEY then Err(QueueFull)
    else
      var added := AddOption(sv.options, text, Pending, WriteIn, newId, now);
      if added.Err? then Err(added.error)
      else SaveSurvey(sv.(options := added.value, updated := now), |sv.options|, now)
  }

  // The proposing transaction: the option and the vote for it, or nothing.
  function ProposeOption(sv: Survey, rows: map<Voter, Row>, voter: Voter, text: string, newId: Id, preview: bool,
      now: Time): Result<(Survey, map<Voter, Row>)>
  {
    var prev := RowOf(rows, voter);
    var saved := Proposed(sv, PriorChoices(prev), text, newId, preview, now);
    if saved.Err? then Err(saved.error)
    else
      var comment := if prev.Some? then prev.value.comment else "";
      var after := SaveResponse(saved.value, rows, voter, PriorChoices(prev) + {newId}, comment, newId, preview, now);
      if after.Err? then Err(after.error) else Ok((saved.value, after.value))
  }

  /******* The same, step by step *******/

  // Reading a one-column table gives its rows in some order.
  method LoadIds(table: set<Id>) returns (ids: seq<Id>)
    ensures Elements(ids) == table && NoRepeats(ids)
  {
    ids := [];
    var left := table;
    while left != {}
      invariant left <= table && Elements(ids) == table - left && NoRepeats(ids)
      decreases left
    {
      var id :| id in left;
      assert id !in Elements(ids);
      assert Elements(ids + [id]) == Elements(ids) + {id};
      left := left - {id};
      ids := ids + [id];
    }
  }

  predicate Sees(opts: seq<Opt>, prior: set<Id>, allow: Id, id: Id) {
    var o := Find(opts, id);
    o.Some? && Visible(o.value, prior, allow)
  }

  predicate CannotSee(opts: seq<Opt>, prior: set<Id>, allow: Id, id: Id) {
    var o := Find(opts, id);
    o.Some? && !Visible(o.value, prior, allow)
  }

  // The choices of the new answer: the submission filtered against the ballot,
  // then the selections the respondent could not see.
  method PickChoices(opts: seq<Opt>, prior: seq<Id>, submitted: seq<Id>, allow: Id) returns (picked: seq<Id>)
    requires Distinct(opts)
    ensures NoRepeats(picked) && Elements(picked) == NewChoices(opts, Elements(prior), Elements(submitted), allow)
  {
    picked := [];
    for i := 0 to |submitted|
      invariant NoRepeats(picked)
      invariant forall id ::
        id in picked <==> id in submitted[..i] && Sees(opts, Elements(prior), allow, id)
    {
      var o := Find(opts, submitted[i]);
      if o.None? || submitted[i] in picked || !Visible(o.value, Elements(prior), allow) {
        continue;
      }
      picked := picked + [submitted[i]];
    }
    ghost var chosen := picked;
    for i := 0 to |prior|
      invariant NoRepeats(picked)
      invariant forall id ::
        id in picked <==> id in chosen || (id in prior[..i] && CannotSee(opts, Elements(prior), allow, id))
    {
      var o := Find(opts, prior[i]);
      if prior[i] !in picked && o.Some? && !Visible(o.value, Elements(prior), allow) {
        picked := picked + [prior[i]];
      }
    }
    PickedAreNewChoices(opts, Elements(prior), Elements(submitted), allow, Elements(picked));
  }

  lemma {:induction false} PickedAreNewChoices(opts: seq<Opt>, prior: set<Id>, submitted: set<Id>, allow: Id,
      picked: set<Id>)
    requires Distinct(opts)
    requires forall id ::
      id in picked <==> (id in submitted && Sees(opts, prior, allow, id)) || (id in prior && CannotSee(opts, prior, allow, id))
    ensures picked == NewChoices(opts, prior, submitted, allow)
  {
    forall o | o in opts ensures Find(opts, o.id) == Some(o) {
      FindMember(opts, o);
    }
  }

  // The seen list of the new answer, in the survey's order.
  method WalkSeen(opts: seq<Opt>, prior: seq<Id>, priorSeen: seq<Id>, allow: Id) returns (seen: seq<Id>)
    requires Distinct(opts)
    ensures NoRepeats(seen)
    ensures Elements(seen) == (OnBallot(opts, Elements(prior), allow) + Elements(priorSeen)) * Ids(opts)
  {
    var shown: set<Id> := {};
    for i := 0 to |opts|
      invariant shown == OnBallot(opts[..i], Elements(prior), allow)
    {
      assert opts[..i + 1] == opts[..i] + [opts[i]];
      if Visible(opts[i], Elements(prior), allow) {
        shown := shown + {opts[i].id};
      }
    }
    assert opts[..|opts|] == opts;
    shown := shown + Elements(priorSeen);
    seen := [];
    for i := 0 to |opts|
      invariant NoRepeats(seen) && Elements(seen) == shown * Ids(opts[..i])
    {
      assert opts[..i + 1] == opts[..i] + [opts[i]];
      assert opts[i].id !in Ids(opts[..i]);
      if opts[i].id in shown {
        assert opts[i].id !in Elements(seen);
        assert Elements(seen + [opts[i].id]) == Elements(seen) + {opts[i].id};
        seen := seen + [opts[i].id];
      }
    }
    assert opts[..|opts|] == opts;
  }

  function Total(sizes: seq<nat>): nat {
    if sizes == [] then 0 else Total(sizes[..|sizes| - 1]) + sizes[|sizes| - 1]
  }

  // insertSeen: INSERT OR IGNORE in statements of at most 1000 rows. sizes are
  // the statements issued.
  method InsertSeen(stored: set<Id>, ids: seq<Id>) returns (after: set<Id>, sizes: seq<nat>)
    ensures after == stored + Elements(ids)
    ensures Total(sizes) == |ids| && forall n | n in sizes :: 1 <= n <= SEEN_INSERT_BATCH
  {
    after := stored;
    sizes := [];
    var rest := ids;
    while |rest| > 0
      invariant |rest| <= |ids| && rest == ids[|ids| - |rest|..]
      invariant after == stored + Elements(ids[..|ids| - |rest|])
      invariant Total(sizes) == |ids| - |rest| && forall n | n in sizes :: 1 <= n <= SEEN_INSERT_BATCH
    {
      var n := if |rest| < SEEN_INSERT_BATCH then |rest| else SEEN_INSERT_BATCH;
      ghost var done := |ids| - |rest|;
      assert ids[..done + n] == ids[..done] + rest[..n];
      after := after + Elements(rest[..n]);
      assert (sizes + [n])[..|sizes|] == sizes;
      sizes := sizes + [n];
      rest := rest[n..];
    }
    assert ids[..|ids|] == ids;
  }

  // What saveResponseTx writes, given what it read.
  method BuildRow(sv: Survey, prev: Maybe<Row>, submitted: seq<Id>, comment: string, allow: Id, now: Time)
    returns (row: Row)
    requires Distinct(sv.options)
    ensures row == SavedRow(sv, prev, Elements(submitted), comment, allow, now)
  {
    var prior: seq<Id>, priorSeen: seq<Id>, created := [], [], now;
    if prev.Some? {
      prior := LoadIds(prev.value.choices);
      priorSeen := LoadIds(prev.value.seen);
      created := prev.value.created;
    }
    assert Elements(prior) == PriorChoices(prev) && Elements(priorSeen) == PriorSeen(prev);
    var choices := PickChoices(sv.options, prior, submitted, allow);
    var seen := WalkSeen(sv.options, prior, priorSeen, allow);
    DistinctSize(seen);
    DistinctSize(priorSeen);
    var stored := Elements(priorSeen);
    if prev.None? || |seen| != |priorSeen| {
      var sizes;
      stored, sizes := InsertSeen(stored, seen);
    }
    row := Row(Elements(choices), stored, if sv.allowComment then comment else "", created, now);
  }

  // saveResponseTx on what it read: the check, and the row it writes.
  method Answer(sv: Survey, rows: map<Voter, Row>, voter: Voter, submitted: seq<Id>, comment: string,
      allow: Id, preview: bool, now: Time) returns (r: Result<map<Voter, Row>>)
    requires Distinct(sv.options)
    ensures r == SaveResponse(sv, rows, voter, Elements(submitted), comment, allow, preview, now)
  {
    if !AcceptingFrom(sv, now, preview) {
      return Err(NotAccepting);
    }
    var row := BuildRow(sv, RowOf(rows, voter), submitted, comment, allow, now);
    r := Ok(rows[voter := row]);
  }

  // The responses, choices and seen tables of one survey.
  class ResponseTables {
    var rows: map<Voter, Row>

    constructor ()
      ensures rows == map[]
    {
      rows := map[];
    }

    // saveResponseTx
    method Save(sv: Survey, voter: Voter, submitted: seq<Id>, comment: string, allow: Id, preview: bool, now: Time)
      returns (err: Maybe<Error>)
      requires Distinct(sv.options)
      modifies this
      ensures var r := SaveResponse(sv, old(rows), voter, Elements(submitted), comment, allow, preview, now);
        if r.Ok? then err == None && rows == r.value else err == Some(r.error) && rows == old(rows)
    {
      var r := Answer(sv, rows, voter, submitted, comment, allow, preview, now);
      if r.Err? {
        return Some(r.error);
      }
      rows := r.value;
      return None;
    }

    // addWriteIn: nothing is written unless every check passes.
    method AddWriteIn(record: SurveyRecord, voter: Voter, text: string, newId: Id, preview: bool, now: Time)
      returns (err: Maybe<Error>)
      requires Distinct(record.value.options) && newId !in Ids(record.value.options)
      modifies this, record
      ensures var r := ProposeOption(old(record.value), old(rows), voter, text, newId, preview, now);
        if r.Ok? then err == None && record.value == r.value.0 && rows == r.value.1
        else err == Some(r.error) && record.value == old(record.value) && rows == old(rows)
    {
      var r := ProposeAndAnswer(record.value, rows, voter, text, newId, preview, now);
      if r.Err? {
        return Some(r.error);
      }
      record.value := r.value.0;
      rows := r.value.1;
      return None;
    }
  }

  // The body of the transaction, before its commit.
  method ProposeAndAnswer(sv: Survey, rows: map<Voter, Row>, voter: Voter, text: string, newId: Id, preview: bool,
      now: Time) returns (r: Result<(Survey, map<Voter, Row>)>)
    requires Distinct(sv.options) && newId !in Ids(sv.options)
    ensures r == ProposeOption(sv, rows, voter, text, newId, preview, now)
  {
    var prev := RowOf(rows, voter);
    var prior := PriorChoices(prev);
    var saved := Propose(sv, prior, text, newId, preview, now);
    if saved.Err? {
      return Err(saved.error);
    }
    var choices := LoadIds(prior);
    var comment := if prev.Some? then prev.value.comment else "";
    var submitted := choices + [newId];
    assert Elements(submitted) == Elements(choices) + {newId};
    var after := Answer(saved.value, rows, voter, submitted, comment, newId, preview, now);
    r := if after.Err? then Err(after.error) else Ok((saved.value, after.value));
  }

  method Propose(sv: Survey, prior: set<Id>, text: string, newId: Id, preview: bool, now: Time)
    returns (saved: Result<Survey>)
    requires Distinct(sv.options) && newId !in Ids(sv.options)
    ensures saved == Proposed(sv, prior, text, newId, preview, now)
    ensures saved.Ok? ==> Distinct(saved.value.options)
  {
    if !sv.allowWriteIn {
      return Err(NoWriteIns);
    }
    if !AcceptingFrom(sv, now, preview) {
      return Err(NotAccepting);
    }
    var mine := CountPending(sv.options, prior);
    if mine >= MAX_WRITE_INS_PER_VOTER {
      return Err(TooManySuggestions);
    }
    if |PendingIds(sv.options)| >= MAX_PENDING_PER_SURVEY {
      return Err(QueueFull);
    }
    var added := AddOption(sv.options, text, Pending, WriteIn, newId, now);
    if added.Err? {
      return Err(added.error);
    }
    FindAfterAppend(sv.options, added.value[|sv.options|], newId);
    saved := SaveSurvey(sv.(options := added.value, updated := now), |sv.options|, now);
  }

  // countPending, over the respondent's own selections.
  method CountPending(opts: seq<Opt>, choices: set<Id>) returns (n: nat)
    requires Distinct(opts)
    ensures n == |PendingIds(opts) * choices|
  {
    var ids := LoadIds(choices);
    ghost var pending := PendingIds(opts);
    ghost var counted: set<Id> := {};
    n := 0;
    for i := 0 to |ids|
      invariant n == |counted|
      invariant forall id :: id in counted <==> id in ids[..i] && id in pending
    {
      var o := Find(opts, ids[i]);
      PendingMember(opts, ids[i]);
      if o.Some? && o.value.status.Pending? {
        counted := counted + {ids[i]};
        n := n + 1;
      }
    }
    assert forall id :: id in choices <==> id in Elements(ids);
    assert counted == pending * choices;
  }

  lemma {:induction false} PendingMember(opts: seq<Opt>, id: Id)
    requires Distinct(opts)
    ensures id in PendingIds(opts) <==> Find(opts, id).Some? && Find(opts, id).value.status.Pending?
  {
    if id in PendingIds(opts) {
      var o :| o in opts && o.status.Pending? && o.id == id;
      FindMember(opts, o);
    }
  }

  /******* The seen set *******/

  ghost predicate RowsName(opts: seq<Opt>, row: Row) {
    row.choices <= Ids(opts) && row.seen <= Ids(opts)
  }

  // When every stored seen row names an option of the survey, skipping the
  // write on an unchanged length stores what writing the whole union would.
  lemma {:induction false} SkippedWriteStoresTheUnion(opts: seq<Opt>, prev: Maybe<Row>, allow: Id)
    requires PriorSeen(prev) <= Ids(opts)
    ensures StoredSeen(opts, prev, allow) == PriorSeen(prev) + OnBallot(opts, PriorChoices(prev), allow)
  {
    var walked := WalkedSeen(opts, prev, allow);
    assert walked == OnBallot(opts, PriorChoices(prev), allow) + PriorSeen(prev);
    SubsetSize(PriorSeen(prev), walked);
  }

  // Without that, it stores less exactly when the options newly on the ballot
  // are as many as the stored rows naming no option of the survey.
  lemma {:induction false} SkippedWriteLosesExactlyWhen(opts: seq<Opt>, prev: Row, allow: Id)
    ensures var unseen := OnBallot(opts, prev.choices, allow) - prev.seen;
      StoredSeen(opts, Some(prev), allow) == prev.seen + OnBallot(opts, prev.choices, allow)
      <==> !(|unseen| == |prev.seen - Ids(opts)| && |unseen| > 0)
  {
    var ballot := OnBallot(opts, prev.choices, allow);
    var unseen := ballot - prev.seen;
    SeenParts(opts, Some(prev), allow);
    assert prev.seen + WalkedSeen(opts, Some(prev), allow) == prev.seen + ballot;
    if unseen != {} {
      var x :| x in unseen;
      assert x in prev.seen + ballot && x !in prev.seen;
    }
  }

  lemma {:induction false} SeenParts(opts: seq<Opt>, prev: Maybe<Row>, allow: Id)
    ensures var unseen := OnBallot(opts, PriorChoices(prev), allow) - PriorSeen(prev);
      var kept := PriorSeen(prev) * Ids(opts);
      WalkedSeen(opts, prev, allow) == unseen + kept && |WalkedSeen(opts, prev, allow)| == |unseen| + |kept|
      && |PriorSeen(prev)| == |kept| + |PriorSeen(prev) - Ids(opts)|
  {
    var unseen := OnBallot(opts, PriorChoices(prev), allow) - PriorSeen(prev);
    var kept, dangling := PriorSeen(prev) * Ids(opts), PriorSeen(prev) - Ids(opts);
    assert WalkedSeen(opts, prev, allow) == unseen + kept && PriorSeen(prev) == kept + dangling;
    assert |unseen + kept| == |unseen| + |kept| && |kept + dangling| == |kept| + |dangling|;
  }

  lemma {:induction false} SeenOnlyGrows(sv: Survey, rows: map<Voter, Row>, voter: Voter, submitted: set<Id>,
      comment: string, allow: Id, preview: bool, now: Time)
    requires SaveResponse(sv, rows, voter, submitted, comment, allow, preview, now).Ok?
    ensures var after := SaveResponse(sv, rows, voter, submitted, comment, allow, preview, now).value;
      forall v | v in rows :: v in after && rows[v].seen <= after[v].seen
  {}

  ghost predicate SoundRows(opts: seq<Opt>, rows: map<Voter, Row>) {
    ChosenWasShown(rows) && forall v | v in rows :: RowsName(opts, rows[v])
  }

  // One answer keeps: rows name options, and what was chosen was shown.
  lemma {:induction false} SavedRowChosenWasShown(sv: Survey, prev: Maybe<Row>, submitted: set<Id>, comment: string,
      allow: Id, now: Time)
    requires prev.Some? ==> RowsName(sv.options, prev.value) && prev.value.choices <= prev.value.seen
    ensures var row := SavedRow(sv, prev, submitted, comment, allow, now);
      RowsName(sv.options, row) && row.choices <= row.seen
  {
    SkippedWriteStoresTheUnion(sv.options, prev, allow);
  }

  // Whatever seen rows are stored, one answer leaves everything chosen recorded
  // as shown except in one case: as many options are newly on the ballot as
  // there are seen rows naming no option of the survey, and one of those new
  // options is chosen.
  lemma {:induction false} SavedRowShownExactlyWhen(sv: Survey, prev: Maybe<Row>, submitted: set<Id>, comment: string,
      allow: Id, now: Time)
    requires Distinct(sv.options) && PriorChoices(prev) <= PriorSeen(prev)
    ensures var row := SavedRow(sv, prev, submitted, comment, allow, now);
      var unseen := OnBallot(sv.options, PriorChoices(prev), allow) - PriorSeen(prev);
      row.choices <= row.seen <==> !(|unseen| == |PriorSeen(prev) - Ids(sv.options)| && submitted * unseen != {})
  {
    var row := SavedRow(sv, prev, submitted, comment, allow, now);
    var prior, ballot := PriorChoices(prev), OnBallot(sv.options, PriorChoices(prev), allow);
    var unseen := ballot - PriorSeen(prev);
    if prev.Some? {
      SkippedWriteLosesExactlyWhen(sv.options, prev.value, allow);
    }
    forall id | id in row.choices && id !in PriorSeen(prev) ensures id in submitted * unseen {
      var o :| o in sv.options && o.id == id && if Visible(o, prior, allow) then o.id in submitted else o.id in prior;
    }
    forall id | id in submitted * unseen ensures id in row.choices {
      var o :| o in sv.options && Visible(o, prior, allow) && o.id == id;
      NewChoicesMember(sv.options, prior, submitted, allow, o);
    }
    if |unseen| == |PriorSeen(prev) - Ids(sv.options)| && submitted * unseen != {} {
      SkippedStoresPrior(sv.options, prev, allow);
      var id :| id in submitted * unseen;
      assert id in row.choices && id !in row.seen;
    }
  }

  // When the write is skipped with options newly on the ballot, nothing is stored.
  lemma {:induction false} SkippedStoresPrior(opts: seq<Opt>, prev: Maybe<Row>, allow: Id)
    requires var unseen := OnBallot(opts, PriorChoices(prev), allow) - PriorSeen(prev);
      |unseen| == |PriorSeen(prev) - Ids(opts)| && unseen != {}
    ensures StoredSeen(opts, prev, allow) == PriorSeen(prev)
  {
    SeenParts(opts, prev, allow);
  }

  // What one answer stores. Approved options and the respondent's own pending
  // ones are chosen as submitted; any other keeps the choice it had; all of the
  // former become seen.
  lemma {:induction false} AnswerMeans(sv: Survey, prev: Maybe<Row>, submitted: set<Id>, comment: string, now: Time, o: Opt)
    requires Distinct(sv.options) && "" !in Ids(sv.options) && o in sv.options && PriorSeen(prev) <= Ids(sv.options)
    ensures var row, prior := SavedRow(sv, prev, submitted, comment, "", now), PriorChoices(prev);
      var listed := o.status.Approved? || (o.status.Pending? && o.id in prior);
      (o.id in row.choices <==> if listed then o.id in submitted else o.id in prior)
      && (o.id in row.seen <==> listed || o.id in PriorSeen(prev))
      && row.choices <= Ids(sv.options) && row.seen <= Ids(sv.options)
      && row.comment == (if sv.allowComment then comment else "")
      && row.created == (if prev.Some? then prev.value.created else now) && row.updated == now
  {
    NewChoicesMember(sv.options, PriorChoices(prev), submitted, "", o);
    SkippedWriteStoresTheUnion(sv.options, prev, "");
    OnBallotMember(sv.options, PriorChoices(prev), "", o);
  }

  lemma {:induction false} OnBallotMember(opts: seq<Opt>, prior: set<Id>, allow: Id, o: Opt)
    requires Distinct(opts) && o in opts
    ensures o.id in OnBallot(opts, prior, allow) <==> Visible(o, prior, allow)
  {
    if o.id in OnBallot(opts, prior, allow) {
      var p :| p in opts && Visible(p, prior, allow) && p.id == o.id;
      FindMember(opts, o);
      FindMember(opts, p);
    }
  }

  lemma {:induction false} RepeatedChoices(opts: seq<Opt>, prior: set<Id>, submitted: set<Id>, allow: Id)
    requires Distinct(opts)
    ensures var once := NewChoices(opts, prior, submitted, allow);
      NewChoices(opts, once, submitted, allow) == once && OnBallot(opts, once, allow) <= OnBallot(opts, prior, allow)
  {
    var once := NewChoices(opts, prior, submitted, allow);
    forall o | o in opts
      ensures o.id in once <==> if Visible(o, prior, allow) then o.id in submitted else o.id in prior
    {
      NewChoicesMember(opts, prior, submitted, allow, o);
    }
  }

  // Submitting the same answer again changes nothing but the time.
  lemma {:induction false} RepeatingChangesNothing(sv: Survey, prev: Maybe<Row>, submitted: set<Id>, comment: string,
      allow: Id, now: Time, later: Time)
    requires Distinct(sv.options) && PriorSeen(prev) <= Ids(sv.options)
    ensures var once := SavedRow(sv, prev, submitted, comment, allow, now);
      SavedRow(sv, Some(once), submitted, comment, allow, later) == once.(updated := later)
  {
    var once := SavedRow(sv, prev, submitted, comment, allow, now);
    RepeatedChoices(sv.options, PriorChoices(prev), submitted, allow);
    SkippedWriteStoresTheUnion(sv.options, prev, allow);
    assert once.seen <= Ids(sv.options);
    SkippedWriteStoresTheUnion(sv.options, Some(once), allow);
    assert StoredSeen(sv.options, Some(once), allow) == once.seen;
  }

  lemma {:induction false} NewChoicesMember(opts: seq<Opt>, prior: set<Id>, submitted: set<Id>, allow: Id, o: Opt)
    requires Distinct(opts) && o in opts
    ensures o.id in NewChoices(opts, prior, submitted, allow)
        <==> if Visible(o, prior, allow) then o.id in submitted else o.id in prior
  {
    FindMember(opts, o);
    if o.id in NewChoices(opts, prior, submitted, allow) {
      var p :| p in opts && p.id == o.id && (if Visible(p, prior, allow) then p.id in submitted else p.id in prior);
      FindMember(opts, p);
    }
  }

  /******* Proposing an option *******/

  lemma {:induction false} PendingAppendResolves(opts: seq<Opt>, o: Opt, id: Id, target: Id)
    requires Distinct(opts) && o.id !in Ids(opts) && o.status.Pending?
    ensures Resolve(opts + [o], id) == (target, true) <==> Resolve(opts, id) == (target, true)
  {
    forall x ensures Find(opts + [o], x) == if x == o.id then Some(o) else Find(opts, x) {
      FindAfterAppend(opts, o, x);
    }
    assert SamePointers(opts, opts + [o]) && SamePointers(opts + [o], opts);
    if Ends(opts, id) {
      var path :| EndingChain(opts, path) && path[0] == id;
      assert EndingChain(opts + [o], path);
      ResolveFindsTheEnd(opts, path);
      ResolveFindsTheEnd(opts + [o], path);
    } else {
      if Ends(opts + [o], id) {
        SamePointersSameEnds(opts + [o], opts, id);
      }
      ResolveOnACycle(opts, id);
      ResolveOnACycle(opts + [o], id);
    }
  }

  function NewOption(newId: Id, text: string, now: Time): Opt {
    Opt(newId, Trim(text), Pending, WriteIn, "", now)
  }

  lemma {:induction false} ProposedShape(sv: Survey, prior: set<Id>, text: string, newId: Id, preview: bool, now: Time)
    requires Proposed(sv, prior, text, newId, preview, now).Ok?
    ensures var after := Proposed(sv, prior, text, newId, preview, now).value;
      after.options == sv.options + [NewOption(newId, text, now)] && |after.options| <= MAX_OPTIONS
      && after.state == sv.state && after.closeAt == sv.closeAt
      && (sv.firstOpenedAt != ZERO_TIME ==> after.firstOpenedAt == sv.firstOpenedAt)
      && (sv.firstOpenedAt == ZERO_TIME ==> after.firstOpenedAt == if sv.state.Open? then now else ZERO_TIME)
      && |PendingIds(sv.options) * prior| < MAX_WRITE_INS_PER_VOTER && |PendingIds(sv.options)| < MAX_PENDING_PER_SURVEY
  {}

  lemma {:induction false} ProposalFits(sv: Survey, prior: set<Id>, text: string, newId: Id, preview: bool, now: Time)
    ensures Proposed(sv, prior, text, newId, preview, now).Ok? <==>
      sv.allowWriteIn && AcceptingFrom(sv, now, preview) && |PendingIds(sv.options) * prior| < 5
      && |PendingIds(sv.options)| < 50 && Trim(text) != "" && ByteLen(Trim(text)) <= 200 && |sv.options| < 500
  {}

  lemma {:induction false} SuggestionFits(sv: Survey, rows: map<Voter, Row>, voter: Voter, text: string, newId: Id,
      preview: bool, now: Time)
    ensures ProposeOption(sv, rows, voter, text, newId, preview, now).Ok? <==>
      sv.allowWriteIn && AcceptingFrom(sv, now, preview)
      && |PendingIds(sv.options) * PriorChoices(RowOf(rows, voter))| < 5
      && |PendingIds(sv.options)| < 50 && Trim(text) != "" && ByteLen(Trim(text)) <= 200 && |sv.options| < 500
  {
    var prior := PriorChoices(RowOf(rows, voter));
    ProposalFits(sv, prior, text, newId, preview, now);
    if Proposed(sv, prior, text, newId, preview, now).Ok? {
      ProposedShape(sv, prior, text, newId, preview, now);
    }
  }

  // A successful suggestion stores the option and one row, whose choices are
  // exactly the previous ones and the new option.
  lemma {:induction false} SuggestionStores(sv: Survey, rows: map<Voter, Row>, voter: Voter, text: string, newId: Id,
      preview: bool, now: Time) returns (comment: string)
    requires Distinct(sv.options) && newId !in Ids(sv.options) && PriorChoices(RowOf(rows, voter)) <= Ids(sv.options)
    requires ProposeOption(sv, rows, voter, text, newId, preview, now).Ok?
    ensures var prior := PriorChoices(RowOf(rows, voter));
      var saved := Proposed(sv, prior, text, newId, preview, now);
      saved.Ok? && saved.value.options == sv.options + [NewOption(newId, text, now)]
      && ProposeOption(sv, rows, voter, text, newId, preview, now).value
         == (saved.value,
             rows[voter := SavedRow(saved.value, RowOf(rows, voter), prior + {newId}, comment, newId, now)])
      && SavedRow(saved.value, RowOf(rows, voter), prior + {newId}, comment, newId, now).choices == prior + {newId}
    ensures comment == if RowOf(rows, voter).Some? then RowOf(rows, voter).value.comment else ""
  {
    var prev := RowOf(rows, voter);
    var prior := PriorChoices(prev);
    ProposedShape(sv, prior, text, newId, preview, now);
    comment := if prev.Some? then prev.value.comment else "";
    SuggestedChoices(sv.options, NewOption(newId, text, now), prior);
  }

  // A suggestion shows its author the approved options, their own pending ones
  // and the new one, besides what they had seen; the comment they had stays, if
  // comments are allowed.
  lemma {:induction false} SuggestionShows(sv: Survey, rows: map<Voter, Row>, voter: Voter, text: string, newId: Id,
      preview: bool, now: Time)
    requires Distinct(sv.options) && newId !in Ids(sv.options)
    requires PriorChoices(RowOf(rows, voter)) <= Ids(sv.options) && PriorSeen(RowOf(rows, voter)) <= Ids(sv.options)
    requires ProposeOption(sv, rows, voter, text, newId, preview, now).Ok?
    ensures var after, prior := ProposeOption(sv, rows, voter, text, newId, preview, now).value, RowOf(rows, voter);
      voter in after.1
      && after.1[voter].seen == PriorSeen(prior) + {newId}
        + (set o | o in sv.options && o.status.Approved? :: o.id)
        + (set o | o in sv.options && o.status.Pending? && o.id in PriorChoices(prior) :: o.id)
      && after.1[voter].comment == (if sv.allowComment && prior.Some? then prior.value.comment else "")
  {
    var prev := RowOf(rows, voter);
    var comment := SuggestionStores(sv, rows, voter, text, newId, preview, now);
    SuggestedSeen(sv.options, NewOption(newId, text, now), prev);
    ProposalKeepsComments(sv, PriorChoices(prev), text, newId, preview, now);
  }

  lemma {:induction false} ProposalKeepsComments(sv: Survey, prior: set<Id>, text: string, newId: Id, preview: bool,
      now: Time)
    ensures var r := Proposed(sv, prior, text, newId, preview, now); r.Ok? ==> r.value.allowComment == sv.allowComment
  {}

  lemma {:induction false} SuggestedSeen(opts: seq<Opt>, o: Opt, prev: Maybe<Row>)
    requires Distinct(opts) && o.id !in Ids(opts) && o.status.Pending? && PriorSeen(prev) <= Ids(opts)
    ensures StoredSeen(opts + [o], prev, o.id) == PriorSeen(prev) + {o.id}
      + (set p | p in opts && p.status.Approved? :: p.id)
      + (set p | p in opts && p.status.Pending? && p.id in PriorChoices(prev) :: p.id)
  {
    FindAfterAppend(opts, o, o.id);
    SkippedWriteStoresTheUnion(opts + [o], prev, o.id);
    BallotWithNew(opts, o, PriorChoices(prev));
  }

  lemma {:induction false} BallotWithNew(opts: seq<Opt>, o: Opt, prior: set<Id>)
    requires o.status.Pending? && o.id !in Ids(opts)
    ensures OnBallot(opts + [o], prior, o.id) == {o.id}
      + (set p | p in opts && p.status.Approved? :: p.id) + (set p | p in opts && p.status.Pending? && p.id in prior :: p.id)
  {
    var all := opts + [o];
    assert o in all && forall p | p in opts :: p in all && p.id != o.id;
    forall id | id in OnBallot(all, prior, o.id)
      ensures id == o.id || exists p :: p in opts && p.id == id && Visible(p, prior, o.id)
    {
      var p :| p in all && Visible(p, prior, o.id) && p.id == id;
    }
  }

  // It touches nobody else and changes no option's votes.
  lemma {:induction false} SuggestionMovesNoVotes(sv: Survey, rows: map<Voter, Row>, voter: Voter, text: string,
      newId: Id, preview: bool, now: Time, t: Id)
    requires Distinct(sv.options) && newId !in Ids(sv.options) && PriorChoices(RowOf(rows, voter)) <= Ids(sv.options)
    ensures var r := ProposeOption(sv, rows, voter, text, newId, preview, now);
      r.Ok? ==>
        var after := r.value;
        after.1.Keys == rows.Keys + {voter} && (forall v | v in rows && v != voter :: after.1[v] == rows[v])
        && after.1[voter].choices == PriorChoices(RowOf(rows, voter)) + {newId}
        && Holders(after.0.options, after.1, t) == Holders(sv.options, rows, t)
  {
    var r := ProposeOption(sv, rows, voter, text, newId, preview, now);
    if r.Ok? {
      SuggestionShape(sv, rows, voter, text, newId, preview, now);
      var o := NewOption(newId, text, now);
      forall id ensures Resolve(sv.options + [o], id) == (t, true) <==> Resolve(sv.options, id) == (t, true) {
        PendingAppendResolves(sv.options, o, id, t);
      }
      SameHolders(sv.options, sv.options + [o], rows, r.value.1, voter, newId, t);
    }
  }

  lemma {:induction false} SuggestionShape(sv: Survey, rows: map<Voter, Row>, voter: Voter, text: string, newId: Id,
      preview: bool, now: Time)
    requires Distinct(sv.options) && newId !in Ids(sv.options) && PriorChoices(RowOf(rows, voter)) <= Ids(sv.options)
    requires ProposeOption(sv, rows, voter, text, newId, preview, now).Ok?
    ensures var after := ProposeOption(sv, rows, voter, text, newId, preview, now).value;
      after.0.options == sv.options + [NewOption(newId, text, now)]
      && after.1.Keys == rows.Keys + {voter} && (forall v | v in rows && v != voter :: after.1[v] == rows[v])
      && after.1[voter].choices == PriorChoices(RowOf(rows, voter)) + {newId}
  {
    var prior := PriorChoices(RowOf(rows, voter));
    ProposedShape(sv, prior, text, newId, preview, now);
    SuggestedChoices(sv.options, NewOption(newId, text, now), prior);
  }

  lemma {:induction false} SameHolders(opts: seq<Opt>, grown: seq<Opt>, rows: map<Voter, Row>, after: map<Voter, Row>,
      voter: Voter, newId: Id, t: Id)
    requires newId !in Ids(opts)
    requires forall id :: Resolve(grown, id) == (t, true) <==> Resolve(opts, id) == (t, true)
    requires after.Keys == rows.Keys + {voter} && forall v | v in rows && v != voter :: after[v] == rows[v]
    requires after[voter].choices == PriorChoices(RowOf(rows, voter)) + {newId}
    ensures Holders(grown, after, t) == Holders(opts, rows, t)
  {
    forall v ensures v in Holders(grown, after, t) <==> v in Holders(opts, rows, t) {
      if v in after {
        SuggestionCounts(opts, grown, newId, after[v].choices, PriorChoices(RowOf(rows, v)), t);
      }
    }
  }

  lemma {:induction false} SuggestedChoices(opts: seq<Opt>, o: Opt, prior: set<Id>)
    requires Distinct(opts) && o.id !in Ids(opts) && o.status.Pending? && prior <= Ids(opts)
    ensures NewChoices(opts + [o], prior, prior + {o.id}, o.id) == prior + {o.id}
  {
    FindAfterAppend(opts, o, o.id);
    var after := opts + [o];
    forall id | id in prior + {o.id} ensures id in NewChoices(after, prior, prior + {o.id}, o.id) {
      var p :| p in after && p.id == id;
      if id == o.id {
        assert after[|opts|] == o;
        FindMember(after, o);
        FindMember(after, p);
      }
      NewChoicesMember(after, prior, prior + {o.id}, o.id, p);
    }
  }

  lemma {:induction false} SuggestionCounts(opts: seq<Opt>, after: seq<Opt>, newId: Id, choices: set<Id>,
      prior: set<Id>, t: Id)
    requires newId !in Ids(opts) && (choices == prior || choices == prior + {newId})
    requires forall id :: Resolve(after, id) == (t, true) <==> Resolve(opts, id) == (t, true)
    ensures Counts(after, choices, t) <==> Counts(opts, prior, t)
  {
    assert !Forwards(opts, newId) && !IsApproved(opts, newId);
    if Counts(opts, prior, t) {
      var id :| id in prior && Resolve(opts, id) == (t, true);
      assert Resolve(after, id) == (t, true);
    }
    if Counts(after, choices, t) {
      var id :| id in choices && Resolve(after, id) == (t, true);
      assert Resolve(opts, id) == (t, true);
    }
  }
}
