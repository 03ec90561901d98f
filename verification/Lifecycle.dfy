// A survey from creation on: every transaction that answers, moderates, edits,
// publishes or clears it, and what every run of them keeps.
module Lifecycle {
  import opened Model
  import opened MergeGraph
  import opened Editing
  import opened Tally
  import opened Submission

  // accepted records history only: whose stored answer was ever taken while the
  // survey was open to the public.
  datatype World = World(survey: Survey, rows: map<Voter, Row>, accepted: set<Voter>)

  datatype Action =
    | Submit(voter: Voter, choices: set<Id>, comment: string, preview: bool)
    | Suggest(proposer: Voter, text: string, newId: Id, previewing: bool)
    | ModerateOption(option: Id, moderation: ModerationAction, wording: string)
    | Edit(form: EditForm, newIds: seq<Id>)
    | SetState(state: State) // any route to a state that is not Publish
    | Publish
    | Clear

  datatype Event = Event(action: Action, now: Time)

  function Taken(w: World, voter: Voter, now: Time): set<Voter> {
    w.accepted + if Accepting(w.survey, now) then {voter} else {}
  }

  // UpdateSurvey, once the edit has been applied.
  function UpdateSurvey(w: World, sv: Survey, now: Time): Result<World> {
    var saved := SaveSurvey(sv.(updated := now), |w.survey.options|, now);
    if saved.Err? then Err(saved.error) else Ok(w.(survey := saved.value))
  }

  function PublishWorld(w: World, now: Time): Result<World> {
    var first := w.survey.firstOpenedAt == ZERO_TIME;
    var sv := w.survey.(
      firstOpenedAt := if first then now else w.survey.firstOpenedAt,
      state := Open,
      closeAt := if w.survey.closeAt != ZERO_TIME && now >= w.survey.closeAt then ZERO_TIME else w.survey.closeAt);
    var saved := UpdateSurvey(w, sv, now);
    if saved.Err? then saved
    else if first then Ok(saved.value.(rows := map[], accepted := {}))
    else saved
  }

  function Step(w: World, a: Action, now: Time): Result<World>
    requires a.Edit? ==> |a.form.newOptions| == |a.newIds|
  {
    match a
    case Submit(voter, choices, comment, preview) =>
      var r := SaveResponse(w.survey, w.rows, voter, choices, comment, "", preview, now);
      if r.Err? then Err(r.error) else Ok(World(w.survey, r.value, Taken(w, voter, now)))
    case Suggest(voter, text, newId, preview) =>
      var r := ProposeOption(w.survey, w.rows, voter, text, newId, preview, now);
      if r.Err? then Err(r.error) else Ok(World(r.value.0, r.value.1, Taken(w, voter, now)))
    case ModerateOption(id, action, text) =>
      var r := Moderate(w.survey.options, id, action, text);
      if r.Err? then Err(r.error) else UpdateSurvey(w, w.survey.(options := r.value), now)
    case Edit(form, newIds) =>
      var r := ApplyForm(w.survey, form, newIds, now);
      if r.Err? then Err(r.error) else UpdateSurvey(w, r.value, now)
    case SetState(state) => UpdateSurvey(w, w.survey.(state := state), now)
    case Publish => PublishWorld(w, now)
    case Clear => Ok(w.(rows := map[], accepted := {}))
  }

  // What the random source and the clock are trusted for.
  ghost predicate Possible(w: World, e: Event) {
    e.now != ZERO_TIME
    && (e.action.Suggest? ==> Fresh([e.action.newId], w.survey.options))
    && (e.action.Edit? ==> |e.action.form.newOptions| == |e.action.newIds| && Fresh(e.action.newIds, w.survey.options))
  }

  // A refused transaction rolls back.
  ghost function After(w: World, e: Event): World
    requires Possible(w, e)
  {
    var r := Step(w, e.action, e.now);
    if r.Ok? then r.value else w
  }

  ghost predicate Legal(w: World, events: seq<Event>)
    decreases |events|
  {
    events == [] || (Possible(w, events[0]) && Legal(After(w, events[0]), events[1..]))
  }

  ghost function Run(w: World, events: seq<Event>): World
    requires Legal(w, events)
    decreases |events|
  {
    if events == [] then w else Run(After(w, events[0]), events[1..])
  }

  // A new survey, as every run below starts: an unopened draft nobody answered.
  ghost predicate Created(w: World) {
    w.survey.state.Draft? && w.survey.firstOpenedAt == ZERO_TIME && w.rows == map[] && w.accepted == {}
    && Distinct(w.survey.options) && "" !in Ids(w.survey.options) && |w.survey.options| <= MAX_OPTIONS
    && forall o | o in w.survey.options :: o.status.Approved? && o.mergedInto == ""
  }

  // newIds[i] is the identifier minted for texts[i], if one is.
  function Listed(texts: seq<string>, newIds: seq<Id>, now: Time): seq<Opt>
    requires |texts| == |newIds|
  {
    if texts == [] then []
    else
      var n := |texts| - 1;
      Listed(texts[..n], newIds[..n], now)
      + if Trim(texts[n]) == "" then [] else [Opt(newIds[n], Trim(texts[n]), Approved, Editor, "", now)]
  }

  // CreateSurvey
  function CreateSurvey(title: string, description: string, texts: seq<string>, id: Id, newIds: seq<Id>, now: Time)
    : Result<World>
    requires |texts| == |newIds|
  {
    if Trim(title) == "" then Err(NeedsTitle)
    else
      var sv := Survey(id, TYPE_THUMBS_UP, Trim(title), Trim(description), Listed(texts, newIds, now), Draft,
                       false, true, true, false, ZERO_TIME, ZERO_TIME, now, now);
      var saved := SaveSurvey(sv, 0, now);
      if saved.Err? then Err(saved.error) else Ok(World(saved.value, map[], {}))
  }

  // The loop of CreateSurvey.
  method ListOptions(texts: seq<string>, newIds: seq<Id>, now: Time) returns (opts: seq<Opt>)
    requires |texts| == |newIds|
    ensures opts == Listed(texts, newIds, now)
  {
    opts := [];
    for i := 0 to |texts|
      invariant opts == Listed(texts[..i], newIds[..i], now)
    {
      assert texts[..i + 1][..i] == texts[..i] && newIds[..i + 1][..i] == newIds[..i];
      var t := Trim(texts[i]);
      if t != "" {
        opts := opts + [Opt(newIds[i], t, Approved, Editor, "", now)];
      }
    }
    assert texts[..|texts|] == texts && newIds[..|newIds|] == newIds;
  }

  lemma {:induction false} ListedIds(texts: seq<string>, newIds: seq<Id>, now: Time)
    requires |texts| == |newIds| && Fresh(newIds, [])
    ensures Distinct(Listed(texts, newIds, now))
    ensures forall o | o in Listed(texts, newIds, now) :: o.id in newIds
  {
    if texts != [] {
      var n := |texts| - 1;
      ListedIds(texts[..n], newIds[..n], now);
      assert forall id | id in newIds[..n] :: id in newIds && id != newIds[n];
    }
  }

  lemma {:induction false} ListedShape(texts: seq<string>, newIds: seq<Id>, now: Time)
    requires |texts| == |newIds|
    ensures forall o | o in Listed(texts, newIds, now) ::
      o.status.Approved? && o.mergedInto == "" && o.created == now && o.text != ""
    ensures forall o | o in Listed(texts, newIds, now) :: exists t :: t in texts && o.text == Trim(t)
  {
    if texts != [] {
      var n := |texts| - 1;
      ListedShape(texts[..n], newIds[..n], now);
      assert forall t | t in texts[..n] :: t in texts;
      assert texts[n] in texts;
    }
  }

  lemma {:induction false} ListedTexts(texts: seq<string>, newIds: seq<Id>, now: Time)
    requires |texts| == |newIds|
    ensures |Listed(texts, newIds, now)| == |NonBlank(texts)|
    ensures forall i | 0 <= i < |NonBlank(texts)| :: Listed(texts, newIds, now)[i].text == NonBlank(texts)[i]
  {
    if texts != [] {
      var n := |texts| - 1;
      ListedTexts(texts[..n], newIds[..n], now);
      NonBlankLast(texts);
    }
  }

  lemma {:induction false} NonBlankLast(texts: seq<string>)
    requires texts != []
    ensures var n := |texts| - 1;
      NonBlank(texts) == NonBlank(texts[..n]) + if Trim(texts[n]) == "" then [] else [Trim(texts[n])]
  {
    var n := |texts| - 1;
    if n > 0 {
      NonBlankLast(texts[1..]);
      assert texts[1..][..n - 1] == texts[..n][1..];
    }
  }

  // A survey is created exactly when it has a title and its options fit, with
  // the title and description trimmed and the texts that are not blank, trimmed
  // and in order, as its options.
  lemma {:induction false} CreateSurveyMeans(title: string, description: string, texts: seq<string>, id: Id,
      newIds: seq<Id>, now: Time)
    requires |texts| == |newIds|
    ensures var r, asked := CreateSurvey(title, description, texts, id, newIds, now), NonBlank(texts);
      (r.Ok? <==> Trim(title) != "" && |asked| <= 500)
      && (r.Ok? ==>
        var sv := r.value.survey;
        sv.id == id && sv.title == Trim(title) && sv.description == Trim(description)
        && !sv.showResults && sv.allowWriteIn && sv.allowComment && !sv.noRandomize
        && sv.closeAt == 0 && sv.created == sv.updated == now
        && |sv.options| == |asked| && forall i | 0 <= i < |asked| :: sv.options[i].text == asked[i])
  {
    ListedTexts(texts, newIds, now);
  }

  lemma {:induction false} CreateSurveyCreates(title: string, description: string, texts: seq<string>, id: Id,
      newIds: seq<Id>, now: Time)
    requires |texts| == |newIds| && Fresh(newIds, [])
    ensures var r := CreateSurvey(title, description, texts, id, newIds, now); r.Ok? ==> Created(r.value)
  {
    ListedIds(texts, newIds, now);
    ListedShape(texts, newIds, now);
    assert "" !in newIds;
  }

  /******* What an edit does to the option list *******/

  ghost predicate Evolves(a: seq<Opt>, b: seq<Opt>) {
    Distinct(b) && Ids(a) <= Ids(b) && PendingIds(b) <= PendingIds(a)
    && ("" !in Ids(a) ==> "" !in Ids(b)) && (WellFormed(a) ==> WellFormed(b))
    && (|a| <= MAX_OPTIONS ==> |b| <= MAX_OPTIONS)
  }

  // Editing options one for one: nothing becomes pending that was not.
  lemma {:induction false} PendingShrinks(a: seq<Opt>, b: seq<Opt>)
    requires |a| == |b| && forall i | 0 <= i < |a| :: b[i].id == a[i].id && (b[i].status.Pending? ==> a[i].status.Pending?)
    ensures PendingIds(b) <= PendingIds(a)
  {
    forall x | x in PendingIds(b) ensures x in PendingIds(a) {
      var i :| 0 <= i < |b| && b[i].id == x && b[i].status.Pending?;
      assert a[i] in a;
    }
  }

  lemma {:induction false} OneEditEvolves(opts: seq<Opt>, k: nat, o: Opt)
    requires Distinct(opts) && k < |opts| && o.id == opts[k].id && (o.status.Pending? ==> opts[k].status.Pending?)
    requires WellFormed(opts) ==> WellFormed(opts[k := o])
    ensures Evolves(opts, opts[k := o])
  {
    FindAfterUpdate(opts, k, o, o.id);
    PendingShrinks(opts, opts[k := o]);
  }

  lemma {:induction false} SetStatusEvolves(opts: seq<Opt>, id: Id, status: Status, mergeInto: Id)
    requires Distinct(opts) && !status.Pending? && SetStatus(opts, id, status, mergeInto).Ok?
    ensures Evolves(opts, SetStatus(opts, id, status, mergeInto).value)
  {
    var k, o := SetStatusShape(opts, id, status, mergeInto);
    if WellFormed(opts) {
      SetStatusKeepsGraph(opts, id, status, mergeInto);
    }
    OneEditEvolves(opts, k, o);
  }

  lemma {:induction false} SetTextEvolves(opts: seq<Opt>, id: Id, text: string)
    requires Distinct(opts) && SetText(opts, id, text).Ok?
    ensures Evolves(opts, SetText(opts, id, text).value)
  {
    SetTextKeepsGraph(opts, id, text);
    var k := IndexOf(opts, id);
    ReplaceAt(opts, k, opts[k].(text := Trim(text)));
    var r := SetText(opts, id, text).value;
    forall x | WellFormed(opts) && x in Ids(opts) ensures Ends(r, x) {
      SamePointersSameEnds(opts, r, x);
    }
    PendingShrinks(opts, r);
  }

  lemma {:induction false} ModerateEvolves(opts: seq<Opt>, id: Id, action: ModerationAction, text: string)
    requires Distinct(opts) && Moderate(opts, id, action, text).Ok?
    ensures Evolves(opts, Moderate(opts, id, action, text).value)
  {
    var worded := opts;
    if Trim(text) != "" && !action.MergeInto? {
      worded := SetText(opts, id, text).value;
      SetTextEvolves(opts, id, text);
    }
    match action {
      case Approve => SetStatusEvolves(worded, id, Approved, "");
      case Restore => SetStatusEvolves(worded, id, Approved, "");
      case Reject => SetStatusEvolves(worded, id, Rejected, "");
      case Remove => SetStatusEvolves(worded, id, Removed, "");
      case MergeInto(target) => SetStatusEvolves(worded, id, Merged, target);
    }
  }

  lemma {:induction false} EditAllEvolves(form: EditForm, opts: seq<Opt>)
    requires Distinct(opts)
    ensures Evolves(opts, EditAll(form, opts))
  {
    var edited := EditAll(form, opts);
    FindEdited(form, opts, "");
    forall i | 0 <= i < |opts|
      ensures edited[i].id == opts[i].id && (edited[i].status.Pending? ==> opts[i].status.Pending?)
    {
      assert edited[i] == EditOne(form, opts[i]);
    }
    PendingShrinks(opts, edited);
    if WellFormed(opts) {
      EditAllKeepsGraph(form, opts);
    }
  }

  lemma {:induction false} AppendEvolves(opts: seq<Opt>, o: Opt)
    requires Distinct(opts) && o.id !in Ids(opts) && o.id != "" && o.status.Approved? && o.mergedInto == ""
    requires |opts| < MAX_OPTIONS
    ensures Evolves(opts, opts + [o])
  {
    FindAfterAppend(opts, o, o.id);
    if WellFormed(opts) {
      AppendKeepsGraph(opts, o);
    }
  }

  lemma {:induction false} AddAllEvolves(opts: seq<Opt>, texts: seq<string>, newIds: seq<Id>, now: Time)
    requires |texts| == |newIds| && Distinct(opts) && Fresh(newIds, opts)
    requires AddAll(opts, texts, newIds, now).Ok?
    ensures Evolves(opts, AddAll(opts, texts, newIds, now).value)
    decreases |texts|
  {
    if texts != [] {
      if Trim(texts[0]) == "" {
        AddAllEvolves(opts, texts[1..], newIds[1..], now);
      } else {
        var o := Opt(newIds[0], Trim(texts[0]), Approved, Editor, "", now);
        AppendEvolves(opts, o);
        FindAfterAppend(opts, o, o.id);
        AddAllEvolves(opts + [o], texts[1..], newIds[1..], now);
      }
    }
  }

  lemma {:induction false} FormEvolves(sv: Survey, form: EditForm, newIds: seq<Id>, now: Time)
    requires Distinct(sv.options) && |form.newOptions| == |newIds| && Fresh(newIds, sv.options)
    requires ApplyForm(sv, form, newIds, now).Ok?
    ensures Evolves(sv.options, ApplyForm(sv, form, newIds, now).value.options)
  {
    EditAllEvolves(form, sv.options);
    FindEdited(form, sv.options, "");
    AddAllEvolves(EditAll(form, sv.options), form.newOptions, newIds, now);
  }

  // The only transactions that delete answers.
  ghost predicate Deletes(w: World, a: Action) {
    a.Clear? || (a.Publish? && w.survey.firstOpenedAt == ZERO_TIME)
  }

  lemma {:induction false} UpdateShape(w: World, sv: Survey, now: Time)
    requires UpdateSurvey(w, sv, now).Ok?
    ensures var after := UpdateSurvey(w, sv, now).value;
      after.rows == w.rows && after.accepted == w.accepted
      && after.survey.options == sv.options && after.survey.state == sv.state
      && (sv.firstOpenedAt != ZERO_TIME ==> after.survey.firstOpenedAt == sv.firstOpenedAt)
      && (sv.firstOpenedAt == ZERO_TIME ==> after.survey.firstOpenedAt == if sv.state.Open? then now else ZERO_TIME)
  {}

  predicate Answers(a: Action) {
    a.Submit? || a.Suggest?
  }

  // A step that is not an answer evolves the option list and deletes either no
  // row or all of them.
  lemma {:induction false} OtherStepShape(w: World, e: Event)
    requires Distinct(w.survey.options) && Possible(w, e) && !Answers(e.action) && Step(w, e.action, e.now).Ok?
    ensures Evolves(w.survey.options, After(w, e).survey.options)
    ensures After(w, e).rows == w.rows || (Deletes(w, e.action) && After(w, e).rows == map[])
  {
    match e.action {
      case ModerateOption(id, action, text) =>
        var options := Moderate(w.survey.options, id, action, text).value;
        ModerateEvolves(w.survey.options, id, action, text);
        UpdateShape(w, w.survey.(options := options), e.now);
      case Edit(form, newIds) =>
        FormEvolves(w.survey, form, newIds, e.now);
        UpdateShape(w, ApplyForm(w.survey, form, newIds, e.now).value, e.now);
      case SetState(_) =>
      case Publish =>
      case Clear =>
    }
  }

  /******* What was chosen was shown *******/

  ghost predicate Sound(w: World) {
    Distinct(w.survey.options) && SoundRows(w.survey.options, w.rows)
  }

  lemma {:induction false} RowsStaySound(a: seq<Opt>, b: seq<Opt>, rows: map<Voter, Row>)
    requires SoundRows(a, rows) && Ids(a) <= Ids(b)
    ensures SoundRows(b, rows)
  {
    forall v | v in rows ensures RowsName(b, rows[v]) {
      assert RowsName(a, rows[v]);
    }
  }

  lemma {:induction false} AnswerKeepsSound(sv: Survey, rows: map<Voter, Row>, voter: Voter, submitted: set<Id>,
      comment: string, allow: Id, now: Time)
    requires Distinct(sv.options) && SoundRows(sv.options, rows)
    ensures SoundRows(sv.options, rows[voter := SavedRow(sv, RowOf(rows, voter), submitted, comment, allow, now)])
  {
    SavedRowChosenWasShown(sv, RowOf(rows, voter), submitted, comment, allow, now);
  }

  lemma {:induction false} SuggestKeepsSound(sv: Survey, rows: map<Voter, Row>, voter: Voter, text: string, newId: Id,
      preview: bool, now: Time)
    requires Distinct(sv.options) && SoundRows(sv.options, rows) && newId !in Ids(sv.options)
    requires ProposeOption(sv, rows, voter, text, newId, preview, now).Ok?
    ensures var after := ProposeOption(sv, rows, voter, text, newId, preview, now).value;
      Distinct(after.0.options) && SoundRows(after.0.options, after.1)
  {
    var prior := PriorChoices(RowOf(rows, voter));
    var comment := SuggestionStores(sv, rows, voter, text, newId, preview, now);
    var grown := Proposed(sv, prior, text, newId, preview, now).value;
    FindAfterAppend(sv.options, NewOption(newId, text, now), newId);
    RowsStaySound(sv.options, grown.options, rows);
    AnswerKeepsSound(grown, rows, voter, prior + {newId}, comment, newId, now);
  }

  lemma {:induction false} StepKeepsSound(w: World, e: Event)
    requires Sound(w) && Possible(w, e)
    ensures Sound(After(w, e))
  {
    if Step(w, e.action, e.now).Ok? {
      match e.action {
        case Submit(voter, choices, comment, preview) =>
          AnswerKeepsSound(w.survey, w.rows, voter, choices, comment, "", e.now);
        case Suggest(voter, text, newId, preview) =>
          assert [newId][0] == newId;
          SuggestKeepsSound(w.survey, w.rows, voter, text, newId, preview, e.now);
        case _ =>
          OtherStepShape(w, e);
          RowsStaySound(w.survey.options, After(w, e).survey.options, w.rows);
      }
    }
  }

  // Over every run from a sound state, on any merge graph: Votes <= Shown <=
  // respondents, for every option.
  lemma {:induction false} RunsKeepSound(w: World, events: seq<Event>)
    requires Sound(w) && Legal(w, events)
    ensures Sound(Run(w, events))
    decreases |events|
  {
    if events != [] {
      StepKeepsSound(w, events[0]);
      RunsKeepSound(After(w, events[0]), events[1..]);
    }
  }

  lemma {:induction false} RunsBoundVotes(w: World, events: seq<Event>, target: Id)
    requires Sound(w) && Legal(w, events)
    ensures var end := Run(w, events); var opts := end.survey.options;
      |Holders(opts, end.rows, target)| <= |Viewers(opts, end.rows, target)| <= |end.rows|
  {
    RunsKeepSound(w, events);
    var end := Run(w, events);
    VotesWithinShown(end.survey.options, end.rows, target);
  }

  /******* The merge graph and the moderation queue *******/

  ghost predicate Queue(opts: seq<Opt>, rows: map<Voter, Row>) {
    WellFormed(opts) && "" !in Ids(opts) && |opts| <= MAX_OPTIONS && |PendingIds(opts)| <= MAX_PENDING_PER_SURVEY
    && WithinCap(PendingIds(opts), rows) && OneHolder(PendingIds(opts), rows)
  }

  // No voter holds more than five suggestions awaiting review.
  ghost predicate WithinCap(pending: set<Id>, rows: map<Voter, Row>) {
    forall v | v in rows :: |pending * rows[v].choices| <= MAX_WRITE_INS_PER_VOTER
  }

  // A pending suggestion has at most one holder.
  ghost predicate OneHolder(pending: set<Id>, rows: map<Voter, Row>) {
    forall id, u, v | id in pending && u in rows && v in rows ::
      id in rows[u].choices && id in rows[v].choices ==> u == v
  }

  lemma {:induction false} SubmitKeepsOwnPending(opts: seq<Opt>, prior: set<Id>, submitted: set<Id>)
    requires Distinct(opts) && "" !in Ids(opts)
    ensures PendingIds(opts) * NewChoices(opts, prior, submitted, "") <= PendingIds(opts) * prior
  {
    forall id | id in PendingIds(opts) && id in NewChoices(opts, prior, submitted, "") ensures id in prior {
      var o :| o in opts && o.status.Pending? && o.id == id;
      NewChoicesMember(opts, prior, submitted, "", o);
    }
  }

  // Replacing a row by one holding no more pending options.
  lemma {:induction false} RowKeepsQueue(opts: seq<Opt>, rows: map<Voter, Row>, voter: Voter, row: Row)
    requires Queue(opts, rows)
    requires PendingIds(opts) * row.choices <= PendingIds(opts) * PriorChoices(RowOf(rows, voter))
    ensures Queue(opts, rows[voter := row])
  {
    RowKeepsLimits(PendingIds(opts), rows, voter, row);
  }

  lemma {:induction false} RowKeepsLimits(pending: set<Id>, rows: map<Voter, Row>, voter: Voter, row: Row)
    requires WithinCap(pending, rows) && OneHolder(pending, rows)
    requires pending * row.choices <= pending * PriorChoices(RowOf(rows, voter))
    ensures WithinCap(pending, rows[voter := row]) && OneHolder(pending, rows[voter := row])
  {
    SubsetSize(pending * row.choices, pending * PriorChoices(RowOf(rows, voter)));
    if voter !in rows {
      assert pending * row.choices == {};
    }
    RowKeepsOneHolder(pending, rows, voter, row);
  }

  lemma {:induction false} RowKeepsOneHolder(pending: set<Id>, rows: map<Voter, Row>, voter: Voter, row: Row)
    requires OneHolder(pending, rows) && pending * row.choices <= pending * PriorChoices(RowOf(rows, voter))
    ensures OneHolder(pending, rows[voter := row])
  {
    forall id | id in pending && id in row.choices ensures voter in rows && id in rows[voter].choices {
      assert id in pending * row.choices;
    }
  }

  lemma {:induction false} EvolvingKeepsQueue(a: seq<Opt>, b: seq<Opt>, rows: map<Voter, Row>)
    requires Queue(a, rows) && Evolves(a, b)
    ensures Queue(b, rows)
  {
    SubsetSize(PendingIds(b), PendingIds(a));
    forall v | v in rows ensures |PendingIds(b) * rows[v].choices| <= MAX_WRITE_INS_PER_VOTER {
      SubsetSize(PendingIds(b) * rows[v].choices, PendingIds(a) * rows[v].choices);
    }
  }

  lemma {:induction false} PendingAfterAppend(opts: seq<Opt>, o: Opt)
    requires o.status.Pending?
    ensures PendingIds(opts + [o]) == PendingIds(opts) + {o.id}
  {
    var after := opts + [o];
    assert after[|opts|] == o && o in after;
    forall x | x in PendingIds(opts) ensures x in PendingIds(after) {
      var i :| 0 <= i < |opts| && opts[i].status.Pending? && opts[i].id == x;
      assert after[i] in after;
    }
  }

  lemma {:induction false} SuggestKeepsQueue(sv: Survey, rows: map<Voter, Row>, voter: Voter, text: string, newId: Id,
      preview: bool, now: Time)
    requires SoundRows(sv.options, rows) && Queue(sv.options, rows) && newId !in Ids(sv.options) && newId != ""
    requires ProposeOption(sv, rows, voter, text, newId, preview, now).Ok?
    ensures var after := ProposeOption(sv, rows, voter, text, newId, preview, now).value;
      Queue(after.0.options, after.1)
  {
    var opts, o := sv.options, NewOption(newId, text, now);
    var prior := PriorChoices(RowOf(rows, voter));
    var after := ProposeOption(sv, rows, voter, text, newId, preview, now).value;
    var comment := SuggestionStores(sv, rows, voter, text, newId, preview, now);
    ProposedShape(sv, prior, text, newId, preview, now);
    AppendKeepsGraph(opts, o);
    FindAfterAppend(opts, o, newId);
    PendingAfterAppend(opts, o);
    forall v | v in rows ensures newId !in rows[v].choices {
      assert RowsName(opts, rows[v]);
    }
    SuggestedRowKeepsCap(PendingIds(opts), rows, voter, newId, after.1[voter]);
    SuggestedRowKeepsOneHolder(PendingIds(opts), rows, voter, newId, after.1[voter]);
  }

  lemma {:induction false} SuggestedRowKeepsCap(pending: set<Id>, rows: map<Voter, Row>, voter: Voter, newId: Id,
      row: Row)
    requires WithinCap(pending, rows) && forall v | v in rows :: newId !in rows[v].choices
    requires row.choices == PriorChoices(RowOf(rows, voter)) + {newId}
    requires |pending * PriorChoices(RowOf(rows, voter))| < MAX_WRITE_INS_PER_VOTER
    ensures WithinCap(pending + {newId}, rows[voter := row])
  {
    var prior := PriorChoices(RowOf(rows, voter));
    assert (pending + {newId}) * (prior + {newId}) == pending * prior + {newId};
    forall v | v in rows && v != voter
      ensures |(pending + {newId}) * rows[v].choices| <= MAX_WRITE_INS_PER_VOTER
    {
      assert (pending + {newId}) * rows[v].choices == pending * rows[v].choices;
    }
  }

  lemma {:induction false} SuggestedRowKeepsOneHolder(pending: set<Id>, rows: map<Voter, Row>, voter: Voter,
      newId: Id, row: Row)
    requires OneHolder(pending, rows) && forall v | v in rows :: newId !in rows[v].choices
    requires row.choices == PriorChoices(RowOf(rows, voter)) + {newId}
    ensures OneHolder(pending + {newId}, rows[voter := row])
  {
    var after := rows[voter := row];
    forall id, u, v | id in pending + {newId} && u in after && v in after && id in after[u].choices && id in after[v].choices
      ensures u == v
    {
      if id != newId {
        assert u in rows && id in rows[u].choices && v in rows && id in rows[v].choices;
      }
    }
  }

  lemma {:induction false} StepKeepsQueue(w: World, e: Event)
    requires Sound(w) && Queue(w.survey.options, w.rows) && Possible(w, e)
    ensures Queue(After(w, e).survey.options, After(w, e).rows)
  {
    if Step(w, e.action, e.now).Ok? {
      match e.action {
        case Submit(voter, choices, comment, preview) =>
          SubmitKeepsOwnPending(w.survey.options, PriorChoices(RowOf(w.rows, voter)), choices);
          RowKeepsQueue(w.survey.options, w.rows, voter, After(w, e).rows[voter]);
        case Suggest(voter, text, newId, preview) =>
          assert [newId][0] == newId;
          SuggestKeepsQueue(w.survey, w.rows, voter, text, newId, preview, e.now);
        case _ =>
          OtherStepShape(w, e);
          EvolvingKeepsQueue(w.survey.options, After(w, e).survey.options, w.rows);
      }
    }
  }

  /******* Publishing *******/

  ghost predicate Published(w: World) {
    (w.survey.state.Open? ==> w.survey.firstOpenedAt != ZERO_TIME)
    && (w.survey.firstOpenedAt == ZERO_TIME ==> w.accepted == {})
    && w.accepted <= w.rows.Keys
  }

  lemma {:induction false} SuggestKeepsPublished(w: World, voter: Voter, text: string, newId: Id, preview: bool,
      now: Time)
    requires Published(w) && now != ZERO_TIME && ProposeOption(w.survey, w.rows, voter, text, newId, preview, now).Ok?
    ensures var r := ProposeOption(w.survey, w.rows, voter, text, newId, preview, now).value;
      Published(World(r.0, r.1, Taken(w, voter, now)))
      && (w.survey.firstOpenedAt != ZERO_TIME ==> r.0.firstOpenedAt == w.survey.firstOpenedAt)
  {
    ProposedShape(w.survey, PriorChoices(RowOf(w.rows, voter)), text, newId, preview, now);
  }

  lemma {:induction false} StepKeepsPublished(w: World, e: Event)
    requires Published(w) && Possible(w, e)
    ensures Published(After(w, e))
    ensures w.survey.firstOpenedAt != ZERO_TIME ==> After(w, e).survey.firstOpenedAt == w.survey.firstOpenedAt
  {
    if Step(w, e.action, e.now).Ok? {
      match e.action {
        case Submit(_, _, _, _) =>
        case Suggest(voter, text, newId, preview) =>
          SuggestKeepsPublished(w, voter, text, newId, preview, e.now);
        case ModerateOption(id, action, text) =>
          UpdateShape(w, w.survey.(options := Moderate(w.survey.options, id, action, text).value), e.now);
        case Edit(form, newIds) =>
          UpdateShape(w, ApplyForm(w.survey, form, newIds, e.now).value, e.now);
        case SetState(state) =>
          UpdateShape(w, w.survey.(state := state), e.now);
        case Publish =>
        case Clear =>
      }
    }
  }

  // Publishing keeps every answer ever accepted from the public, and leaves the
  // survey accepting at that instant.
  lemma {:induction false} PublishKeepsAcceptedAnswers(w: World, now: Time)
    requires Published(w) && now != ZERO_TIME && Step(w, Publish, now).Ok?
    ensures var after := Step(w, Publish, now).value;
      (forall v | v in w.accepted :: v in after.rows && after.rows[v] == w.rows[v])
      && Accepting(after.survey, now) && after.survey.firstOpenedAt != ZERO_TIME
      && after.survey.state.Open? && (after.survey.closeAt == ZERO_TIME || now < after.survey.closeAt)
  {}

  /******* Every run from a new survey *******/

  ghost predicate Good(w: World) {
    Sound(w) && Queue(w.survey.options, w.rows) && Published(w)
  }

  lemma {:induction false} CreatedIsGood(w: World)
    requires Created(w)
    ensures Good(w)
  {
    var opts := w.survey.options;
    forall id | id in Ids(opts) ensures Ends(opts, id) {
      var o :| o in opts && o.id == id;
      IdFollows(opts, id, o);
      var path := [id];
      assert EndingChain(opts, path) && path[0] == id;
    }
    assert PendingIds(opts) == {};
  }

  lemma {:induction false} RunsStayGood(w: World, events: seq<Event>)
    requires Good(w) && Legal(w, events)
    ensures Good(Run(w, events))
    decreases |events|
  {
    if events != [] {
      StepKeepsSound(w, events[0]);
      StepKeepsQueue(w, events[0]);
      StepKeepsPublished(w, events[0]);
      RunsStayGood(After(w, events[0]), events[1..]);
    }
  }

  // Every merge graph a new survey can reach is acyclic, its chains end in
  // unmerged options, and the queue's limits hold.
  lemma {:induction false} ReachableSurveys(w: World, events: seq<Event>, id: Id)
    requires Created(w) && Legal(w, events)
    ensures var end := Run(w, events); var opts := end.survey.options;
      Good(end)
      && (id in Ids(opts) ==> Find(opts, Resolve(opts, id).0).Some? && !Find(opts, Resolve(opts, id).0).value.status.Merged?)
  {
    CreatedIsGood(w);
    RunsStayGood(w, events);
    var opts := Run(w, events).survey.options;
    if id in Ids(opts) {
      WellFormedResolves(opts, id);
    }
  }

  // In no run does Publish delete an answer accepted from the public.
  lemma {:induction false} PublishIsSafeInEveryRun(w: World, events: seq<Event>, now: Time)
    requires Created(w) && Legal(w, events) && now != ZERO_TIME
    requires Step(Run(w, events), Publish, now).Ok?
    ensures var before, after := Run(w, events), Step(Run(w, events), Publish, now).value;
      (forall v | v in before.accepted :: v in after.rows && after.rows[v] == before.rows[v])
      && Accepting(after.survey, now)
  {
    CreatedIsGood(w);
    RunsStayGood(w, events);
    PublishKeepsAcceptedAnswers(Run(w, events), now);
  }

  // The voter an answering action stores a row for.
  function Author(a: Action): Voter
    requires Answers(a)
  {
    if a.Submit? then a.voter else a.proposer
  }

  lemma {:induction false} StoredUntilCleared(w: World, events: seq<Event>, v: Voter)
    requires Good(w) && Legal(w, events) && w.survey.firstOpenedAt != ZERO_TIME && v in w.rows
    requires forall e | e in events :: !e.action.Clear?
    ensures v in Run(w, events).rows
    decreases |events|
  {
    if events != [] {
      var e := events[0];
      assert e in events;
      StepKeepsSound(w, e);
      StepKeepsQueue(w, e);
      StepKeepsPublished(w, e);
      StepKeepsRow(w, e, v);
      assert forall x | x in events[1..] :: x in events;
      StoredUntilCleared(After(w, e), events[1..], v);
    }
  }

  lemma {:induction false} StepKeepsRow(w: World, e: Event, v: Voter)
    requires Good(w) && Possible(w, e) && w.survey.firstOpenedAt != ZERO_TIME && v in w.rows && !e.action.Clear?
    ensures v in After(w, e).rows
  {
    if Step(w, e.action, e.now).Ok? {
      match e.action {
        case Submit(voter, choices, comment, preview) =>
          AnswerIsStored(w, voter, choices, comment, preview, e.now);
        case Suggest(voter, text, newId, preview) =>
          assert [newId][0] == newId;
          SuggestionIsStored(w, voter, text, newId, preview, e.now);
        case Publish =>
          PublishMeans(w, e.now);
        case _ =>
          OtherStepShape(w, e);
      }
    }
  }

  // An answer taken while the survey was open to the public stays stored through
  // any run that does not clear the survey, however often it is closed, reopened,
  // set back to draft or published.
  lemma {:induction false} PublicAnswersStay(w: World, events: seq<Event>, e: Event, later: seq<Event>)
    requires Created(w) && Legal(w, events) && Answers(e.action) && Possible(Run(w, events), e)
    requires var open := Run(w, events);
      open.survey.state.Open? && (open.survey.closeAt == 0 || e.now < open.survey.closeAt)
      && Step(open, e.action, e.now).Ok? && Legal(After(open, e), later) && forall x | x in later :: !x.action.Clear?
    ensures Author(e.action) in Run(After(Run(w, events), e), later).rows
  {
    var open := Run(w, events);
    CreatedIsGood(w);
    RunsStayGood(w, events);
    StepKeepsSound(open, e);
    StepKeepsQueue(open, e);
    StepKeepsPublished(open, e);
    match e.action {
      case Submit(voter, choices, comment, preview) =>
        AnswerIsStored(open, voter, choices, comment, preview, e.now);
      case Suggest(voter, text, newId, preview) =>
        assert [newId][0] == newId;
        SuggestionIsStored(open, voter, text, newId, preview, e.now);
    }
    StoredUntilCleared(After(open, e), later, Author(e.action));
  }

  /******* What the other transactions do *******/

  // Publishing opens the survey, clears a closing time only if it has passed,
  // notes the first opening, discards rows only at that one, and touches nothing
  // else. It is never refused.
  lemma {:induction false} PublishMeans(w: World, now: Time)
    ensures var r := Step(w, Publish, now);
      r.Ok? && r.value.survey == w.survey.(
        state := Open, updated := now,
        firstOpenedAt := if w.survey.firstOpenedAt == 0 then now else w.survey.firstOpenedAt,
        closeAt := if 0 != w.survey.closeAt <= now then 0 else w.survey.closeAt)
      && r.value.rows == if w.survey.firstOpenedAt == 0 then map[] else w.rows
  {}

  // Any state can be set, whatever the number of options; opening notes the
  // first opening. Rows stay.
  lemma {:induction false} SetStateMeans(w: World, state: State, now: Time)
    ensures var r := Step(w, SetState(state), now);
      r.Ok? && r.value.rows == w.rows && r.value.survey == w.survey.(
        state := state, updated := now,
        firstOpenedAt := if state.Open? && w.survey.firstOpenedAt == 0 then now else w.survey.firstOpenedAt)
  {}

  lemma {:induction false} ClearMeans(w: World, now: Time)
    ensures var r := Step(w, Clear, now); r.Ok? && r.value.rows == map[] && r.value.survey == w.survey
  {}

  // Every accepted change to the options is stored, even past the ceiling, as
  // long as it adds none.
  lemma {:induction false} ModerationIsStored(w: World, id: Id, action: ModerationAction, text: string, now: Time)
    requires Distinct(w.survey.options)
    ensures var r, edited := Step(w, ModerateOption(id, action, text), now), Moderate(w.survey.options, id, action, text);
      (r.Ok? <==> edited.Ok?) && (r.Ok? ==> r.value.survey.options == edited.value && r.value.rows == w.rows)
  {
    ModerateMeans(w.survey.options, id, action, text);
  }

  lemma {:induction false} EditIsStored(w: World, form: EditForm, newIds: seq<Id>, now: Time)
    requires |form.newOptions| == |newIds|
    ensures var r, edited := Step(w, Edit(form, newIds), now), ApplyForm(w.survey, form, newIds, now);
      (r.Ok? <==> edited.Ok?)
      && (r.Ok? ==>
        r.value.rows == w.rows
        && r.value.survey == edited.value.(updated := now, firstOpenedAt := r.value.survey.firstOpenedAt))
  {
    FormMeans(w.survey, form, newIds, now);
  }

  // An answer taken is stored under its voter, and nothing else changes.
  lemma {:induction false} AnswerIsStored(w: World, voter: Voter, choices: set<Id>, comment: string, preview: bool,
      now: Time)
    ensures var r := Step(w, Submit(voter, choices, comment, preview), now);
      r.Ok? ==>
        r.value.survey == w.survey
        && r.value.rows == w.rows[voter := SavedRow(w.survey, RowOf(w.rows, voter), choices, comment, "", now)]
  {}

  // A suggestion taken adds its option, awaiting review, at the end of the list,
  // and to its voter's choices, and touches no other row.
  lemma {:induction false} SuggestionIsStored(w: World, voter: Voter, text: string, newId: Id, preview: bool, now: Time)
    requires Sound(w) && newId !in Ids(w.survey.options)
    ensures var r, mine := Step(w, Suggest(voter, text, newId, preview), now),
        if voter in w.rows then w.rows[voter].choices else {};
      r.Ok? ==>
        r.value.survey.options == w.survey.options + [Opt(newId, Trim(text), Pending, WriteIn, "", now)]
        && r.value.rows.Keys == w.rows.Keys + {voter} && r.value.rows[voter].choices == mine + {newId}
        && forall v | v in w.rows && v != voter :: r.value.rows[v] == w.rows[v]
  {
    if ProposeOption(w.survey, w.rows, voter, text, newId, preview, now).Ok? {
      SuggestionShape(w.survey, w.rows, voter, text, newId, preview, now);
    }
  }

  /******* When answers are taken *******/

  // A public answer is taken while the survey is open and its closing time, if
  // it has one, has not come; a preview also while it is a draft.
  lemma {:induction false} AnswerTakenExactlyWhen(w: World, voter: Voter, choices: set<Id>, comment: string, preview: bool,
      now: Time)
    ensures Step(w, Submit(voter, choices, comment, preview), now).Ok? <==>
      (w.survey.state.Open? && (w.survey.closeAt == 0 || now < w.survey.closeAt)) || (preview && w.survey.state.Draft?)
  {}

  // A suggestion needs that too, and that the survey takes them, that the voter
  // has fewer than 5 and the survey fewer than 50 awaiting review, and a text that
  // is neither blank nor too long for an option that still fits.
  lemma {:induction false} SuggestionTakenExactlyWhen(w: World, voter: Voter, text: string, newId: Id, preview: bool,
      now: Time)
    ensures var sv, mine := w.survey, if voter in w.rows then w.rows[voter].choices else {};
      Step(w, Suggest(voter, text, newId, preview), now).Ok? <==>
        ((sv.state.Open? && (sv.closeAt == 0 || now < sv.closeAt)) || (preview && sv.state.Draft?))
        && sv.allowWriteIn
        && |set o | o in sv.options && o.status.Pending? && o.id in mine :: o.id| < 5
        && |set o | o in sv.options && o.status.Pending? :: o.id| < 50
        && Trim(text) != "" && ByteLen(Trim(text)) <= 200 && |sv.options| < 500
  {
    SuggestionFits(w.survey, w.rows, voter, text, newId, preview, now);
    PendingOf(w.survey.options, if voter in w.rows then w.rows[voter].choices else {});
  }

  lemma {:induction false} PendingOf(opts: seq<Opt>, mine: set<Id>)
    ensures PendingIds(opts) * mine == set o | o in opts && o.status.Pending? && o.id in mine :: o.id
    ensures PendingIds(opts) == set o | o in opts && o.status.Pending? :: o.id
  {}

  // Nothing but answers, each at a time and of a kind the survey does not take.
  ghost predicate AllTooLate(sv: Survey, events: seq<Event>) {
    forall e | e in events ::
      Answers(e.action)
      && (sv.state.Closed? || (sv.state.Open? && 0 != sv.closeAt <= e.now) || (sv.state.Draft? && !Previews(e.action)))
  }

  predicate Previews(a: Action) {
    if a.Submit? then a.preview else a.Suggest? && a.previewing
  }

  // A closed survey, an open one past its closing time, and a draft nobody
  // previews take nothing: whatever is sent, neither rows nor options change.
  lemma {:induction false} NothingTakenTooLate(w: World, events: seq<Event>)
    requires Legal(w, events) && AllTooLate(w.survey, events)
    ensures Run(w, events) == w
    decreases |events|
  {
    if events != [] {
      var e := events[0];
      assert e in events;
      match e.action {
        case Submit(voter, choices, comment, preview) =>
          AnswerTakenExactlyWhen(w, voter, choices, comment, preview, e.now);
        case Suggest(voter, text, newId, preview) =>
          SuggestionTakenExactlyWhen(w, voter, text, newId, preview, e.now);
      }
      assert forall x | x in events[1..] :: x in events;
      NothingTakenTooLate(After(w, e), events[1..]);
    }
  }

  /******* Hidden options keep their holders and viewers *******/

  ghost predicate IsHidden(w: World, id: Id) {
    var o := Find(w.survey.options, id);
    o.Some? && Hidden(o.value)
  }

  ghost predicate HiddenThroughout(w: World, events: seq<Event>, id: Id)
    requires Legal(w, events)
    decreases |events|
  {
    events == []
    || (IsHidden(w, id) && !Deletes(w, events[0].action) && HiddenThroughout(After(w, events[0]), events[1..], id))
  }

  function ChoseIt(rows: map<Voter, Row>, id: Id): set<Voter> {
    set v | v in rows && id in rows[v].choices
  }

  function SawIt(rows: map<Voter, Row>, id: Id): set<Voter> {
    set v | v in rows && id in rows[v].seen
  }

  lemma {:induction false} AnswerLeavesHidden(sv: Survey, prev: Maybe<Row>, submitted: set<Id>, comment: string,
      allow: Id, now: Time, o: Opt)
    requires Distinct(sv.options) && o in sv.options && Hidden(o)
    ensures var row := SavedRow(sv, prev, submitted, comment, allow, now);
      (o.id in row.choices <==> o.id in PriorChoices(prev)) && (o.id in row.seen <==> o.id in PriorSeen(prev))
  {
    NewChoicesMember(sv.options, PriorChoices(prev), submitted, allow, o);
    if o.id in OnBallot(sv.options, PriorChoices(prev), allow) {
      var p :| p in sv.options && p.id == o.id && Visible(p, PriorChoices(prev), allow);
      FindMember(sv.options, p);
      FindMember(sv.options, o);
    }
  }

  lemma {:induction false} AnswerLeavesMembers(rows: map<Voter, Row>, voter: Voter, row: Row, id: Id)
    requires id in row.choices <==> id in PriorChoices(RowOf(rows, voter))
    requires id in row.seen <==> id in PriorSeen(RowOf(rows, voter))
    ensures ChoseIt(rows[voter := row], id) == ChoseIt(rows, id) && SawIt(rows[voter := row], id) == SawIt(rows, id)
  {
    var after := rows[voter := row];
    forall v ensures v in ChoseIt(after, id) <==> v in ChoseIt(rows, id) {}
    forall v ensures v in SawIt(after, id) <==> v in SawIt(rows, id) {}
  }

  lemma {:induction false} StepLeavesHidden(w: World, e: Event, id: Id)
    requires Sound(w) && Possible(w, e) && IsHidden(w, id) && !Deletes(w, e.action)
    ensures ChoseIt(After(w, e).rows, id) == ChoseIt(w.rows, id)
    ensures SawIt(After(w, e).rows, id) == SawIt(w.rows, id)
  {
    var o := Find(w.survey.options, id).value;
    if Step(w, e.action, e.now).Ok? {
      match e.action {
        case Submit(voter, choices, comment, preview) =>
          AnswerLeavesHidden(w.survey, RowOf(w.rows, voter), choices, comment, "", e.now, o);
          AnswerLeavesMembers(w.rows, voter, After(w, e).rows[voter], id);
        case Suggest(voter, text, newId, preview) =>
          assert [newId][0] == newId;
          SuggestLeavesHidden(w.survey, w.rows, voter, text, newId, preview, e.now, o);
        case _ =>
          OtherStepShape(w, e);
      }
    }
  }

  lemma {:induction false} SuggestLeavesHidden(sv: Survey, rows: map<Voter, Row>, voter: Voter, text: string,
      newId: Id, preview: bool, now: Time, o: Opt)
    requires Distinct(sv.options) && SoundRows(sv.options, rows) && newId !in Ids(sv.options)
    requires o in sv.options && Hidden(o) && ProposeOption(sv, rows, voter, text, newId, preview, now).Ok?
    ensures var after := ProposeOption(sv, rows, voter, text, newId, preview, now).value.1;
      ChoseIt(after, o.id) == ChoseIt(rows, o.id) && SawIt(after, o.id) == SawIt(rows, o.id)
  {
    var prior := PriorChoices(RowOf(rows, voter));
    var comment := SuggestionStores(sv, rows, voter, text, newId, preview, now);
    var grown := Proposed(sv, prior, text, newId, preview, now).value;
    FindAfterAppend(sv.options, NewOption(newId, text, now), newId);
    AnswerLeavesHidden(grown, RowOf(rows, voter), prior + {newId}, comment, newId, now, o);
    AnswerLeavesMembers(rows, voter, ProposeOption(sv, rows, voter, text, newId, preview, now).value.1[voter], o.id);
  }

  // Over any run in which an option stays removed, rejected or merged, who
  // holds it and who has seen it do not change.
  lemma {:induction false} HiddenKeepsHolders(w: World, events: seq<Event>, id: Id)
    requires Sound(w) && Legal(w, events) && HiddenThroughout(w, events, id)
    ensures ChoseIt(Run(w, events).rows, id) == ChoseIt(w.rows, id)
    ensures SawIt(Run(w, events).rows, id) == SawIt(w.rows, id)
    decreases |events|
  {
    if events != [] {
      StepLeavesHidden(w, events[0], id);
      StepKeepsSound(w, events[0]);
      HiddenKeepsHolders(After(w, events[0]), events[1..], id);
    }
  }

  /******* Hiding an option and bringing it back *******/

  // The transactions that can hide or restore option id: its own moderation, and
  // the edit form.
  ghost predicate Touches(a: Action, id: Id) {
    a.Edit? || (a.ModerateOption? && a.option == id)
  }

  lemma {:induction false} ModerationPointsAlike(opts: seq<Opt>, id: Id, action: ModerationAction, text: string)
    requires Distinct(opts) && Moderate(opts, id, action, text).Ok?
    ensures PointAlikeButFor(opts, Moderate(opts, id, action, text).value, id)
  {
    var worded := opts;
    if Trim(text) != "" && !action.MergeInto? {
      worded := SetText(opts, id, text).value;
      SetTextKeepsGraph(opts, id, text);
    }
    match action {
      case Approve => StatusPointsAlike(worded, id, Approved, "");
      case Restore => StatusPointsAlike(worded, id, Approved, "");
      case Reject => StatusPointsAlike(worded, id, Rejected, "");
      case Remove => StatusPointsAlike(worded, id, Removed, "");
      case MergeInto(target) => StatusPointsAlike(worded, id, Merged, target);
    }
  }

  lemma {:induction false} StatusPointsAlike(opts: seq<Opt>, id: Id, status: Status, mergeInto: Id)
    requires Distinct(opts) && SetStatus(opts, id, status, mergeInto).Ok?
    ensures PointAlikeButFor(opts, SetStatus(opts, id, status, mergeInto).value, id)
  {
    var k := IndexOf(opts, id);
    var o := opts[k].(status := status, mergedInto := if status.Merged? then mergeInto else "");
    ReplaceAt(opts, k, o);
    EditPointsAlike(opts, k, o);
  }

  lemma {:induction false} FormPointsAlike(sv: Survey, form: EditForm, newIds: seq<Id>, now: Time)
    requires Distinct(sv.options) && |form.newOptions| == |newIds| && Fresh(newIds, sv.options)
    requires ApplyForm(sv, form, newIds, now).Ok?
    ensures SamePointers(sv.options, ApplyForm(sv, form, newIds, now).value.options)
  {
    var edited := EditAll(form, sv.options);
    EditAllPointsAlike(form, sv.options);
    FindEdited(form, sv.options, "");
    AddedPointAlike(edited, form.newOptions, newIds, now);
  }

  lemma {:induction false} AddedPointAlike(opts: seq<Opt>, texts: seq<string>, newIds: seq<Id>, now: Time)
    requires |texts| == |newIds| && Distinct(opts) && Fresh(newIds, opts) && AddAll(opts, texts, newIds, now).Ok?
    ensures SamePointers(opts, AddAll(opts, texts, newIds, now).value)
    decreases |texts|
  {
    if texts == [] {
    } else if Trim(texts[0]) == "" {
      AddedPointAlike(opts, texts[1..], newIds[1..], now);
    } else {
      var o := Opt(newIds[0], Trim(texts[0]), Approved, Editor, "", now);
      forall id ensures Find(opts + [o], id) == if id == o.id then Some(o) else Find(opts, id) {
        FindAfterAppend(opts, o, id);
      }
      FindAfterAppend(opts, o, o.id);
      AddedPointAlike(opts + [o], texts[1..], newIds[1..], now);
    }
  }

  // Saving the form: an approved option that is not ticked keeps its holders and
  // viewers, and one that is ticked counts for nobody.
  lemma {:induction false} FormMovesNoVotes(sv: Survey, form: EditForm, newIds: seq<Id>, now: Time,
      rows: map<Voter, Row>, id: Id)
    requires Distinct(sv.options) && |form.newOptions| == |newIds| && Fresh(newIds, sv.options)
    requires ApplyForm(sv, form, newIds, now).Ok? && IsApproved(sv.options, id)
    ensures var after := ApplyForm(sv, form, newIds, now).value.options;
      if id in form.remove then Holders(after, rows, id) == {} && Viewers(after, rows, id) == {}
      else Holders(after, rows, id) == Holders(sv.options, rows, id) && Viewers(after, rows, id) == Viewers(sv.options, rows, id)
  {
    var after := ApplyForm(sv, form, newIds, now).value.options;
    FormMeans(sv, form, newIds, now);
    FormPointsAlike(sv, form, newIds, now);
    FormEvolves(sv, form, newIds, now);
    var k := IndexOf(sv.options, id);
    assert FormLeaves(form, sv.options[k], after[k]);
    FindAt(after, k);
    forall x ensures Resolve(after, x) == (id, true) <==> id !in form.remove && Resolve(sv.options, x) == (id, true) {
      if id in form.remove {
        ResolveDecidesEnding(after, x);
      } else {
        LeadAlike(sv.options, after, x, id);
        LeadsToApproved(sv.options, x, id);
        LeadsToApproved(after, x, id);
      }
    }
  }

  lemma {:induction false} TouchKeepsLeads(w: World, e: Event, id: Id, x: Id)
    requires Distinct(w.survey.options) && Possible(w, e) && Touches(e.action, id)
    ensures Leads(After(w, e).survey.options, x, id) <==> Leads(w.survey.options, x, id)
    ensures After(w, e).rows == w.rows
  {
    if Step(w, e.action, e.now).Ok? {
      match e.action {
        case ModerateOption(_, action, text) =>
          var edited := Moderate(w.survey.options, id, action, text).value;
          UpdateShape(w, w.survey.(options := edited), e.now);
          ModerationPointsAlike(w.survey.options, id, action, text);
          LeadAlike(w.survey.options, edited, x, id);
        case Edit(form, newIds) =>
          var edited := ApplyForm(w.survey, form, newIds, e.now).value;
          UpdateShape(w, edited, e.now);
          FormPointsAlike(w.survey, form, newIds, e.now);
          LeadAlike(w.survey.options, edited.options, x, id);
      }
    }
  }

  // Hide an approved option, by moderation (removing, rejecting or merging it)
  // or by the form; let anything happen while it and what was merged into it
  // stay hidden; bring it back. If the same ids lead to it when it was hidden and
  // when it is brought back, it has exactly the holders and the viewers it had.
  lemma {:induction false} RestoringBringsBackTheVotes(w: World, hiding: Event, events: seq<Event>, restoring: Event,
      id: Id)
    requires Sound(w) && Possible(w, hiding) && Touches(hiding.action, id) && IsApproved(w.survey.options, id)
    requires var hidden := After(w, hiding);
      IsHidden(hidden, id) && Legal(hidden, events)
      && (forall x | Leads(hidden.survey.options, x, id) :: HiddenThroughout(hidden, events, x))
      && var end := Run(hidden, events);
      Possible(end, restoring) && Touches(restoring.action, id) && IsApproved(After(end, restoring).survey.options, id)
      && forall x :: Leads(hidden.survey.options, x, id) <==> Leads(end.survey.options, x, id)
    ensures var back := After(Run(After(w, hiding), events), restoring);
      Holders(back.survey.options, back.rows, id) == Holders(w.survey.options, w.rows, id)
      && Viewers(back.survey.options, back.rows, id) == Viewers(w.survey.options, w.rows, id)
  {
    var hidden := After(w, hiding);
    StepKeepsSound(w, hiding);
    RunsKeepSound(hidden, events);
    var end := Run(hidden, events);
    var back := After(end, restoring);
    var before, after := w.survey.options, back.survey.options;
    forall x
      ensures Resolve(before, x) == (id, true) <==> Leads(hidden.survey.options, x, id)
      ensures Resolve(after, x) == (id, true) <==> Leads(hidden.survey.options, x, id)
    {
      TouchKeepsLeads(w, hiding, id, x);
      TouchKeepsLeads(end, restoring, id, x);
      LeadsToApproved(before, x, id);
      LeadsToApproved(after, x, id);
    }
    TouchKeepsLeads(w, hiding, id, id);
    TouchKeepsLeads(end, restoring, id, id);
    forall x | Resolve(before, x) == (id, true)
      ensures ChoseIt(back.rows, x) == ChoseIt(w.rows, x) && SawIt(back.rows, x) == SawIt(w.rows, x)
    {
      HiddenKeepsHolders(hidden, events, x);
    }
    forall v ensures v in Holders(after, back.rows, id) <==> v in Holders(before, w.rows, id) {
      HeldThrough(before, after, w.rows, back.rows, id, v);
    }
    forall v ensures v in Viewers(after, back.rows, id) <==> v in Viewers(before, w.rows, id) {
      SeenThrough(before, after, w.rows, back.rows, id, v);
    }
  }

  lemma {:induction false} HeldThrough(before: seq<Opt>, after: seq<Opt>, old': map<Voter, Row>,
      rows: map<Voter, Row>, id: Id, v: Voter)
    requires forall x :: Resolve(before, x) == (id, true) <==> Resolve(after, x) == (id, true)
    requires forall x | Resolve(before, x) == (id, true) :: ChoseIt(rows, x) == ChoseIt(old', x)
    ensures v in Holders(after, rows, id) <==> v in Holders(before, old', id)
  {
    if v in Holders(after, rows, id) {
      var x :| x in rows[v].choices && Resolve(after, x) == (id, true);
      assert Resolve(before, x) == (id, true);
      assert v in ChoseIt(rows, x);
      assert v in ChoseIt(old', x);
    }
    if v in Holders(before, old', id) {
      var x :| x in old'[v].choices && Resolve(before, x) == (id, true);
      assert v in ChoseIt(old', x);
      assert v in ChoseIt(rows, x);
    }
  }

  lemma {:induction false} SeenThrough(before: seq<Opt>, after: seq<Opt>, old': map<Voter, Row>,
      rows: map<Voter, Row>, id: Id, v: Voter)
    requires forall x :: Resolve(before, x) == (id, true) <==> Resolve(after, x) == (id, true)
    requires forall x | Resolve(before, x) == (id, true) :: SawIt(rows, x) == SawIt(old', x)
    ensures v in Viewers(after, rows, id) <==> v in Viewers(before, old', id)
  {
    if v in Viewers(after, rows, id) {
      var x :| x in rows[v].seen && Resolve(after, x) == (id, true);
      assert Resolve(before, x) == (id, true);
      assert v in SawIt(rows, x);
      assert v in SawIt(old', x);
    }
    if v in Viewers(before, old', id) {
      var x :| x in old'[v].seen && Resolve(before, x) == (id, true);
      assert v in SawIt(old', x);
      assert v in SawIt(rows, x);
    }
  }
}
