// The one-time seen backfill: any number of processes may run it, each may be
// killed between any two transactions, and none may touch a database another
// has finished and begun serving.
module IdOrder {
  import opened Model

  // SQLite's binary order on text.
  predicate Before(a: Id, b: Id) {
    if b == "" then false
    else if a == "" then true
    else if a[0] == b[0] then Before(a[1..], b[1..])
    else a[0] < b[0]
  }

  lemma {:induction false} BeforeIrreflexive(a: Id)
    ensures !Before(a, a)
  {
    if a != "" {
      BeforeIrreflexive(a[1..]);
    }
  }

  lemma {:induction false} BeforeTransitive(a: Id, b: Id, c: Id)
    requires Before(a, b) && Before(b, c)
    ensures Before(a, c)
  {
    if a != "" && a[0] == b[0] && b[0] == c[0] {
      BeforeTransitive(a[1..], b[1..], c[1..]);
    }
  }

  lemma {:induction false} BeforeTotal(a: Id, b: Id)
    ensures a == b || Before(a, b) || Before(b, a)
  {
    if a != "" && b != "" && a[0] == b[0] {
      BeforeTotal(a[1..], b[1..]);
      assert a == [a[0]] + a[1..] && b == [b[0]] + b[1..];
    }
  }

  predicate Least(s: set<Id>, least: Id) {
    least in s && forall x | x in s :: x == least || Before(least, x)
  }

  lemma {:induction false} LeastExists(s: set<Id>)
    requires s != {}
    ensures exists least :: Least(s, least)
    decreases s
  {
    var x :| x in s;
    if s == {x} {
      assert Least(s, x);
    } else {
      LeastExists(s - {x});
      var y :| Least(s - {x}, y);
      BeforeTotal(x, y);
      if Before(x, y) {
        forall z | z in s ensures z == x || Before(x, z) {
          if z != x && z != y {
            BeforeTransitive(x, y, z);
          }
        }
        assert Least(s, x);
      } else {
        assert Least(s, y);
      }
    }
  }

  ghost predicate Sorted(ids: seq<Id>) {
    forall i, j | 0 <= i < j < |ids| :: Before(ids[i], ids[j])
  }

  // The head of a sorted list comes before everything else in it.
  lemma {:induction false} SortedHead(ids: seq<Id>, id: Id)
    requires Sorted(ids) && ids != [] && id in ids[1..]
    ensures Before(ids[0], id) && id != ids[0]
  {
    var i :| 0 <= i < |ids[1..]| && ids[1..][i] == id;
    assert ids[i + 1] == id;
    BeforeIrreflexive(id);
  }
}

module Backfill {
  import opened Model
  import opened IdOrder
  import opened MergeGraph
  import opened Tally
  import Lifecycle

  // What the migration reads of one survey: its options and each response's
  // choices.
  datatype SurveyData = SurveyData(options: seq<Opt>, answers: map<Rid, set<Id>>)

  type Data = map<Id, SurveyData>

  type SeenTable = set<(Rid, Id)>

  // The rule: everyone saw everything, except that a pending or rejected option
  // was seen by whoever voted for it.
  predicate Due(d: SurveyData, r: Rid, o: Opt) {
    r in d.answers && o in d.options && ((!o.status.Pending? && !o.status.Rejected?) || o.id in d.answers[r])
  }

  function RowsDue(data: Data, id: Id): SeenTable {
    if id !in data then {}
    else set r, o | r in data[id].answers && o in data[id].options && Due(data[id], r, o) :: (r, o.id)
  }

  function AllDue(data: Data): SeenTable {
    set id, row | id in data && row in RowsDue(data, id) :: row
  }

  /******* The processes and their database *******/

  datatype Process =
    | Starting
    | Checked // found no completion marker
    | HasMark(through: Id)
    | Working(todo: seq<Id>)
    | Finished // Open has returned: the process may serve

  // served records history only: whether any process has served a request.
  datatype System = System(
    data: Data, seen: SeenTable, done: bool, through: Maybe<Id>, processes: map<nat, Process>, served: bool)

  datatype Step =
    | Launch(p: nat)
    | Kill(p: nat)
    | CheckDone(p: nat)
    | ReadMark(p: nat)
    | ListSurveys(p: nat)
    | BackfillSurvey(p: nat)
    | MarkDone(p: nat)
    | Serve(p: nat, data: Data, seen: SeenTable)

  // surveyIDsAfter
  ghost predicate SurveysAfter(data: Data, through: Id, ids: seq<Id>) {
    Sorted(ids) && forall id :: id in ids <==> id in data && Before(through, id)
  }

  ghost predicate At(s: System, p: nat, phase: Process) {
    p in s.processes && s.processes[p] == phase
  }

  ghost predicate Moves(s: System, p: nat, phase: Process, t: System) {
    t == s.(processes := s.processes[p := phase])
  }

  ghost predicate Next(s: System, step: Step, t: System) {
    match step
    case Launch(p) => p !in s.processes && Moves(s, p, Starting, t)
    case Kill(p) => t == s.(processes := s.processes - {p})
    case CheckDone(p) => At(s, p, Starting) && Moves(s, p, if s.done then Finished else Checked, t)
    case ReadMark(p) =>
      At(s, p, Checked) && Moves(s, p, HasMark(if s.through.Some? then s.through.value else ""), t)
    case ListSurveys(p) =>
      p in s.processes && s.processes[p].HasMark?
      && exists ids :: SurveysAfter(s.data, s.processes[p].through, ids) && Moves(s, p, Working(ids), t)
    case BackfillSurvey(p) =>
      p in s.processes && s.processes[p].Working? && s.processes[p].todo != []
      && var todo := s.processes[p].todo;
      if s.done then Moves(s, p, Finished, t)
      else
        t == s.(seen := s.seen + RowsDue(s.data, todo[0]), through := Some(todo[0]),
                processes := s.processes[p := Working(todo[1..])])
    case MarkDone(p) =>
      At(s, p, Working([]))
      && t == s.(done := true, through := None, processes := s.processes[p := Finished])
    case Serve(p, data, seen) => At(s, p, Finished) && t == s.(data := data, seen := seen, served := true)
  }

  ghost predicate Init(s: System) {
    !s.done && s.through == None && s.processes == map[] && !s.served && "" !in s.data
  }

  ghost predicate Trace(states: seq<System>, steps: seq<Step>) {
    |states| == |steps| + 1 && Init(states[0])
    && forall i | 0 <= i < |steps| :: Next(states[i], steps[i], states[i + 1])
  }

  /******* The invariant *******/

  // Every survey up to and including through has all the rows due.
  ghost predicate CoveredThrough(s: System, through: Id) {
    forall id | id in s.data && !Before(through, id) :: RowsDue(s.data, id) <= s.seen
  }

  ghost predicate CoveredExcept(s: System, todo: seq<Id>) {
    Sorted(todo) && (forall id | id in todo :: id in s.data)
    && forall id | id in s.data && id !in todo :: RowsDue(s.data, id) <= s.seen
  }

  ghost predicate GoodProcess(s: System, phase: Process) {
    match phase
    case Starting => true
    case Checked => true
    case HasMark(through) => s.done || CoveredThrough(s, through)
    case Working(todo) => s.done || CoveredExcept(s, todo)
    case Finished => s.done
  }

  ghost predicate Inv(first: System, s: System) {
    (s.served ==> s.done)
    && (!s.served ==> s.data == first.data)
    && "" !in first.data
    && (s.done ==> s.through == None)
    && (!s.done ==> first.seen <= s.seen <= first.seen + AllDue(first.data))
    && (!s.done && s.through.Some? ==> CoveredThrough(s, s.through.value))
    && (s.done && !s.served ==> s.seen == first.seen + AllDue(first.data))
    && forall p | p in s.processes :: GoodProcess(s, s.processes[p])
  }

  lemma {:induction false} DueIsCounted(data: Data, id: Id)
    ensures RowsDue(data, id) <= AllDue(data)
  {}

  lemma {:induction false} AllCovered(s: System)
    requires forall id | id in s.data :: RowsDue(s.data, id) <= s.seen
    ensures AllDue(s.data) <= s.seen
  {}

  lemma {:induction false} MoveKeepsInv(first: System, s: System, p: nat, phase: Process, t: System)
    requires Inv(first, s) && GoodProcess(s, phase) && Moves(s, p, phase, t)
    ensures Inv(first, t)
  {
    forall q | q in t.processes ensures GoodProcess(t, t.processes[q]) {
      SameDatabase(s, t, t.processes[q]);
    }
  }

  lemma {:induction false} SameDatabase(s: System, t: System, phase: Process)
    requires t.data == s.data && t.seen == s.seen && t.done == s.done && GoodProcess(s, phase)
    ensures GoodProcess(t, phase)
  {}

  lemma {:induction false} MoreSeen(s: System, t: System, phase: Process)
    requires t.data == s.data && s.seen <= t.seen && t.done == s.done && GoodProcess(s, phase)
    ensures GoodProcess(t, phase)
  {}

  lemma {:induction false} ListKeepsInv(first: System, s: System, p: nat, ids: seq<Id>, t: System)
    requires Inv(first, s) && p in s.processes && s.processes[p].HasMark?
    requires SurveysAfter(s.data, s.processes[p].through, ids) && Moves(s, p, Working(ids), t)
    ensures Inv(first, t)
  {
    assert GoodProcess(s, s.processes[p]);
    if !s.done {
      forall id | id in s.data && id !in ids ensures RowsDue(s.data, id) <= s.seen {
        assert !Before(s.processes[p].through, id);
      }
    }
    MoveKeepsInv(first, s, p, Working(ids), t);
  }

  lemma {:induction false} BackfillKeepsInv(first: System, s: System, p: nat, t: System)
    requires Inv(first, s) && !s.done && Next(s, BackfillSurvey(p), t)
    ensures Inv(first, t)
  {
    var todo := s.processes[p].todo;
    assert GoodProcess(s, s.processes[p]);
    DueIsCounted(s.data, todo[0]);
    assert todo == [todo[0]] + todo[1..];
    forall id | id in todo[1..] ensures Before(todo[0], id) {
      SortedHead(todo, id);
    }
    assert CoveredExcept(t, todo[1..]) by {
      assert forall i | 0 <= i < |todo[1..]| :: todo[1..][i] == todo[i + 1];
    }
    forall q | q in t.processes ensures GoodProcess(t, t.processes[q]) {
      if q != p {
        MoreSeen(s, t, s.processes[q]);
      }
    }
  }

  lemma {:induction false} MarkKeepsInv(first: System, s: System, p: nat, t: System)
    requires Inv(first, s) && Next(s, MarkDone(p), t)
    ensures Inv(first, t)
  {
    assert GoodProcess(s, s.processes[p]);
    if !s.done {
      AllCovered(s);
    }
  }

  lemma {:induction false} NextKeepsInv(first: System, s: System, step: Step, t: System)
    requires Inv(first, s) && Next(s, step, t)
    ensures Inv(first, t)
  {
    match step {
      case Launch(p) => MoveKeepsInv(first, s, p, Starting, t);
      case Kill(p) => KillKeepsInv(first, s, p, t);
      case CheckDone(p) => MoveKeepsInv(first, s, p, if s.done then Finished else Checked, t);
      case ReadMark(p) => ReadKeepsInv(first, s, p, t);
      case ListSurveys(p) =>
        var ids :| SurveysAfter(s.data, s.processes[p].through, ids) && Moves(s, p, Working(ids), t);
        ListKeepsInv(first, s, p, ids, t);
      case BackfillSurvey(p) =>
        if s.done {
          MoveKeepsInv(first, s, p, Finished, t);
        } else {
          BackfillKeepsInv(first, s, p, t);
        }
      case MarkDone(p) => MarkKeepsInv(first, s, p, t);
      case Serve(p, data, seen) => ServeKeepsInv(first, s, p, data, seen, t);
    }
  }

  lemma {:induction false} KillKeepsInv(first: System, s: System, p: nat, t: System)
    requires Inv(first, s) && Next(s, Kill(p), t)
    ensures Inv(first, t)
  {
    forall q | q in t.processes ensures GoodProcess(t, t.processes[q]) {
      SameDatabase(s, t, s.processes[q]);
    }
  }

  // A process that finds no mark starts from "", before every survey id.
  lemma {:induction false} ReadKeepsInv(first: System, s: System, p: nat, t: System)
    requires Inv(first, s) && Next(s, ReadMark(p), t)
    ensures Inv(first, t)
  {
    var through := if s.through.Some? then s.through.value else "";
    if s.through.None? && !s.done {
      assert forall id | id in s.data :: Before("", id);
    }
    MoveKeepsInv(first, s, p, HasMark(through), t);
  }

  lemma {:induction false} ServeKeepsInv(first: System, s: System, p: nat, data: Data, seen: SeenTable, t: System)
    requires Inv(first, s) && Next(s, Serve(p, data, seen), t)
    ensures Inv(first, t)
  {
    assert GoodProcess(s, Finished);
  }

  lemma {:induction false} TraceKeepsInv(states: seq<System>, steps: seq<Step>)
    requires Trace(states, steps)
    ensures Inv(states[0], states[|steps|])
    decreases |steps|
  {
    if steps == [] {
    } else {
      var n := |steps| - 1;
      TraceKeepsInv(states[..|steps|], steps[..n]);
      NextKeepsInv(states[0], states[n], steps[n], states[n + 1]);
    }
  }

  /******* What the migration promises *******/

  // For any number of processes, killed anywhere: nobody serves before the
  // marker is set; every survey up to the progress mark has its rows; once the
  // marker is set the mark is gone, and until somebody serves the table is
  // exactly the old rows and the rows due on the data the migration found.
  lemma {:induction false} BackfillIsExact(states: seq<System>, steps: seq<Step>)
    requires Trace(states, steps)
    ensures var first, s := states[0], states[|steps|];
      (s.served ==> s.done)
      && (!s.served ==> s.data == first.data)
      && (s.through.Some? ==> forall id | id in s.data && !Before(s.through.value, id) :: RowsDue(s.data, id) <= s.seen)
      && (s.done ==> s.through == None)
      && (s.done && !s.served ==> s.seen == first.seen + AllDue(first.data))
      && (!s.done ==> first.seen <= s.seen <= first.seen + AllDue(first.data))
  {
    TraceKeepsInv(states, steps);
  }

  // After the marker, no step of the migration adds a row, and the marker stays.
  lemma {:induction false} NothingAfterDone(s: System, step: Step, t: System)
    requires s.done && Next(s, step, t) && !step.Serve?
    ensures t.done && t.seen == s.seen && t.data == s.data
  {}

  // A survey done is marked done: whoever resumes from the mark lists only
  // surveys after it.
  lemma {:induction false} ProgressIsKept(s: System, p: nat, t: System, ids: seq<Id>)
    requires p in s.processes && s.processes[p].Working? && s.processes[p].todo != []
    requires !s.done && Next(s, BackfillSurvey(p), t)
    ensures var id := s.processes[p].todo[0];
      t.through == Some(id) && RowsDue(t.data, id) <= t.seen && t.processes[p] == Working(s.processes[p].todo[1..])
      && (SurveysAfter(t.data, id, ids) ==> id !in ids)
  {
    BeforeIrreflexive(s.processes[p].todo[0]);
  }

  function AsRows(d: SurveyData, seen: SeenTable): map<Rid, Row> {
    map r | r in d.answers :: Row(d.answers[r], set row | row in seen && row.0 == r :: row.1, "", 0, 0)
  }

  // A finished migration leaves every response with its choices among the
  // options it saw, so Votes <= Shown from the first request on.
  lemma {:induction false} BackfilledChosenWasShown(states: seq<System>, steps: seq<Step>, id: Id)
    requires Trace(states, steps) && states[|steps|].done && !states[|steps|].served && id in states[|steps|].data
    requires var d := states[|steps|].data[id]; forall r | r in d.answers :: d.answers[r] <= Ids(d.options)
    ensures var s := states[|steps|]; ChosenWasShown(AsRows(s.data[id], s.seen))
  {
    var s := states[|steps|];
    TraceKeepsInv(states, steps);
    DueIsCounted(s.data, id);
    var d := s.data[id];
    var rows := AsRows(d, s.seen);
    forall r, c | r in rows && c in rows[r].choices ensures c in rows[r].seen {
      assert d.answers[r] <= Ids(d.options);
      var o :| o in d.options && o.id == c;
      assert Due(d, r, o) && (r, o.id) in RowsDue(s.data, id);
    }
  }

  // Statuses whose options everyone who answered was shown.
  predicate Blanket(status: Status) {
    status.Approved? || status.Removed? || status.Merged?
  }

  lemma {:induction false} RowsDueMean(data: Data, id: Id, r: Rid, o: Opt)
    requires id in data && r in data[id].answers && o in data[id].options && Distinct(data[id].options)
    ensures (r, o.id) in RowsDue(data, id) <==> Blanket(o.status) || o.id in data[id].answers[r]
  {
    if (r, o.id) in RowsDue(data, id) {
      var p :| p in data[id].options && Due(data[id], r, p) && p.id == o.id;
      FindMember(data[id].options, o);
      FindMember(data[id].options, p);
    }
    if Blanket(o.status) || o.id in data[id].answers[r] {
      assert Due(data[id], r, o);
    }
  }

  // What a finished migration has stored, response by response and option by
  // option: an approved, removed or merged option is seen by every response of
  // its survey; a pending or rejected one by whoever voted for it, and nobody new.
  lemma {:induction false} BackfillMarks(states: seq<System>, steps: seq<Step>, id: Id, r: Rid, o: Opt)
    requires Trace(states, steps) && states[|steps|].done && !states[|steps|].served && id in states[|steps|].data
    requires var data := states[|steps|].data;
      r in data[id].answers && o in data[id].options && Distinct(data[id].options)
      && forall other | other in data && other != id :: r !in data[other].answers
    ensures var first, s := states[0], states[|steps|];
      (o.status.Approved? || o.status.Removed? || o.status.Merged? ==> (r, o.id) in s.seen)
      && (o.status.Pending? || o.status.Rejected? ==>
        ((r, o.id) in s.seen <==> (r, o.id) in first.seen || o.id in s.data[id].answers[r]))
  {
    var s := states[|steps|];
    TraceKeepsInv(states, steps);
    RowsDueMean(s.data, id, r, o);
    DueIsCounted(s.data, id);
    if (r, o.id) in AllDue(s.data) {
      var other :| other in s.data && (r, o.id) in RowsDue(s.data, other);
      assert other == id;
    }
  }

  // So an option that is approved when the migration finishes was shown to
  // everyone who answered.
  lemma {:induction false} BackfillShowsApproved(states: seq<System>, steps: seq<Step>, id: Id, o: Opt)
    requires Trace(states, steps) && states[|steps|].done && !states[|steps|].served && id in states[|steps|].data
    requires var d := states[|steps|].data[id]; o in d.options && Distinct(d.options) && o.status.Approved?
    ensures var s := states[|steps|]; var d := s.data[id];
      Viewers(d.options, AsRows(d, s.seen), o.id) == d.answers.Keys
  {
    var s := states[|steps|];
    var d := s.data[id];
    TraceKeepsInv(states, steps);
    DueIsCounted(s.data, id);
    FindMember(d.options, o);
    StopsAtOnce(d.options, o.id);
    forall r | r in d.answers ensures Counts(d.options, AsRows(d, s.seen)[r].seen, o.id) {
      RowsDueMean(s.data, id, r, o);
      assert o.id in AsRows(d, s.seen)[r].seen;
      assert Resolve(d.options, o.id) == (o.id, true);
    }
  }

  // Response row ids are a primary key, and rows present before the migration
  // named options of their own survey.
  ghost predicate OwnRows(s: System, id: Id)
    requires id in s.data
  {
    var d := s.data[id];
    Distinct(d.options) && (forall r | r in d.answers :: d.answers[r] <= Ids(d.options))
    && (forall other, r | other in s.data && other != id && r in s.data[other].answers :: r !in d.answers)
    && forall row | row in s.seen && row.0 in d.answers :: row.1 in Ids(d.options)
  }

  // So a survey the migration has finished starts any run soundly: its votes
  // stay within its exposures through whatever happens next.
  lemma {:induction false} BackfilledRunsBoundVotes(states: seq<System>, steps: seq<Step>, id: Id,
      w: Lifecycle.World, events: seq<Lifecycle.Event>, target: Id)
    requires Trace(states, steps) && states[|steps|].done && !states[|steps|].served && id in states[|steps|].data
    requires id in states[0].data && OwnRows(states[0], id)
    requires w.survey.options == states[|steps|].data[id].options
    requires w.rows == AsRows(states[|steps|].data[id], states[|steps|].seen) && Lifecycle.Legal(w, events)
    ensures Lifecycle.Sound(w)
    ensures var end := Lifecycle.Run(w, events); var opts := end.survey.options;
      |Holders(opts, end.rows, target)| <= |Viewers(opts, end.rows, target)| <= |end.rows|
  {
    var first, s := states[0], states[|steps|];
    TraceKeepsInv(states, steps);
    BackfilledChosenWasShown(states, steps, id);
    var d := s.data[id];
    forall row | row in AllDue(s.data) && row.0 in d.answers ensures row.1 in Ids(d.options) {
      var other :| other in s.data && row in RowsDue(s.data, other);
    }
    forall r | r in w.rows ensures w.rows[r].seen <= Ids(d.options) {
      assert forall row | row in s.seen :: row in first.seen || row in AllDue(s.data);
    }
    Lifecycle.RunsBoundVotes(w, events, target);
  }

  ghost predicate DueAmong(d: SurveyData, r: Rid, n: nat, x: Id)
    requires n <= |d.options|
  {
    exists j | 0 <= j < n :: x == d.options[j].id && Due(d, r, d.options[j])
  }

  lemma {:induction false} DueOfOne(data: Data, id: Id, r: Rid, x: Id)
    requires id in data && r in data[id].answers
    ensures (r, x) in RowsDue(data, id) <==> DueAmong(data[id], r, |data[id].options|, x)
  {
    var d := data[id];
    if (r, x) in RowsDue(data, id) {
      var o :| o in d.options && Due(d, r, o) && o.id == x;
      var j :| 0 <= j < |d.options| && d.options[j] == o;
    }
  }

  /******* One process *******/

  class Migration {
    var data: Data
    var seen: SeenTable
    var done: bool
    var through: Maybe<Id>

    constructor (data: Data, seen: SeenTable)
      ensures this.data == data && this.seen == seen && !done && through == None
    {
      this.data := data;
      this.seen := seen;
      done := false;
      through := None;
    }

    method SurveyIdsAfter(mark: Id) returns (ids: seq<Id>)
      ensures SurveysAfter(data, mark, ids)
    {
      ids := [];
      var left := set id | id in data && Before(mark, id);
      while left != {}
        invariant Sorted(ids)
        invariant forall i, x | 0 <= i < |ids| && x in left :: Before(ids[i], x)
        invariant forall id :: id in ids || id in left <==> id in data && Before(mark, id)
        decreases left
      {
        LeastExists(left);
        var id: Id :| Least(left, id);
        left := left - {id};
        ids := ids + [id];
      }
    }

    // INSERT OR IGNORE ... SELECT: every response of the survey against every
    // option, with the status test and the EXISTS on its choices.
    method InsertDue(id: Id)
      requires id in data
      modifies this`seen
      ensures seen == old(seen) + RowsDue(data, id)
      ensures Distinct(data[id].options) ==> forall r, o | r in data[id].answers && o in data[id].options ::
        (r, o.id) in seen <==> (r, o.id) in old(seen) || Blanket(o.status) || o.id in data[id].answers[r]
    {
      var d := data[id];
      var left := d.answers.Keys;
      while left != {}
        invariant left <= d.answers.Keys
        invariant forall q, x :: (q, x) in seen <==> (q, x) in old(seen) || (q !in left && (q, x) in RowsDue(data, id))
        decreases left
      {
        var r :| r in left;
        left := left - {r};
        ghost var before := seen;
        for i := 0 to |d.options|
          invariant forall q, x :: (q, x) in seen <==> (q, x) in before || (q == r && DueAmong(d, r, i, x))
        {
          var o := d.options[i];
          if (!o.status.Pending? && !o.status.Rejected?) || o.id in d.answers[r] {
            seen := seen + {(r, o.id)};
          }
        }
        forall x ensures (r, x) in RowsDue(data, id) <==> DueAmong(d, r, |d.options|, x) {
          DueOfOne(data, id, r, x);
        }
      }
      forall row ensures row in seen <==> row in old(seen) + RowsDue(data, id) {
        assert row == (row.0, row.1);
      }
      if Distinct(d.options) {
        forall r, o | r in d.answers && o in d.options
          ensures (r, o.id) in seen <==> (r, o.id) in old(seen) || Blanket(o.status) || o.id in d.answers[r]
        {
          RowsDueMean(data, id, r, o);
        }
      }
    }

    // One transaction; elsewhere says another process has finished the job.
    method BackfillSurvey(id: Id) returns (elsewhere: bool)
      modifies this
      ensures data == old(data) && done == old(done) && elsewhere == done
      ensures done ==> seen == old(seen) && through == old(through)
      ensures !done ==> seen == old(seen) + RowsDue(data, id) && through == Some(id)
    {
      if done {
        return true;
      }
      if id in data {
        InsertDue(id);
      }
      through := Some(id);
      return false;
    }

    method BackfillSeen()
      modifies this
      ensures data == old(data) && done
      ensures old(done) ==> seen == old(seen) && through == old(through)
      ensures !old(done) ==> through == None
      ensures !old(done) ==>
        var mark := if old(through).Some? then old(through).value else "";
        forall row :: row in seen
          <==> row in old(seen) || exists id | id in data && Before(mark, id) :: row in RowsDue(data, id)
    {
      if done {
        return;
      }
      var mark := if through.Some? then through.value else "";
      var ids := SurveyIdsAfter(mark);
      for i := 0 to |ids|
        invariant data == old(data) && !done
        invariant forall row :: row in seen <==> row in old(seen) || exists j | 0 <= j < i :: row in RowsDue(data, ids[j])
      {
        var elsewhere := BackfillSurvey(ids[i]);
        if elsewhere {
          return;
        }
      }
      done := true;
      through := None;
    }
  }
}
