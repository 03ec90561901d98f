// The cached tally: the two critical sections of Store.Tally, and the protocol
// between writers that commit and then bump a counter and readers that compute
// from several unprotected queries.
module CacheSections {
  import opened Model
  import Tally

  // First critical section: a hit needs the cache to be of the generation loaded.
  function Lookup<E>(tallyGen: nat, cache: map<Id, E>, gen: nat, id: Id): Maybe<E> {
    if tallyGen == gen && id in cache then Some(cache[id]) else None
  }

  // Second critical section; genNow is the counter as re-read inside it.
  function Keep<E>(tallyGen: nat, cache: map<Id, E>, gen: nat, id: Id, e: E, genNow: nat): (nat, map<Id, E>) {
    var kept := if tallyGen != gen then map[] else cache;
    (gen, if genNow == gen then kept[id := e] else kept)
  }

  // What is kept with nothing committed meanwhile is served to the next lookup
  // of that generation; so is whatever else was kept in it, and nothing older.
  lemma {:induction false} KeptIsServed<E>(tallyGen: nat, cache: map<Id, E>, gen: nat, id: Id, e: E, genNow: nat, other: Id)
    ensures var kept := Keep(tallyGen, cache, gen, id, e, genNow);
      Lookup(kept.0, kept.1, gen, other)
      == (if other == id && genNow == gen then Some(e) else Lookup(tallyGen, cache, gen, other))
      && kept.1.Keys <= (if tallyGen == gen then cache.Keys else {}) + {id}
  {}

  datatype CachedTally = CachedTally(results: array<Tally.TallyRow>, respondents: nat)

  // tallyGen and tallyCache. A nil map and an empty one behave alike.
  class TallyCache {
    var tallyGen: nat
    var cache: map<Id, CachedTally>

    ghost function Arrays(): set<object>
      reads this
    {
      set id | id in cache :: cache[id].results
    }

    ghost function Contents(): map<Id, (seq<Tally.TallyRow>, nat)>
      reads this, Arrays()
    {
      map id | id in cache :: (cache[id].results[..], cache[id].respondents)
    }

    constructor ()
      ensures tallyGen == 0 && Contents() == map[]
    {
      tallyGen := 0;
      cache := map[];
    }

    method LookUp(gen: nat, id: Id) returns (hit: bool, results: array<Tally.TallyRow>, respondents: nat)
      ensures hit <==> Lookup(tallyGen, Contents(), gen, id).Some?
      ensures hit ==> Lookup(tallyGen, Contents(), gen, id) == Some((results[..], respondents))
      ensures fresh(results)
    {
      if tallyGen == gen && id in cache {
        results := Copy(cache[id].results);
        return true, results, cache[id].respondents;
      }
      results := new Tally.TallyRow[0];
      return false, results, 0;
    }

    method Store(gen: nat, id: Id, results: array<Tally.TallyRow>, respondents: nat, genNow: nat)
      requires results !in Arrays()
      modifies this
      ensures (tallyGen, Contents())
           == Keep(old(tallyGen), old(Contents()), gen, id, (results[..], respondents), genNow)
      ensures results !in Arrays()
      ensures forall a | a in Arrays() :: a in old(Arrays()) || fresh(a)
    {
      if tallyGen != gen {
        cache := map[];
        tallyGen := gen;
        assert Contents() == map[];
      }
      if genNow == gen {
        var copy := Copy(results);
        ghost var kept := Contents();
        cache := cache[id := CachedTally(copy, respondents)];
        assert Contents() == kept[id := (results[..], respondents)];
      }
    }

    // Store.Tally run to completion: gen is loaded first, genNow read again at
    // the end. What the caller gets is nobody else's.
    method ReadTally(gen: nat, id: Id, opts: seq<Opt>, rs: seq<Response>, genNow: nat)
      returns (results: array<Tally.TallyRow>, respondents: nat)
      modifies this
      ensures fresh(results) && results !in Arrays()
      ensures var hit := Lookup(old(tallyGen), old(Contents()), gen, id);
        if hit.Some? then
          (results[..], respondents) == hit.value && tallyGen == old(tallyGen) && Contents() == old(Contents())
        else
          results[..] == Tally.TallyOf(opts, rs) && respondents == |rs|
          && (tallyGen, Contents()) == Keep(old(tallyGen), old(Contents()), gen, id, (Tally.TallyOf(opts, rs), |rs|), genNow)
    {
      var hit;
      hit, results, respondents := LookUp(gen, id);
      if hit {
        return;
      }
      var rows;
      rows, respondents := Tally.ComputeTally(opts, rs);
      results := new Tally.TallyRow[|rows|](i requires 0 <= i < |rows| => rows[i]);
      assert results[..] == rows;
      Store(gen, id, results, respondents, genNow);
    }

    // A caller scribbling over what it was given changes nothing that is served.
    method CallerEdits(gen: nat, id: Id, row: Tally.TallyRow) returns (hit: bool)
      ensures Contents() == old(Contents()) && tallyGen == old(tallyGen)
    {
      var results, respondents;
      hit, results, respondents := LookUp(gen, id);
      if results.Length > 0 {
        results[0] := row;
      }
    }
  }

  method Copy(a: array<Tally.TallyRow>) returns (b: array<Tally.TallyRow>)
    ensures fresh(b) && b[..] == a[..]
  {
    b := new Tally.TallyRow[a.Length](i requires 0 <= i < a.Length reads a => a[i]);
  }
}

module CacheProtocol {
  import opened Model
  import opened MergeGraph
  import opened Tally
  import opened CacheSections

  datatype Tables = Tables(options: seq<Opt>, rows: map<Rid, Row>)

  type Snapshot = map<Id, Tables>

  type Answer = (seq<TallyRow>, nat)

  function OptionsIn(db: Snapshot, id: Id): seq<Opt> {
    if id in db then db[id].options else []
  }

  function RowsIn(db: Snapshot, id: Id): map<Rid, Row> {
    if id in db then db[id].rows else map[]
  }

  // computeTally's queries, in order: the survey, its options, its responses,
  // their choices, their seen rows. Each may see a different database.
  function TornRows(responses: Snapshot, choices: Snapshot, seen: Snapshot, id: Id): map<Rid, Row> {
    map r | r in RowsIn(responses, id) ::
      Row(if r in RowsIn(choices, id) then RowsIn(choices, id)[r].choices else {},
          if r in RowsIn(seen, id) then RowsIn(seen, id)[r].seen else {},
          RowsIn(responses, id)[r].comment, RowsIn(responses, id)[r].created, RowsIn(responses, id)[r].updated)
  }

  function TornTally(survey: Snapshot, options: Snapshot, responses: Snapshot, choices: Snapshot, seen: Snapshot,
      id: Id): Answer {
    if id !in survey then ([], 0)
    else
      var rows := TornRows(responses, choices, seen, id);
      (TallyOver(OptionsIn(options, id), rows), |rows|)
  }

  function FreshTally(db: Snapshot, id: Id): Answer {
    if id !in db then ([], 0) else (TallyOver(db[id].options, db[id].rows), |db[id].rows|)
  }

  lemma {:induction false} OneSnapshotIsFresh(db: Snapshot, id: Id)
    ensures TornTally(db, db, db, db, db, id) == FreshTally(db, id)
  {
    if id in db {
      assert TornRows(db, db, db, id) == db[id].rows;
    }
  }

  /******* The system *******/

  // seenAt holds the versions of the database the queries saw; gen is what the
  // reader loaded when it started.
  datatype Reader =
    | Looking(id: Id, gen: nat)
    | Computing(id: Id, gen: nat, seenAt: seq<nat>)
    | Returned(id: Id, gen: nat, seenAt: seq<nat>, answer: Answer)

  datatype Entry = Entry(answer: Answer, seenAt: seq<nat>)

  // history[v] is the database after v commits. bumped lists the commits whose
  // writer has bumped the counter, in order, so the counter is |bumped|;
  // inFlight are the commits whose writer has not bumped yet.
  datatype System = System(
    history: seq<Snapshot>, bumped: seq<nat>, inFlight: set<nat>,
    tallyGen: nat, cache: map<Id, Entry>, readers: map<nat, Reader>)

  datatype Step =
    | Commit(db: Snapshot)
    | Bump(version: nat)
    | Start(reader: nat, id: Id)
    | LookStep(reader: nat)
    | QueryStep(reader: nat)
    | KeepStep(reader: nat)

  // A survey that is not there ends the computation after the first query.
  predicate Complete(history: seq<Snapshot>, id: Id, seenAt: seq<nat>) {
    (forall i | 0 <= i < |seenAt| :: seenAt[i] < |history|)
    && (|seenAt| == 5 || (|seenAt| == 1 && seenAt[0] < |history| && id !in history[seenAt[0]]))
  }

  function Computed(history: seq<Snapshot>, id: Id, seenAt: seq<nat>): Answer
    requires Complete(history, id, seenAt)
  {
    if |seenAt| == 1 then ([], 0)
    else TornTally(history[seenAt[0]], history[seenAt[1]], history[seenAt[2]], history[seenAt[3]], history[seenAt[4]], id)
  }

  ghost predicate Next(s: System, step: Step, t: System)
    requires |s.history| > 0
  {
    match step
    case Commit(db) => t == s.(history := s.history + [db], inFlight := s.inFlight + {|s.history|})
    case Bump(v) => v in s.inFlight && t == s.(bumped := s.bumped + [v], inFlight := s.inFlight - {v})
    case Start(r, id) => r !in s.readers && t == s.(readers := s.readers[r := Looking(id, |s.bumped|)])
    case LookStep(r) =>
      r in s.readers && s.readers[r].Looking?
      && var id, gen := s.readers[r].id, s.readers[r].gen;
      var hit := Lookup(s.tallyGen, s.cache, gen, id);
      t == s.(readers := s.readers[r :=
        if hit.Some? then Returned(id, gen, hit.value.seenAt, hit.value.answer) else Computing(id, gen, [])])
    case QueryStep(r) =>
      r in s.readers && s.readers[r].Computing? && !Complete(s.history, s.readers[r].id, s.readers[r].seenAt)
      && t == s.(readers := s.readers[r :=
           Computing(s.readers[r].id, s.readers[r].gen, s.readers[r].seenAt + [|s.history| - 1])])
    case KeepStep(r) =>
      r in s.readers && s.readers[r].Computing? && Complete(s.history, s.readers[r].id, s.readers[r].seenAt)
      && var id, gen, seenAt := s.readers[r].id, s.readers[r].gen, s.readers[r].seenAt;
      var answer := Computed(s.history, id, seenAt);
      var kept := Keep(s.tallyGen, s.cache, gen, id, Entry(answer, seenAt), |s.bumped|);
      t == s.(tallyGen := kept.0, cache := kept.1, readers := s.readers[r := Returned(id, gen, seenAt, answer)])
  }

  ghost predicate Init(s: System) {
    |s.history| == 1 && s.bumped == [] && s.inFlight == {} && s.tallyGen == 0 && s.cache == map[] && s.readers == map[]
  }

  ghost predicate Trace(states: seq<System>, steps: seq<Step>) {
    |states| == |steps| + 1 && Init(states[0])
    && forall i | 0 <= i < |steps| :: |states[i].history| > 0 && Next(states[i], steps[i], states[i + 1])
  }

  /******* The invariant *******/

  // Every commit is either in flight or bumped.
  ghost predicate Accounted(s: System) {
    |s.history| > 0 && forall v: nat :: 1 <= v < |s.history| <==> v in s.bumped || v in s.inFlight
  }

  // What was read includes every commit among the first gen bumps.
  ghost predicate SeesBumps(bumped: seq<nat>, gen: nat, seenAt: seq<nat>) {
    gen <= |bumped| && forall i, v | 0 <= i < gen && v in seenAt :: bumped[i] <= v
  }

  ghost predicate GoodEntry(s: System, id: Id, e: Entry) {
    Complete(s.history, id, e.seenAt) && e.answer == Computed(s.history, id, e.seenAt)
    && SeesBumps(s.bumped, s.tallyGen, e.seenAt)
  }

  ghost predicate GoodReader(s: System, r: Reader) {
    match r
    case Looking(_, gen) => gen <= |s.bumped|
    case Computing(id, gen, seenAt) =>
      SeesBumps(s.bumped, gen, seenAt) && forall i | 0 <= i < |seenAt| :: seenAt[i] < |s.history|
    case Returned(id, gen, seenAt, answer) =>
      SeesBumps(s.bumped, gen, seenAt) && Complete(s.history, id, seenAt) && answer == Computed(s.history, id, seenAt)
  }

  ghost predicate Inv(s: System) {
    Accounted(s) && s.tallyGen <= |s.bumped|
    && (forall id | id in s.cache :: GoodEntry(s, id, s.cache[id]))
    && forall r | r in s.readers :: GoodReader(s, s.readers[r])
  }

  lemma {:induction false} LaterCommitsKeepAnswers(history: seq<Snapshot>, db: Snapshot, id: Id, seenAt: seq<nat>)
    requires Complete(history, id, seenAt)
    ensures Complete(history + [db], id, seenAt) && Computed(history + [db], id, seenAt) == Computed(history, id, seenAt)
  {
    forall i | 0 <= i < |seenAt| ensures (history + [db])[seenAt[i]] == history[seenAt[i]] {
    }
  }

  lemma {:induction false} CommitKeepsInv(s: System, db: Snapshot, t: System)
    requires Inv(s) && Next(s, Commit(db), t)
    ensures Inv(t)
  {
    forall id | id in t.cache ensures GoodEntry(t, id, t.cache[id]) {
      LaterCommitsKeepAnswers(s.history, db, id, s.cache[id].seenAt);
    }
    forall r | r in t.readers ensures GoodReader(t, t.readers[r]) {
      assert GoodReader(s, s.readers[r]);
      if s.readers[r].Returned? {
        LaterCommitsKeepAnswers(s.history, db, s.readers[r].id, s.readers[r].seenAt);
      }
    }
  }

  lemma {:induction false} BumpKeepsInv(s: System, v: nat, t: System)
    requires Inv(s) && Next(s, Bump(v), t)
    ensures Inv(t)
  {
    forall id | id in t.cache ensures GoodEntry(t, id, t.cache[id]) {
      assert GoodEntry(s, id, s.cache[id]);
    }
    forall r | r in t.readers ensures GoodReader(t, t.readers[r]) {
      assert GoodReader(s, s.readers[r]);
    }
  }

  lemma {:induction false} BumpedAreCommitted(s: System, i: nat)
    requires Accounted(s) && i < |s.bumped|
    ensures s.bumped[i] < |s.history|
  {
    assert s.bumped[i] in s.bumped;
  }

  lemma {:induction false} QueryKeepsInv(s: System, r: nat, t: System)
    requires Inv(s) && Next(s, QueryStep(r), t)
    ensures Inv(t)
  {
    var before, after := s.readers[r], t.readers[r];
    assert GoodReader(s, before);
    forall i, v | 0 <= i < after.gen && v in after.seenAt ensures t.bumped[i] <= v {
      BumpedAreCommitted(s, i);
    }
    assert GoodReader(t, after);
  }

  lemma {:induction false} KeptEntryIsGood(s: System, r: nat, t: System, id: Id)
    requires Inv(s) && Next(s, KeepStep(r), t) && id in t.cache
    ensures GoodEntry(t, id, t.cache[id])
  {
    var reader := s.readers[r];
    if id in s.cache && t.cache[id] == s.cache[id] && s.tallyGen == reader.gen {
      assert GoodEntry(s, id, s.cache[id]);
    } else {
      assert GoodReader(s, reader);
      assert id == reader.id && t.cache[id] == Entry(Computed(s.history, id, reader.seenAt), reader.seenAt);
    }
  }

  lemma {:induction false} KeepKeepsInv(s: System, r: nat, t: System)
    requires Inv(s) && Next(s, KeepStep(r), t)
    ensures Inv(t)
  {
    assert GoodReader(s, s.readers[r]);
    forall id | id in t.cache ensures GoodEntry(t, id, t.cache[id]) {
      KeptEntryIsGood(s, r, t, id);
    }
    forall q | q in t.readers ensures GoodReader(t, t.readers[q]) {
      assert q != r ==> GoodReader(s, s.readers[q]);
    }
  }

  lemma {:induction false} NextKeepsInv(s: System, step: Step, t: System)
    requires Inv(s) && Next(s, step, t)
    ensures Inv(t)
  {
    match step {
      case Commit(db) => CommitKeepsInv(s, db, t);
      case Bump(v) => BumpKeepsInv(s, v, t);
      case Start(r, id) =>
      case LookStep(r) => LookKeepsInv(s, r, t);
      case QueryStep(r) => QueryKeepsInv(s, r, t);
      case KeepStep(r) => KeepKeepsInv(s, r, t);
    }
  }

  lemma {:induction false} LookKeepsInv(s: System, r: nat, t: System)
    requires Inv(s) && Next(s, LookStep(r), t)
    ensures Inv(t)
  {
    var id := s.readers[r].id;
    assert GoodReader(s, s.readers[r]);
    if id in s.cache {
      assert GoodEntry(s, id, s.cache[id]);
    }
    assert GoodReader(t, t.readers[r]);
  }

  lemma {:induction false} TraceKeepsInv(states: seq<System>, steps: seq<Step>)
    requires Trace(states, steps)
    ensures Inv(states[|steps|])
    decreases |steps|
  {
    if steps == [] {
    } else {
      var n := |steps| - 1;
      TraceKeepsInv(states[..|steps|], steps[..n]);
      NextKeepsInv(states[n], steps[n], states[n + 1]);
    }
  }

  /******* What the cache promises *******/

  // Whenever no writer is between its commit and its bump, an entry the next
  // lookup could serve is the tally of the current database.
  lemma {:induction false} QuiescentCacheIsFresh(states: seq<System>, steps: seq<Step>, id: Id)
    requires Trace(states, steps)
    ensures var s := states[|steps|];
      |s.history| > 0
      && (s.inFlight == {} && s.tallyGen == |s.bumped| && id in s.cache
          ==> s.cache[id].answer == FreshTally(s.history[|s.history| - 1], id))
  {
    var s := states[|steps|];
    TraceKeepsInv(states, steps);
    if s.inFlight == {} && s.tallyGen == |s.bumped| && id in s.cache {
      var now: nat := |s.history| - 1;
      var e := s.cache[id];
      assert GoodEntry(s, id, e);
      forall v | v in e.seenAt ensures v == now {
        if now >= 1 {
          assert now in s.bumped;
          var i :| 0 <= i < |s.bumped| && s.bumped[i] == now;
        }
      }
      assert forall i | 0 <= i < |e.seenAt| :: e.seenAt[i] in e.seenAt;
      OneSnapshotIsFresh(s.history[now], id);
    }
  }

  // From its start a reader keeps its survey and the counter it loaded, while
  // the counted commits only grow at the end.
  ghost predicate Since(s: System, r: nat, id: Id, counted: seq<nat>) {
    r in s.readers && s.readers[r].id == id && s.readers[r].gen == |counted| && counted <= s.bumped
  }

  lemma {:induction false} StepKeepsSince(s: System, step: Step, t: System, r: nat, id: Id, counted: seq<nat>)
    requires |s.history| > 0 && Since(s, r, id, counted) && Next(s, step, t)
    ensures Since(t, r, id, counted)
  {
    match step {
      case Commit(db) =>
      case Bump(v) =>
      case Start(q, other) =>
      case LookStep(q) =>
      case QueryStep(q) =>
      case KeepStep(q) =>
    }
  }

  lemma {:induction false} SinceStart(states: seq<System>, steps: seq<Step>, j: nat, i: nat, r: nat, id: Id)
    requires Trace(states, steps) && j < i <= |steps| && steps[j] == Start(r, id)
    ensures Since(states[i], r, id, states[j].bumped)
  {
    if i > j + 1 {
      SinceStart(states, steps, j, i - 1, r, id);
      StepKeepsSince(states[i - 1], steps[i - 1], states[i - 1 + 1], r, id, states[j].bumped);
    } else {
      assert Next(states[j], steps[j], states[j + 1]);
    }
  }

  // A Tally that starts after the writer of commit k has returned (has bumped)
  // answers, from the cache or not, only out of databases that contain commit k.
  lemma {:induction false} NoReturnedWriteIsMissed(states: seq<System>, steps: seq<Step>, j: nat, r: nat, id: Id,
      k: nat)
    requires Trace(states, steps) && j < |steps| && steps[j] == Start(r, id) && k in states[j].bumped
    requires r in states[|steps|].readers && states[|steps|].readers[r].Returned?
    ensures var s := states[|steps|]; var reader := s.readers[r];
      reader.id == id && Complete(s.history, id, reader.seenAt)
      && reader.answer == Computed(s.history, id, reader.seenAt) && forall v | v in reader.seenAt :: k <= v
  {
    var s, counted := states[|steps|], states[j].bumped;
    TraceKeepsInv(states, steps);
    SinceStart(states, steps, j, |steps|, r, id);
    assert GoodReader(s, s.readers[r]);
    var i :| 0 <= i < |counted| && counted[i] == k;
    assert s.bumped[i] == k;
  }

  /******* Torn answers *******/

  // Rows whose choices and seen sets were read apart keep holders within
  // viewers, whatever the options say, exactly when no row chose what it was
  // not shown.
  lemma {:induction false} TornExactly<K>(rows: map<K, Row>)
    ensures (forall opts: seq<Opt>, t: Id :: Holders(opts, rows, t) <= Viewers(opts, rows, t)) <==> ChosenWasShown(rows)
  {
    if ChosenWasShown(rows) {
      forall opts: seq<Opt>, t: Id ensures Holders(opts, rows, t) <= Viewers(opts, rows, t) {
        VotesWithinShown(opts, rows, t);
      }
    } else {
      var v, c :| v in rows && c in rows[v].choices && c !in rows[v].seen;
      var opts := [Opt(c, "A", Approved, Editor, "", 1)];
      OnlyCounts(opts, c);
      assert Counts(opts, rows[v].choices, c) && !Counts(opts, rows[v].seen, c);
      assert v in Holders(opts, rows, c) && v !in Viewers(opts, rows, c);
    }
  }

  lemma {:induction false} OnlyCounts(opts: seq<Opt>, c: Id)
    requires |opts| == 1 && opts[0].id == c && opts[0].status.Approved?
    ensures forall id :: Resolve(opts, id) == (c, true) <==> id == c
  {
    forall id ensures Resolve(opts, id) == (c, true) <==> id == c {
      assert Find(opts, id) == if id == c then Some(opts[0]) else None by {
        assert opts[1..] == [];
      }
      StopsAtOnce(opts, id);
    }
  }

  // So for a torn computation: every response chose, as read, only what it was
  // shown, as read a moment later.
  lemma {:induction false} TornBoundExactlyWhen(responses: Snapshot, choices: Snapshot, seen: Snapshot, id: Id)
    ensures (forall opts: seq<Opt>, t: Id ::
        Holders(opts, TornRows(responses, choices, seen, id), t) <= Viewers(opts, TornRows(responses, choices, seen, id), t))
      <==> forall r, c | r in RowsIn(responses, id) && r in RowsIn(choices, id) && c in RowsIn(choices, id)[r].choices ::
        r in RowsIn(seen, id) && c in RowsIn(seen, id)[r].seen
  {
    var rows := TornRows(responses, choices, seen, id);
    TornExactly(rows);
    if ChosenWasShown(rows) {
      forall r, c | r in RowsIn(responses, id) && r in RowsIn(choices, id) && c in RowsIn(choices, id)[r].choices
        ensures r in RowsIn(seen, id) && c in RowsIn(seen, id)[r].seen
      {
        assert c in rows[r].choices;
        assert c in rows[r].seen;
      }
    }
  }

  // Between two versions, no commit takes from survey id a response or one of
  // its seen rows.
  ghost predicate NothingForgotten(history: seq<Snapshot>, id: Id, lo: nat, hi: nat)
    requires lo <= hi < |history|
  {
    forall w, r | lo <= w < hi && r in RowsIn(history[w], id) ::
      r in RowsIn(history[w + 1], id) && RowsIn(history[w], id)[r].seen <= RowsIn(history[w + 1], id)[r].seen
  }

  lemma {:induction false} StillSeen(history: seq<Snapshot>, id: Id, lo: nat, hi: nat, r: Rid)
    requires lo <= hi < |history| && NothingForgotten(history, id, lo, hi) && r in RowsIn(history[lo], id)
    ensures r in RowsIn(history[hi], id) && RowsIn(history[lo], id)[r].seen <= RowsIn(history[hi], id)[r].seen
    decreases hi
  {
    if lo < hi {
      var w := hi - 1;
      StillSeen(history, id, lo, w, r);
      assert r in RowsIn(history[w], id);
      assert r in RowsIn(history[w + 1], id) && RowsIn(history[w], id)[r].seen <= RowsIn(history[w + 1], id)[r].seen;
    }
  }

  // A computation reads forward in time.
  ghost predicate Forward(history: seq<Snapshot>, seenAt: seq<nat>) {
    (forall i | 0 <= i < |seenAt| :: seenAt[i] < |history|)
    && forall i, j | 0 <= i <= j < |seenAt| :: seenAt[i] <= seenAt[j]
  }

  ghost predicate ReadsForward(s: System) {
    (forall id | id in s.cache :: Forward(s.history, s.cache[id].seenAt))
    && forall r | r in s.readers :: s.readers[r].Looking? || Forward(s.history, s.readers[r].seenAt)
  }

  lemma {:induction false} StepReadsForward(s: System, step: Step, t: System)
    requires |s.history| > 0 && ReadsForward(s) && Next(s, step, t)
    ensures ReadsForward(t)
  {
    match step {
      case Commit(db) =>
      case Bump(v) =>
      case Start(q, other) =>
      case LookStep(q) =>
      case QueryStep(q) =>
      case KeepStep(q) =>
    }
  }

  lemma {:induction false} TraceReadsForward(states: seq<System>, steps: seq<Step>)
    requires Trace(states, steps)
    ensures ReadsForward(states[|steps|])
    decreases |steps|
  {
    if steps != [] {
      var n := |steps| - 1;
      TraceReadsForward(states[..|steps|], steps[..n]);
      StepReadsForward(states[n], steps[n], states[n + 1]);
    }
  }

  ghost predicate ShownInEveryVersion(history: seq<Snapshot>) {
    forall v, id | 0 <= v < |history| :: ChosenWasShown(RowsIn(history[v], id))
  }

  // An answer computed across concurrent writes keeps Votes <= Shown <=
  // respondents, as long as no commit between its last two reads took away a
  // response or a seen row.
  lemma {:induction false} TornAnswerWithinBounds(states: seq<System>, steps: seq<Step>, r: nat)
    requires Trace(states, steps) && r in states[|steps|].readers && states[|steps|].readers[r].Returned?
    requires ShownInEveryVersion(states[|steps|].history)
    ensures var s := states[|steps|]; var reader := s.readers[r];
      Complete(s.history, reader.id, reader.seenAt) && Forward(s.history, reader.seenAt)
      && (|reader.seenAt| < 5 || NothingForgotten(s.history, reader.id, reader.seenAt[3], reader.seenAt[4]) ==>
        forall row | row in reader.answer.0 :: row.votes <= row.shown <= reader.answer.1)
  {
    var s := states[|steps|];
    var reader := s.readers[r];
    TraceKeepsInv(states, steps);
    TraceReadsForward(states, steps);
    assert GoodReader(s, reader);
    if |reader.seenAt| == 5 && NothingForgotten(s.history, reader.id, reader.seenAt[3], reader.seenAt[4]) {
      TornRowsWithin(s.history, reader.id, reader.seenAt);
    }
  }

  lemma {:induction false} TornRowsWithin(history: seq<Snapshot>, id: Id, seenAt: seq<nat>)
    requires |seenAt| == 5 && Forward(history, seenAt) && ShownInEveryVersion(history)
    requires NothingForgotten(history, id, seenAt[3], seenAt[4])
    ensures forall row | row in Computed(history, id, seenAt).0 :: row.votes <= row.shown <= Computed(history, id, seenAt).1
  {
    var rows := TornRows(history[seenAt[2]], history[seenAt[3]], history[seenAt[4]], id);
    forall r | r in rows ensures rows[r].choices <= rows[r].seen {
      if r in RowsIn(history[seenAt[3]], id) {
        StillSeen(history, id, seenAt[3], seenAt[4], r);
      }
    }
    TallyWithinBounds(OptionsIn(history[seenAt[1]], id), rows);
  }

  lemma {:induction false} Extend(states: seq<System>, steps: seq<Step>, step: Step, t: System)
    requires Trace(states, steps) && |states[|steps|].history| > 0 && Next(states[|steps|], step, t)
    ensures Trace(states + [t], steps + [step])
  {}

  // A commit between a computation's last two reads.
  lemma {:induction false} TornRun(before: Snapshot, after: Snapshot,
      id: Id) returns (states: seq<System>, steps: seq<Step>)
    requires id in before
    ensures Trace(states, steps) && states[|steps|].history == [before, after]
    ensures states[|steps|].readers
         == map[0 := Returned(id, 0, [0, 0, 0, 0, 1], TornTally(before, before, before, before, after, id))]
  {
    var s := System([before], [], {}, 0, map[], map[]);
    states, steps := FourReads(s, id);
    var s6 := s.(readers := map[0 := Computing(id, 0, [0, 0, 0, 0])]);
    var s7 := s6.(history := [before, after], inFlight := {1});
    Extend(states, steps, Commit(after), s7);
    states, steps := LastRead(states + [s7], steps + [Commit(after)], before, after, id);
  }

  lemma {:induction false} LastRead(states0: seq<System>, steps0: seq<Step>, before: Snapshot, after: Snapshot, id: Id)
      returns (states: seq<System>, steps: seq<Step>)
    requires id in before && Trace(states0, steps0)
    requires states0[|steps0|]
          == System([before, after], [], {1}, 0, map[], map[0 := Computing(id, 0, [0, 0, 0, 0])])
    ensures Trace(states, steps) && states[|steps|].history == [before, after]
    ensures states[|steps|].readers
         == map[0 := Returned(id, 0, [0, 0, 0, 0, 1], TornTally(before, before, before, before, after, id))]
  {
    var s7, all := states0[|steps0|], [0, 0, 0, 0, 1];
    assert [0, 0, 0, 0] + [1] == all;
    var s8 := s7.(readers := s7.readers[0 := Computing(id, 0, all)]);
    Extend(states0, steps0, QueryStep(0), s8);
    states, steps := states0 + [s8], steps0 + [QueryStep(0)];
    var answer := TornTally(before, before, before, before, after, id);
    var kept := Keep(0, map[], 0, id, Entry(answer, all), 0);
    var s9 := s8.(tallyGen := kept.0, cache := kept.1, readers := s8.readers[0 := Returned(id, 0, all, answer)]);
    Extend(states, steps, KeepStep(0), s9);
    states, steps := states + [s9], steps + [KeepStep(0)];
  }

  lemma {:induction false} FourReads(s: System, id: Id) returns (states: seq<System>, steps: seq<Step>)
    requires Init(s) && id in s.history[0]
    ensures Trace(states, steps) && states[|steps|] == s.(readers := map[0 := Computing(id, 0, [0, 0, 0, 0])])
  {
    var s1 := s.(readers := map[0 := Looking(id, 0)]);
    states, steps := [s], [];
    Extend(states, steps, Start(0, id), s1);
    states, steps := states + [s1], steps + [Start(0, id)];
    var s2 := s.(readers := s1.readers[0 := Computing(id, 0, [])]);
    Extend(states, steps, LookStep(0), s2);
    states, steps := states + [s2], steps + [LookStep(0)];
    assert seq(0, _ => 0) == [];
    assert s2 == s.(readers := map[0 := Computing(id, 0, seq(0, _ => 0))]);
    for i := 0 to 4
      invariant |states| == |steps| + 1 && Trace(states, steps)
      invariant states[|steps|] == s.(readers := map[0 := Computing(id, 0, seq(i, _ => 0))])
    {
      var t := s.(readers := map[0 := Computing(id, 0, seq(i + 1, _ => 0))]);
      assert seq(i, _ => 0) + [0] == seq(i + 1, _ => 0);
      assert states[|steps|].readers[0 := Computing(id, 0, seq(i + 1, _ => 0))] == t.readers;
      Extend(states, steps, QueryStep(0), t);
      states, steps := states + [t], steps + [QueryStep(0)];
    }
    assert seq(4, _ => 0) == [0, 0, 0, 0];
  }

  // Without that condition the bound can break in a run: the responses are
  // cleared between a computation's last two reads.
  lemma {:induction false} TornAnswerBeyondBounds() returns (states: seq<System>, steps: seq<Step>, row: TallyRow)
    ensures Trace(states, steps) && ShownInEveryVersion(states[|steps|].history)
    ensures 0 in states[|steps|].readers && states[|steps|].readers[0].Returned?
    ensures row in states[|steps|].readers[0].answer.0 && row.votes > row.shown
  {
    var o := Opt("a", "A", Approved, Editor, "", 1);
    var before: Snapshot := map["s" := Tables([o], map["r" := Row({"a"}, {"a"}, "", 1, 1)])];
    var after: Snapshot := map["s" := Tables([o], map[])];
    states, steps := TornRun(before, after, "s");
    row := TornRow(before, after, o);
  }

  lemma {:induction false} TornRow(before: Snapshot, after: Snapshot, o: Opt) returns (row: TallyRow)
    requires o.id == "a" && o.status.Approved? && after == map["s" := Tables([o], map[])]
    requires before == map["s" := Tables([o], map["r" := Row({"a"}, {"a"}, "", 1, 1)])]
    ensures row in TornTally(before, before, before, before, after, "s").0 && row.votes > row.shown
  {
    var rows := TornRows(before, before, after, "s");
    assert rows == map["r" := Row({"a"}, {}, "", 1, 1)];
    OnlyCounts([o], "a");
    assert Counts([o], {"a"}, "a") && !Counts([o], {}, "a");
    assert Holders([o], rows, "a") == {"r"} && Viewers([o], rows, "a") == {};
    TallyRowsAreApproved([o], rows);
    row := RowOver([o], rows, o);
  }
}
