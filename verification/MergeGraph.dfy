// Merge pointers between options, and the bounded walk that follows them.
module MergeGraph {
  import opened Model

  predicate Forwards(opts: seq<Opt>, id: Id) {
    var o := Find(opts, id);
    o.Some? && o.value.status.Merged? && o.value.mergedInto != ""
  }

  function Next(opts: seq<Opt>, id: Id): Id
    requires Forwards(opts, id)
  {
    Find(opts, id).value.mergedInto
  }

  predicate IsApproved(opts: seq<Opt>, id: Id) {
    var o := Find(opts, id);
    o.Some? && o.value.status.Approved?
  }

  // Resolve with a given number of loop iterations left.
  function ResolveFrom(opts: seq<Opt>, id: Id, fuel: nat): (Id, bool)
    decreases fuel
  {
    if fuel == 0 then (id, false)
    else if Forwards(opts, id) then ResolveFrom(opts, Next(opts, id), fuel - 1)
    else (id, IsApproved(opts, id))
  }

  function Resolve(opts: seq<Opt>, id: Id): (Id, bool) {
    ResolveFrom(opts, id, |opts| + 1)
  }

  method ResolveLoop(opts: seq<Opt>, start: Id) returns (id: Id, ok: bool)
    ensures (id, ok) == Resolve(opts, start)
  {
    id := start;
    for i := 0 to |opts| + 1
      invariant ResolveFrom(opts, id, |opts| + 1 - i) == Resolve(opts, start)
    {
      var o := Find(opts, id);
      if o.None? {
        return id, false;
      }
      if o.value.status.Merged? && o.value.mergedInto != "" {
        id := o.value.mergedInto;
      } else {
        return o.value.id, o.value.status.Approved?;
      }
    }
    return id, false;
  }

  /******* Chains: what "following the pointers" means, with no loop bound *******/

  ghost predicate Chain(opts: seq<Opt>, path: seq<Id>) {
    |path| > 0
    && forall i | 0 <= i < |path| - 1 :: Forwards(opts, path[i]) && path[i + 1] == Next(opts, path[i])
  }

  // A chain followed all the way to an id that points nowhere.
  ghost predicate EndingChain(opts: seq<Opt>, path: seq<Id>) {
    Chain(opts, path) && !Forwards(opts, path[|path| - 1])
  }

  ghost predicate EndsAt(opts: seq<Opt>, id: Id, end: Id) {
    exists path :: EndingChain(opts, path) && path[0] == id && path[|path| - 1] == end
  }

  ghost predicate Ends(opts: seq<Opt>, id: Id) {
    exists path :: EndingChain(opts, path) && path[0] == id
  }

  lemma {:induction false} ChainShift(opts: seq<Opt>, path: seq<Id>, i: nat, j: nat, k: nat)
    requires Chain(opts, path) && i <= j && j + k < |path| && path[i] == path[j]
    ensures path[i + k] == path[j + k]
  {
    if k > 0 {
      ChainShift(opts, path, i, j, k - 1);
      assert Forwards(opts, path[i + (k - 1)]) && Forwards(opts, path[j + (k - 1)]);
      assert path[i + (k - 1) + 1] == Next(opts, path[i + (k - 1)]);
      assert path[j + (k - 1) + 1] == Next(opts, path[j + (k - 1)]);
    }
  }

  lemma {:induction false} EndingChainVisitsOnce(opts: seq<Opt>, path: seq<Id>, i: nat, j: nat)
    requires EndingChain(opts, path) && i < j < |path|
    ensures path[i] != path[j]
  {
    if path[i] == path[j] {
      var k := |path| - 1 - j;
      ChainShift(opts, path, i, j, k);
      assert false;
    }
  }

  // Pigeonhole: an ending chain hops at most once per option.
  lemma {:induction false} EndingChainLength(opts: seq<Opt>, path: seq<Id>)
    requires EndingChain(opts, path)
    ensures |path| <= |opts| + 1
    ensures |path| == |opts| + 1 ==> path[|path| - 1] !in Ids(opts)
  {
    forall i, j | 0 <= i < j < |path| ensures path[i] != path[j] {
      EndingChainVisitsOnce(opts, path, i, j);
    }
    var hops := path[..|path| - 1];
    DistinctSize(hops);
    forall x | x in Elements(hops) ensures x in Ids(opts) {
      var i :| 0 <= i < |hops| && hops[i] == x;
      assert Forwards(opts, path[i]);
    }
    IdsBound(opts);
    SubsetSize(Elements(hops), Ids(opts));
    if path[|path| - 1] in Ids(opts) {
      DistinctSize(path);
      assert path == hops + [path[|path| - 1]];
      assert Elements(path) == Elements(hops) + {path[|path| - 1]};
      SubsetSize(Elements(path), Ids(opts));
    }
  }

  lemma {:induction false} ChainRest(opts: seq<Opt>, path: seq<Id>)
    requires Chain(opts, path) && |path| > 1
    ensures Chain(opts, path[1..]) && Forwards(opts, path[0]) && path[1] == Next(opts, path[0])
  {
    var rest := path[1..];
    forall i | 0 <= i < |rest| - 1 ensures Forwards(opts, rest[i]) && rest[i + 1] == Next(opts, rest[i]) {
      assert Forwards(opts, path[i + 1]);
    }
    assert Forwards(opts, path[0]);
  }

  lemma {:induction false} WalkChain(opts: seq<Opt>, path: seq<Id>, fuel: nat)
    requires EndingChain(opts, path) && fuel + 1 >= |path|
    ensures ResolveFrom(opts, path[0], fuel)
         == (path[|path| - 1], fuel >= |path| && IsApproved(opts, path[|path| - 1]))
    decreases |path|
  {
    if |path| > 1 {
      assert Forwards(opts, path[0]) && path[1] == Next(opts, path[0]);
      ChainRest(opts, path);
      WalkChain(opts, path[1..], fuel - 1);
    }
  }

  // On every chain that ends, Resolve returns the true end and whether it is
  // approved.
  lemma {:induction false} ResolveFindsTheEnd(opts: seq<Opt>, path: seq<Id>)
    requires EndingChain(opts, path)
    ensures Resolve(opts, path[0]) == (path[|path| - 1], IsApproved(opts, path[|path| - 1]))
  {
    EndingChainLength(opts, path);
    WalkChain(opts, path, |opts| + 1);
  }

  lemma {:induction false} PrependChain(opts: seq<Opt>, id: Id, path: seq<Id>)
    requires Forwards(opts, id) && EndingChain(opts, path) && path[0] == Next(opts, id)
    ensures Ends(opts, id)
  {
    var longer := [id] + path;
    forall i | 0 <= i < |longer| - 1
      ensures Forwards(opts, longer[i]) && longer[i + 1] == Next(opts, longer[i])
    {
      if i > 0 {
        assert longer[i] == path[i - 1] && longer[i + 1] == path[i - 1 + 1];
      }
    }
    assert EndingChain(opts, longer) && longer[0] == id;
  }

  lemma {:induction false} NotEndingForwards(opts: seq<Opt>, id: Id)
    requires !Ends(opts, id)
    ensures Forwards(opts, id) && !Ends(opts, Next(opts, id))
  {
    var path := [id];
    assert path[0] == id && (!Forwards(opts, id) ==> EndingChain(opts, path));
    forall path | EndingChain(opts, path) ensures path[0] != Next(opts, id) {
      if path[0] == Next(opts, id) {
        PrependChain(opts, id, path);
      }
    }
  }

  lemma {:induction false} CyclicWalk(opts: seq<Opt>, id: Id, fuel: nat)
    requires !Ends(opts, id)
    ensures !ResolveFrom(opts, id, fuel).1
    ensures !Ends(opts, ResolveFrom(opts, id, fuel).0)
    decreases fuel
  {
    NotEndingForwards(opts, id);
    if fuel > 0 {
      CyclicWalk(opts, Next(opts, id), fuel - 1);
    }
  }

  // On every chain that never ends, Resolve says "not counted" and returns an
  // id whose option is still merged.
  lemma {:induction false} ResolveOnACycle(opts: seq<Opt>, id: Id)
    requires !Ends(opts, id)
    ensures !Resolve(opts, id).1 && Forwards(opts, Resolve(opts, id).0)
  {
    CyclicWalk(opts, id, |opts| + 1);
    NotEndingForwards(opts, Resolve(opts, id).0);
  }

  // The two cases together: the id Resolve returns points nowhere exactly when
  // the chain ends, and then it is the end.
  lemma {:induction false} ResolveDecidesEnding(opts: seq<Opt>, id: Id)
    ensures Ends(opts, id) <==> !Forwards(opts, Resolve(opts, id).0)
    ensures Ends(opts, id) ==> EndsAt(opts, id, Resolve(opts, id).0)
    ensures Resolve(opts, id).1 <==> Ends(opts, id) && IsApproved(opts, Resolve(opts, id).0)
  {
    if Ends(opts, id) {
      var path :| EndingChain(opts, path) && path[0] == id;
      ResolveFindsTheEnd(opts, path);
    } else {
      ResolveOnACycle(opts, id);
    }
  }

  // One iteration fewer than the loop allows gives the same answer on every
  // chain that ends.
  lemma {:induction false} OneIterationFewerSuffices(opts: seq<Opt>, id: Id)
    requires Ends(opts, id)
    ensures ResolveFrom(opts, id, |opts|) == Resolve(opts, id)
  {
    var path :| EndingChain(opts, path) && path[0] == id;
    EndingChainLength(opts, path);
    WalkChain(opts, path, |opts|);
    ResolveFindsTheEnd(opts, path);
  }

  // n options, each merged into the next, the last one approved.
  function Name(i: nat): Id {
    seq(i + 1, _ => 'a')
  }

  function Link(n: nat, i: nat): Opt {
    Opt(Name(i), "x", if i + 1 < n then Merged else Approved, Editor, if i + 1 < n then Name(i + 1) else "", 1)
  }

  function Ladder(n: nat): seq<Opt> {
    seq(n, i requires 0 <= i < n => Link(n, i))
  }

  lemma {:induction false} LadderFind(n: nat, i: nat)
    requires i < n
    ensures Find(Ladder(n), Name(i)) == Some(Link(n, i))
  {
    var opts := Ladder(n);
    forall i, j | 0 <= i < j < n ensures opts[i].id != opts[j].id {
      assert |opts[i].id| == i + 1 && |opts[j].id| == j + 1;
    }
    FindAt(opts, i);
  }

  lemma {:induction false} LadderChain(n: nat, path: seq<Id>)
    requires n >= 1 && path == seq(n, i requires 0 <= i < n => Name(i))
    ensures EndingChain(Ladder(n), path) && IsApproved(Ladder(n), path[n - 1])
  {
    forall i | 0 <= i < n - 1
      ensures Forwards(Ladder(n), path[i]) && path[i + 1] == Next(Ladder(n), path[i])
    {
      LadderFind(n, i);
      assert |Name(i + 1)| > 0;
    }
    LadderFind(n, n - 1);
  }

  // Two iterations fewer is too few, whatever the number of options.
  lemma {:induction false} TwoIterationsFewerFails(n: nat)
    requires n >= 1
    ensures |Ladder(n)| == n && Ends(Ladder(n), Name(0))
    ensures ResolveFrom(Ladder(n), Name(0), n - 1) != Resolve(Ladder(n), Name(0))
  {
    var path := seq(n, i requires 0 <= i < n => Name(i));
    LadderChain(n, path);
    WalkChain(Ladder(n), path, n - 1);
    ResolveFindsTheEnd(Ladder(n), path);
  }

  lemma {:induction false} IdFollows(opts: seq<Opt>, id: Id, o: Opt)
    requires Distinct(opts) && o in opts && o.id == id
    ensures Forwards(opts, id) <==> o.status.Merged? && o.mergedInto != ""
    ensures Forwards(opts, id) ==> Next(opts, id) == o.mergedInto
    ensures IsApproved(opts, id) <==> o.status.Approved?
  {
    FindMember(opts, o);
  }

  lemma {:induction false} StopsAtOnce(opts: seq<Opt>, id: Id)
    requires !Forwards(opts, id)
    ensures Resolve(opts, id) == (id, IsApproved(opts, id))
  {}

  /******* Editing one option *******/

  // The edits that matter: option k stops pointing, or points at another option
  // that points nowhere.
  ghost predicate SafeEdit(opts: seq<Opt>, k: nat, o: Opt) {
    Distinct(opts) && k < |opts| && o.id == opts[k].id
    && (o.status.Merged? && o.mergedInto != "" ==> o.mergedInto != o.id && !Forwards(opts, o.mergedInto))
  }

  function EndAfter(o: Opt): Id {
    if o.status.Merged? && o.mergedInto != "" then o.mergedInto else o.id
  }

  lemma {:induction false} EditedOption(opts: seq<Opt>, k: nat, o: Opt, id: Id)
    requires SafeEdit(opts, k, o)
    ensures Distinct(opts[k := o])
    ensures id != o.id ==> Forwards(opts[k := o], id) == Forwards(opts, id)
    ensures id != o.id && Forwards(opts, id) ==> Next(opts[k := o], id) == Next(opts, id)
    ensures id != o.id ==> IsApproved(opts[k := o], id) == IsApproved(opts, id)
    ensures Forwards(opts[k := o], o.id) <==> o.status.Merged? && o.mergedInto != ""
    ensures Forwards(opts[k := o], o.id) ==> Next(opts[k := o], o.id) == o.mergedInto
    ensures !Forwards(opts[k := o], EndAfter(o))
  {
    FindAfterUpdate(opts, k, o, id);
    FindAfterUpdate(opts, k, o, o.id);
    FindAfterUpdate(opts, k, o, EndAfter(o));
  }

  // A stretch of chain that does not start from option k is a chain after the
  // edit too.
  lemma {:induction false} ChainAvoidingEdit(opts: seq<Opt>, k: nat, o: Opt, path: seq<Id>)
    requires SafeEdit(opts, k, o) && Chain(opts, path)
    requires forall j | 0 <= j < |path| - 1 :: path[j] != o.id
    ensures Chain(opts[k := o], path)
  {
    forall i | 0 <= i < |path| - 1
      ensures Forwards(opts[k := o], path[i]) && path[i + 1] == Next(opts[k := o], path[i])
    {
      EditedOption(opts, k, o, path[i]);
    }
  }

  lemma {:induction false} ChainThroughEdit(opts: seq<Opt>, k: nat, o: Opt, path: seq<Id>) returns (after: seq<Id>)
    requires SafeEdit(opts, k, o) && Chain(opts, path) && path[|path| - 1] == o.id
    requires forall j | 0 <= j < |path| - 1 :: path[j] != o.id
    ensures EndingChain(opts[k := o], after) && after[0] == path[0] && after[|after| - 1] == EndAfter(o)
  {
    ChainAvoidingEdit(opts, k, o, path);
    EditedOption(opts, k, o, o.id);
    if EndAfter(o) == o.id {
      after := path;
    } else {
      after := path + [EndAfter(o)];
      forall i | 0 <= i < |after| - 1
        ensures Forwards(opts[k := o], after[i]) && after[i + 1] == Next(opts[k := o], after[i])
      {
        if i < |path| - 1 {
          assert after[i] == path[i] && after[i + 1] == path[i + 1];
        }
      }
    }
  }

  // A chain that did not touch option k is unchanged; one that did now stops
  // where k's new pointer says.
  lemma {:induction false} ChainAfterEdit(opts: seq<Opt>, k: nat, o: Opt, path: seq<Id>) returns (after: seq<Id>)
    requires SafeEdit(opts, k, o) && EndingChain(opts, path)
    ensures EndingChain(opts[k := o], after) && after[0] == path[0]
    ensures o.id !in path ==> after == path
    ensures o.id in path ==> after[|after| - 1] == EndAfter(o)
  {
    if o.id in path {
      var i :| 0 <= i < |path| && path[i] == o.id;
      forall j | 0 <= j < i ensures path[j] != o.id {
        EndingChainVisitsOnce(opts, path, j, i);
      }
      after := ChainThroughEdit(opts, k, o, path[..i + 1]);
    } else {
      ChainAvoidingEdit(opts, k, o, path);
      EditedOption(opts, k, o, path[|path| - 1]);
      after := path;
    }
  }

  lemma {:induction false} EndingSurvivesEdit(opts: seq<Opt>, k: nat, o: Opt, id: Id)
    requires SafeEdit(opts, k, o) && Ends(opts, id)
    ensures Ends(opts[k := o], id)
  {
    var path :| EndingChain(opts, path) && path[0] == id;
    var after := ChainAfterEdit(opts, k, o, path);
  }

  /******* Leading to an id *******/

  // Following pointers from id passes through x.
  ghost predicate Leads(opts: seq<Opt>, id: Id, x: Id) {
    exists path :: Chain(opts, path) && path[0] == id && path[|path| - 1] == x
  }

  lemma {:induction false} LeadsToItself(opts: seq<Opt>, x: Id)
    ensures Leads(opts, x, x)
  {
    var path := [x];
    assert Chain(opts, path) && path[0] == x && path[|path| - 1] == x;
  }

  lemma {:induction false} LeadsBefore(opts: seq<Opt>, id: Id, x: Id)
    requires Forwards(opts, id) && Leads(opts, Next(opts, id), x)
    ensures Leads(opts, id, x)
  {
    var path :| Chain(opts, path) && path[0] == Next(opts, id) && path[|path| - 1] == x;
    var longer := [id] + path;
    forall i | 0 <= i < |longer| - 1
      ensures Forwards(opts, longer[i]) && longer[i + 1] == Next(opts, longer[i])
    {
      if i > 0 {
        assert longer[i] == path[i - 1] && longer[i + 1] == path[i - 1 + 1];
      }
    }
    assert Chain(opts, longer) && longer[0] == id && longer[|longer| - 1] == x;
  }

  lemma {:induction false} FirstArrival(opts: seq<Opt>, path: seq<Id>) returns (first: seq<Id>)
    requires Chain(opts, path)
    ensures Chain(opts, first) && first[0] == path[0] && first[|first| - 1] == path[|path| - 1]
    ensures forall j | 0 <= j < |first| - 1 :: first[j] != path[|path| - 1]
    decreases |path|
  {
    if j :| 0 <= j < |path| - 1 && path[j] == path[|path| - 1] {
      first := FirstArrival(opts, path[..j + 1]);
    } else {
      first := path;
    }
  }

  // a and b may differ in where x points and in what is approved, and no more.
  ghost predicate PointAlikeButFor(a: seq<Opt>, b: seq<Opt>, x: Id) {
    forall id | id != x ::
      Forwards(a, id) == Forwards(b, id) && (Forwards(a, id) ==> Next(a, id) == Next(b, id))
  }

  // Whatever is done to an option, the same ids lead to it.
  lemma {:induction false} LeadAlike(a: seq<Opt>, b: seq<Opt>, id: Id, x: Id)
    requires PointAlikeButFor(a, b, x)
    ensures Leads(a, id, x) <==> Leads(b, id, x)
  {
    if Leads(a, id, x) {
      LeadsThere(a, b, id, x);
    }
    if Leads(b, id, x) {
      LeadsThere(b, a, id, x);
    }
  }

  lemma {:induction false} LeadsThere(a: seq<Opt>, b: seq<Opt>, id: Id, x: Id)
    requires PointAlikeButFor(a, b, x) && Leads(a, id, x)
    ensures Leads(b, id, x)
  {
    var path :| Chain(a, path) && path[0] == id && path[|path| - 1] == x;
    var first := FirstArrival(a, path);
    assert forall j | 0 <= j < |first| - 1 :: first[j] != x && Forwards(b, first[j]);
    assert Chain(b, first);
  }

  lemma {:induction false} EditPointsAlike(opts: seq<Opt>, k: nat, o: Opt)
    requires Distinct(opts) && k < |opts| && o.id == opts[k].id
    ensures PointAlikeButFor(opts, opts[k := o], o.id)
    ensures forall id | id != o.id :: IsApproved(opts[k := o], id) == IsApproved(opts, id)
  {
    forall id | id != o.id ensures Find(opts[k := o], id) == Find(opts, id) {
      FindAfterUpdate(opts, k, o, id);
    }
  }

  lemma {:induction false} LeadersGoToTheNewEnd(opts: seq<Opt>, k: nat, o: Opt, id: Id)
    requires SafeEdit(opts, k, o) && Leads(opts, id, o.id)
    ensures Resolve(opts[k := o], id) == (EndAfter(o), IsApproved(opts[k := o], EndAfter(o)))
  {
    var path :| Chain(opts, path) && path[0] == id && path[|path| - 1] == o.id;
    var first := FirstArrival(opts, path);
    var after := ChainThroughEdit(opts, k, o, first);
    ResolveFindsTheEnd(opts[k := o], after);
  }

  lemma {:induction false} OthersWalkAlike(a: seq<Opt>, b: seq<Opt>, x: Id, id: Id, fuel: nat)
    requires PointAlikeButFor(a, b, x) && !Leads(a, id, x)
    requires forall y | y != x :: IsApproved(b, y) == IsApproved(a, y)
    ensures ResolveFrom(b, id, fuel) == ResolveFrom(a, id, fuel)
    decreases fuel
  {
    LeadsToItself(a, x);
    if fuel > 0 && Forwards(a, id) {
      if Leads(a, Next(a, id), x) {
        LeadsBefore(a, id, x);
      }
      OthersWalkAlike(a, b, x, Next(a, id), fuel - 1);
    }
  }

  lemma {:induction false} OthersResolveAlike(a: seq<Opt>, b: seq<Opt>, x: Id, id: Id)
    requires |a| == |b| && PointAlikeButFor(a, b, x) && !Leads(a, id, x)
    requires forall y | y != x :: IsApproved(b, y) == IsApproved(a, y)
    ensures Resolve(b, id) == Resolve(a, id)
  {
    OthersWalkAlike(a, b, x, id, |a| + 1);
  }

  // Editing an option, merged before or not, re-routes exactly the ids that lead
  // to it, on any graph, cyclic or not.
  lemma {:induction false} EditReroutesLeaders(opts: seq<Opt>, k: nat, o: Opt, id: Id)
    requires SafeEdit(opts, k, o)
    ensures Resolve(opts[k := o], id)
         == if Leads(opts, id, o.id) then (EndAfter(o), IsApproved(opts[k := o], EndAfter(o))) else Resolve(opts, id)
  {
    if Leads(opts, id, o.id) {
      LeadersGoToTheNewEnd(opts, k, o, id);
    } else {
      EditPointsAlike(opts, k, o);
      OthersResolveAlike(opts, opts[k := o], o.id, id);
    }
  }

  // For an id that points nowhere, leading to it is resolving to it.
  lemma {:induction false} LeadsToAnEnd(opts: seq<Opt>, id: Id, x: Id)
    requires !Forwards(opts, x)
    ensures Leads(opts, id, x) <==> Resolve(opts, id).0 == x
  {
    if Leads(opts, id, x) {
      var path :| Chain(opts, path) && path[0] == id && path[|path| - 1] == x;
      assert EndingChain(opts, path);
      ResolveFindsTheEnd(opts, path);
    }
    if Resolve(opts, id).0 == x {
      ResolveDecidesEnding(opts, id);
      var path :| EndingChain(opts, path) && path[0] == id && path[|path| - 1] == x;
      assert Chain(opts, path);
    }
  }

  // Leading to x is sharing its fate.
  lemma {:induction false} LeadersShareTheEnd(opts: seq<Opt>, id: Id, x: Id)
    requires Leads(opts, id, x) && Ends(opts, x)
    ensures Resolve(opts, id) == Resolve(opts, x)
  {
    var path :| Chain(opts, path) && path[0] == id && path[|path| - 1] == x;
    var rest :| EndingChain(opts, rest) && rest[0] == x;
    var whole := path + rest[1..];
    forall i | 0 <= i < |whole| - 1 ensures Forwards(opts, whole[i]) && whole[i + 1] == Next(opts, whole[i]) {
      if i >= |path| - 1 {
        var j := i - (|path| - 1);
        assert whole[i] == rest[j] && whole[i + 1] == rest[j + 1];
      }
    }
    assert whole[|whole| - 1] == rest[|rest| - 1];
    assert EndingChain(opts, whole);
    ResolveFindsTheEnd(opts, whole);
    ResolveFindsTheEnd(opts, rest);
  }

  lemma {:induction false} EndsAlong(opts: seq<Opt>, path: seq<Id>)
    requires Chain(opts, path) && Ends(opts, path[0])
    ensures Ends(opts, path[|path| - 1])
    decreases |path|
  {
    if |path| > 1 {
      var ending :| EndingChain(opts, ending) && ending[0] == path[0];
      assert Forwards(opts, path[0]) && path[1] == Next(opts, path[0]);
      ChainRest(opts, ending);
      ChainRest(opts, path);
      assert EndingChain(opts, ending[1..]) && ending[1..][0] == path[1];
      EndsAlong(opts, path[1..]);
    }
  }

  // What counts and leads to x counts for the end of x.
  lemma {:induction false} CountingLeader(opts: seq<Opt>, id: Id, x: Id)
    requires Leads(opts, id, x) && Resolve(opts, id).1
    ensures Resolve(opts, id) == Resolve(opts, x)
  {
    ResolveDecidesEnding(opts, id);
    var path :| Chain(opts, path) && path[0] == id && path[|path| - 1] == x;
    EndsAlong(opts, path);
    LeadersShareTheEnd(opts, id, x);
  }

  // Editing an option that pointed nowhere (merging it, say) re-routes exactly
  // the ids that resolved to it.
  lemma {:induction false} EditMovesExactly(opts: seq<Opt>, k: nat, o: Opt, id: Id)
    requires SafeEdit(opts, k, o) && !Forwards(opts, o.id)
    ensures Resolve(opts[k := o], id)
         == if Resolve(opts, id).0 == o.id then (EndAfter(o), IsApproved(opts[k := o], EndAfter(o)))
            else Resolve(opts, id)
  {
    EditReroutesLeaders(opts, k, o, id);
    LeadsToAnEnd(opts, id, o.id);
  }
}
