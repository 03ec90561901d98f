// The ballot a respondent is shown.
module Ballot {
  import opened Model
  import opened Submission

  // The options named by pending that await moderation, in that order.
  function OwnPending(opts: seq<Opt>, pending: seq<Id>): seq<Opt> {
    if pending == [] then []
    else
      var o := Find(opts, pending[0]);
      (if o.Some? && o.value.status.Pending? then [o.value] else []) + OwnPending(opts, pending[1..])
  }

  function Swapped<T>(s: seq<T>, i: nat, j: nat): seq<T>
    requires i < |s| && j < |s|
  {
    s[i := s[j]][j := s[i]]
  }

  // What a shuffle does: the swaps the seeded generator asks for, in order.
  function Shuffled<T>(s: seq<T>, swaps: seq<(nat, nat)>): seq<T>
    requires forall w | w in swaps :: w.0 < |s| && w.1 < |s|
    decreases |swaps|
  {
    if swaps == [] then s
    else
      assert forall w | w in swaps[1..] :: w in swaps;
      Shuffled(Swapped(s, swaps[0].0, swaps[0].1), swaps[1..])
  }

  predicate Shuffles(noRandomize: bool, n: nat) {
    !noRandomize && n > 1
  }

  function BallotOf(opts: seq<Opt>, noRandomize: bool, pending: seq<Id>, swaps: seq<(nat, nat)>): seq<Opt>
    requires forall w | w in swaps :: w.0 < |ApprovedOnly(opts)| && w.1 < |ApprovedOnly(opts)|
  {
    var approved := ApprovedOnly(opts);
    (if Shuffles(noRandomize, |approved|) then Shuffled(approved, swaps) else approved) + OwnPending(opts, pending)
  }

  // rand.Shuffle, in place.
  method Shuffle(a: array<Opt>, swaps: seq<(nat, nat)>)
    requires forall w | w in swaps :: w.0 < a.Length && w.1 < a.Length
    modifies a
    ensures a[..] == Shuffled(old(a[..]), swaps)
  {
    for n := 0 to |swaps|
      invariant forall w | w in swaps[n..] :: w.0 < a.Length && w.1 < a.Length
      invariant Shuffled(a[..], swaps[n..]) == Shuffled(old(a[..]), swaps)
    {
      assert swaps[n..][1..] == swaps[n + 1..] && swaps[n] in swaps;
      var i, j := swaps[n].0, swaps[n].1;
      ghost var before := a[..];
      a[i], a[j] := a[j], a[i];
      assert a[..] == Swapped(before, i, j);
    }
  }

  // Ballot, for a respondent with no suggestions.
  method ListApproved(opts: seq<Opt>) returns (listed: seq<Opt>)
    ensures listed == ApprovedOnly(opts)
  {
    listed := [];
    for i := 0 to |opts|
      invariant listed + ApprovedOnly(opts[i..]) == ApprovedOnly(opts)
    {
      assert opts[i..][1..] == opts[i + 1..];
      if opts[i].status.Approved? {
        listed := listed + [opts[i]];
      }
    }
  }

  // BallotFor
  method BallotFor(opts: seq<Opt>, noRandomize: bool, pending: seq<Id>, swaps: seq<(nat, nat)>)
    returns (ballot: seq<Opt>)
    requires forall w | w in swaps :: w.0 < |ApprovedOnly(opts)| && w.1 < |ApprovedOnly(opts)|
    ensures ballot == BallotOf(opts, noRandomize, pending, swaps)
  {
    var listed := ListApproved(opts);
    var approved := new Opt[|listed|](i requires 0 <= i < |listed| => listed[i]);
    assert approved[..] == listed;
    if !noRandomize && approved.Length > 1 {
      Shuffle(approved, swaps);
    }
    ballot := AppendPending(opts, approved[..], pending);
  }

  method AppendPending(opts: seq<Opt>, head: seq<Opt>, pending: seq<Id>) returns (ballot: seq<Opt>)
    ensures ballot == head + OwnPending(opts, pending)
  {
    ballot := head;
    for i := 0 to |pending|
      invariant ballot + OwnPending(opts, pending[i..]) == head + OwnPending(opts, pending)
    {
      assert pending[i..][1..] == pending[i + 1..];
      var o := Find(opts, pending[i]);
      if o.Some? && o.value.status.Pending? {
        ballot := ballot + [o.value];
      }
    }
  }

  /******* The ballot is the visible options, each once *******/

  lemma {:induction false} SwapKeepsElements<T>(s: seq<T>, i: nat, j: nat)
    requires i < |s| && j < |s| && NoRepeats(s)
    ensures NoRepeats(Swapped(s, i, j)) && Elements(Swapped(s, i, j)) == Elements(s)
  {
    var t := Swapped(s, i, j);
    forall x ensures x in t <==> x in s {
      if x in s {
        var k :| 0 <= k < |s| && s[k] == x;
        assert t[if k == i then j else if k == j then i else k] == x;
      }
    }
  }

  lemma {:induction false} ShuffleKeepsElements<T>(s: seq<T>, swaps: seq<(nat, nat)>)
    requires NoRepeats(s) && forall w | w in swaps :: w.0 < |s| && w.1 < |s|
    ensures var t := Shuffled(s, swaps); |t| == |s| && NoRepeats(t) && Elements(t) == Elements(s)
    decreases |swaps|
  {
    if swaps != [] {
      SwapKeepsElements(s, swaps[0].0, swaps[0].1);
      assert forall w | w in swaps[1..] :: w in swaps;
      ShuffleKeepsElements(Swapped(s, swaps[0].0, swaps[0].1), swaps[1..]);
    }
  }

  // Shuffling one option or none changes nothing, so leaving it out does not
  // either.
  lemma {:induction false} ShortStays<T>(s: seq<T>, swaps: seq<(nat, nat)>)
    requires forall w | w in swaps :: w.0 < |s| && w.1 < |s|
    ensures |s| <= 1 ==> Shuffled(s, swaps) == s
    decreases |swaps|
  {
    if swaps != [] && |s| <= 1 {
      assert swaps[0] in swaps;
      assert Swapped(s, swaps[0].0, swaps[0].1) == s;
      assert forall w | w in swaps[1..] :: w in swaps;
      ShortStays(s, swaps[1..]);
    }
  }

  lemma {:induction false} ApprovedMembers(opts: seq<Opt>)
    requires Distinct(opts)
    ensures NoRepeats(ApprovedOnly(opts))
    ensures forall o :: o in ApprovedOnly(opts) <==> o in opts && o.status.Approved?
  {
    if opts != [] {
      ApprovedMembers(opts[1..]);
      assert opts == [opts[0]] + opts[1..];
      forall j | 0 <= j < |opts[1..]| ensures opts[1..][j] != opts[0] {
        assert opts[0].id != opts[j + 1].id;
      }
      assert opts[0] !in ApprovedOnly(opts[1..]);
    }
  }

  lemma {:induction false} PendingMembers(opts: seq<Opt>, pending: seq<Id>)
    requires Distinct(opts) && NoRepeats(pending)
    ensures NoRepeats(OwnPending(opts, pending))
    ensures forall o :: o in OwnPending(opts, pending) <==> o in opts && o.status.Pending? && o.id in pending
  {
    if pending != [] {
      PendingMembers(opts, pending[1..]);
      assert pending == [pending[0]] + pending[1..];
      assert pending[0] !in pending[1..];
      forall o | o in opts && o.id == pending[0] ensures Find(opts, pending[0]) == Some(o) {
        FindMember(opts, o);
      }
    }
  }

  ghost predicate GivenBefore(pending: seq<Id>, a: Opt, b: Opt) {
    exists p, q :: 0 <= p < q < |pending| && pending[p] == a.id && pending[q] == b.id
  }

  ghost predicate Ordered(pending: seq<Id>, own: seq<Opt>) {
    forall i, j | 0 <= i < j < |own| :: GivenBefore(pending, own[i], own[j])
  }

  // The respondent's own suggestions stand in the order they were given.
  lemma {:induction false} OwnPendingInOrder(opts: seq<Opt>, pending: seq<Id>)
    ensures Ordered(pending, OwnPending(opts, pending))
  {
    if pending != [] {
      var rest, own := OwnPending(opts, pending[1..]), OwnPending(opts, pending);
      OwnPendingInOrder(opts, pending[1..]);
      OwnPendingNamed(opts, pending[1..]);
      var shift := |own| - |rest|;
      forall i, j | 0 <= i < j < |own|
        ensures GivenBefore(pending, own[i], own[j])
      {
        assert own[j] == rest[j - shift];
        if i >= shift {
          assert own[i] == rest[i - shift];
          var a, c := i - shift, j - shift;
          assert 0 <= a < c < |rest|;
          assert GivenBefore(pending[1..], rest[a], rest[c]);
          var p, q :| 0 <= p < q < |pending[1..]| && pending[1..][p] == own[i].id && pending[1..][q] == own[j].id;
          assert pending[p + 1] == own[i].id && pending[q + 1] == own[j].id;
        } else {
          var q :| 0 <= q < |pending[1..]| && pending[1..][q] == own[j].id;
          assert pending[0] == own[i].id && pending[q + 1] == own[j].id;
        }
      }
    }
  }

  lemma {:induction false} OwnPendingNamed(opts: seq<Opt>, pending: seq<Id>)
    ensures forall o | o in OwnPending(opts, pending) :: o.id in pending
  {
    if pending != [] {
      OwnPendingNamed(opts, pending[1..]);
      assert forall id | id in pending[1..] :: id in pending;
      assert pending[0] in pending;
    }
  }

  // For any shuffle: the approved options first, a reordering of the editor's
  // list, then the respondent's own pending ones; together they are exactly the
  // options a submission from this respondent may pick, each listed once.
  lemma {:induction false} BallotIsExactlyWhatIsVisible(opts: seq<Opt>, noRandomize: bool, pending: seq<Id>,
      swaps: seq<(nat, nat)>)
    requires Distinct(opts) && "" !in Ids(opts) && NoRepeats(pending)
    requires forall w | w in swaps :: w.0 < |ApprovedOnly(opts)| && w.1 < |ApprovedOnly(opts)|
    ensures var ballot, n := BallotOf(opts, noRandomize, pending, swaps), |ApprovedOnly(opts)|;
      NoRepeats(ballot)
      && (forall o :: o in ballot <==> o in opts && Visible(o, Elements(pending), ""))
      && n <= |ballot|
      && NoRepeats(ballot[..n]) && Elements(ballot[..n]) == Elements(ApprovedOnly(opts))
      && ballot[..n] == (if noRandomize then ApprovedOnly(opts) else Shuffled(ApprovedOnly(opts), swaps))
      && ballot[n..] == OwnPending(opts, pending)
  {
    var approved := ApprovedOnly(opts);
    ApprovedMembers(opts);
    PendingMembers(opts, pending);
    ShuffleKeepsElements(approved, swaps);
    ShortStays(approved, swaps);
    var head := if Shuffles(noRandomize, |approved|) then Shuffled(approved, swaps) else approved;
    var ballot := BallotOf(opts, noRandomize, pending, swaps);
    assert |head| == |approved| && NoRepeats(head) && Elements(head) == Elements(approved);
    assert ballot == head + OwnPending(opts, pending);
    assert ballot[..|head|] == head && ballot[|head|..] == OwnPending(opts, pending);
    BallotMembers(opts, head, pending);
  }

  lemma {:induction false} BallotMembers(opts: seq<Opt>, head: seq<Opt>, pending: seq<Id>)
    requires Distinct(opts) && "" !in Ids(opts) && NoRepeats(head)
    requires Elements(head) == Elements(ApprovedOnly(opts))
    requires forall o :: o in ApprovedOnly(opts) <==> o in opts && o.status.Approved?
    requires NoRepeats(OwnPending(opts, pending))
    requires forall o :: o in OwnPending(opts, pending) <==> o in opts && o.status.Pending? && o.id in pending
    ensures NoRepeats(head + OwnPending(opts, pending))
    ensures forall o :: o in head + OwnPending(opts, pending) <==> o in opts && Visible(o, Elements(pending), "")
  {
    var tail := OwnPending(opts, pending);
    forall o ensures o in head <==> o in opts && o.status.Approved? {
      assert o in head <==> o in Elements(head);
      assert o in ApprovedOnly(opts) <==> o in Elements(ApprovedOnly(opts));
    }
    forall o | o in opts ensures o.id != "" {
    }
    forall o ensures o in head + tail <==> o in opts && Visible(o, Elements(pending), "") {
    }
    forall i, j | 0 <= i < |head| && 0 <= j < |tail| ensures head[i] != tail[j] {
      assert head[i] in head && tail[j] in tail;
    }
  }

  // Whatever happens among options off the general ballot, and however many
  // suggestions join the end.
  ghost predicate SameApprovals(a: seq<Opt>, b: seq<Opt>) {
    |a| <= |b|
    && (forall i | 0 <= i < |a| :: a[i] == b[i] || (!a[i].status.Approved? && !b[i].status.Approved?))
    && forall i | |a| <= i < |b| :: !b[i].status.Approved?
  }

  lemma {:induction false} ApprovedUnchanged(a: seq<Opt>, b: seq<Opt>)
    requires SameApprovals(a, b)
    ensures ApprovedOnly(a) == ApprovedOnly(b)
    decreases |b|
  {
    if b != [] {
      ApprovedUnchanged(if a == [] then [] else a[1..], b[1..]);
    }
  }

  // The same respondent gets the same order of approved options, whatever
  // happened meanwhile to suggestions, their own or others', short of approval.
  lemma {:induction false} ApprovedOrderIsStable(opts: seq<Opt>, later: seq<Opt>, noRandomize: bool,
      pending: seq<Id>, pendingLater: seq<Id>, swaps: seq<(nat, nat)>)
    requires SameApprovals(opts, later)
    requires forall w | w in swaps :: w.0 < |ApprovedOnly(opts)| && w.1 < |ApprovedOnly(opts)|
    ensures forall w | w in swaps :: w.0 < |ApprovedOnly(later)| && w.1 < |ApprovedOnly(later)|
    ensures var n := |ApprovedOnly(opts)|;
      var a, b := BallotOf(opts, noRandomize, pending, swaps), BallotOf(later, noRandomize, pendingLater, swaps);
      n <= |a| && n <= |b| && a[..n] == b[..n]
  {
    ApprovedUnchanged(opts, later);
    ShuffledLength(ApprovedOnly(opts), swaps);
  }

  lemma {:induction false} ShuffledLength<T>(s: seq<T>, swaps: seq<(nat, nat)>)
    requires forall w | w in swaps :: w.0 < |s| && w.1 < |s|
    ensures |Shuffled(s, swaps)| == |s|
    decreases |swaps|
  {
    if swaps != [] {
      assert forall w | w in swaps[1..] :: w in swaps;
      ShuffledLength(Swapped(s, swaps[0].0, swaps[0].1), swaps[1..]);
    }
  }
}
