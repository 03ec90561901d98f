// Counting votes and exposures through merge pointers.
module Tally {
  import opened Model
  import opened MergeGraph
  import opened Editing

  datatype TallyRow = TallyRow(option: Opt, votes: nat, percent: real, shown: nat, shownPercent: real)

  /******* What a tally means *******/

  // Something in ids counts for target.
  predicate Counts(opts: seq<Opt>, ids: set<Id>, target: Id) {
    exists id | id in ids :: Resolve(opts, id) == (target, true)
  }

  function Holders<K>(opts: seq<Opt>, rows: map<K, Row>, target: Id): set<K> {
    set v | v in rows && Counts(opts, rows[v].choices, target)
  }

  function Viewers<K>(opts: seq<Opt>, rows: map<K, Row>, target: Id): set<K> {
    set v | v in rows && Counts(opts, rows[v].seen, target)
  }

  function Share(part: nat, whole: nat): real {
    if whole == 0 then 0.0 else 100.0 * part as real / whole as real
  }

  /******* computeTally over the list of responses *******/

  function CountIn(opts: seq<Opt>, lists: seq<seq<Id>>, target: Id): nat {
    if lists == [] then 0
    else
      CountIn(opts, lists[..|lists| - 1], target)
      + if Counts(opts, Elements(lists[|lists| - 1]), target) then 1 else 0
  }

  function ChoiceLists(rs: seq<Response>): seq<seq<Id>> {
    seq(|rs|, i requires 0 <= i < |rs| => rs[i].choices)
  }

  function SeenLists(rs: seq<Response>): seq<seq<Id>> {
    seq(|rs|, i requires 0 <= i < |rs| => rs[i].seen)
  }

  function RowFor(opts: seq<Opt>, rs: seq<Response>, o: Opt): TallyRow {
    var votes, shown := CountIn(opts, ChoiceLists(rs), o.id), CountIn(opts, SeenLists(rs), o.id);
    TallyRow(o, votes, Share(votes, |rs|), shown, Share(votes, shown))
  }

  // One row per approved option among shown, in the editor's order.
  function Unsorted(opts: seq<Opt>, rs: seq<Response>, listed: seq<Opt>): seq<TallyRow> {
    if listed == [] then []
    else
      Unsorted(opts, rs, listed[..|listed| - 1])
      + if listed[|listed| - 1].status.Approved? then [RowFor(opts, rs, listed[|listed| - 1])] else []
  }

  function TallyOf(opts: seq<Opt>, rs: seq<Response>): seq<TallyRow> {
    StableSort(Unsorted(opts, rs, opts))
  }

  function At(counts: map<Id, nat>, id: Id): nat {
    if id in counts then counts[id] else 0
  }

  // countOnce: adds one per distinct resolved target, however many ids reach it.
  method CountOnce(opts: seq<Opt>, ids: seq<Id>, into: map<Id, nat>) returns (counts: map<Id, nat>)
    ensures forall t :: At(counts, t) == At(into, t) + if Counts(opts, Elements(ids), t) then 1 else 0
  {
    counts := into;
    var done: set<Id> := {};
    for i := 0 to |ids|
      invariant forall t :: t in done <==> Counts(opts, Elements(ids[..i]), t)
      invariant forall t :: At(counts, t) == At(into, t) + if t in done then 1 else 0
    {
      var target, ok := ResolveLoop(opts, ids[i]);
      assert Elements(ids[..i + 1]) == Elements(ids[..i]) + {ids[i]};
      if ok && target !in done {
        done := done + {target};
        counts := counts[target := At(counts, target) + 1];
      }
    }
    assert ids[..|ids|] == ids;
  }

  method ComputeTally(opts: seq<Opt>, rs: seq<Response>) returns (results: seq<TallyRow>, respondents: nat)
    ensures results == TallyOf(opts, rs) && respondents == |rs|
  {
    var counts: map<Id, nat>, shown: map<Id, nat> := map[], map[];
    respondents := 0;
    for i := 0 to |rs|
      invariant respondents == i
      invariant forall t :: At(counts, t) == CountIn(opts, ChoiceLists(rs)[..i], t)
      invariant forall t :: At(shown, t) == CountIn(opts, SeenLists(rs)[..i], t)
    {
      assert ChoiceLists(rs)[..i + 1][..i] == ChoiceLists(rs)[..i];
      assert SeenLists(rs)[..i + 1][..i] == SeenLists(rs)[..i];
      respondents := respondents + 1;
      counts := CountOnce(opts, rs[i].choices, counts);
      shown := CountOnce(opts, rs[i].seen, shown);
    }
    assert ChoiceLists(rs)[..|rs|] == ChoiceLists(rs) && SeenLists(rs)[..|rs|] == SeenLists(rs);
    results := [];
    for i := 0 to |opts|
      invariant results == Unsorted(opts, rs, opts[..i])
    {
      assert opts[..i + 1][..i] == opts[..i];
      var o := opts[i];
      if !o.status.Approved? {
        continue;
      }
      var votes, seenBy := At(counts, o.id), At(shown, o.id);
      var percent, shownPercent := 0.0, 0.0;
      if respondents > 0 {
        percent := 100.0 * votes as real / respondents as real;
      }
      if seenBy > 0 {
        shownPercent := 100.0 * votes as real / seenBy as real;
      }
      results := results + [TallyRow(o, votes, percent, seenBy, shownPercent)];
    }
    assert opts[..|opts|] == opts;
    results := StableSort(results);
  }

  /******* The counts are the sizes of sets of respondents *******/

  function Voters(rs: seq<Response>): seq<Voter> {
    seq(|rs|, i requires 0 <= i < |rs| => rs[i].voter)
  }

  // The voters whose list holds something that counts for target.
  function Marked(opts: seq<Opt>, voters: seq<Voter>, lists: seq<seq<Id>>, target: Id): set<Voter>
    requires |voters| == |lists|
  {
    set i | 0 <= i < |lists| && Counts(opts, Elements(lists[i]), target) :: voters[i]
  }

  lemma {:induction false} CountIsSize(opts: seq<Opt>, voters: seq<Voter>, lists: seq<seq<Id>>, target: Id)
    requires |voters| == |lists| && NoRepeats(voters)
    ensures CountIn(opts, lists, target) == |Marked(opts, voters, lists, target)|
  {
    if lists != [] {
      var n := |lists| - 1;
      CountIsSize(opts, voters[..n], lists[..n], target);
      MarkedStep(opts, voters, lists, target);
    }
  }

  lemma {:induction false} MarkedStep(opts: seq<Opt>, voters: seq<Voter>, lists: seq<seq<Id>>, target: Id)
    requires |voters| == |lists| > 0 && NoRepeats(voters)
    ensures var n := |lists| - 1; var before := Marked(opts, voters[..n], lists[..n], target);
      voters[n] !in before
      && Marked(opts, voters, lists, target)
         == before + if Counts(opts, Elements(lists[n]), target) then {voters[n]} else {}
  {
    var n := |lists| - 1;
    var before, after := Marked(opts, voters[..n], lists[..n], target), Marked(opts, voters, lists, target);
    forall v ensures v in before <==> v in after && v != voters[n] {
      if v in before {
        var i :| 0 <= i < n && Counts(opts, Elements(lists[..n][i]), target) && voters[..n][i] == v;
        assert lists[i] == lists[..n][i] && voters[i] == v;
      }
      if v in after && v != voters[n] {
        var i :| 0 <= i < |lists| && Counts(opts, Elements(lists[i]), target) && voters[i] == v;
        assert lists[i] == lists[..n][i] && voters[..n][i] == v;
      }
    }
    assert voters[n] in after <==> Counts(opts, Elements(lists[n]), target) by {
      if voters[n] in after {
        var i :| 0 <= i < |lists| && Counts(opts, Elements(lists[i]), target) && voters[i] == voters[n];
        assert i == n;
      }
    }
  }

  lemma {:induction false} ListsSets(opts: seq<Opt>, rs: seq<Response>, rows: map<Voter, Row>, target: Id)
    requires Lists(rs, rows)
    ensures CountIn(opts, ChoiceLists(rs), target) == |Holders(opts, rows, target)|
    ensures CountIn(opts, SeenLists(rs), target) == |Viewers(opts, rows, target)|
  {
    CountIsSize(opts, Voters(rs), ChoiceLists(rs), target);
    CountIsSize(opts, Voters(rs), SeenLists(rs), target);
    var chosen := Marked(opts, Voters(rs), ChoiceLists(rs), target);
    var exposed := Marked(opts, Voters(rs), SeenLists(rs), target);
    forall v | v in rows
      ensures v in chosen <==> v in Holders(opts, rows, target)
      ensures v in exposed <==> v in Viewers(opts, rows, target)
    {
      var i :| 0 <= i < |rs| && rs[i].voter == v;
      assert Reads(rs[i], v, rows[v]) && Voters(rs)[i] == v;
      assert ChoiceLists(rs)[i] == rs[i].choices && SeenLists(rs)[i] == rs[i].seen;
    }
    assert chosen == Holders(opts, rows, target) && exposed == Viewers(opts, rows, target);
  }

  lemma {:induction false} ListsSize(rs: seq<Response>, rows: map<Voter, Row>)
    requires Lists(rs, rows)
    ensures |rs| == |rows|
  {
    var voters := Voters(rs);
    DistinctSize(voters);
    forall v ensures v in Elements(voters) <==> v in rows.Keys {
      if v in rows {
        var i :| 0 <= i < |rs| && rs[i].voter == v;
        assert voters[i] == v;
      }
    }
    assert Elements(voters) == rows.Keys;
  }

  // The same tally, said of the stored rows: no lists, no reading order.
  function RowOver<K>(opts: seq<Opt>, rows: map<K, Row>, o: Opt): TallyRow {
    var votes, shown := |Holders(opts, rows, o.id)|, |Viewers(opts, rows, o.id)|;
    TallyRow(o, votes, Share(votes, |rows|), shown, Share(votes, shown))
  }

  function RowsOver<K>(opts: seq<Opt>, rows: map<K, Row>, listed: seq<Opt>): seq<TallyRow> {
    if listed == [] then []
    else
      RowsOver(opts, rows, listed[..|listed| - 1])
      + if listed[|listed| - 1].status.Approved? then [RowOver(opts, rows, listed[|listed| - 1])] else []
  }

  function TallyOver<K>(opts: seq<Opt>, rows: map<K, Row>): seq<TallyRow> {
    StableSort(RowsOver(opts, rows, opts))
  }

  lemma {:induction false} SameRows(opts: seq<Opt>, rs: seq<Response>, rows: map<Voter, Row>, listed: seq<Opt>)
    requires Lists(rs, rows)
    ensures Unsorted(opts, rs, listed) == RowsOver(opts, rows, listed)
  {
    if listed != [] {
      SameRows(opts, rs, rows, listed[..|listed| - 1]);
      ListsSets(opts, rs, rows, listed[|listed| - 1].id);
      ListsSize(rs, rows);
    }
  }

  // Whatever order the tables come back in, computeTally counts the respondents
  // who hold, and who were shown, something that resolves to each option.
  lemma {:induction false} TallyIgnoresReadingOrder(opts: seq<Opt>, rs: seq<Response>, rows: map<Voter, Row>)
    requires Lists(rs, rows)
    ensures TallyOf(opts, rs) == TallyOver(opts, rows) && |rs| == |rows|
  {
    SameRows(opts, rs, rows, opts);
    ListsSize(rs, rows);
  }

  // There is one row per approved option, and no other row.
  lemma {:induction false} TallyRowsAreApproved<K>(opts: seq<Opt>, rows: map<K, Row>)
    ensures forall row ::
      row in TallyOver(opts, rows)
      <==> row.option in opts && row.option.status.Approved? && row == RowOver(opts, rows, row.option)
  {
    SortKeepsElements(RowsOver(opts, rows, opts));
    RowsOverMembers(opts, rows, opts);
  }

  lemma {:induction false} RowsOverMembers<K>(opts: seq<Opt>, rows: map<K, Row>, listed: seq<Opt>)
    ensures forall row ::
      row in RowsOver(opts, rows, listed)
      <==> row.option in listed && row.option.status.Approved? && row == RowOver(opts, rows, row.option)
  {
    if listed != [] {
      var rest := listed[..|listed| - 1];
      RowsOverMembers(opts, rows, rest);
      assert listed == rest + [listed[|listed| - 1]];
    }
  }

  /******* sortResultsByVotes *******/

  function Insert(x: TallyRow, s: seq<TallyRow>): seq<TallyRow> {
    if s == [] || s[0].votes <= x.votes then [x] + s else [s[0]] + Insert(x, s[1..])
  }

  function StableSort(s: seq<TallyRow>): seq<TallyRow> {
    if s == [] then [] else Insert(s[0], StableSort(s[1..]))
  }

  ghost predicate MostVotesFirst(s: seq<TallyRow>) {
    forall i, j | 0 <= i < j < |s| :: s[i].votes >= s[j].votes
  }

  // The rows with a given number of votes, in the order they appear.
  function WithVotes(s: seq<TallyRow>, votes: nat): seq<TallyRow> {
    if s == [] then []
    else (if s[0].votes == votes then [s[0]] else []) + WithVotes(s[1..], votes)
  }

  lemma {:induction false} InsertKeepsRows(x: TallyRow, s: seq<TallyRow>)
    ensures multiset(Insert(x, s)) == multiset{x} + multiset(s)
  {
    if s != [] && s[0].votes > x.votes {
      InsertKeepsRows(x, s[1..]);
      assert s == [s[0]] + s[1..];
    }
  }

  lemma {:induction false} InsertSorts(x: TallyRow, s: seq<TallyRow>)
    requires MostVotesFirst(s)
    ensures MostVotesFirst(Insert(x, s))
  {
    if s != [] && s[0].votes > x.votes {
      InsertSorts(x, s[1..]);
      InsertKeepsRows(x, s[1..]);
      var rest := Insert(x, s[1..]);
      forall y | y in rest ensures y.votes <= s[0].votes {
        assert y in multiset(rest);
        if y in s[1..] {
          var j :| 0 <= j < |s[1..]| && s[1..][j] == y;
          assert s[j + 1] == y;
        }
      }
      assert forall j | 0 <= j < |rest| :: rest[j] in rest;
    }
  }

  lemma {:induction false} InsertIsStable(x: TallyRow, s: seq<TallyRow>, votes: nat)
    requires MostVotesFirst(s)
    ensures WithVotes(Insert(x, s), votes) == WithVotes([x] + s, votes)
  {
    assert ([x] + s)[1..] == s;
    if s != [] && s[0].votes > x.votes {
      InsertIsStable(x, s[1..], votes);
      var rest := Insert(x, s[1..]);
      assert ([s[0]] + rest)[1..] == rest;
      assert ([x] + s[1..])[1..] == s[1..];
    }
  }

  lemma {:induction false} SortKeepsElements(s: seq<TallyRow>)
    ensures MostVotesFirst(StableSort(s))
    ensures multiset(StableSort(s)) == multiset(s)
    ensures forall y :: y in StableSort(s) <==> y in s
  {
    if s != [] {
      SortKeepsElements(s[1..]);
      InsertSorts(s[0], StableSort(s[1..]));
      InsertKeepsRows(s[0], StableSort(s[1..]));
      assert s == [s[0]] + s[1..];
    }
    forall y ensures y in StableSort(s) <==> y in s {
      assert y in multiset(StableSort(s)) <==> y in multiset(s);
    }
  }

  // Most votes first, and equal votes keep the editor's order.
  lemma {:induction false} SortIsStable(s: seq<TallyRow>, votes: nat)
    ensures WithVotes(StableSort(s), votes) == WithVotes(s, votes)
  {
    if s != [] {
      SortIsStable(s[1..], votes);
      SortKeepsElements(s[1..]);
      InsertIsStable(s[0], StableSort(s[1..]), votes);
      assert ([s[0]] + StableSort(s[1..]))[1..] == StableSort(s[1..]);
    }
  }

  lemma {:induction false} WithVotesMember(s: seq<TallyRow>, votes: nat, x: TallyRow)
    ensures x in WithVotes(s, votes) <==> x in s && x.votes == votes
  {
    if s != [] {
      WithVotesMember(s[1..], votes, x);
      assert s == [s[0]] + s[1..];
    }
  }

  lemma {:induction false} SameTail(a: seq<TallyRow>, b: seq<TallyRow>, votes: nat)
    requires a != [] && b != [] && a[0] == b[0] && WithVotes(a, votes) == WithVotes(b, votes)
    ensures WithVotes(a[1..], votes) == WithVotes(b[1..], votes)
  {
    var head := if a[0].votes == votes then [a[0]] else [];
    assert WithVotes(a[1..], votes) == WithVotes(a, votes)[|head|..];
    assert WithVotes(b[1..], votes) == WithVotes(b, votes)[|head|..];
  }

  // Those two properties leave only one possible order.
  lemma {:induction false} StableOrderIsUnique(a: seq<TallyRow>, b: seq<TallyRow>)
    requires MostVotesFirst(a) && MostVotesFirst(b)
    requires forall votes: nat :: WithVotes(a, votes) == WithVotes(b, votes)
    ensures a == b
    decreases |a|
  {
    if a == [] {
      if b != [] {
        WithVotesMember(b, b[0].votes, b[0]);
      }
    } else {
      WithVotesMember(a, a[0].votes, a[0]);
      WithVotesMember(b, a[0].votes, a[0]);
      WithVotesMember(a, b[0].votes, b[0]);
      WithVotesMember(b, b[0].votes, b[0]);
      assert a[0].votes == b[0].votes;
      assert WithVotes(a, a[0].votes)[0] == a[0] && WithVotes(b, a[0].votes)[0] == b[0];
      assert a[0] == b[0];
      forall votes: nat ensures WithVotes(a[1..], votes) == WithVotes(b[1..], votes) {
        SameTail(a, b, votes);
      }
      StableOrderIsUnique(a[1..], b[1..]);
      assert a == [a[0]] + a[1..] && b == [b[0]] + b[1..];
    }
  }

  // The percentages: a share of 100, none of nothing, and never past 100.
  lemma {:induction false} ShareMeans(part: nat, whole: nat)
    ensures whole == 0 ==> Share(part, whole) == 0.0
    ensures whole > 0 ==> Share(part, whole) * whole as real == 100.0 * part as real
    ensures part <= whole ==> 0.0 <= Share(part, whole) <= 100.0
  {
    if 0 < whole && part <= whole {
      var p, w := part as real, whole as real;
      assert p / w <= 1.0;
      assert 100.0 * p / w == 100.0 * (p / w);
    }
  }

  // Each displayed row: votes, their share of the respondents, exposures, and the
  // votes' share of those.
  lemma {:induction false} TallyRowMeans<K>(opts: seq<Opt>, rows: map<K, Row>, row: TallyRow)
    requires row in TallyOver(opts, rows)
    ensures row.votes == |set v | v in rows && Counts(opts, rows[v].choices, row.option.id)|
    ensures row.shown == |set v | v in rows && Counts(opts, rows[v].seen, row.option.id)|
    ensures if |rows| == 0 then row.percent == 0.0 else row.percent * |rows| as real == 100.0 * row.votes as real
    ensures if row.shown == 0 then row.shownPercent == 0.0
      else row.shownPercent * row.shown as real == 100.0 * row.votes as real
  {
    TallyRowsAreApproved(opts, rows);
    ShareMeans(row.votes, |rows|);
    ShareMeans(row.votes, row.shown);
  }

  // a stands before b in the survey.
  ghost predicate ListedBefore(opts: seq<Opt>, a: TallyRow, b: TallyRow) {
    exists i, j :: 0 <= i < j < |opts| && opts[i] == a.option && opts[j] == b.option
  }

  ghost predicate InOrder(opts: seq<Opt>, s: seq<TallyRow>) {
    forall i, j | 0 <= i < j < |s| :: ListedBefore(opts, s[i], s[j])
  }

  ghost predicate TiesInOrder(opts: seq<Opt>, s: seq<TallyRow>) {
    forall i, j | 0 <= i < j < |s| && s[i].votes == s[j].votes :: ListedBefore(opts, s[i], s[j])
  }

  lemma {:induction false} LongerList(opts: seq<Opt>, n: nat, a: TallyRow, b: TallyRow)
    requires n <= |opts| && ListedBefore(opts[..n], a, b)
    ensures ListedBefore(opts, a, b)
  {
    var i, j :| 0 <= i < j < n && opts[..n][i] == a.option && opts[..n][j] == b.option;
    assert opts[i] == a.option && opts[j] == b.option;
  }

  lemma {:induction false} RowsInOrder<K>(opts: seq<Opt>, rows: map<K, Row>, listed: seq<Opt>)
    ensures InOrder(listed, RowsOver(opts, rows, listed))
  {
    if listed != [] {
      var n := |listed| - 1;
      var before, all := RowsOver(opts, rows, listed[..n]), RowsOver(opts, rows, listed);
      RowsInOrder(opts, rows, listed[..n]);
      RowsOverMembers(opts, rows, listed[..n]);
      forall i, j | 0 <= i < j < |all| ensures ListedBefore(listed, all[i], all[j]) {
        assert all[i] == before[i] && all[i] in before;
        if j < |before| {
          LongerList(listed, n, all[i], all[j]);
        } else {
          var k :| 0 <= k < n && listed[..n][k] == all[i].option;
          assert listed[k] == all[i].option && listed[n] == all[j].option;
        }
      }
    }
  }

  lemma {:induction false} InsertKeepsTies(opts: seq<Opt>, x: TallyRow, s: seq<TallyRow>)
    requires TiesInOrder(opts, s) && forall y | y in s :: ListedBefore(opts, x, y)
    ensures TiesInOrder(opts, Insert(x, s))
  {
    if s != [] && s[0].votes > x.votes {
      var rest := s[1..];
      forall y | y in rest ensures y in s {
      }
      assert forall i | 0 <= i < |rest| :: rest[i] == s[i + 1];
      InsertKeepsTies(opts, x, rest);
      InsertKeepsRows(x, rest);
      forall j | 0 <= j < |Insert(x, rest)| && Insert(x, rest)[j].votes == s[0].votes
        ensures ListedBefore(opts, s[0], Insert(x, rest)[j])
      {
        var y := Insert(x, rest)[j];
        assert y in multiset(Insert(x, rest));
        var k :| 0 <= k < |rest| && rest[k] == y;
        assert s[k + 1] == y;
      }
    }
  }

  lemma {:induction false} SortKeepsTies(opts: seq<Opt>, s: seq<TallyRow>)
    requires InOrder(opts, s)
    ensures TiesInOrder(opts, StableSort(s))
  {
    if s != [] {
      assert forall i | 0 <= i < |s[1..]| :: s[1..][i] == s[i + 1];
      SortKeepsTies(opts, s[1..]);
      SortKeepsElements(s[1..]);
      InsertKeepsTies(opts, s[0], StableSort(s[1..]));
    }
  }

  // In the tally, options with equal votes stand as they do in the survey.
  lemma {:induction false} TiesKeepTheEditorsOrder<K>(opts: seq<Opt>, rows: map<K, Row>)
    ensures TiesInOrder(opts, TallyOver(opts, rows)) && MostVotesFirst(TallyOver(opts, rows))
  {
    RowsInOrder(opts, rows, opts);
    SortKeepsTies(opts, RowsOver(opts, rows, opts));
    SortKeepsElements(RowsOver(opts, rows, opts));
  }

  /******* Votes <= Shown <= respondents *******/

  ghost predicate ChosenWasShown<K>(rows: map<K, Row>) {
    forall v | v in rows :: rows[v].choices <= rows[v].seen
  }

  // For any merge graph, cyclic or not.
  lemma {:induction false} VotesWithinShown<K>(opts: seq<Opt>, rows: map<K, Row>, target: Id)
    requires ChosenWasShown(rows)
    ensures Holders(opts, rows, target) <= Viewers(opts, rows, target) <= rows.Keys
    ensures |Holders(opts, rows, target)| <= |Viewers(opts, rows, target)| <= |rows|
  {
    forall v | v in Holders(opts, rows, target) ensures v in Viewers(opts, rows, target) {
      var id :| id in rows[v].choices && Resolve(opts, id) == (target, true);
      assert id in rows[v].seen;
    }
    SubsetSize(Holders(opts, rows, target), Viewers(opts, rows, target));
    SubsetSize(Viewers(opts, rows, target), rows.Keys);
  }

  lemma {:induction false} TallyWithinBounds<K>(opts: seq<Opt>, rows: map<K, Row>)
    requires ChosenWasShown(rows)
    ensures forall row | row in TallyOver(opts, rows) :: row.votes <= row.shown <= |rows|
  {
    TallyRowsAreApproved(opts, rows);
    forall row | row in TallyOver(opts, rows) ensures row.votes <= row.shown <= |rows| {
      VotesWithinShown(opts, rows, row.option.id);
    }
  }

  /******* Merging moves votes *******/

  // Respondents with something, counted or not, that leads to x.
  ghost function HoldingTowards<K>(opts: seq<Opt>, rows: map<K, Row>, x: Id): set<K> {
    set v | v in rows && exists id | id in rows[v].choices :: Leads(opts, id, x)
  }

  ghost function ShownTowards<K>(opts: seq<Opt>, rows: map<K, Row>, x: Id): set<K> {
    set v | v in rows && exists id | id in rows[v].seen :: Leads(opts, id, x)
  }

  // Something in ids counts for target without passing through x.
  ghost predicate CountsPast(opts: seq<Opt>, ids: set<Id>, x: Id, target: Id) {
    exists id | id in ids :: Resolve(opts, id) == (target, true) && !Leads(opts, id, x)
  }

  ghost function HoldersPast<K>(opts: seq<Opt>, rows: map<K, Row>, x: Id, target: Id): set<K> {
    set v | v in rows && CountsPast(opts, rows[v].choices, x, target)
  }

  ghost function ViewersPast<K>(opts: seq<Opt>, rows: map<K, Row>, x: Id, target: Id): set<K> {
    set v | v in rows && CountsPast(opts, rows[v].seen, x, target)
  }

  lemma {:induction false} ApprovedTarget(opts: seq<Opt>, id: Id, target: Id)
    requires IsApproved(opts, target)
    ensures Resolve(opts, id) == (target, true) <==> Resolve(opts, id).0 == target
  {
    ResolveDecidesEnding(opts, id);
  }

  lemma {:induction false} LeadsToApproved(opts: seq<Opt>, id: Id, target: Id)
    requires IsApproved(opts, target)
    ensures Resolve(opts, id) == (target, true) <==> Leads(opts, id, target)
  {
    ApprovedTarget(opts, id, target);
    LeadsToAnEnd(opts, id, target);
  }

  lemma {:induction false} TowardsApproved<K>(opts: seq<Opt>, rows: map<K, Row>, target: Id)
    requires IsApproved(opts, target)
    ensures HoldingTowards(opts, rows, target) == Holders(opts, rows, target)
    ensures ShownTowards(opts, rows, target) == Viewers(opts, rows, target)
  {
    forall id ensures Resolve(opts, id) == (target, true) <==> Leads(opts, id, target) {
      LeadsToApproved(opts, id, target);
    }
    forall v | v in rows
      ensures v in HoldingTowards(opts, rows, target) <==> v in Holders(opts, rows, target)
      ensures v in ShownTowards(opts, rows, target) <==> v in Viewers(opts, rows, target)
    {
      assert (exists id | id in rows[v].choices :: Leads(opts, id, target)) <==> Counts(opts, rows[v].choices, target);
      assert (exists id | id in rows[v].seen :: Leads(opts, id, target)) <==> Counts(opts, rows[v].seen, target);
    }
  }

  lemma {:induction false} UnionSize<T>(a: set<T>, b: set<T>)
    ensures |a| <= |a + b| && |b| <= |a + b| <= |a| + |b|
  {
    SubsetSize(a, a + b);
    SubsetSize(b, a + b);
    assert a + b == a + (b - a);
    SubsetSize(b - a, b);
  }

  // The merge itself, as SetOptionStatus performs it; x may be merged already.
  ghost predicate Merges(opts: seq<Opt>, x: Id, y: Id, merged: seq<Opt>) {
    Distinct(opts) && SetStatus(opts, x, Merged, y) == Ok(merged)
  }

  lemma {:induction false} MergedAt(opts: seq<Opt>, x: Id, y: Id, merged: seq<Opt>) returns (k: nat)
    requires Merges(opts, x, y, merged)
    ensures k < |opts| && opts[k].id == x && Find(opts, x) == Some(opts[k])
    ensures merged == opts[k := opts[k].(status := Merged, mergedInto := y)]
    ensures x != y && y != "" && !Forwards(opts, y) && y in Ids(opts)
  {
    k := IndexOf(opts, x);
    ReplaceAt(opts, k, opts[k].(status := Merged, mergedInto := y));
  }

  // Merging x into y moves exactly the ids that lead to x, wherever x pointed
  // before.
  lemma {:induction false} MergeResolves(opts: seq<Opt>, x: Id, y: Id, merged: seq<Opt>, id: Id)
    requires Merges(opts, x, y, merged)
    ensures Resolve(merged, id) == if Leads(opts, id, x) then (y, IsApproved(opts, y)) else Resolve(opts, id)
  {
    var k := MergedAt(opts, x, y, merged);
    var o := opts[k].(status := Merged, mergedInto := y);
    EditReroutesLeaders(opts, k, o, id);
    EditPointsAlike(opts, k, o);
  }

  lemma {:induction false} CountsAfterMerge(opts: seq<Opt>, ids: set<Id>, x: Id, y: Id, merged: seq<Opt>)
    requires forall id :: Resolve(merged, id) == if Leads(opts, id, x) then (y, true) else Resolve(opts, id)
    ensures Counts(merged, ids, y) <==> Counts(opts, ids, y) || exists id | id in ids :: Leads(opts, id, x)
    ensures forall t | t != y :: Counts(merged, ids, t) <==> CountsPast(opts, ids, x, t)
  {
    forall t | t != y ensures Counts(merged, ids, t) <==> CountsPast(opts, ids, x, t) {
      if CountsPast(opts, ids, x, t) {
        var id :| id in ids && Resolve(opts, id) == (t, true) && !Leads(opts, id, x);
        assert Resolve(merged, id) == (t, true);
      }
      if Counts(merged, ids, t) {
        var id :| id in ids && Resolve(merged, id) == (t, true);
        assert Resolve(opts, id) == (t, true) && !Leads(opts, id, x);
      }
    }
    if Counts(opts, ids, y) {
      var id :| id in ids && Resolve(opts, id) == (y, true);
      assert Resolve(merged, id) == (y, true);
    }
    if id :| id in ids && Leads(opts, id, x) {
      assert Resolve(merged, id) == (y, true);
    }
  }

  // Nothing that counts for anything but the end of x passes through x.
  lemma {:induction false} CountsPastElsewhere(opts: seq<Opt>, ids: set<Id>, x: Id, t: Id)
    requires t != Resolve(opts, x).0
    ensures CountsPast(opts, ids, x, t) <==> Counts(opts, ids, t)
  {
    if Counts(opts, ids, t) {
      var id :| id in ids && Resolve(opts, id) == (t, true);
      if Leads(opts, id, x) {
        CountingLeader(opts, id, x);
      }
      assert !Leads(opts, id, x);
    }
  }

  lemma {:induction false} MergedCounts(opts: seq<Opt>, ids: set<Id>, x: Id, y: Id, merged: seq<Opt>)
    requires Merges(opts, x, y, merged) && IsApproved(opts, y)
    ensures Counts(merged, ids, y) <==> Counts(opts, ids, y) || exists id | id in ids :: Leads(opts, id, x)
    ensures forall t | t != y :: Counts(merged, ids, t) <==> CountsPast(opts, ids, x, t)
    ensures forall t | t != y && t != Resolve(opts, x).0 :: Counts(merged, ids, t) <==> Counts(opts, ids, t)
  {
    forall id ensures Resolve(merged, id) == if Leads(opts, id, x) then (y, true) else Resolve(opts, id) {
      MergeResolves(opts, x, y, merged, id);
    }
    CountsAfterMerge(opts, ids, x, y, merged);
    forall t | t != Resolve(opts, x).0 ensures CountsPast(opts, ids, x, t) <==> Counts(opts, ids, t) {
      CountsPastElsewhere(opts, ids, x, t);
    }
  }

  // Merging x, wherever it pointed before, into approved y: y gets everyone who
  // held something leading to x or y, each counted once; where x led before
  // keeps those who reach it without x; nobody else's count moves.
  lemma {:induction false} MergeMovesVotes<K>(opts: seq<Opt>, rows: map<K, Row>, x: Id, y: Id, merged: seq<Opt>)
    requires Merges(opts, x, y, merged) && IsApproved(opts, y)
    ensures Holders(merged, rows, y) == HoldingTowards(opts, rows, x) + Holders(opts, rows, y)
    ensures Viewers(merged, rows, y) == ShownTowards(opts, rows, x) + Viewers(opts, rows, y)
    ensures forall t | t != y ::
      Holders(merged, rows, t) == HoldersPast(opts, rows, x, t) && Viewers(merged, rows, t) == ViewersPast(opts, rows, x, t)
    ensures forall t | t != y && t != Resolve(opts, x).0 ::
      Holders(merged, rows, t) == Holders(opts, rows, t) && Viewers(merged, rows, t) == Viewers(opts, rows, t)
  {
    forall v | v in rows
      ensures v in Holders(merged, rows, y) <==> v in HoldingTowards(opts, rows, x) + Holders(opts, rows, y)
      ensures v in Viewers(merged, rows, y) <==> v in ShownTowards(opts, rows, x) + Viewers(opts, rows, y)
    {
      MergedCounts(opts, rows[v].choices, x, y, merged);
      MergedCounts(opts, rows[v].seen, x, y, merged);
    }
    forall t | t != y
      ensures Holders(merged, rows, t) == HoldersPast(opts, rows, x, t)
      ensures Viewers(merged, rows, t) == ViewersPast(opts, rows, x, t)
      ensures t != Resolve(opts, x).0 ==>
        Holders(merged, rows, t) == Holders(opts, rows, t) && Viewers(merged, rows, t) == Viewers(opts, rows, t)
    {
      MergeElsewhere(opts, rows, x, y, merged, t);
    }
  }

  lemma {:induction false} MergeElsewhere<K>(opts: seq<Opt>, rows: map<K, Row>, x: Id, y: Id, merged: seq<Opt>, t: Id)
    requires Merges(opts, x, y, merged) && IsApproved(opts, y) && t != y
    ensures Holders(merged, rows, t) == HoldersPast(opts, rows, x, t)
    ensures Viewers(merged, rows, t) == ViewersPast(opts, rows, x, t)
    ensures t != Resolve(opts, x).0 ==>
      Holders(merged, rows, t) == Holders(opts, rows, t) && Viewers(merged, rows, t) == Viewers(opts, rows, t)
  {
    forall v | v in rows
      ensures Counts(merged, rows[v].choices, t) <==> CountsPast(opts, rows[v].choices, x, t)
      ensures Counts(merged, rows[v].seen, t) <==> CountsPast(opts, rows[v].seen, x, t)
      ensures t != Resolve(opts, x).0 ==>
        (Counts(merged, rows[v].choices, t) <==> Counts(opts, rows[v].choices, t))
        && (Counts(merged, rows[v].seen, t) <==> Counts(opts, rows[v].seen, t))
    {
      MergedCounts(opts, rows[v].choices, x, y, merged);
      MergedCounts(opts, rows[v].seen, x, y, merged);
    }
  }

  // Merging approved x into approved y: the votes of y become between the
  // larger and the sum of the two, its exposures likewise, and x keeps none.
  lemma {:induction false} MergedVotesAddUp<K>(opts: seq<Opt>, rows: map<K, Row>, x: Id, y: Id, merged: seq<Opt>)
    requires Merges(opts, x, y, merged) && IsApproved(opts, x) && IsApproved(opts, y)
    ensures var vx, vy, both := |Holders(opts, rows, x)|, |Holders(opts, rows, y)|, |Holders(merged, rows, y)|;
      vx <= both && vy <= both && both <= vx + vy
    ensures var sx, sy, both := |Viewers(opts, rows, x)|, |Viewers(opts, rows, y)|, |Viewers(merged, rows, y)|;
      sx <= both && sy <= both && both <= sx + sy
    ensures Holders(merged, rows, x) == {} && Viewers(merged, rows, x) == {}
  {
    MergeMovesVotes(opts, rows, x, y, merged);
    TowardsApproved(opts, rows, x);
    UnionSize(Holders(opts, rows, x), Holders(opts, rows, y));
    UnionSize(Viewers(opts, rows, x), Viewers(opts, rows, y));
    var k := MergedAt(opts, x, y, merged);
    forall id ensures Resolve(opts, id) == (x, true) ==> Leads(opts, id, x) {
      LeadsToApproved(opts, id, x);
    }
    assert forall ids: set<Id> :: !CountsPast(opts, ids, x, x);
  }

  lemma {:induction false} SetStatusAt(opts: seq<Opt>, k: nat, status: Status)
    requires Distinct(opts) && k < |opts| && !status.Merged?
    ensures SetStatus(opts, opts[k].id, status, "") == Ok(opts[k := opts[k].(status := status, mergedInto := "")])
  {
    FindAt(opts, k);
    ReplaceAt(opts, k, opts[k].(status := status, mergedInto := ""));
  }

  // Putting x back to the status it had restores the option list itself, and so
  // every tally.
  lemma {:induction false} UndoingAMergeRestoresTheTally(opts: seq<Opt>, x: Id, y: Id, merged: seq<Opt>,
      rows: map<Voter, Row>)
    requires Merges(opts, x, y, merged)
    requires Find(opts, x).Some? && !Find(opts, x).value.status.Merged? && Find(opts, x).value.mergedInto == ""
    ensures SetStatus(merged, x, Find(opts, x).value.status, "") == Ok(opts)
    ensures TallyOver(SetStatus(merged, x, Find(opts, x).value.status, "").value, rows) == TallyOver(opts, rows)
  {
    var k := MergedAt(opts, x, y, merged);
    var was := opts[k];
    FindAfterUpdate(opts, k, merged[k], x);
    SetStatusAt(merged, k, was.status);
    assert merged[k].(status := was.status, mergedInto := "") == was;
    assert merged[k := was] == opts;
  }
}
