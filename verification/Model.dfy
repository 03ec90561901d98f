// The survey, its options and one respondent's stored answer, with the small
// pure operations every other module uses.
module Model {
  type Id = string
  type Voter = string
  type Rid = string // a response row's id
  type Time = int // an instant; ZERO_TIME stands for "not set"

  const ZERO_TIME: Time := 0
  const MAX_OPTIONS: nat := 500
  const MAX_OPTION_TEXT: nat := 200
  const MAX_WRITE_INS_PER_VOTER: nat := 5
  const MAX_PENDING_PER_SURVEY: nat := 50
  const TYPE_THUMBS_UP: string := "thumbsup"

  datatype Maybe<+T> = None | Some(value: T)

  datatype Error =
    | NotFound
    | NotAccepting
    | NoWriteIns
    | TooManySuggestions
    | QueueFull
    | EmptyText
    | TextTooLong
    | TooManyOptions
    | BadMergeTarget
    | TargetMerged
    | UnknownAction
    | NeedsTitle

  datatype Result<+T> = Ok(value: T) | Err(error: Error)

  datatype Status = Approved | Pending | Rejected | Removed | Merged

  // How a status is written in documents, column headings and the database.
  function StatusName(s: Status): string {
    match s
    case Approved => "approved"
    case Pending => "pending"
    case Rejected => "rejected"
    case Removed => "removed"
    case Merged => "merged"
  }

  datatype State = Draft | Open | Closed

  datatype Source = Editor | WriteIn

  // mergedInto is "" when the option points nowhere.
  datatype Opt = Opt(id: Id, text: string, status: Status, source: Source, mergedInto: Id, created: Time)

  datatype Survey = Survey(
    id: Id,
    typ: string,
    title: string,
    description: string,
    options: seq<Opt>,
    state: State,
    showResults: bool,
    allowWriteIn: bool,
    allowComment: bool,
    noRandomize: bool,
    closeAt: Time,
    firstOpenedAt: Time,
    created: Time,
    updated: Time)

  // What the database holds for one respondent. The choices and seen tables
  // have primary keys, so both are sets.
  datatype Row = Row(choices: set<Id>, seen: set<Id>, comment: string, created: Time, updated: Time)

  // One respondent's answer while it is being worked on: the same sets, as lists
  // in whatever order the tables were read.
  datatype Response = Response(
    voter: Voter, choices: seq<Id>, seen: seq<Id>, comment: string, created: Time, updated: Time)

  function Elements<T>(s: seq<T>): set<T> {
    set x | x in s
  }

  predicate NoRepeats<T(==)>(s: seq<T>) {
    forall i, j | 0 <= i < j < |s| :: s[i] != s[j]
  }

  // Reading a row back gives its sets as lists without repeats, in some order.
  ghost predicate Reads(r: Response, voter: Voter, row: Row) {
    r.voter == voter && Elements(r.choices) == row.choices && Elements(r.seen) == row.seen
    && NoRepeats(r.choices) && NoRepeats(r.seen)
    && r.comment == row.comment && r.created == row.created && r.updated == row.updated
  }

  ghost predicate OneEach(rs: seq<Response>) {
    forall i, j | 0 <= i < j < |rs| :: rs[i].voter != rs[j].voter
  }

  // rs lists every row of the survey once, in some order.
  ghost predicate Lists(rs: seq<Response>, rows: map<Voter, Row>) {
    OneEach(rs)
    && (forall i | 0 <= i < |rs| :: rs[i].voter in rows && Reads(rs[i], rs[i].voter, rows[rs[i].voter]))
    && forall v | v in rows :: exists i :: 0 <= i < |rs| && rs[i].voter == v
  }

  /******* Options *******/

  function Ids(opts: seq<Opt>): set<Id> {
    set o | o in opts :: o.id
  }

  // options.id is a primary key.
  ghost predicate Distinct(opts: seq<Opt>) {
    forall i, j | 0 <= i < j < |opts| :: opts[i].id != opts[j].id
  }

  // Survey.Option: the first option with this id.
  function Find(opts: seq<Opt>, id: Id): (r: Maybe<Opt>)
    ensures r.Some? ==> r.value in opts && r.value.id == id
    ensures r.Some? <==> id in Ids(opts)
  {
    if opts == [] then None
    else if opts[0].id == id then Some(opts[0])
    else
      assert opts == [opts[0]] + opts[1..];
      Find(opts[1..], id)
  }

  lemma {:induction false} FindAt(opts: seq<Opt>, i: nat)
    requires Distinct(opts) && i < |opts|
    ensures Find(opts, opts[i].id) == Some(opts[i])
  {
    if i > 0 {
      FindAt(opts[1..], i - 1);
    }
  }

  lemma {:induction false} FindMember(opts: seq<Opt>, o: Opt)
    requires Distinct(opts) && o in opts
    ensures Find(opts, o.id) == Some(o)
  {
    var i :| 0 <= i < |opts| && opts[i] == o;
    FindAt(opts, i);
  }

  // Replacing one option by another of the same id changes what that id finds
  // and nothing else.
  lemma {:induction false} FindAfterUpdate(opts: seq<Opt>, k: nat, o: Opt, id: Id)
    requires Distinct(opts) && k < |opts| && o.id == opts[k].id
    ensures Distinct(opts[k := o]) && Ids(opts[k := o]) == Ids(opts)
    ensures Find(opts[k := o], id) == if id == o.id then Some(o) else Find(opts, id)
  {
    var after := opts[k := o];
    forall x ensures x in Ids(after) <==> x in Ids(opts) {
      if x in Ids(opts) {
        var i :| 0 <= i < |opts| && opts[i].id == x;
        assert after[i].id == x && after[i] in after;
      }
      if x in Ids(after) {
        var i :| 0 <= i < |after| && after[i].id == x;
        assert opts[i].id == x && opts[i] in opts;
      }
    }
    if id in Ids(opts) {
      var i :| 0 <= i < |opts| && opts[i].id == id;
      FindAt(opts, i);
      FindAt(after, i);
    }
  }

  lemma {:induction false} FindAfterAppend(opts: seq<Opt>, o: Opt, id: Id)
    requires Distinct(opts) && o.id !in Ids(opts)
    ensures Distinct(opts + [o]) && Ids(opts + [o]) == Ids(opts) + {o.id}
    ensures Find(opts + [o], id) == if id == o.id then Some(o) else Find(opts, id)
  {
    var after := opts + [o];
    forall x ensures x in Ids(after) <==> x in Ids(opts) || x == o.id {
      if x in Ids(opts) {
        var i :| 0 <= i < |opts| && opts[i].id == x;
        assert after[i] in after;
      }
      assert after[|opts|] in after;
    }
    forall i, j | 0 <= i < j < |after| ensures after[i].id != after[j].id {
      assert opts[i] in opts;
    }
    if id in Ids(after) {
      var i :| 0 <= i < |after| && after[i].id == id;
      FindAt(after, i);
      if i < |opts| {
        FindAt(opts, i);
      }
    }
  }

  lemma {:induction false} IdsBound(opts: seq<Opt>)
    ensures |Ids(opts)| <= |opts|
  {
    if opts != [] {
      IdsBound(opts[1..]);
      assert opts == [opts[0]] + opts[1..];
      assert Ids(opts) == {opts[0].id} + Ids(opts[1..]);
    }
  }

  /******* The approved options, in the editor's order *******/

  function ApprovedOnly(opts: seq<Opt>): seq<Opt> {
    if opts == [] then []
    else (if opts[0].status.Approved? then [opts[0]] else []) + ApprovedOnly(opts[1..])
  }

  // How many of the first n options are approved.
  ghost function ApprovedBefore(opts: seq<Opt>, n: nat): nat
    requires n <= |opts|
  {
    |set j | 0 <= j < n && opts[j].status.Approved?|
  }

  lemma {:induction false} ApprovedLast(opts: seq<Opt>)
    requires opts != []
    ensures var n := |opts| - 1;
      ApprovedOnly(opts) == ApprovedOnly(opts[..n]) + if opts[n].status.Approved? then [opts[n]] else []
  {
    var n := |opts| - 1;
    if n > 0 {
      ApprovedLast(opts[1..]);
      assert opts[1..][..n - 1] == opts[..n][1..];
    }
  }

  lemma {:induction false} ApprovedCount(opts: seq<Opt>, n: nat)
    requires n < |opts|
    ensures ApprovedBefore(opts, n + 1) == ApprovedBefore(opts, n) + if opts[n].status.Approved? then 1 else 0
    ensures forall i | 0 <= i <= n :: ApprovedBefore(opts[..n], i) == ApprovedBefore(opts, i)
  {
    var before, after := set j | 0 <= j < n && opts[j].status.Approved?, set j | 0 <= j < n + 1 && opts[j].status.Approved?;
    assert after == before + if opts[n].status.Approved? then {n} else {};
    forall i | 0 <= i <= n ensures ApprovedBefore(opts[..n], i) == ApprovedBefore(opts, i) {
      assert (set j | 0 <= j < i && opts[..n][j].status.Approved?) == set j | 0 <= j < i && opts[j].status.Approved?;
    }
  }

  lemma {:induction false} ApprovedAt(opts: seq<Opt>, i: nat)
    requires i < |opts| && opts[i].status.Approved?
    ensures ApprovedBefore(opts, i) < |ApprovedOnly(opts)| && ApprovedOnly(opts)[ApprovedBefore(opts, i)] == opts[i]
  {
    var n := |opts| - 1;
    ApprovedLength(opts[..n]);
    ApprovedLast(opts);
    ApprovedCount(opts, n);
    if i < n {
      ApprovedAt(opts[..n], i);
    }
  }

  lemma {:induction false} ApprovedLength(opts: seq<Opt>)
    ensures |ApprovedOnly(opts)| == ApprovedBefore(opts, |opts|)
  {
    if opts != [] {
      var n := |opts| - 1;
      ApprovedLength(opts[..n]);
      ApprovedLast(opts);
      ApprovedCount(opts, n);
    }
  }

  // It lists every approved option once, at its place among the approved ones,
  // and nothing else.
  lemma {:induction false} ApprovedOnlyMeans(opts: seq<Opt>)
    ensures |ApprovedOnly(opts)| == ApprovedBefore(opts, |opts|)
    ensures forall i | 0 <= i < |opts| && opts[i].status.Approved? ::
      ApprovedBefore(opts, i) < |ApprovedOnly(opts)| && ApprovedOnly(opts)[ApprovedBefore(opts, i)] == opts[i]
  {
    ApprovedLength(opts);
    forall i | 0 <= i < |opts| && opts[i].status.Approved?
      ensures ApprovedBefore(opts, i) < |ApprovedOnly(opts)| && ApprovedOnly(opts)[ApprovedBefore(opts, i)] == opts[i]
    {
      ApprovedAt(opts, i);
    }
  }

  /******* Sets *******/

  lemma {:induction false} DistinctSize<T>(s: seq<T>)
    requires NoRepeats(s)
    ensures |Elements(s)| == |s|
  {
    if s != [] {
      var rest, last := s[..|s| - 1], s[|s| - 1];
      DistinctSize(rest);
      assert s == rest + [last];
      assert Elements(s) == Elements(rest) + {last};
      assert last !in Elements(rest);
    }
  }

  lemma {:induction false} SubsetSize<T>(a: set<T>, b: set<T>)
    requires a <= b
    ensures |a| <= |b|
    ensures |a| == |b| ==> a == b
  {
    assert b == a + (b - a);
  }

  /******* Text *******/

  // unicode.IsSpace
  predicate IsSpace(c: char) {
    var n := c as int;
    (9 <= n <= 13) || n == 32 || n == 0x85 || n == 0xA0 || n == 0x1680 || (0x2000 <= n <= 0x200a)
    || n == 0x2028 || n == 0x2029 || n == 0x202f || n == 0x205f || n == 0x3000
  }

  // strings.TrimSpace
  function Trim(s: string): string {
    if s == "" then s
    else if IsSpace(s[0]) then Trim(s[1..])
    else if IsSpace(s[|s| - 1]) then Trim(s[..|s| - 1])
    else s
  }

  predicate Blank(s: string) {
    forall c | c in s :: IsSpace(c)
  }

  // What is trimmed off is blank, and what is left begins and ends with a letter
  // that is not.
  lemma {:induction false} TrimMeans(s: string) returns (before: string, after: string)
    ensures s == before + Trim(s) + after && Blank(before) && Blank(after)
    ensures Trim(s) != "" ==> !IsSpace(Trim(s)[0]) && !IsSpace(Trim(s)[|Trim(s)| - 1])
    decreases |s|
  {
    before, after := "", "";
    if s == "" {
    } else if IsSpace(s[0]) {
      before, after := TrimMeans(s[1..]);
      assert s == [s[0]] + s[1..];
      before := [s[0]] + before;
    } else if IsSpace(s[|s| - 1]) {
      before, after := TrimMeans(s[..|s| - 1]);
      assert s == s[..|s| - 1] + [s[|s| - 1]];
      after := after + [s[|s| - 1]];
    }
  }

  lemma {:induction false} TrimTwice(s: string)
    ensures Trim(Trim(s)) == Trim(s)
    decreases |s|
  {
    if s == "" {
    } else if IsSpace(s[0]) {
      TrimTwice(s[1..]);
    } else if IsSpace(s[|s| - 1]) {
      TrimTwice(s[..|s| - 1]);
    }
  }

  // The texts that are not blank, trimmed, in order.
  function NonBlank(texts: seq<string>): seq<string> {
    if texts == [] then []
    else (if Trim(texts[0]) == "" then [] else [Trim(texts[0])]) + NonBlank(texts[1..])
  }

  // The length in bytes of UTF-8, which is what the text limits count.
  function ByteLen(s: string): nat {
    if s == "" then 0
    else
      var n := s[0] as int;
      (if n < 0x80 then 1 else if n < 0x800 then 2 else if n < 0x10000 then 3 else 4) + ByteLen(s[1..])
  }

  // The white space characters of Unicode, one by one.
  lemma {:induction false} SpacesAre(c: char)
    ensures IsSpace(c) <==> c as int in {
      9, 10, 11, 12, 13, 32, 133, 160, 5760, 8192, 8193, 8194, 8195, 8196, 8197, 8198, 8199, 8200, 8201, 8202,
      8232, 8233, 8239, 8287, 12288}
  {}

  // A letter takes as many bytes as its code point needs: 7 bits fit in one, 11
  // in two, 16 in three, and anything in four.
  lemma {:induction false} ByteLenMeans(s: string, c: char, bytes: nat)
    requires 1 <= bytes <= 4 && (bytes < 4 ==> c as int < [128, 2048, 65536][bytes - 1])
    requires bytes > 1 ==> c as int >= [128, 2048, 65536][bytes - 2]
    ensures ByteLen(s + [c]) == ByteLen(s) + bytes
  {
    if s == "" {
      assert s + [c] == [c] && [c][1..] == "";
    } else {
      ByteLenMeans(s[1..], c, bytes);
      assert (s + [c])[1..] == s[1..] + [c];
    }
  }

  /******* Accepting answers *******/

  // Survey.Accepting
  predicate Accepting(sv: Survey, now: Time) {
    sv.state.Open? && (sv.closeAt == ZERO_TIME || now < sv.closeAt)
  }

  // Survey.AcceptingFrom
  predicate AcceptingFrom(sv: Survey, now: Time, previewer: bool) {
    (previewer && sv.state.Draft?) || Accepting(sv, now)
  }
}
