// The responses.tsv export: one line per response, one column per option that
// is not merged.
module Export {
  import opened Model
  import opened MergeGraph
  import opened Tally

  /******* Cells *******/

  function CellChar(c: char): string {
    if c == '\t' || c == '\n' || c == '\r' then " "
    else if c as int < 0x20 || c as int == 0x7f then ""
    else [c]
  }

  function Cell(s: string): string {
    if s == "" then "" else CellChar(s[0]) + Cell(s[1..])
  }

  predicate StartsFormula(s: string) {
    s != "" && (s[0] == '=' || s[0] == '+' || s[0] == '-' || s[0] == '@')
  }

  function TextCell(s: string): string {
    if StartsFormula(Cell(s)) then "'" + Cell(s) else Cell(s)
  }

  predicate Printable(s: string) {
    forall c | c in s :: c as int >= 0x20 && c as int != 0x7f
  }

  lemma {:induction false} CellIsPrintable(s: string)
    ensures Printable(Cell(s))
  {
    if s != "" {
      CellIsPrintable(s[1..]);
    }
  }

  lemma {:induction false} CellKeepsPrintable(s: string)
    requires Printable(s)
    ensures Cell(s) == s
  {
    if s != "" {
      assert s[0] in s && s == [s[0]] + s[1..];
      assert forall c | c in s[1..] :: c in s;
      CellKeepsPrintable(s[1..]);
    }
  }

  // Letter by letter: a tab or line break becomes a space, any other control
  // character goes, and everything else stays.
  lemma {:induction false} CellLetters(s: string, c: char)
    ensures Cell(s + [c]) == Cell(s) + if c == '\t' || c == '\n' || c == '\r' then " "
      else if c as int < 32 || c as int == 127 then "" else [c]
  {
    if s == "" {
      assert s + [c] == [c] && [c][1..] == "";
    } else {
      CellLetters(s[1..], c);
      assert (s + [c])[1..] == s[1..] + [c];
    }
  }

  lemma {:induction false} CellAppend(s: string, t: string)
    ensures Cell(s + t) == Cell(s) + Cell(t)
  {
    if s == "" {
      assert s + t == t;
    } else {
      CellAppend(s[1..], t);
      assert (s + t)[1..] == s[1..] + t && (s + t)[0] == s[0];
      assert CellChar(s[0]) + (Cell(s[1..]) + Cell(t)) == CellChar(s[0]) + Cell(s[1..]) + Cell(t);
    }
  }

  // A text cell is the sanitised text, with an apostrophe before it exactly when
  // it begins with one of the four characters that would start a formula.
  lemma {:induction false} TextCellMeans(s: string)
    ensures TextCell(s) == if Cell(s) != "" && Cell(s)[0] in "=+-@" then "'" + Cell(s) else Cell(s)
  {}

  // A second pass of cell changes nothing, and no text cell begins a formula.
  lemma {:induction false} CellsAreSafe(s: string)
    ensures Cell(Cell(s)) == Cell(s) && Cell(TextCell(s)) == TextCell(s)
    ensures !StartsFormula(TextCell(s)) && Printable(TextCell(s))
    ensures TextCell(s) == "" || TextCell(s)[0] !in "=+-@"
  {
    CellIsPrintable(s);
    CellKeepsPrintable(Cell(s));
    CellKeepsPrintable(TextCell(s));
  }

  /******* Resolving through a precomputed map *******/

  function ResolveMap(opts: seq<Opt>): map<Id, Id> {
    map o | o in opts && o.status.Merged? :: o.id := Resolve(opts, o.id).0
  }

  function ResolveVia(m: map<Id, Id>, id: Id): Id {
    if id in m then m[id] else id
  }

  method BuildResolveMap(opts: seq<Opt>) returns (m: map<Id, Id>)
    ensures m == ResolveMap(opts)
  {
    m := map[];
    for i := 0 to |opts|
      invariant forall id :: id in m <==> exists o :: o in opts[..i] && o.status.Merged? && o.id == id
      invariant forall id | id in m :: m[id] == Resolve(opts, id).0
    {
      if !opts[i].status.Merged? {
        continue;
      }
      var target, ok := ResolveLoop(opts, opts[i].id);
      m := m[opts[i].id := target];
    }
    assert opts[..|opts|] == opts;
  }

  // For every id, known or unknown, cyclic or not, and whatever the graph.
  lemma {:induction false} ResolveViaAgrees(opts: seq<Opt>, id: Id)
    ensures ResolveVia(ResolveMap(opts), id) == Resolve(opts, id).0
  {
    if id !in ResolveMap(opts) {
      var o := Find(opts, id);
      assert o.Some? ==> !o.value.status.Merged?;
      StopsAtOnce(opts, id);
    }
  }

  /******* The grid *******/

  // What the export prints before the options: the row id and two formatted times.
  datatype Stamp = Stamp(id: string, submitted: string, updated: string)

  function Header(o: Opt): string {
    if o.status.Approved? then TextCell(o.text) else TextCell(o.text + " [" + StatusName(o.status) + "]")
  }

  function Columns(opts: seq<Opt>): seq<Opt> {
    if opts == [] then []
    else Columns(opts[..|opts| - 1]) + if opts[|opts| - 1].status.Merged? then [] else [opts[|opts| - 1]]
  }

  function HeadRow(cols: seq<Opt>): seq<string> {
    ["response_id", "submitted", "updated"] + seq(|cols|, i requires 0 <= i < |cols| => Header(cols[i]))
    + ["selections", "comment"]
  }

  predicate Reaches(m: map<Id, Id>, ids: seq<Id>, target: Id) {
    exists id | id in ids :: ResolveVia(m, id) == target
  }

  function Mark(m: map<Id, Id>, r: Response, o: Opt): string {
    if Reaches(m, r.choices, o.id) then "1" else if Reaches(m, r.seen, o.id) then "0" else ""
  }

  function Marks(m: map<Id, Id>, r: Response, cols: seq<Opt>): seq<string> {
    seq(|cols|, i requires 0 <= i < |cols| => Mark(m, r, cols[i]))
  }

  function Ones(cells: seq<string>): nat {
    if cells == [] then 0 else Ones(cells[..|cells| - 1]) + if cells[|cells| - 1] == "1" then 1 else 0
  }

  // fmt.Sprint of a count.
  function Decimal(n: nat): string {
    if n < 10 then ["0123456789"[n]] else Decimal(n / 10) + ["0123456789"[n % 10]]
  }

  function Record(m: map<Id, Id>, cols: seq<Opt>, stamp: Stamp, r: Response): seq<string> {
    [stamp.id, stamp.submitted, stamp.updated] + Marks(m, r, cols)
    + [Decimal(Ones(Marks(m, r, cols))), TextCell(r.comment)]
  }

  function Grid(opts: seq<Opt>, stamps: seq<Stamp>, rs: seq<Response>): seq<seq<string>>
    requires |stamps| == |rs|
  {
    [HeadRow(Columns(opts))]
    + seq(|rs|, i requires 0 <= i < |rs| => Record(ResolveMap(opts), Columns(opts), stamps[i], rs[i]))
  }

  /******* Writing it *******/

  function Join(fields: seq<string>): string {
    if fields == [] then ""
    else if |fields| == 1 then fields[0]
    else Join(fields[..|fields| - 1]) + "\t" + fields[|fields| - 1]
  }

  function Sanitised(fields: seq<string>): seq<string> {
    seq(|fields|, i requires 0 <= i < |fields| => Cell(fields[i]))
  }

  function Line(fields: seq<string>): string {
    Join(Sanitised(fields)) + "\n"
  }

  function Rendered(grid: seq<seq<string>>): string {
    if grid == [] then "" else Rendered(grid[..|grid| - 1]) + Line(grid[|grid| - 1])
  }

  // row
  method WriteRow(written: string, fields: seq<string>) returns (after: string)
    ensures after == written + Line(fields)
  {
    after := written;
    for i := 0 to |fields|
      invariant after == written + Join(Sanitised(fields)[..i])
    {
      assert Sanitised(fields)[..i + 1][..i] == Sanitised(fields)[..i];
      if i > 0 {
        after := after + "\t";
      }
      after := after + Cell(fields[i]);
    }
    assert Sanitised(fields)[..|fields|] == Sanitised(fields);
    after := after + "\n";
  }

  method ResolvedSet(m: map<Id, Id>, ids: seq<Id>) returns (targets: set<Id>)
    ensures forall t :: t in targets <==> Reaches(m, ids, t)
  {
    targets := {};
    for i := 0 to |ids|
      invariant forall t :: t in targets <==> Reaches(m, ids[..i], t)
    {
      assert ids[..i + 1] == ids[..i] + [ids[i]];
      targets := targets + {ResolveVia(m, ids[i])};
    }
    assert ids[..|ids|] == ids;
  }

  method BuildRecord(m: map<Id, Id>, cols: seq<Opt>, stamp: Stamp, r: Response) returns (rec: seq<string>)
    ensures rec == Record(m, cols, stamp, r)
  {
    var chosen := ResolvedSet(m, r.choices);
    var seen := ResolvedSet(m, r.seen);
    var marks: seq<string>, n: nat := [], 0;
    for i := 0 to |cols|
      invariant marks == Marks(m, r, cols)[..i] && n == Ones(marks)
    {
      var cell := if cols[i].id in chosen then "1" else if cols[i].id in seen then "0" else "";
      assert (marks + [cell])[..|marks|] == marks;
      marks := marks + [cell];
      if cols[i].id in chosen {
        n := n + 1;
      }
    }
    assert marks == Marks(m, r, cols);
    rec := [stamp.id, stamp.submitted, stamp.updated] + marks + [Decimal(n), TextCell(r.comment)];
  }

  method BuildColumns(opts: seq<Opt>) returns (cols: seq<Opt>)
    ensures cols == Columns(opts)
  {
    cols := [];
    for i := 0 to |opts|
      invariant cols == Columns(opts[..i])
    {
      assert opts[..i + 1][..i] == opts[..i];
      if !opts[i].status.Merged? {
        cols := cols + [opts[i]];
      }
    }
    assert opts[..|opts|] == opts;
  }

  method BuildHead(cols: seq<Opt>) returns (head: seq<string>)
    ensures head == HeadRow(cols)
  {
    head := ["response_id", "submitted", "updated"];
    ghost var labels := seq(|cols|, i requires 0 <= i < |cols| => Header(cols[i]));
    for i := 0 to |cols|
      invariant head == ["response_id", "submitted", "updated"] + labels[..i]
    {
      head := head + [Header(cols[i])];
    }
    assert labels[..|cols|] == labels;
    head := head + ["selections", "comment"];
  }

  method Responses(opts: seq<Opt>, stamps: seq<Stamp>, rs: seq<Response>) returns (text: string)
    requires |stamps| == |rs|
    ensures text == Rendered(Grid(opts, stamps, rs))
  {
    var cols := BuildColumns(opts);
    var head := BuildHead(cols);
    var m := BuildResolveMap(opts);
    ghost var grid := Grid(opts, stamps, rs);
    text := WriteRow("", head);
    RenderedStep(grid, 0);
    for i := 0 to |rs|
      invariant text == Rendered(grid[..i + 1])
    {
      var rec := BuildRecord(m, cols, stamps[i], rs[i]);
      assert grid[i + 1] == rec;
      RenderedStep(grid, i + 1);
      text := WriteRow(text, rec);
    }
    assert grid[..|rs| + 1] == grid;
  }

  lemma {:induction false} RenderedStep(grid: seq<seq<string>>, i: nat)
    requires i < |grid|
    ensures Rendered(grid[..i + 1]) == Rendered(grid[..i]) + Line(grid[i])
    ensures Rendered(grid[..0]) == ""
  {
    assert grid[..i + 1][..i] == grid[..i];
  }

  /******* Reading it back *******/

  function Split(sep: char, s: string): (parts: seq<string>)
    ensures |parts| > 0
  {
    if s == "" then [""]
    else
      var n := |s| - 1;
      var before := Split(sep, s[..n]);
      if s[n] == sep then before + [""] else before[..|before| - 1] + [before[|before| - 1] + [s[n]]]
  }

  lemma {:induction false} SplitPush(sep: char, s: string, c: char)
    ensures var parts := Split(sep, s); var n := |parts| - 1;
      Split(sep, s + [c]) == if c == sep then parts + [""] else parts[..n] + [parts[n] + [c]]
  {
    assert (s + [c])[..|s|] == s;
  }

  lemma {:induction false} Snoc(a: string, b: string)
    requires b != ""
    ensures a + b == (a + b[..|b| - 1]) + [b[|b| - 1]]
  {}

  // Appending text without a separator lengthens the last part.
  lemma {:induction false} SplitExtend(sep: char, a: string, b: string)
    requires sep !in b
    ensures var parts := Split(sep, a); var n := |parts| - 1;
      Split(sep, a + b) == parts[..n] + [parts[n] + b]
  {
    var parts := Split(sep, a);
    var n := |parts| - 1;
    if b == "" {
      assert a + b == a && parts[n] + b == parts[n];
    } else {
      var k := |b| - 1;
      SplitExtend(sep, a, b[..k]);
      SplitPush(sep, a + b[..k], b[k]);
      Snoc(a, b);
      Snoc(parts[n], b);
    }
  }

  lemma {:induction false} SplitAppend(sep: char, a: string, b: string)
    requires sep !in b
    ensures Split(sep, a + [sep] + b) == Split(sep, a) + [b]
  {
    SplitPush(sep, a, sep);
    SplitExtend(sep, a + [sep], b);
    assert "" + b == b;
  }

  lemma {:induction false} SplitJoin(fields: seq<string>)
    requires fields != [] && forall f | f in fields :: '\t' !in f
    ensures Split('\t', Join(fields)) == fields
  {
    if |fields| == 1 {
      SplitExtend('\t', "", fields[0]);
      assert "" + fields[0] == fields[0];
      assert fields == [fields[0]];
    } else {
      var rest := fields[..|fields| - 1];
      SplitJoin(rest);
      SplitAppend('\t', Join(rest), fields[|fields| - 1]);
      assert fields == rest + [fields[|fields| - 1]];
    }
  }

  lemma {:induction false} SanitisedFields(fields: seq<string>)
    ensures forall f | f in Sanitised(fields) :: Printable(f) && '\t' !in f && '\n' !in f
  {
    forall i | 0 <= i < |fields| ensures Printable(Sanitised(fields)[i]) {
      CellIsPrintable(fields[i]);
    }
  }

  lemma {:induction false} JoinHasNoNewline(fields: seq<string>)
    requires forall f | f in fields :: '\n' !in f
    ensures '\n' !in Join(fields)
  {
    if |fields| > 1 {
      JoinHasNoNewline(fields[..|fields| - 1]);
    }
  }

  function LinesOf(grid: seq<seq<string>>): seq<string> {
    seq(|grid|, i requires 0 <= i < |grid| => Join(Sanitised(grid[i])))
  }

  lemma {:induction false} SplitRendered(grid: seq<seq<string>>)
    ensures Split('\n', Rendered(grid)) == LinesOf(grid) + [""]
  {
    if grid != [] {
      var n := |grid| - 1;
      SplitRendered(grid[..n]);
      SanitisedFields(grid[n]);
      JoinHasNoNewline(Sanitised(grid[n]));
      LinesStep(grid);
      SplitLast(Rendered(grid[..n]), LinesOf(grid[..n]), Join(Sanitised(grid[n])));
    }
  }

  lemma {:induction false} LinesStep(grid: seq<seq<string>>)
    requires grid != []
    ensures var n := |grid| - 1; LinesOf(grid) == LinesOf(grid[..n]) + [Join(Sanitised(grid[n]))]
  {}

  lemma {:induction false} SplitLast(before: string, lines: seq<string>, line: string)
    requires Split('\n', before) == lines + [""] && '\n' !in line
    ensures Split('\n', before + (line + "\n")) == lines + [line] + [""]
  {
    SplitExtend('\n', before, line);
    SplitPush('\n', before + line, '\n');
    assert (lines + [""])[..|lines|] == lines && "" + line == line;
    assert before + (line + "\n") == before + line + ['\n'];
  }

  lemma {:induction false} RecordCells(m: map<Id, Id>, cols: seq<Opt>, stamp: Stamp, r: Response)
    ensures var rec := Record(m, cols, stamp, r);
      |rec| == |cols| + 5 && (forall j | 0 <= j < |cols| :: rec[3 + j] == Mark(m, r, cols[j]))
      && rec[|cols| + 3] == Decimal(Ones(Marks(m, r, cols))) && rec[|cols| + 4] == TextCell(r.comment)
  {
    var front := [stamp.id, stamp.submitted, stamp.updated] + Marks(m, r, cols);
    assert |front| == |cols| + 3 && forall j | 0 <= j < |cols| :: front[3 + j] == Mark(m, r, cols[j]);
  }

  lemma {:induction false} HeadCells(cols: seq<Opt>)
    ensures var head := HeadRow(cols);
      |head| == |cols| + 5 && (forall j | 0 <= j < |cols| :: head[3 + j] == Header(cols[j]))
      && head[|cols| + 3] == "selections" && head[|cols| + 4] == "comment"
  {}

  lemma {:induction false} GridRows(opts: seq<Opt>, stamps: seq<Stamp>, rs: seq<Response>, i: nat)
    requires |stamps| == |rs| && i <= |rs|
    ensures var row := Grid(opts, stamps, rs)[i];
      row == if i == 0 then HeadRow(Columns(opts)) else Record(ResolveMap(opts), Columns(opts), stamps[i - 1], rs[i - 1])
  {}

  lemma {:induction false} SanitisedAt(fields: seq<string>, j: nat)
    requires j < |fields|
    ensures |Sanitised(fields)| == |fields| && Sanitised(fields)[j] == Cell(fields[j])
  {}

  lemma {:induction false} GridWidth(opts: seq<Opt>, stamps: seq<Stamp>, rs: seq<Response>, i: nat)
    requires |stamps| == |rs| && i <= |rs|
    ensures |Grid(opts, stamps, rs)[i]| == |Columns(opts)| + 5
  {
    GridRows(opts, stamps, rs, i);
    HeadCells(Columns(opts));
    if i > 0 {
      RecordCells(ResolveMap(opts), Columns(opts), stamps[i - 1], rs[i - 1]);
    }
  }

  // Splitting the file on newline and tab gives back exactly the sanitised
  // grid: a header and one row per response, all of the same width.
  lemma {:induction false} ExportRoundTrips(opts: seq<Opt>, stamps: seq<Stamp>, rs: seq<Response>)
    requires |stamps| == |rs|
    ensures var grid, lines := Grid(opts, stamps, rs), Split('\n', Rendered(Grid(opts, stamps, rs)));
      |lines| == |rs| + 2 && lines[|rs| + 1] == "" && |grid| == |rs| + 1
      && forall i | 0 <= i < |grid| ::
        Split('\t', lines[i]) == Sanitised(grid[i]) && |grid[i]| == |Columns(opts)| + 5
  {
    var grid := Grid(opts, stamps, rs);
    SplitRendered(grid);
    forall i | 0 <= i < |grid|
      ensures Split('\t', LinesOf(grid)[i]) == Sanitised(grid[i]) && |grid[i]| == |Columns(opts)| + 5
    {
      GridWidth(opts, stamps, rs, i);
      SanitisedFields(grid[i]);
      SplitJoin(Sanitised(grid[i]));
    }
  }

  // A field that row writes without starting a formula.
  predicate Safe(field: string) {
    !StartsFormula(Cell(field))
  }

  lemma {:induction false} PlainIsSafe(s: string)
    requires Printable(s) && !StartsFormula(s)
    ensures Cell(s) == s && Safe(s)
  {
    CellKeepsPrintable(s);
  }

  lemma {:induction false} HeaderIsSafe(o: Opt)
    ensures Safe(Header(o))
  {
    CellsAreSafe(o.text);
    CellsAreSafe(o.text + " [" + StatusName(o.status) + "]");
  }

  lemma {:induction false} DecimalIsSafe(n: nat)
    ensures Safe(Decimal(n))
  {
    DecimalDigits(n);
    var d := Decimal(n);
    assert d[0] in d;
    PlainIsSafe(d);
  }

  lemma {:induction false} HeadingIsSafe(heading: string)
    requires heading == "selections" || heading == "comment"
    ensures Safe(heading)
  {
    PlainIsSafe(heading);
  }

  lemma {:induction false} HeadCell(cols: seq<Opt>, j: nat)
    requires 3 <= j < |cols| + 5
    ensures |HeadRow(cols)| == |cols| + 5
    ensures if j < |cols| + 3 then HeadRow(cols)[j] == Header(cols[j - 3])
      else HeadRow(cols)[j] == "selections" || HeadRow(cols)[j] == "comment"
  {
    HeadCells(cols);
    if j < |cols| + 3 {
      assert HeadRow(cols)[3 + (j - 3)] == Header(cols[j - 3]);
    }
  }

  lemma {:induction false} HeadIsSafe(cols: seq<Opt>, j: nat)
    requires 3 <= j < |cols| + 5
    ensures |HeadRow(cols)| == |cols| + 5 && Safe(HeadRow(cols)[j])
  {
    HeadCell(cols, j);
    if j < |cols| + 3 {
      HeaderIsSafe(cols[j - 3]);
    } else {
      HeadingIsSafe(HeadRow(cols)[j]);
    }
  }

  lemma {:induction false} RecordIsSafe(m: map<Id, Id>, cols: seq<Opt>, stamp: Stamp, r: Response, j: nat)
    requires 3 <= j < |cols| + 5
    ensures |Record(m, cols, stamp, r)| == |cols| + 5 && Safe(Record(m, cols, stamp, r)[j])
  {
    RecordCells(m, cols, stamp, r);
    if j < |cols| + 3 {
      PlainIsSafe(Mark(m, r, cols[j - 3]));
      assert Record(m, cols, stamp, r)[3 + (j - 3)] == Mark(m, r, cols[j - 3]);
    } else if j == |cols| + 3 {
      DecimalIsSafe(Ones(Marks(m, r, cols)));
    } else {
      CellsAreSafe(r.comment);
    }
  }

  // No option label and no comment can start a formula in the file.
  lemma {:induction false} NoFormulas(opts: seq<Opt>, stamps: seq<Stamp>, rs: seq<Response>, i: nat, j: nat)
    requires |stamps| == |rs| && i <= |rs| && 3 <= j < |Columns(opts)| + 5
    ensures var row := Sanitised(Grid(opts, stamps, rs)[i]);
      |row| == |Columns(opts)| + 5 && (row[j] == "" || row[j][0] !in "=+-@")
  {
    GridRows(opts, stamps, rs, i);
    if i == 0 {
      HeadIsSafe(Columns(opts), j);
    } else {
      RecordIsSafe(ResolveMap(opts), Columns(opts), stamps[i - 1], rs[i - 1], j);
    }
    SanitisedAt(Grid(opts, stamps, rs)[i], j);
  }

  lemma {:induction false} DecimalDigits(n: nat)
    ensures Decimal(n) != "" && forall c | c in Decimal(n) :: '0' <= c <= '9'
  {
    if n >= 10 {
      DecimalDigits(n / 10);
    }
  }

  /******* What the fields say *******/

  // How many of the first n options are not merged.
  ghost function LiveBefore(opts: seq<Opt>, n: nat): nat
    requires n <= |opts|
  {
    |set j | 0 <= j < n && !opts[j].status.Merged?|
  }

  lemma {:induction false} ColumnAt(opts: seq<Opt>, i: nat)
    requires i < |opts| && !opts[i].status.Merged?
    ensures LiveBefore(opts, i) < |Columns(opts)| && Columns(opts)[LiveBefore(opts, i)] == opts[i]
  {
    var n := |opts| - 1;
    ColumnCount(opts[..n]);
    LiveCount(opts, n);
    if i < n {
      ColumnAt(opts[..n], i);
    }
  }

  lemma {:induction false} ColumnCount(opts: seq<Opt>)
    ensures |Columns(opts)| == LiveBefore(opts, |opts|)
  {
    if opts != [] {
      var n := |opts| - 1;
      ColumnCount(opts[..n]);
      LiveCount(opts, n);
    }
  }

  // There is one column for each option that is not merged, in the editor's
  // order.
  lemma {:induction false} ColumnsMean(opts: seq<Opt>)
    ensures |Columns(opts)| == LiveBefore(opts, |opts|)
    ensures forall i | 0 <= i < |opts| && !opts[i].status.Merged? ::
      LiveBefore(opts, i) < |Columns(opts)| && Columns(opts)[LiveBefore(opts, i)] == opts[i]
  {
    ColumnCount(opts);
    forall i | 0 <= i < |opts| && !opts[i].status.Merged?
      ensures LiveBefore(opts, i) < |Columns(opts)| && Columns(opts)[LiveBefore(opts, i)] == opts[i]
    {
      ColumnAt(opts, i);
    }
  }

  lemma {:induction false} LiveCount(opts: seq<Opt>, n: nat)
    requires n < |opts|
    ensures LiveBefore(opts, n + 1) == LiveBefore(opts, n) + if opts[n].status.Merged? then 0 else 1
    ensures forall i | 0 <= i <= n :: LiveBefore(opts[..n], i) == LiveBefore(opts, i)
  {
    var before, after := set j | 0 <= j < n && !opts[j].status.Merged?, set j | 0 <= j < n + 1 && !opts[j].status.Merged?;
    assert after == before + if opts[n].status.Merged? then {} else {n};
    forall i | 0 <= i <= n ensures LiveBefore(opts[..n], i) == LiveBefore(opts, i) {
      assert (set j | 0 <= j < i && !opts[..n][j].status.Merged?) == set j | 0 <= j < i && !opts[j].status.Merged?;
    }
  }

  lemma {:induction false} SuffixStays(text: string, suffix: string)
    requires Printable(suffix)
    ensures Cell(text + suffix) == Cell(text) + suffix
  {
    CellAppend(text, suffix);
    CellKeepsPrintable(suffix);
  }

  // A heading is the option's text, and its status when it is not approved,
  // sanitised and marked as text.
  lemma {:induction false} HeaderMeans(o: Opt)
    ensures var suffix := if o.status.Approved? then "" else " [" + StatusName(o.status) + "]";
      Header(o) == Cell(o.text) + suffix || Header(o) == "'" + (Cell(o.text) + suffix)
  {
    if o.status.Approved? {
      TextCellMeans(o.text);
      assert Cell(o.text) + "" == Cell(o.text);
    } else {
      var suffix := " [" + StatusName(o.status) + "]";
      assert o.text + " [" + StatusName(o.status) + "]" == o.text + suffix;
      TextCellMeans(o.text + suffix);
      StatusPrints(o.status);
      SuffixStays(o.text, suffix);
    }
  }

  lemma {:induction false} StatusPrints(s: Status)
    ensures Printable(" [" + StatusName(s) + "]")
  {
    var name := StatusName(s);
    assert forall c | c in name :: 'a' <= c <= 'z';
  }

  // A decimal read back.
  function Digit(c: char): nat {
    if '0' <= c <= '9' then c as int - '0' as int else 0
  }

  function Value(s: string): nat {
    if s == "" then 0 else 10 * Value(s[..|s| - 1]) + Digit(s[|s| - 1])
  }

  lemma {:induction false} DecimalReadsBack(n: nat)
    ensures Value(Decimal(n)) == n
  {
    var digit := "0123456789"[n % 10];
    assert Digit(digit) == n % 10;
    if n >= 10 {
      DecimalReadsBack(n / 10);
      assert Decimal(n)[..|Decimal(n)| - 1] == Decimal(n / 10);
    } else {
      assert [digit][..0] == "";
    }
  }

  ghost function OnesAmong(cells: seq<string>): set<nat> {
    set j | 0 <= j < |cells| && cells[j] == "1"
  }

  lemma {:induction false} OnesLast(cells: seq<string>)
    requires cells != []
    ensures var n := |cells| - 1; OnesAmong(cells) == OnesAmong(cells[..n]) + if cells[n] == "1" then {n} else {}
  {
    var n := |cells| - 1;
    assert forall j | 0 <= j < n :: cells[..n][j] == cells[j];
  }

  lemma {:induction false} OnesMean(cells: seq<string>)
    ensures Ones(cells) == |OnesAmong(cells)|
  {
    if cells != [] {
      OnesMean(cells[..|cells| - 1]);
      OnesLast(cells);
    }
  }

  lemma {:induction false} MarkTells(opts: seq<Opt>, r: Response, o: Opt)
    ensures var cell := Mark(ResolveMap(opts), r, o);
      (cell == "1" <==> exists id :: id in r.choices && Resolve(opts, id).0 == o.id)
      && (cell == "" <==> !exists id :: (id in r.choices || id in r.seen) && Resolve(opts, id).0 == o.id)
      && (cell == "1" || cell == "0" || cell == "")
  {
    forall id ensures ResolveVia(ResolveMap(opts), id) == Resolve(opts, id).0 {
      ResolveViaAgrees(opts, id);
    }
  }

  // Response by response: the row id and times; a mark for each column, 1 if a
  // choice resolves to it, 0 if only something seen does, blank otherwise; the
  // number of ones; and the comment.
  lemma {:induction false} RecordMeans(opts: seq<Opt>, cols: seq<Opt>, stamp: Stamp, r: Response)
    ensures var rec := Record(ResolveMap(opts), cols, stamp, r);
      |rec| == |cols| + 5 && rec[0] == stamp.id && rec[1] == stamp.submitted && rec[2] == stamp.updated
      && Value(rec[|cols| + 3]) == |OnesAmong(rec[3..|cols| + 3])| && rec[|cols| + 4] == TextCell(r.comment)
    ensures forall j | 0 <= j < |cols| ::
      var cell := Record(ResolveMap(opts), cols, stamp, r)[3 + j];
      (cell == "1" <==> exists id :: id in r.choices && Resolve(opts, id).0 == cols[j].id)
      && (cell == "" <==> !exists id :: (id in r.choices || id in r.seen) && Resolve(opts, id).0 == cols[j].id)
      && (cell == "1" || cell == "0" || cell == "")
  {
    var m := ResolveMap(opts);
    var rec, marks := Record(m, cols, stamp, r), Marks(m, r, cols);
    RecordCells(m, cols, stamp, r);
    DecimalReadsBack(Ones(marks));
    OnesMean(marks);
    assert rec[3..|cols| + 3] == marks;
    forall j | 0 <= j < |cols|
      ensures var cell := rec[3 + j];
        (cell == "1" <==> exists id :: id in r.choices && Resolve(opts, id).0 == cols[j].id)
        && (cell == "" <==> !exists id :: (id in r.choices || id in r.seen) && Resolve(opts, id).0 == cols[j].id)
        && (cell == "1" || cell == "0" || cell == "")
    {
      MarkTells(opts, r, cols[j]);
    }
  }

  /******* The file agrees with the tally *******/

  function CountCells(rows: seq<seq<string>>, col: nat, cell: string): nat
    requires forall row | row in rows :: col < |row|
  {
    if rows == [] then 0
    else CountCells(rows[..|rows| - 1], col, cell) + if rows[|rows| - 1][col] == cell then 1 else 0
  }

  function Body(opts: seq<Opt>, stamps: seq<Stamp>, rs: seq<Response>): seq<seq<string>>
    requires |stamps| == |rs|
  {
    seq(|rs|, i requires 0 <= i < |rs| => Sanitised(Grid(opts, stamps, rs)[i + 1]))
  }

  lemma {:induction false} MarkMeans(opts: seq<Opt>, r: Response, o: Opt)
    requires Distinct(opts) && o in opts && o.status.Approved?
    ensures var cell := Mark(ResolveMap(opts), r, o);
      (cell == "1" <==> Counts(opts, Elements(r.choices), o.id))
      && (cell == "" <==> !Counts(opts, Elements(r.choices), o.id) && !Counts(opts, Elements(r.seen), o.id))
  {
    ReachMeansCount(opts, r.choices, o);
    ReachMeansCount(opts, r.seen, o);
  }

  lemma {:induction false} ReachMeansCount(opts: seq<Opt>, ids: seq<Id>, o: Opt)
    requires Distinct(opts) && o in opts && o.status.Approved?
    ensures Reaches(ResolveMap(opts), ids, o.id) <==> Counts(opts, Elements(ids), o.id)
  {
    FindMember(opts, o);
    forall id ensures Resolve(opts, id) == (o.id, true) <==> ResolveVia(ResolveMap(opts), id) == o.id {
      ApprovedTarget(opts, id, o.id);
      ResolveViaAgrees(opts, id);
    }
    if Reaches(ResolveMap(opts), ids, o.id) {
      var id :| id in ids && ResolveVia(ResolveMap(opts), id) == o.id;
      assert id in Elements(ids) && Resolve(opts, id) == (o.id, true);
    }
    if Counts(opts, Elements(ids), o.id) {
      var id :| id in Elements(ids) && Resolve(opts, id) == (o.id, true);
      assert id in ids && ResolveVia(ResolveMap(opts), id) == o.id;
    }
  }

  lemma {:induction false} BodyRow(opts: seq<Opt>, stamps: seq<Stamp>, rs: seq<Response>, i: nat)
    requires |stamps| == |rs| && i < |rs|
    ensures Body(opts, stamps, rs)[i] == Sanitised(Record(ResolveMap(opts), Columns(opts), stamps[i], rs[i]))
  {
    GridRows(opts, stamps, rs, i + 1);
  }

  lemma {:induction false} RecordCellStays(m: map<Id, Id>, cols: seq<Opt>, stamp: Stamp, r: Response, j: nat)
    requires j < |cols|
    ensures var row := Sanitised(Record(m, cols, stamp, r)); |row| == |cols| + 5 && row[3 + j] == Mark(m, r, cols[j])
  {
    RecordCells(m, cols, stamp, r);
    SanitisedAt(Record(m, cols, stamp, r), 3 + j);
    PlainIsSafe(Mark(m, r, cols[j]));
  }

  lemma {:induction false} BodyCell(opts: seq<Opt>, stamps: seq<Stamp>, rs: seq<Response>, i: nat, j: nat)
    requires |stamps| == |rs| && i < |rs| && j < |Columns(opts)|
    ensures |Body(opts, stamps, rs)[i]| == |Columns(opts)| + 5
    ensures Body(opts, stamps, rs)[i][3 + j] == Mark(ResolveMap(opts), rs[i], Columns(opts)[j])
  {
    BodyRow(opts, stamps, rs, i);
    RecordCellStays(ResolveMap(opts), Columns(opts), stamps[i], rs[i], j);
  }

  function CountTrue(b: seq<bool>): nat {
    if b == [] then 0 else CountTrue(b[..|b| - 1]) + if b[|b| - 1] then 1 else 0
  }

  lemma {:induction false} CellsAsFlags(rows: seq<seq<string>>, col: nat, cell: string, b: seq<bool>)
    requires |b| == |rows| && (forall row | row in rows :: col < |row|)
    requires forall i | 0 <= i < |b| :: b[i] == (rows[i][col] == cell)
    ensures CountCells(rows, col, cell) == CountTrue(b)
  {
    if rows != [] {
      CellsAsFlags(rows[..|rows| - 1], col, cell, b[..|b| - 1]);
    }
  }

  lemma {:induction false} CountsAsFlags(opts: seq<Opt>, lists: seq<seq<Id>>, target: Id, b: seq<bool>)
    requires |b| == |lists| && forall i | 0 <= i < |b| :: b[i] == Counts(opts, Elements(lists[i]), target)
    ensures CountIn(opts, lists, target) == CountTrue(b)
  {
    if lists != [] {
      CountsAsFlags(opts, lists[..|lists| - 1], target, b[..|b| - 1]);
    }
  }

  // Everything not blank is either shown, or chosen without being shown.
  lemma {:induction false} NotBlank(chosen: seq<bool>, seen: seq<bool>, blank: seq<bool>)
    requires |chosen| == |seen| == |blank|
    requires forall i | 0 <= i < |blank| :: blank[i] == (!chosen[i] && !seen[i])
    ensures |blank| - CountTrue(blank) >= CountTrue(seen)
    ensures |blank| - CountTrue(blank) == CountTrue(seen) <==> forall i | 0 <= i < |blank| :: chosen[i] ==> seen[i]
  {
    if blank != [] {
      var n := |blank| - 1;
      NotBlank(chosen[..n], seen[..n], blank[..n]);
      assert (forall i | 0 <= i < |blank| :: chosen[i] ==> seen[i])
        <==> (forall i | 0 <= i < n :: chosen[..n][i] ==> seen[..n][i]) && (chosen[n] ==> seen[n]);
    }
  }

  // A response whose choice counts for the option while nothing it was shown does.
  ghost predicate Unshown(opts: seq<Opt>, r: Response, target: Id) {
    Counts(opts, Elements(r.choices), target) && !Counts(opts, Elements(r.seen), target)
  }

  lemma {:induction false} CellMeans(opts: seq<Opt>, stamps: seq<Stamp>, rs: seq<Response>, i: nat, j: nat)
    requires |stamps| == |rs| && Distinct(opts) && i < |rs|
    requires j < |Columns(opts)| && Columns(opts)[j].status.Approved?
    ensures var o, row := Columns(opts)[j], Body(opts, stamps, rs)[i];
      3 + j < |row|
      && (row[3 + j] == "1" <==> Counts(opts, Elements(rs[i].choices), o.id))
      && (row[3 + j] == "" <==>
        !Counts(opts, Elements(rs[i].choices), o.id) && !Counts(opts, Elements(rs[i].seen), o.id))
  {
    var o := Columns(opts)[j];
    ColumnsMembers(opts);
    assert o in Columns(opts);
    BodyCell(opts, stamps, rs, i, j);
    MarkMeans(opts, rs[i], o);
  }

  // For each approved option: the number of 1 cells in its column is the
  // tally's Votes; the number of non-blank cells is its Shown exactly when
  // every response that chose it was also shown it.
  lemma {:induction false} ColumnAgreesWithTally(opts: seq<Opt>, stamps: seq<Stamp>, rs: seq<Response>, j: nat)
    requires |stamps| == |rs| && Distinct(opts) && j < |Columns(opts)| && Columns(opts)[j].status.Approved?
    ensures var o, rows := Columns(opts)[j], Body(opts, stamps, rs);
      (forall row | row in rows :: 3 + j < |row|)
      && CountCells(rows, 3 + j, "1") == RowFor(opts, rs, o).votes
      && (|rs| - CountCells(rows, 3 + j, "") == RowFor(opts, rs, o).shown
          <==> forall i | 0 <= i < |rs| :: !Unshown(opts, rs[i], o.id))
  {
    var o, rows := Columns(opts)[j], Body(opts, stamps, rs);
    var chosen := seq(|rs|, i requires 0 <= i < |rs| => Counts(opts, Elements(rs[i].choices), o.id));
    var seen := seq(|rs|, i requires 0 <= i < |rs| => Counts(opts, Elements(rs[i].seen), o.id));
    var blank := seq(|rs|, i requires 0 <= i < |rs| => !chosen[i] && !seen[i]);
    forall i | 0 <= i < |rs|
      ensures 3 + j < |rows[i]| && chosen[i] == (rows[i][3 + j] == "1") && blank[i] == (rows[i][3 + j] == "")
    {
      CellMeans(opts, stamps, rs, i, j);
    }
    CellsAsFlags(rows, 3 + j, "1", chosen);
    CellsAsFlags(rows, 3 + j, "", blank);
    CountsAsFlags(opts, ChoiceLists(rs), o.id, chosen);
    CountsAsFlags(opts, SeenLists(rs), o.id, seen);
    NotBlank(chosen, seen, blank);
    forall i | 0 <= i < |rs| ensures Unshown(opts, rs[i], o.id) <==> chosen[i] && !seen[i] {
    }
  }

  lemma {:induction false} ColumnsMembers(opts: seq<Opt>)
    ensures forall o :: o in Columns(opts) <==> o in opts && !o.status.Merged?
  {
    if opts != [] {
      var n := |opts| - 1;
      ColumnsMembers(opts[..n]);
      assert opts == opts[..n] + [opts[n]];
    }
  }

  // With what was chosen always among what was shown, the two agree outright.
  lemma {:induction false} ColumnsMatchTheTally(opts: seq<Opt>, stamps: seq<Stamp>, rs: seq<Response>,
      rows: map<Voter, Row>, j: nat)
    requires |stamps| == |rs| && Distinct(opts) && j < |Columns(opts)| && Columns(opts)[j].status.Approved?
    requires Lists(rs, rows) && ChosenWasShown(rows)
    ensures var o, body := Columns(opts)[j], Body(opts, stamps, rs);
      (forall row | row in body :: 3 + j < |row|)
      && CountCells(body, 3 + j, "1") == |Holders(opts, rows, o.id)|
      && |rs| - CountCells(body, 3 + j, "") == |Viewers(opts, rows, o.id)|
  {
    var o := Columns(opts)[j];
    ColumnAgreesWithTally(opts, stamps, rs, j);
    ListsSets(opts, rs, rows, o.id);
    forall i | 0 <= i < |rs| ensures !Unshown(opts, rs[i], o.id) {
      var r := rs[i];
      assert Reads(r, r.voter, rows[r.voter]);
      if Counts(opts, Elements(r.choices), o.id) {
        var id :| id in Elements(r.choices) && Resolve(opts, id) == (o.id, true);
        assert id in Elements(r.seen);
      }
    }
  }
}
