// Saving a survey to a document and restoring a document as a survey.
module Documents {
  import opened Model

  const DOC_FORMAT: string := "quicksurvey.survey"
  const DOC_VERSION: int := 2

  datatype DocOption = DocOption(
    text: string, source: string, id: Id, status: string, mergedInto: Id, created: Time)

  datatype DocResponse = DocResponse(
    voter: Voter, choices: seq<Id>, seen: seq<Id>, comment: string, created: Time, updated: Time)

  datatype Body = Body(
    typ: string,
    title: string,
    description: string,
    showResults: bool,
    allowWriteIn: bool,
    allowComment: bool,
    noRandomize: bool,
    options: seq<DocOption>,
    state: string,
    closeAt: Time,
    firstOpenedAt: Time,
    created: Time,
    updated: Time)

  // responses is None in a definition, which carries no list of them at all.
  datatype Document = Document(
    format: string, version: int, exported: Time, sourceId: Id, body: Body, responses: Maybe<seq<DocResponse>>)

  predicate Full(doc: Document) {
    doc.responses.Some? || doc.body.state != ""
  }

  datatype Problem =
    | WrongFormat | NoVersion | TooNew | NoTitle | UnknownType | ResponsesNeedTheirId | NoSourceId | AlreadyThere
    | UnknownState | OptionWithoutText | UnknownStatus | DanglingMerge | NoVoter | DanglingChoice | DanglingSeen
    | OverTheCeiling | Duplicate

  datatype Outcome<+T> = Done(value: T) | Refused(problem: Problem)

  // validOptionStatus, with the absent status read as approved.
  function ReadStatus(s: string): Maybe<Status> {
    if s == "" || s == "approved" then Some(Approved)
    else if s == "pending" then Some(Pending)
    else if s == "rejected" then Some(Rejected)
    else if s == "removed" then Some(Removed)
    else if s == "merged" then Some(Merged)
    else None
  }

  function StateName(s: State): string {
    match s
    case Draft => "draft"
    case Open => "open"
    case Closed => "closed"
  }

  function ReadState(s: string): Maybe<State> {
    if s == "draft" then Some(Draft) else if s == "open" then Some(Open) else if s == "closed" then Some(Closed) else None
  }

  function SourceName(s: Source): string {
    if s.WriteIn? then "writein" else "editor"
  }

  function ReadSource(s: string): Source {
    if s == "writein" then WriteIn else Editor
  }

  lemma {:induction false} NamesReadBack(status: Status, state: State, source: Source)
    ensures ReadStatus(StatusName(status)) == Some(status) && StatusName(status) != ""
    ensures ReadState(StateName(state)) == Some(state) && StateName(state) != ""
    ensures ReadSource(SourceName(source)) == source
  {
    assert StatusName(status)[0] == StatusName(status)[0];
    assert "approved" != "pending" && |"approved"| == |"rejected"| == 8;
    assert "rejected"[0] == 'r' && "approved"[0] == 'a';
    assert "removed"[1] == 'e' && "pending"[0] == 'p' && "removed"[0] == 'r' && "merged"[0] == 'm';
  }

  /******* SurveyDocument *******/

  function SavedOption(o: Opt, full: bool): DocOption {
    if full then DocOption(o.text, SourceName(o.source), o.id, StatusName(o.status), o.mergedInto, o.created)
    else DocOption(o.text, SourceName(o.source), "", "", "", ZERO_TIME)
  }

  function SavedOptions(opts: seq<Opt>, full: bool): seq<DocOption> {
    if opts == [] then []
    else
      var n := |opts| - 1;
      SavedOptions(opts[..n], full) + if full || opts[n].status.Approved? then [SavedOption(opts[n], full)] else []
  }

  function SavedResponse(r: Response): DocResponse {
    DocResponse(r.voter, r.choices, r.seen, r.comment, r.created, r.updated)
  }

  function SavedResponses(rs: seq<Response>): seq<DocResponse> {
    seq(|rs|, i requires 0 <= i < |rs| => SavedResponse(rs[i]))
  }

  function SavedBody(sv: Survey, full: bool): Body {
    Body(sv.typ, sv.title, sv.description, sv.showResults, sv.allowWriteIn, sv.allowComment, sv.noRandomize,
         SavedOptions(sv.options, full),
         if full then StateName(sv.state) else "",
         if full then sv.closeAt else ZERO_TIME,
         if full then sv.firstOpenedAt else ZERO_TIME,
         if full then sv.created else ZERO_TIME,
         if full then sv.updated else ZERO_TIME)
  }

  function SavedDocument(sv: Survey, rs: seq<Response>, full: bool, now: Time): Document {
    Document(DOC_FORMAT, DOC_VERSION, now, sv.id, SavedBody(sv, full), if full then Some(SavedResponses(rs)) else None)
  }

  lemma {:induction false} DefinitionLists(opts: seq<Opt>)
    ensures |SavedOptions(opts, false)| == |ApprovedOnly(opts)|
    ensures forall k | 0 <= k < |ApprovedOnly(opts)| ::
      SavedOptions(opts, false)[k] == SavedOption(ApprovedOnly(opts)[k], false)
  {
    if opts != [] {
      DefinitionLists(opts[..|opts| - 1]);
      ApprovedLast(opts);
    }
  }

  // A definition carries the survey's wording and switches, its approved options
  // one for one in the editor's order, with text and source and nothing more,
  // and neither state, times nor responses.
  lemma {:induction false} DefinitionMeans(sv: Survey, rs: seq<Response>, now: Time)
    ensures var doc := SavedDocument(sv, rs, false, now);
      doc.format == "quicksurvey.survey" && doc.version == 2 && doc.sourceId == sv.id && doc.responses == None
      && doc.body == Body(sv.typ, sv.title, sv.description, sv.showResults, sv.allowWriteIn, sv.allowComment,
                          sv.noRandomize, doc.body.options, "", 0, 0, 0, 0)
    ensures DefinitionOptions(sv.options, SavedDocument(sv, rs, false, now).body.options)
  {
    DefinitionLists(sv.options);
    ApprovedOnlyMeans(sv.options);
  }

  ghost predicate DefinitionOptions(opts: seq<Opt>, os: seq<DocOption>) {
    |os| == ApprovedBefore(opts, |opts|)
    && forall i | 0 <= i < |opts| && opts[i].status.Approved? ::
      ApprovedBefore(opts, i) < |os|
      && os[ApprovedBefore(opts, i)]
        == DocOption(opts[i].text, if opts[i].source.WriteIn? then "writein" else "editor", "", "", "", 0)
  }

  // rs is what Store.Responses read; a definition reads none.
  method SurveyDocument(sv: Survey, rs: seq<Response>, full: bool, now: Time) returns (doc: Document)
    ensures doc == SavedDocument(sv, rs, full, now)
    ensures !full ==> DefinitionOptions(sv.options, doc.body.options)
  {
    DefinitionMeans(sv, rs, now);
    var options: seq<DocOption> := [];
    for i := 0 to |sv.options|
      invariant options == SavedOptions(sv.options[..i], full)
    {
      assert sv.options[..i + 1][..i] == sv.options[..i];
      if !full && !sv.options[i].status.Approved? {
        continue;
      }
      options := options + [SavedOption(sv.options[i], full)];
    }
    assert sv.options[..|sv.options|] == sv.options;
    var body := SavedBody(sv.(options := []), full).(options := options);
    if !full {
      return Document(DOC_FORMAT, DOC_VERSION, now, sv.id, body, None);
    }
    var responses: seq<DocResponse> := [];
    for i := 0 to |rs|
      invariant responses == SavedResponses(rs)[..i]
    {
      responses := responses + [SavedResponse(rs[i])];
    }
    assert SavedResponses(rs)[..|rs|] == SavedResponses(rs);
    return Document(DOC_FORMAT, DOC_VERSION, now, sv.id, body, Some(responses));
  }
}

module Restoring {
  import opened Model
  import opened Editing
  import opened Documents

  // Everything stored for one survey.
  datatype Stored = Stored(survey: Survey, rows: map<Voter, Row>)

  type Db = map<Id, Stored>

  // options.id is a primary key across surveys.
  function Owned(db: Db): set<Id> {
    set s, o | s in db && o in db[s].survey.options :: o.id
  }

  /******* Reading the options *******/

  function ReadOption(o: DocOption, keepId: bool, newId: Id, now: Time): Outcome<Opt> {
    var status := ReadStatus(o.status);
    if Trim(o.text) == "" then Refused(OptionWithoutText)
    else if status.None? then Refused(UnknownStatus)
    else Done(Opt(if keepId && o.id != "" then o.id else newId, Trim(o.text), status.value, ReadSource(o.source),
                  o.mergedInto, if o.created == ZERO_TIME then now else o.created))
  }

  // Results read so far, in front of the rest.
  function Prepend<T>(before: seq<T>, rest: Outcome<seq<T>>): Outcome<seq<T>> {
    if rest.Refused? then rest else Done(before + rest.value)
  }

  function ReadOptions(os: seq<DocOption>, keepId: bool, newIds: seq<Id>, now: Time): (r: Outcome<seq<Opt>>)
    requires |newIds| == |os|
    ensures r.Done? ==> |r.value| == |os|
    ensures r.Done? ==> forall i | 0 <= i < |os| :: ReadOption(os[i], keepId, newIds[i], now) == Done(r.value[i])
    ensures r.Done? <== forall i | 0 <= i < |os| :: ReadOption(os[i], keepId, newIds[i], now).Done?
    decreases |os|
  {
    if os == [] then Done([])
    else
      var o := ReadOption(os[0], keepId, newIds[0], now);
      if o.Refused? then Refused(o.problem) else Prepend([o.value], ReadOptions(os[1..], keepId, newIds[1..], now))
  }

  // What the document called an option, and what it is called once restored.
  function Renaming(os: seq<DocOption>, opts: seq<Opt>): map<Id, Id>
    requires |os| == |opts|
  {
    if os == [] then map[]
    else
      var n := |os| - 1;
      var before := Renaming(os[..n], opts[..n]);
      if os[n].id == "" then before else before[os[n].id := opts[n].id]
  }

  function Repoint(o: Opt, names: map<Id, Id>): Outcome<Opt> {
    if o.mergedInto == "" then Done(o)
    else if o.mergedInto in names then Done(o.(mergedInto := names[o.mergedInto]))
    else Refused(DanglingMerge)
  }

  function RepointAll(opts: seq<Opt>, names: map<Id, Id>): (r: Outcome<seq<Opt>>)
    ensures r.Done? ==> |r.value| == |opts|
    ensures r.Done? ==> forall i | 0 <= i < |opts| :: Repoint(opts[i], names) == Done(r.value[i])
    ensures r.Done? <== forall i | 0 <= i < |opts| :: Repoint(opts[i], names).Done?
  {
    if opts == [] then Done([])
    else
      var o := Repoint(opts[0], names);
      if o.Refused? then Refused(o.problem) else Prepend([o.value], RepointAll(opts[1..], names))
  }

  /******* Reading the responses *******/

  function Renamed(ids: seq<Id>, names: map<Id, Id>): seq<Id>
    requires forall id | id in ids :: id in names
  {
    seq(|ids|, i requires 0 <= i < |ids| => names[ids[i]])
  }

  function Dedup(ids: seq<Id>): seq<Id> {
    if ids == [] then []
    else
      var n := |ids| - 1;
      if ids[n] in ids[..n] then Dedup(ids[..n]) else Dedup(ids[..n]) + [ids[n]]
  }

  function ReadResponse(dr: DocResponse, names: map<Id, Id>): Outcome<Response> {
    if dr.voter == "" then Refused(NoVoter)
    else if exists c | c in dr.choices :: c !in names then Refused(DanglingChoice)
    else if exists c | c in dr.seen :: c !in names then Refused(DanglingSeen)
    else
      var choices := Renamed(dr.choices, names);
      Done(Response(dr.voter, choices, Dedup(Renamed(dr.seen, names) + choices), dr.comment, dr.created, dr.updated))
  }

  function ReadResponses(drs: seq<DocResponse>, names: map<Id, Id>): (r: Outcome<seq<Response>>)
    ensures r.Done? ==> |r.value| == |drs|
    ensures r.Done? ==> forall i | 0 <= i < |drs| :: ReadResponse(drs[i], names) == Done(r.value[i])
    ensures r.Done? <== forall i | 0 <= i < |drs| :: ReadResponse(drs[i], names).Done?
  {
    if drs == [] then Done([])
    else
      var r := ReadResponse(drs[0], names);
      if r.Refused? then Refused(r.problem) else Prepend([r.value], ReadResponses(drs[1..], names))
  }

  // insertResponses: one row per voter, one row per choice, by primary key.
  function InsertAll(rs: seq<Response>): Outcome<map<Voter, Row>> {
    if rs == [] then Done(map[])
    else
      var n := |rs| - 1;
      var before := InsertAll(rs[..n]);
      if before.Refused? then before
      else if rs[n].voter in before.value || !NoRepeats(rs[n].choices) then Refused(Duplicate)
      else
        Done(before.value[rs[n].voter :=
          Row(Elements(rs[n].choices), Elements(rs[n].seen), rs[n].comment, rs[n].created, rs[n].updated)])
  }

  /******* Writing the options *******/

  function Without(opts: seq<Opt>, id: Id): seq<Opt> {
    if opts == [] then []
    else
      var n := |opts| - 1;
      Without(opts[..n], id) + if opts[n].id == id then [] else [opts[n]]
  }

  // The scoped upsert, row by row: an id another survey owns is skipped without
  // a word; an id met before is rewritten at its new position, keeping the time
  // it was first inserted with.
  function Upserted(owned: set<Id>, opts: seq<Opt>): seq<Opt> {
    if opts == [] then []
    else
      var n := |opts| - 1;
      var before := Upserted(owned, opts[..n]);
      if opts[n].id in owned then before
      else
        var known := Find(before, opts[n].id);
        Without(before, opts[n].id) + [if known.Some? then opts[n].(created := known.value.created) else opts[n]]
  }

  /******* RestoreSurvey *******/

  function CheckHeader(doc: Document): Maybe<Problem> {
    if doc.format != DOC_FORMAT then Some(WrongFormat)
    else if doc.version < 1 then Some(NoVersion)
    else if doc.version > DOC_VERSION then Some(TooNew)
    else None
  }

  function CheckDocument(doc: Document, keepId: bool, there: bool): Maybe<Problem> {
    var header := CheckHeader(doc);
    if header.Some? then header
    else if Trim(doc.body.title) == "" then Some(NoTitle)
    else if doc.body.typ != "" && doc.body.typ != TYPE_THUMBS_UP then Some(UnknownType)
    else if doc.responses.Some? && |doc.responses.value| > 0 && !keepId then Some(ResponsesNeedTheirId)
    else if keepId && doc.sourceId == "" then Some(NoSourceId)
    else if keepId && there then Some(AlreadyThere)
    else if doc.body.state != "" && ReadState(doc.body.state).None? then Some(UnknownState)
    else None
  }

  // The survey without its options.
  function ReadSurvey(doc: Document, id: Id, now: Time): Survey
    requires doc.body.state == "" || ReadState(doc.body.state).Some?
  {
    var b := doc.body;
    Survey(id, TYPE_THUMBS_UP, Trim(b.title), Trim(b.description), [],
           if b.state == "" then Draft else ReadState(b.state).value,
           b.showResults, b.allowWriteIn, b.allowComment, b.noRandomize,
           if Full(doc) then b.closeAt else ZERO_TIME,
           if Full(doc) then b.firstOpenedAt else ZERO_TIME,
           if Full(doc) && b.created != ZERO_TIME then b.created else now,
           if Full(doc) && b.updated != ZERO_TIME then b.updated else now)
  }

  datatype Contents = Contents(survey: Survey, names: map<Id, Id>, responses: seq<Response>)

  // Everything read out of the document before the transaction.
  function ReadDocument(doc: Document, keepId: bool, there: bool, newId: Id, newIds: seq<Id>,
      now: Time): Outcome<Contents>
    requires |newIds| == |doc.body.options|
  {
    var problem := CheckDocument(doc, keepId, there);
    if problem.Some? then Refused(problem.value)
    else
      var read := ReadOptions(doc.body.options, keepId, newIds, now);
      if read.Refused? then Refused(read.problem)
      else
        var names := Renaming(doc.body.options, read.value);
        var options := RepointAll(read.value, names);
        if options.Refused? then Refused(options.problem)
        else
          var responses := ReadResponses(if doc.responses.Some? then doc.responses.value else [], names);
          if responses.Refused? then Refused(responses.problem)
          else
            var sv := ReadSurvey(doc, if keepId then doc.sourceId else newId, now);
            Done(Contents(sv.(options := options.value), names, responses.value))
  }

  // The transaction: saveSurvey into an empty survey, then the responses.
  function Write(db: Db, c: Contents, now: Time): Outcome<Db> {
    var saved := SaveSurvey(c.survey, 0, now);
    if saved.Err? then Refused(OverTheCeiling)
    else
      var rows := InsertAll(c.responses);
      if rows.Refused? then Refused(rows.problem)
      else
        var stored := saved.value.(options := Upserted(Owned(db), saved.value.options));
        Done(db[c.survey.id := Stored(stored, rows.value)])
  }

  function RestoredDb(db: Db, doc: Document, keepId: bool, newId: Id, newIds: seq<Id>, now: Time): Outcome<Db>
    requires |newIds| == |doc.body.options|
  {
    var c := ReadDocument(doc, keepId, doc.sourceId in db, newId, newIds, now);
    if c.Refused? then Refused(c.problem) else Write(db, c.value, now)
  }

  /******* The loops of RestoreSurvey and restorableResponses *******/

  method BuildOptions(os: seq<DocOption>, keepId: bool, newIds: seq<Id>, now: Time)
    returns (r: Outcome<seq<Opt>>, names: map<Id, Id>)
    requires |newIds| == |os|
    ensures r == ReadOptions(os, keepId, newIds, now)
    ensures r.Done? ==> names == Renaming(os, r.value)
  {
    var opts: seq<Opt> := [];
    names := map[];
    PrependEnds([], ReadOptions(os, keepId, newIds, now));
    assert os[0..] == os && newIds[0..] == newIds;
    for i := 0 to |os|
      invariant |opts| == i
      invariant ReadOptions(os, keepId, newIds, now) == Prepend(opts, ReadOptions(os[i..], keepId, newIds[i..], now))
      invariant names == Renaming(os[..i], opts)
    {
      assert os[i..][1..] == os[i + 1..] && newIds[i..][1..] == newIds[i + 1..];
      var o := ReadOption(os[i], keepId, newIds[i], now);
      if o.Refused? {
        return Refused(o.problem), names;
      }
      RenamingStep(os, opts, o.value, i);
      PrependTwice(opts, o.value, ReadOptions(os[i + 1..], keepId, newIds[i + 1..], now));
      opts := opts + [o.value];
      if os[i].id != "" {
        names := names[os[i].id := o.value.id];
      }
    }
    PrependEnds(opts, Done([]));
    assert os[..|os|] == os && os[|os|..] == [];
    r := Done(opts);
  }

  lemma {:induction false} PrependTwice<T>(before: seq<T>, x: T, rest: Outcome<seq<T>>)
    ensures Prepend(before, Prepend([x], rest)) == Prepend(before + [x], rest)
  {
    if rest.Done? {
      assert before + ([x] + rest.value) == before + [x] + rest.value;
    }
  }

  lemma {:induction false} RenamingStep(os: seq<DocOption>, opts: seq<Opt>, o: Opt, i: nat)
    requires |opts| == i < |os|
    ensures Renaming(os[..i + 1], opts + [o])
         == if os[i].id == "" then Renaming(os[..i], opts) else Renaming(os[..i], opts)[os[i].id := o.id]
  {
    assert os[..i + 1][..i] == os[..i] && (opts + [o])[..i] == opts;
  }

  lemma {:induction false} PrependEnds<T>(before: seq<T>, rest: Outcome<seq<T>>)
    ensures Prepend([], rest) == rest && Prepend(before, Done([])) == Done(before)
  {
    if rest.Done? {
      assert [] + rest.value == rest.value;
    }
    assert before + [] == before;
  }

  lemma {:induction false} RepointRefused(opts: seq<Opt>, names: map<Id, Id>, i: nat)
    requires i < |opts| && Repoint(opts[i], names).Refused?
    ensures RepointAll(opts, names) == Refused(DanglingMerge)
  {
    if i > 0 {
      RepointRefused(opts[1..], names, i - 1);
    }
  }

  lemma {:induction false} RepointDone(opts: seq<Opt>, names: map<Id, Id>, changed: seq<Opt>)
    requires |changed| == |opts| && forall j | 0 <= j < |opts| :: Repoint(opts[j], names) == Done(changed[j])
    ensures RepointAll(opts, names) == Done(changed)
  {
    var all := RepointAll(opts, names);
    forall j | 0 <= j < |opts| ensures Repoint(opts[j], names).Done? {
      assert Repoint(opts[j], names) == Done(changed[j]);
    }
    assert all.Done?;
    forall j | 0 <= j < |opts| ensures all.value[j] == changed[j] {
      assert Repoint(opts[j], names) == Done(all.value[j]);
      assert Repoint(opts[j], names) == Done(changed[j]);
    }
    assert all.value == changed;
  }

  method RepointOptions(opts: seq<Opt>, names: map<Id, Id>) returns (r: Outcome<seq<Opt>>)
    ensures r == RepointAll(opts, names)
  {
    var changed := opts;
    for i := 0 to |opts|
      invariant |changed| == |opts| && forall j | i <= j < |opts| :: changed[j] == opts[j]
      invariant forall j | 0 <= j < i :: Repoint(opts[j], names) == Done(changed[j])
    {
      if changed[i].mergedInto != "" {
        if changed[i].mergedInto !in names {
          RepointRefused(opts, names, i);
          return Refused(DanglingMerge);
        }
        changed := changed[i := changed[i].(mergedInto := names[changed[i].mergedInto])];
      }
    }
    RepointDone(opts, names, changed);
    r := Done(changed);
  }

  // The seen list, then every choice not in it yet; held
  // tells whether an id is already listed.
  method CollectSeen(seen: seq<Id>, choices: seq<Id>) returns (out: seq<Id>)
    ensures out == Dedup(seen + choices)
  {
    var held: set<Id> := {};
    out := [];
    var all := seen + choices;
    for i := 0 to |all|
      invariant held == Elements(all[..i]) && out == Dedup(all[..i])
    {
      assert all[..i + 1][..i] == all[..i] && all[..i + 1] == all[..i] + [all[i]];
      if all[i] !in held {
        held := held + {all[i]};
        out := out + [all[i]];
      }
    }
    assert all[..|all|] == all;
  }

  method MapIds(ids: seq<Id>, names: map<Id, Id>) returns (ok: bool, out: seq<Id>)
    ensures ok <==> forall id | id in ids :: id in names
    ensures ok ==> out == Renamed(ids, names)
  {
    out := [];
    for i := 0 to |ids|
      invariant |out| == i && forall j | 0 <= j < i :: ids[j] in names && out[j] == names[ids[j]]
    {
      if ids[i] !in names {
        return false, out;
      }
      out := out + [names[ids[i]]];
    }
    ok := true;
  }

  method RestorableResponses(drs: seq<DocResponse>, names: map<Id, Id>) returns (r: Outcome<seq<Response>>)
    ensures r == ReadResponses(drs, names)
  {
    var out: seq<Response> := [];
    PrependEnds([], ReadResponses(drs, names));
    assert drs[0..] == drs;
    for i := 0 to |drs|
      invariant ReadResponses(drs, names) == Prepend(out, ReadResponses(drs[i..], names))
    {
      assert drs[i..][1..] == drs[i + 1..];
      var one := RestorableResponse(drs[i], names);
      if one.Refused? {
        return Refused(one.problem);
      }
      PrependTwice(out, one.value, ReadResponses(drs[i + 1..], names));
      out := out + [one.value];
    }
    PrependEnds(out, Done([]));
    assert drs[|drs|..] == [];
    r := Done(out);
  }

  method RestorableResponse(dr: DocResponse, names: map<Id, Id>) returns (r: Outcome<Response>)
    ensures r == ReadResponse(dr, names)
  {
    if dr.voter == "" {
      return Refused(NoVoter);
    }
    var ok, choices := MapIds(dr.choices, names);
    if !ok {
      return Refused(DanglingChoice);
    }
    var seen;
    ok, seen := MapIds(dr.seen, names);
    if !ok {
      return Refused(DanglingSeen);
    }
    seen := CollectSeen(seen, choices);
    r := Done(Response(dr.voter, choices, seen, dr.comment, dr.created, dr.updated));
  }

  // The database of all surveys.
  class SurveyStore {
    var db: Db

    constructor ()
      ensures db == map[]
    {
      db := map[];
    }

    // Rows go with their survey, by cascade.
    method DeleteSurvey(id: Id) returns (found: bool)
      modifies this
      ensures found == (id in old(db)) && db == old(db) - {id}
    {
      found := id in db;
      db := db - {id};
    }

    method RestoreSurvey(doc: Document, keepId: bool, newId: Id, newIds: seq<Id>, now: Time)
        returns (r: Outcome<Survey>)
      requires |newIds| == |doc.body.options|
      modifies this
      ensures var wanted := RestoredDb(old(db), doc, keepId, newId, newIds, now);
        var c := ReadDocument(doc, keepId, doc.sourceId in old(db), newId, newIds, now);
        if wanted.Done? then
          c.Done? && r.Done? && SaveSurvey(c.value.survey, 0, now) == Ok(r.value) && db == wanted.value
        else r == Refused(wanted.problem) && db == old(db)
    {
      var c := ReadContents(doc, keepId, doc.sourceId in db, newId, newIds, now);
      if c.Refused? {
        return Refused(c.problem);
      }
      var written := Write(db, c.value, now);
      if written.Refused? {
        return Refused(written.problem);
      }
      db := written.value;
      r := Done(SaveSurvey(c.value.survey, 0, now).value);
    }
  }

  method ReadContents(doc: Document, keepId: bool, there: bool, newId: Id, newIds: seq<Id>, now: Time)
    returns (r: Outcome<Contents>)
    requires |newIds| == |doc.body.options|
    ensures r == ReadDocument(doc, keepId, there, newId, newIds, now)
  {
    var problem := CheckDocument(doc, keepId, there);
    if problem.Some? {
      return Refused(problem.value);
    }
    var read, names := BuildOptions(doc.body.options, keepId, newIds, now);
    if read.Refused? {
      return Refused(read.problem);
    }
    var options := RepointOptions(read.value, names);
    if options.Refused? {
      return Refused(options.problem);
    }
    var responses := RestorableResponses(if doc.responses.Some? then doc.responses.value else [], names);
    if responses.Refused? {
      return Refused(responses.problem);
    }
    var sv := ReadSurvey(doc, if keepId then doc.sourceId else newId, now);
    r := Done(Contents(sv.(options := options.value), names, responses.value));
  }
}
