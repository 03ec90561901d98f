// When a restore is accepted, what it stores, and what it spares.
module Restores {
  import opened Model
  import opened Editing
  import opened Documents
  import opened Restoring
  import opened RoundTrips
  import opened Reachable

  /******* Sparing what is there *******/

  // An accepted restore adds one survey, under an id that was free, and leaves
  // every stored survey as it was.
  lemma {:induction false} RestoreSparesTheRest(db: Db, doc: Document, keepId: bool, newId: Id, newIds: seq<Id>, now: Time)
    requires |newIds| == |doc.body.options| && newId !in db
    ensures var id, after := if keepId then doc.sourceId else newId, RestoredDb(db, doc, keepId, newId, newIds, now);
      after.Done? ==>
        id !in db && after.value.Keys == db.Keys + {id} && after.value[id].survey.id == id
        && forall other | other in db :: after.value[other] == db[other]
  {
    var c := ReadDocument(doc, keepId, doc.sourceId in db, newId, newIds, now);
    if c.Done? {
      ReadUnderFreeId(doc, keepId, doc.sourceId in db, newId, newIds, now);
      WriteSpares(db, c.value, now);
    }
  }

  lemma {:induction false} ReadUnderFreeId(doc: Document, keepId: bool, there: bool, newId: Id, newIds: seq<Id>, now: Time)
    requires |newIds| == |doc.body.options|
    ensures var c := ReadDocument(doc, keepId, there, newId, newIds, now);
      c.Done? ==> c.value.survey.id == (if keepId then doc.sourceId else newId) && !(keepId && there)
  {}

  lemma {:induction false} WriteSpares(db: Db, c: Contents, now: Time)
    ensures var after := Write(db, c, now);
      after.Done? ==>
        after.value.Keys == db.Keys + {c.survey.id} && after.value[c.survey.id].survey.id == c.survey.id
        && forall other | other in db && other != c.survey.id :: after.value[other] == db[other]
  {}

  /******* Acceptance *******/

  // The document gives an option this id.
  predicate Known(os: seq<DocOption>, id: Id) {
    id != "" && exists j :: 0 <= j < |os| && os[j].id == id
  }

  predicate HeaderOk(doc: Document) {
    doc.format == "quicksurvey.survey" && 1 <= doc.version <= 2
  }

  predicate BodyOk(b: Body) {
    Trim(b.title) != "" && (b.typ == "" || b.typ == "thumbsup")
    && (b.state == "" || b.state == "draft" || b.state == "open" || b.state == "closed")
  }

  predicate PlaceOk(db: Db, doc: Document, keepId: bool) {
    if keepId then doc.sourceId != "" && doc.sourceId !in db else doc.responses.None? || doc.responses.value == []
  }

  predicate StatusOk(s: string) {
    s == "" || s == "approved" || s == "pending" || s == "rejected" || s == "removed" || s == "merged"
  }

  ghost predicate OptionsOk(os: seq<DocOption>) {
    |os| <= 500
    && (forall i | 0 <= i < |os| :: Trim(os[i].text) != "" && StatusOk(os[i].status))
    && forall i | 0 <= i < |os| :: os[i].mergedInto == "" || Known(os, os[i].mergedInto)
  }

  ghost predicate ResponseOk(os: seq<DocOption>, dr: DocResponse) {
    dr.voter != "" && NoRepeats(dr.choices) && forall id | id in dr.choices || id in dr.seen :: Known(os, id)
  }

  ghost predicate ResponsesOk(os: seq<DocOption>, drs: seq<DocResponse>) {
    (forall i | 0 <= i < |drs| :: ResponseOk(os, drs[i]))
    && forall i, j | 0 <= i < j < |drs| :: drs[i].voter != drs[j].voter
  }

  lemma {:induction false} HeaderAccepts(db: Db, doc: Document, keepId: bool)
    ensures CheckDocument(doc, keepId, doc.sourceId in db) == None <==>
      HeaderOk(doc) && BodyOk(doc.body) && PlaceOk(db, doc, keepId)
  {
    assert doc.responses.Some? ==> (|doc.responses.value| > 0 <==> doc.responses.value != []);
  }

  lemma {:induction false} OptionsAccept(os: seq<DocOption>, keepId: bool, newIds: seq<Id>, now: Time)
    requires |newIds| == |os|
    ensures var read := ReadOptions(os, keepId, newIds, now);
      (read.Done? <==> forall i | 0 <= i < |os| :: Trim(os[i].text) != "" && StatusOk(os[i].status))
      && (read.Done? ==> forall i | 0 <= i < |os| :: read.value[i].mergedInto == os[i].mergedInto)
  {
    var read := ReadOptions(os, keepId, newIds, now);
    forall i | 0 <= i < |os|
      ensures ReadOption(os[i], keepId, newIds[i], now).Done? <==> Trim(os[i].text) != "" && StatusOk(os[i].status)
    {
    }
    if read.Done? {
      forall i | 0 <= i < |os|
        ensures read.value[i].mergedInto == os[i].mergedInto && ReadOption(os[i], keepId, newIds[i], now).Done?
      {
        assert ReadOption(os[i], keepId, newIds[i], now) == Done(read.value[i]);
      }
    }
  }

  lemma {:induction false} RenamingKeys(os: seq<DocOption>, opts: seq<Opt>)
    requires |os| == |opts|
    ensures forall id :: id in Renaming(os, opts) <==> Known(os, id)
  {
    if os != [] {
      var n := |os| - 1;
      RenamingKeys(os[..n], opts[..n]);
      forall id ensures Known(os, id) <==> Known(os[..n], id) || (id != "" && id == os[n].id) {
        if Known(os, id) {
          var j :| 0 <= j < |os| && os[j].id == id;
          assert j < n ==> os[..n][j].id == id;
        }
        if Known(os[..n], id) {
          var j :| 0 <= j < n && os[..n][j].id == id;
          assert os[j].id == id;
        }
      }
    }
  }

  lemma {:induction false} KeptIds(os: seq<DocOption>, opts: seq<Opt>)
    requires |os| == |opts| && forall i | 0 <= i < |os| :: os[i].id == "" || opts[i].id == os[i].id
    ensures forall id | id in Renaming(os, opts) :: Renaming(os, opts)[id] == id
  {
    if os != [] {
      var n := |os| - 1;
      KeptIds(os[..n], opts[..n]);
    }
  }

  lemma {:induction false} PointersAccept(opts: seq<Opt>, names: map<Id, Id>)
    ensures RepointAll(opts, names).Done? <==>
      forall i | 0 <= i < |opts| :: opts[i].mergedInto == "" || opts[i].mergedInto in names
  {
    var out := RepointAll(opts, names);
    if out.Done? {
      forall i | 0 <= i < |opts| ensures opts[i].mergedInto == "" || opts[i].mergedInto in names {
        assert Repoint(opts[i], names) == Done(out.value[i]);
      }
    }
  }

  lemma {:induction false} InsertedAreDistinct(rs: seq<Response>)
    requires InsertAll(rs).Done?
    ensures OneEach(rs) && forall i | 0 <= i < |rs| :: NoRepeats(rs[i].choices)
    ensures forall i | 0 <= i < |rs| :: rs[i].voter in InsertAll(rs).value
  {
    if rs != [] {
      var n := |rs| - 1;
      InsertedAreDistinct(rs[..n]);
      assert forall i | 0 <= i < n :: rs[..n][i] == rs[i];
    }
  }

  // With the ids kept, a response is read with its own choices.
  lemma {:induction false} ResponseAccepts(os: seq<DocOption>, dr: DocResponse, names: map<Id, Id>)
    requires (forall id :: id in names <==> Known(os, id)) && forall id | id in names :: names[id] == id
    ensures var read := ReadResponse(dr, names);
      (read.Done? <==> dr.voter != "" && forall id | id in dr.choices || id in dr.seen :: Known(os, id))
      && (read.Done? ==>
        read.value.voter == dr.voter && read.value.choices == dr.choices
        && Elements(read.value.seen) == Elements(dr.seen) + Elements(dr.choices)
        && read.value.comment == dr.comment && read.value.created == dr.created && read.value.updated == dr.updated)
  {
    if ReadResponse(dr, names).Done? {
      assert Renamed(dr.choices, names) == dr.choices && Renamed(dr.seen, names) == dr.seen;
      ReadResponseSets(dr, names);
    }
  }

  lemma {:induction false} ResponsesAccept(os: seq<DocOption>, drs: seq<DocResponse>, names: map<Id, Id>)
    requires (forall id :: id in names <==> Known(os, id)) && forall id | id in names :: names[id] == id
    ensures var read := ReadResponses(drs, names);
      read.Done? && InsertAll(read.value).Done? <==> ResponsesOk(os, drs)
  {
    var read := ReadResponses(drs, names);
    forall i | 0 <= i < |drs|
      ensures ReadResponse(drs[i], names).Done?
        <==> drs[i].voter != "" && forall id | id in drs[i].choices || id in drs[i].seen :: Known(os, id)
    {
      ResponseAccepts(os, drs[i], names);
    }
    if read.Done? {
      forall i | 0 <= i < |drs|
        ensures read.value[i].voter == drs[i].voter && read.value[i].choices == drs[i].choices
        ensures drs[i].voter != "" && forall id | id in drs[i].choices || id in drs[i].seen :: Known(os, id)
      {
        assert ReadResponse(drs[i], names) == Done(read.value[i]);
        ResponseAccepts(os, drs[i], names);
      }
      InsertAccepts(drs, read.value);
    } else {
      assert !forall i | 0 <= i < |drs| :: ReadResponse(drs[i], names).Done?;
    }
  }

  lemma {:induction false} InsertAccepts(drs: seq<DocResponse>, rs: seq<Response>)
    requires |drs| == |rs| && forall i | 0 <= i < |drs| :: rs[i].voter == drs[i].voter && rs[i].choices == drs[i].choices
    ensures InsertAll(rs).Done? <==>
      (forall i | 0 <= i < |drs| :: NoRepeats(drs[i].choices))
      && forall i, j | 0 <= i < j < |drs| :: drs[i].voter != drs[j].voter
  {
    if InsertAll(rs).Done? {
      InsertedAreDistinct(rs);
    } else if (forall i | 0 <= i < |drs| :: NoRepeats(drs[i].choices))
      && forall i, j | 0 <= i < j < |drs| :: drs[i].voter != drs[j].voter {
      InsertDistinct(rs);
    }
  }

  function Carried(doc: Document): seq<DocResponse> {
    if doc.responses.Some? then doc.responses.value else []
  }

  lemma {:induction false} ReadKeepsIds(os: seq<DocOption>, newIds: seq<Id>, now: Time)
    requires |newIds| == |os| && ReadOptions(os, true, newIds, now).Done?
    ensures forall i | 0 <= i < |os| :: os[i].id == "" || ReadOptions(os, true, newIds, now).value[i].id == os[i].id
  {
    var read := ReadOptions(os, true, newIds, now).value;
    forall i | 0 <= i < |os| ensures os[i].id == "" || read[i].id == os[i].id {
      assert ReadOption(os[i], true, newIds[i], now) == Done(read[i]);
    }
  }

  // The options can be read and pointed at each other.
  lemma {:induction false} OptionsRead(os: seq<DocOption>, keepId: bool, newIds: seq<Id>, now: Time)
    requires |newIds| == |os|
    ensures var read := ReadOptions(os, keepId, newIds, now);
      read.Done? && RepointAll(read.value, Renaming(os, read.value)).Done? && |os| <= 500 <==> OptionsOk(os)
  {
    OptionsAccept(os, keepId, newIds, now);
    var read := ReadOptions(os, keepId, newIds, now);
    if read.Done? {
      RenamingKeys(os, read.value);
      PointersAccept(read.value, Renaming(os, read.value));
    }
  }

  lemma {:induction false} ResponsesRead(os: seq<DocOption>, drs: seq<DocResponse>, keepId: bool, newIds: seq<Id>, now: Time)
    requires |newIds| == |os| && ReadOptions(os, keepId, newIds, now).Done? && (keepId || drs == [])
    ensures var out := ReadResponses(drs, Renaming(os, ReadOptions(os, keepId, newIds, now).value));
      out.Done? && InsertAll(out.value).Done? <==> ResponsesOk(os, drs)
  {
    var read := ReadOptions(os, keepId, newIds, now).value;
    if keepId {
      RenamingKeys(os, read);
      ReadKeepsIds(os, newIds, now);
      KeptIds(os, read);
      ResponsesAccept(os, drs, Renaming(os, read));
    }
  }

  // Reading a document whose header passed is reading its options, then its
  // responses.
  lemma {:induction false} ReadInParts(doc: Document, keepId: bool, there: bool, newId: Id, newIds: seq<Id>, now: Time)
    requires |newIds| == |doc.body.options| && CheckDocument(doc, keepId, there) == None
    ensures var c, read := ReadDocument(doc, keepId, there, newId, newIds, now),
        ReadOptions(doc.body.options, keepId, newIds, now);
      c.Done? <==> read.Done? && var names := Renaming(doc.body.options, read.value);
        RepointAll(read.value, names).Done? && ReadResponses(Carried(doc), names).Done?
    ensures var c, read := ReadDocument(doc, keepId, there, newId, newIds, now),
        ReadOptions(doc.body.options, keepId, newIds, now);
      c.Done? ==>
        |c.value.survey.options| == |doc.body.options|
        && ReadResponses(Carried(doc), Renaming(doc.body.options, read.value)) == Done(c.value.responses)
  {}

  lemma {:induction false} WriteAccepts(db: Db, c: Contents, now: Time)
    ensures Write(db, c, now).Done? <==> |c.survey.options| <= 500 && InsertAll(c.responses).Done?
  {}

  // A restore is accepted if and only if the document is one of ours, of a known
  // version, with a title, a known type and state; it goes under its own id, free
  // and recorded, or carries no responses; every option has a text, a known
  // status and no pointer but to an option of the document, and they fit; every
  // response has a voter, no other response has the same one, and it names, in
  // its choices without repeats, only options of the document.
  lemma {:induction false} RestoreAcceptedExactlyWhen(db: Db, doc: Document, keepId: bool, newId: Id, newIds: seq<Id>,
      now: Time)
    requires |newIds| == |doc.body.options|
    ensures RestoredDb(db, doc, keepId, newId, newIds, now).Done? <==>
      HeaderOk(doc) && BodyOk(doc.body) && PlaceOk(db, doc, keepId)
      && OptionsOk(doc.body.options) && ResponsesOk(doc.body.options, Carried(doc))
  {
    HeaderAccepts(db, doc, keepId);
    if CheckDocument(doc, keepId, doc.sourceId in db) == None {
      ReadInParts(doc, keepId, doc.sourceId in db, newId, newIds, now);
      OptionsRead(doc.body.options, keepId, newIds, now);
      if ReadOptions(doc.body.options, keepId, newIds, now).Done? {
        ResponsesRead(doc.body.options, Carried(doc), keepId, newIds, now);
      }
      var c := ReadDocument(doc, keepId, doc.sourceId in db, newId, newIds, now);
      if c.Done? {
        WriteAccepts(db, c.value, now);
      }
    }
  }

  /******* What an accepted restore stores *******/

  lemma {:induction false} InsertedRow(rs: seq<Response>, i: nat)
    requires InsertAll(rs).Done? && i < |rs|
    ensures var rows, r := InsertAll(rs).value, rs[i];
      r.voter in rows
      && rows[r.voter] == Row(Elements(r.choices), Elements(r.seen), r.comment, r.created, r.updated)
  {
    var n := |rs| - 1;
    if i < n {
      InsertedRow(rs[..n], i);
      InsertedAreDistinct(rs);
      assert rs[..n][i] == rs[i];
    }
  }

  // Every response of the document is stored for its voter, with its choices as
  // they were, those and whatever it had seen as its seen set, and its times.
  lemma {:induction false} RestoredRowsMean(db: Db, doc: Document, newId: Id, newIds: seq<Id>, now: Time, i: nat)
    requires |newIds| == |doc.body.options| && i < |Carried(doc)|
    ensures var after, dr := RestoredDb(db, doc, true, newId, newIds, now), Carried(doc)[i];
      after.Done? ==>
        doc.sourceId in after.value && dr.voter in after.value[doc.sourceId].rows
        && after.value[doc.sourceId].rows[dr.voter]
          == Row(Elements(dr.choices), Elements(dr.seen) + Elements(dr.choices), dr.comment, dr.created, dr.updated)
  {
    var c := ReadDocument(doc, true, doc.sourceId in db, newId, newIds, now);
    if c.Done? {
      var os := doc.body.options;
      var read := ReadOptions(os, true, newIds, now).value;
      RenamingKeys(os, read);
      ReadKeepsIds(os, newIds, now);
      KeptIds(os, read);
      assert ReadResponse(Carried(doc)[i], c.value.names) == Done(c.value.responses[i]);
      ResponseAccepts(os, Carried(doc)[i], c.value.names);
      if InsertAll(c.value.responses).Done? {
        InsertedRow(c.value.responses, i);
      }
    }
  }

  // The survey's own fields, and each option before its pointer is renamed, come
  // from the document: trimmed, with the absent ones filled in.
  lemma {:induction false} RestoredFieldsMean(doc: Document, keepId: bool, there: bool, newId: Id, newIds: seq<Id>,
      now: Time, i: nat)
    requires |newIds| == |doc.body.options| && i < |newIds| && ReadDocument(doc, keepId, there, newId, newIds, now).Done?
    ensures var sv, b := ReadDocument(doc, keepId, there, newId, newIds, now).value.survey, doc.body;
      sv.title == Trim(b.title) && sv.description == Trim(b.description) && sv.typ == "thumbsup"
      && sv.showResults == b.showResults && sv.allowWriteIn == b.allowWriteIn && sv.allowComment == b.allowComment
      && sv.noRandomize == b.noRandomize
    ensures var o, d := ReadDocument(doc, keepId, there, newId, newIds, now).value.survey.options[i], doc.body.options[i];
      o.id == (if keepId && d.id != "" then d.id else newIds[i]) && o.text == Trim(d.text)
      && (o.source.WriteIn? <==> d.source == "writein")
      && StatusName(o.status) == (if d.status == "" then "approved" else d.status)
      && o.created == (if d.created == 0 then now else d.created)
  {
    var os, c := doc.body.options, ReadDocument(doc, keepId, there, newId, newIds, now).value;
    var read := ReadOptions(os, keepId, newIds, now).value;
    assert ReadOption(os[i], keepId, newIds[i], now) == Done(read[i]);
    assert Repoint(read[i], c.names) == Done(c.survey.options[i]);
    RestoredOptionMeans(os[i], keepId, newIds[i], now, read[i], c.names, c.survey.options[i]);
    SurveyReads(doc, c.survey.id, now);
  }

  lemma {:induction false} SurveyReads(doc: Document, id: Id, now: Time)
    requires doc.body.state == "" || ReadState(doc.body.state).Some?
    ensures var sv, b := ReadSurvey(doc, id, now), doc.body;
      sv.title == Trim(b.title) && sv.description == Trim(b.description) && sv.typ == "thumbsup"
      && sv.showResults == b.showResults && sv.allowWriteIn == b.allowWriteIn && sv.allowComment == b.allowComment
      && sv.noRandomize == b.noRandomize
  {}

  lemma {:induction false} RestoredOptionMeans(d: DocOption, keepId: bool, newId: Id, now: Time, read: Opt,
      names: map<Id, Id>, o: Opt)
    requires ReadOption(d, keepId, newId, now) == Done(read) && Repoint(read, names) == Done(o)
    ensures o.id == (if keepId && d.id != "" then d.id else newId) && o.text == Trim(d.text)
    ensures o.source.WriteIn? <==> d.source == "writein"
    ensures StatusName(o.status) == (if d.status == "" then "approved" else d.status)
    ensures o.created == (if d.created == 0 then now else d.created)
    ensures d.mergedInto != "" ==> d.mergedInto in names && o.mergedInto == names[d.mergedInto]
    ensures d.mergedInto == "" ==> o.mergedInto == ""
  {
    StatusReads(d.status);
  }

  lemma {:induction false} StatusReads(s: string)
    ensures ReadStatus(s).Some? ==> StatusName(ReadStatus(s).value) == if s == "" then "approved" else s
  {}

  // Whatever ids a document repeats or borrows: no id is stored twice, and those
  // stored are the document's, less those another survey owns.
  lemma {:induction false} UpsertedMeans(owned: set<Id>, opts: seq<Opt>)
    ensures Distinct(Upserted(owned, opts)) && Ids(Upserted(owned, opts)) == Ids(opts) - owned
  {
    if opts != [] {
      var n := |opts| - 1;
      var before := Upserted(owned, opts[..n]);
      UpsertedMeans(owned, opts[..n]);
      IdsStep(opts);
      if opts[n].id !in owned {
        WithoutMeans(before, opts[n].id);
        var rest, known := Without(before, opts[n].id), Find(before, opts[n].id);
        FindAfterAppend(rest, if known.Some? then opts[n].(created := known.value.created) else opts[n], opts[n].id);
      }
    }
  }

  lemma {:induction false} WithoutMeans(opts: seq<Opt>, id: Id)
    requires Distinct(opts)
    ensures Distinct(Without(opts, id)) && Ids(Without(opts, id)) == Ids(opts) - {id}
  {
    if opts != [] {
      var n := |opts| - 1;
      DistinctStep(opts);
      IdsStep(opts);
      WithoutMeans(opts[..n], id);
      assert Without(opts[..n], id) + [] == Without(opts[..n], id);
      if opts[n].id != id {
        FindAfterAppend(Without(opts[..n], id), opts[n], opts[n].id);
      }
    }
  }

  lemma {:induction false} FindWithout(opts: seq<Opt>, id: Id, other: Id)
    requires Distinct(opts) && id != other
    ensures Find(Without(opts, other), id) == Find(opts, id)
  {
    WithoutMeans(opts, other);
    if id in Ids(opts) {
      var o := Find(opts, id).value;
      WithoutMember(opts, other, o);
      FindMember(Without(opts, other), o);
    }
  }

  lemma {:induction false} WithoutMember(opts: seq<Opt>, other: Id, o: Opt)
    requires o in opts && o.id != other
    ensures o in Without(opts, other)
  {
    var n := |opts| - 1;
    if o in opts[..n] {
      WithoutMember(opts[..n], other, o);
    } else {
      assert opts == opts[..n] + [opts[n]];
    }
  }

  // One more row: it is found as written, and every other id as before.
  lemma {:induction false} UpsertedLast(owned: set<Id>, opts: seq<Opt>, id: Id)
    requires opts != []
    ensures var n := |opts| - 1; var before := Find(Upserted(owned, opts[..n]), id);
      Find(Upserted(owned, opts), id)
      == if opts[n].id != id || id in owned then before
         else Some(if before.Some? then opts[n].(created := before.value.created) else opts[n])
  {
    var n := |opts| - 1;
    var before := Upserted(owned, opts[..n]);
    UpsertedMeans(owned, opts[..n]);
    if opts[n].id !in owned {
      var known := Find(before, opts[n].id);
      var o := if known.Some? then opts[n].(created := known.value.created) else opts[n];
      WithoutMeans(before, opts[n].id);
      FindAfterAppend(Without(before, opts[n].id), o, id);
      if id != opts[n].id {
        FindWithout(before, id, opts[n].id);
      }
    }
  }

  lemma {:induction false} UpsertedPast(owned: set<Id>, opts: seq<Opt>, id: Id)
    requires opts != [] && opts[|opts| - 1].id != id
    ensures Find(Upserted(owned, opts), id) == Find(Upserted(owned, opts[..|opts| - 1]), id)
  {
    UpsertedLast(owned, opts, id);
  }

  lemma {:induction false} NotStoredYet(owned: set<Id>, opts: seq<Opt>, id: Id)
    requires forall j | 0 <= j < |opts| :: opts[j].id != id
    ensures Find(Upserted(owned, opts), id) == None
  {
    UpsertedMeans(owned, opts);
  }

  lemma {:induction false} UpsertedCreated(owned: set<Id>, opts: seq<Opt>, first: nat)
    requires first < |opts| && opts[first].id !in owned && forall j | 0 <= j < first :: opts[j].id != opts[first].id
    ensures var o := Find(Upserted(owned, opts), opts[first].id); o.Some? && o.value.created == opts[first].created
  {
    var n := |opts| - 1;
    UpsertedLast(owned, opts, opts[first].id);
    if first < n {
      UpsertedCreated(owned, opts[..n], first);
    } else {
      NotStoredYet(owned, opts[..n], opts[first].id);
    }
  }

  // An id nobody else owns is stored as its last option in the document says,
  // with the time its first one was inserted with.
  lemma {:induction false} UpsertedOption(owned: set<Id>, opts: seq<Opt>, id: Id, first: nat, last: nat)
    requires first <= last < |opts| && opts[first].id == id == opts[last].id && id !in owned
    requires forall j | 0 <= j < first :: opts[j].id != id
    requires forall j | last < j < |opts| :: opts[j].id != id
    ensures Find(Upserted(owned, opts), id) == Some(opts[last].(created := opts[first].created))
  {
    if last < |opts| - 1 {
      OlderOption(owned, opts, id, first, last);
    } else {
      LastOption(owned, opts, id, first);
    }
  }

  lemma {:induction false} LastOption(owned: set<Id>, opts: seq<Opt>, id: Id, first: nat)
    requires first < |opts| && opts[first].id == id == opts[|opts| - 1].id && id !in owned
    requires forall j | 0 <= j < first :: opts[j].id != id
    ensures Find(Upserted(owned, opts), id) == Some(opts[|opts| - 1].(created := opts[first].created))
  {
    var n := |opts| - 1;
    UpsertedLast(owned, opts, id);
    if first < n {
      UpsertedCreated(owned, opts[..n], first);
    } else {
      NotStoredYet(owned, opts[..n], id);
    }
  }

  lemma {:induction false} OlderOption(owned: set<Id>, opts: seq<Opt>, id: Id, first: nat, last: nat)
    requires first <= last < |opts| - 1 && opts[first].id == id == opts[last].id && id !in owned
    requires forall j | 0 <= j < first :: opts[j].id != id
    requires forall j | last < j < |opts| :: opts[j].id != id
    ensures Find(Upserted(owned, opts), id) == Some(opts[last].(created := opts[first].created))
    decreases |opts|
  {
    var before := opts[..|opts| - 1];
    UpsertedPast(owned, opts, id);
    assert before[first] == opts[first] && before[last] == opts[last];
    if last < |before| - 1 {
      OlderOption(owned, before, id, first, last);
    } else {
      LastOption(owned, before, id, first);
    }
  }
}
