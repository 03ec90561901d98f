// What saving and restoring preserve.
module RoundTrips {
  import opened Model
  import opened MergeGraph
  import opened Editing
  import opened Tally
  import opened Submission
  import opened Lifecycle
  import opened Documents
  import opened Restoring

  lemma {:induction false} IdsStep(opts: seq<Opt>)
    requires opts != []
    ensures var n := |opts| - 1; Ids(opts) == Ids(opts[..n]) + {opts[n].id}
  {
    var n := |opts| - 1;
    assert opts == opts[..n] + [opts[n]];
  }

  lemma {:induction false} DistinctStep(opts: seq<Opt>)
    requires opts != []
    ensures var n := |opts| - 1;
      Distinct(opts) <==> Distinct(opts[..n]) && opts[n].id !in Ids(opts[..n])
  {
    var n := |opts| - 1;
    if opts[n].id in Ids(opts[..n]) {
      var i :| 0 <= i < n && opts[..n][i].id == opts[n].id;
      assert opts[i].id == opts[n].id;
    } else {
      forall i | 0 <= i < n ensures opts[i].id != opts[n].id {
        assert opts[i] == opts[..n][i];
        assert opts[..n][i] in opts[..n];
      }
    }
  }

  /******* The upsert stores what the caller was told exactly when ids are free *******/

  lemma {:induction false} WithoutLength(opts: seq<Opt>, id: Id)
    ensures |Without(opts, id)| <= |opts|
    ensures |Without(opts, id)| == |opts| <==> id !in Ids(opts)
    ensures id !in Ids(opts) ==> Without(opts, id) == opts
  {
    if opts != [] {
      var n := |opts| - 1;
      WithoutLength(opts[..n], id);
      IdsStep(opts);
      assert opts == opts[..n] + [opts[n]];
    }
  }

  lemma {:induction false} UpsertedLength(owned: set<Id>, opts: seq<Opt>)
    ensures |Upserted(owned, opts)| <= |opts|
  {
    if opts != [] {
      var n := |opts| - 1;
      UpsertedLength(owned, opts[..n]);
      WithoutLength(Upserted(owned, opts[..n]), opts[n].id);
    }
  }

  lemma {:induction false} UpsertedFree(owned: set<Id>, opts: seq<Opt>)
    requires Distinct(opts) && Ids(opts) !! owned
    ensures Upserted(owned, opts) == opts
  {
    if opts != [] {
      var n := |opts| - 1;
      IdsStep(opts);
      DistinctStep(opts);
      UpsertedFree(owned, opts[..n]);
      WithoutLength(opts[..n], opts[n].id);
      assert opts == opts[..n] + [opts[n]];
    }
  }

  lemma {:induction false} UpsertedShort(owned: set<Id>, opts: seq<Opt>)
    requires |Upserted(owned, opts)| == |opts|
    ensures Distinct(opts) && Ids(opts) !! owned
  {
    if opts != [] {
      var n := |opts| - 1;
      UpsertedLength(owned, opts[..n]);
      WithoutLength(Upserted(owned, opts[..n]), opts[n].id);
      UpsertedShort(owned, opts[..n]);
      UpsertedFree(owned, opts[..n]);
      IdsStep(opts);
      DistinctStep(opts);
    }
  }

  // Otherwise rows are dropped or moved without a word.
  lemma {:induction false} StoredAsToldExactlyWhen(owned: set<Id>, opts: seq<Opt>)
    ensures Upserted(owned, opts) == opts <==> Distinct(opts) && Ids(opts) !! owned
  {
    if Upserted(owned, opts) == opts {
      UpsertedShort(owned, opts);
    } else if Distinct(opts) && Ids(opts) !! owned {
      UpsertedFree(owned, opts);
    }
  }

  /******* Any accepted restore keeps Votes <= Shown *******/

  lemma {:induction false} DedupElements(ids: seq<Id>)
    ensures Elements(Dedup(ids)) == Elements(ids) && NoRepeats(Dedup(ids))
  {
    if ids != [] {
      var n := |ids| - 1;
      DedupElements(ids[..n]);
      assert ids == ids[..n] + [ids[n]];
      assert Elements(ids) == Elements(ids[..n]) + {ids[n]};
      if ids[n] !in ids[..n] {
        assert ids[n] !in Elements(Dedup(ids[..n]));
        assert Elements(Dedup(ids[..n]) + [ids[n]]) == Elements(Dedup(ids[..n])) + {ids[n]};
      }
    }
  }

  lemma {:induction false} ReadResponseSets(dr: DocResponse, names: map<Id, Id>)
    requires ReadResponse(dr, names).Done?
    ensures var r := ReadResponse(dr, names).value;
      Elements(r.choices) <= names.Values && Elements(r.seen) <= names.Values
      && Elements(r.seen) == Elements(Renamed(dr.seen, names)) + Elements(r.choices)
  {
    var r := ReadResponse(dr, names).value;
    var seen := Renamed(dr.seen, names);
    DedupElements(seen + r.choices);
    assert Elements(seen + r.choices) == Elements(seen) + Elements(r.choices);
    forall c | c in r.choices ensures c in names.Values {
      var i :| 0 <= i < |r.choices| && r.choices[i] == c;
      assert dr.choices[i] in names && names[dr.choices[i]] == c;
    }
    forall c | c in seen ensures c in names.Values {
      var i :| 0 <= i < |seen| && seen[i] == c;
      assert dr.seen[i] in names && names[dr.seen[i]] == c;
    }
  }

  ghost predicate NamesOnly(rs: seq<Response>, ids: set<Id>) {
    forall r | r in rs :: Elements(r.choices) <= Elements(r.seen) <= ids
  }

  lemma {:induction false} ReadResponsesSound(drs: seq<DocResponse>, names: map<Id, Id>)
    requires ReadResponses(drs, names).Done?
    ensures NamesOnly(ReadResponses(drs, names).value, names.Values)
  {
    var rs := ReadResponses(drs, names).value;
    forall r | r in rs ensures Elements(r.choices) <= Elements(r.seen) <= names.Values {
      var i :| 0 <= i < |rs| && rs[i] == r;
      assert ReadResponse(drs[i], names) == Done(rs[i]);
      ReadResponseSets(drs[i], names);
    }
  }

  lemma {:induction false} InsertedSound(rs: seq<Response>, ids: set<Id>)
    requires InsertAll(rs).Done? && NamesOnly(rs, ids)
    ensures var rows := InsertAll(rs).value;
      forall v | v in rows :: rows[v].choices <= rows[v].seen <= ids
  {
    if rs != [] {
      var n := |rs| - 1;
      assert rs == rs[..n] + [rs[n]];
      InsertedSound(rs[..n], ids);
    }
  }

  lemma {:induction false} RenamingValues(os: seq<DocOption>, opts: seq<Opt>)
    requires |os| == |opts|
    ensures Renaming(os, opts).Values <= Ids(opts)
  {
    if os != [] {
      var n := |os| - 1;
      RenamingValues(os[..n], opts[..n]);
      IdsStep(opts);
    }
  }

  lemma {:induction false} RepointKeepsIds(opts: seq<Opt>, names: map<Id, Id>)
    requires RepointAll(opts, names).Done?
    ensures Ids(RepointAll(opts, names).value) == Ids(opts)
  {
    var out := RepointAll(opts, names).value;
    forall i | 0 <= i < |opts| ensures out[i].id == opts[i].id {
      assert Repoint(opts[i], names) == Done(out[i]);
    }
    SameIds(opts, out);
  }

  lemma {:induction false} SameIds(a: seq<Opt>, b: seq<Opt>)
    requires |a| == |b| && forall i | 0 <= i < |a| :: a[i].id == b[i].id
    ensures Ids(a) == Ids(b)
  {
    forall x ensures x in Ids(a) <==> x in Ids(b) {
      if x in Ids(a) {
        var i :| 0 <= i < |a| && a[i].id == x;
        assert b[i] in b;
      }
      if x in Ids(b) {
        var i :| 0 <= i < |b| && b[i].id == x;
        assert a[i] in a;
      }
    }
  }

  lemma {:induction false} ReadChosenWasShown(doc: Document, keepId: bool, there: bool, newId: Id, newIds: seq<Id>,
      now: Time)
    requires |newIds| == |doc.body.options|
    ensures var c := ReadDocument(doc, keepId, there, newId, newIds, now);
      c.Done? ==> NamesOnly(c.value.responses, Ids(c.value.survey.options))
  {
    var c := ReadDocument(doc, keepId, there, newId, newIds, now);
    if c.Done? {
      var read := ReadOptions(doc.body.options, keepId, newIds, now).value;
      RenamingValues(doc.body.options, read);
      RepointKeepsIds(read, c.value.names);
      ReadResponsesSound(if doc.responses.Some? then doc.responses.value else [], c.value.names);
    }
  }

  lemma {:induction false} WrittenChosenWasShown(db: Db, c: Contents, now: Time)
    requires NamesOnly(c.responses, Ids(c.survey.options))
    ensures var after := Write(db, c, now);
      after.Done? ==> c.survey.id in after.value && SoundRows(c.survey.options, after.value[c.survey.id].rows)
  {
    if InsertAll(c.responses).Done? {
      InsertedSound(c.responses, Ids(c.survey.options));
    }
  }

  // Whatever the document claims was seen, including nothing at all: what was
  // chosen is among it, and every stored id names an option the caller was told
  // of.
  lemma {:induction false} RestoredChosenWasShown(db: Db, doc: Document, keepId: bool, newId: Id, newIds: seq<Id>,
      now: Time)
    requires |newIds| == |doc.body.options|
    ensures var c := ReadDocument(doc, keepId, doc.sourceId in db, newId, newIds, now);
      var after := RestoredDb(db, doc, keepId, newId, newIds, now);
      after.Done? ==>
        c.Done? && c.value.survey.id in after.value
        && SoundRows(c.value.survey.options, after.value[c.value.survey.id].rows)
  {
    var c := ReadDocument(doc, keepId, doc.sourceId in db, newId, newIds, now);
    if c.Done? {
      ReadChosenWasShown(doc, keepId, doc.sourceId in db, newId, newIds, now);
      WrittenChosenWasShown(db, c.value, now);
    }
  }

  lemma {:induction false} WrittenOptions(db: Db, c: Contents, now: Time)
    ensures var after := Write(db, c, now);
      after.Done? && Distinct(c.survey.options) && Ids(c.survey.options) !! Owned(db) ==>
        c.survey.id in after.value && after.value[c.survey.id].survey.options == c.survey.options
  {
    StoredAsToldExactlyWhen(Owned(db), c.survey.options);
  }

  // When option ids are distinct and free, the stored survey starts a run
  // soundly, so its votes stay bounded through everything that happens next.
  lemma {:induction false} RestoredSurveyIsSound(db: Db, doc: Document, keepId: bool, newId: Id, newIds: seq<Id>,
      now: Time)
    requires |newIds| == |doc.body.options|
    ensures var c := ReadDocument(doc, keepId, doc.sourceId in db, newId, newIds, now);
      var after := RestoredDb(db, doc, keepId, newId, newIds, now);
      after.Done? && Distinct(c.value.survey.options) && Ids(c.value.survey.options) !! Owned(db) ==>
        var stored := after.value[c.value.survey.id];
        Sound(World(stored.survey, stored.rows, {}))
  {
    RestoredChosenWasShown(db, doc, keepId, newId, newIds, now);
    var c := ReadDocument(doc, keepId, doc.sourceId in db, newId, newIds, now);
    if c.Done? {
      WrittenOptions(db, c.value, now);
    }
  }

  lemma {:induction false} RestoredRunsBoundVotes(db: Db, doc: Document, keepId: bool, newId: Id, newIds: seq<Id>,
      now: Time, start: World, events: seq<Event>, target: Id)
    requires |newIds| == |doc.body.options| && RestoredDb(db, doc, keepId, newId, newIds, now).Done?
    requires var c := ReadDocument(doc, keepId, doc.sourceId in db, newId, newIds, now).value.survey;
      Distinct(c.options) && Ids(c.options) !! Owned(db) && c.id in RestoredDb(db, doc, keepId, newId, newIds, now).value
      && var stored := RestoredDb(db, doc, keepId, newId, newIds, now).value[c.id];
      start == World(stored.survey, stored.rows, {})
    requires Legal(start, events)
    ensures var end := Run(start, events);
      |Holders(end.survey.options, end.rows, target)| <= |Viewers(end.survey.options, end.rows, target)| <= |end.rows|
  {
    RestoredSurveyIsSound(db, doc, keepId, newId, newIds, now);
    RunsBoundVotes(start, events, target);
  }

  /******* Save in full, delete, restore *******/

  // What every survey written by the application satisfies: trimmed texts, set
  // times, pointers and rows naming its own options.
  ghost predicate Saveable(sv: Survey, rows: map<Voter, Row>) {
    Titled(sv) && sv.id != "" && sv.created != ZERO_TIME && sv.updated != ZERO_TIME
    && (sv.state.Open? ==> sv.firstOpenedAt != ZERO_TIME)
    && Distinct(sv.options) && (forall o | o in sv.options :: SaveableOption(o, Ids(sv.options)))
    && SoundRows(sv.options, rows) && "" !in rows
  }

  predicate Titled(sv: Survey) {
    sv.typ == TYPE_THUMBS_UP && Trim(sv.title) == sv.title != "" && Trim(sv.description) == sv.description
  }

  predicate SaveableOption(o: Opt, ids: set<Id>) {
    o.id != "" && Trim(o.text) == o.text != "" && o.created != ZERO_TIME && (o.mergedInto == "" || o.mergedInto in ids)
  }

  lemma {:induction false} SavedInFull(opts: seq<Opt>)
    ensures |SavedOptions(opts, true)| == |opts|
    ensures forall i | 0 <= i < |opts| :: SavedOptions(opts, true)[i] == SavedOption(opts[i], true)
  {
    if opts != [] {
      SavedInFull(opts[..|opts| - 1]);
    }
  }

  lemma {:induction false} ReadSavedOption(o: Opt, ids: set<Id>, keepId: bool, newId: Id, now: Time)
    requires SaveableOption(o, ids)
    ensures ReadOption(SavedOption(o, true), keepId, newId, now) == Done(if keepId then o else o.(id := newId))
  {
    NamesReadBack(o.status, Draft, o.source);
  }

  function Rename(opts: seq<Opt>, newIds: seq<Id>): seq<Opt>
    requires |opts| == |newIds|
  {
    seq(|opts|, i requires 0 <= i < |opts| => opts[i].(id := newIds[i]))
  }

  lemma {:induction false} ReadSavedOptions(os: seq<DocOption>, opts: seq<Opt>, ids: set<Id>, keepId: bool,
      newIds: seq<Id>, now: Time)
    requires |os| == |opts| == |newIds|
    requires forall i | 0 <= i < |opts| :: os[i] == SavedOption(opts[i], true) && SaveableOption(opts[i], ids)
    ensures ReadOptions(os, keepId, newIds, now) == Done(if keepId then opts else Rename(opts, newIds))
  {
    forall i | 0 <= i < |opts|
      ensures ReadOption(os[i], keepId, newIds[i], now) == Done(if keepId then opts[i] else opts[i].(id := newIds[i]))
    {
      ReadSavedOption(opts[i], ids, keepId, newIds[i], now);
    }
    var read := ReadOptions(os, keepId, newIds, now);
    assert read.value == if keepId then opts else Rename(opts, newIds);
  }

  lemma {:induction false} RenamingAt(os: seq<DocOption>, opts: seq<Opt>)
    requires |os| == |opts| && forall i, j | 0 <= i < j < |os| :: os[i].id != os[j].id
    requires forall i | 0 <= i < |os| :: os[i].id != ""
    ensures var names := Renaming(os, opts);
      (forall i | 0 <= i < |os| :: os[i].id in names && names[os[i].id] == opts[i].id)
      && forall id | id in names :: exists i :: 0 <= i < |os| && os[i].id == id
  {
    if os != [] {
      var n := |os| - 1;
      RenamingAt(os[..n], opts[..n]);
      var before, names := Renaming(os[..n], opts[..n]), Renaming(os, opts);
      forall id | id in names ensures exists i :: 0 <= i < |os| && os[i].id == id {
        if id in before {
          var i :| 0 <= i < |os[..n]| && os[..n][i].id == id;
          assert os[i].id == id;
        } else {
          assert os[n].id == id;
        }
      }
      forall i | 0 <= i < |os| ensures os[i].id in names && names[os[i].id] == opts[i].id {
        if i < n {
          assert os[..n][i].id != os[n].id && opts[..n][i] == opts[i];
        }
      }
    }
  }

  ghost predicate KeepsNames(names: map<Id, Id>, ids: set<Id>) {
    names.Keys == ids && forall id | id in ids :: names[id] == id
  }

  lemma {:induction false} RepointKept(opts: seq<Opt>, names: map<Id, Id>, ids: set<Id>)
    requires KeepsNames(names, ids) && forall o | o in opts :: SaveableOption(o, ids)
    ensures RepointAll(opts, names) == Done(opts)
  {
    forall i | 0 <= i < |opts| ensures Repoint(opts[i], names) == Done(opts[i]) {
      assert SaveableOption(opts[i], ids);
    }
    assert RepointAll(opts, names).value == opts;
  }

  ghost predicate AsStored(r: Response, row: Row) {
    Elements(r.choices) == row.choices && Elements(r.seen) == row.seen && NoRepeats(r.choices)
    && r.comment == row.comment && r.created == row.created && r.updated == row.updated
  }

  lemma {:induction false} ReadSavedResponse(r: Response, row: Row, names: map<Id, Id>, ids: set<Id>)
    requires KeepsNames(names, ids) && r.voter != "" && AsStored(r, row) && row.choices <= row.seen <= ids
    ensures ReadResponse(SavedResponse(r), names).Done?
    ensures ReadResponse(SavedResponse(r), names).value.voter == r.voter
    ensures AsStored(ReadResponse(SavedResponse(r), names).value, row)
  {
    forall c | c in r.choices || c in r.seen ensures c in names && names[c] == c {
      assert c in Elements(r.choices) || c in Elements(r.seen);
    }
    assert Renamed(r.choices, names) == r.choices && Renamed(r.seen, names) == r.seen;
    ReadResponseSets(SavedResponse(r), names);
  }

  // rs lists rows, each under its own voter.
  ghost predicate Listing(rs: seq<Response>, rows: map<Voter, Row>) {
    forall i | 0 <= i < |rs| :: rs[i].voter in rows && AsStored(rs[i], rows[rs[i].voter])
  }

  lemma {:induction false} ReadSavedResponses(rs: seq<Response>, rows: map<Voter, Row>, names: map<Id, Id>,
      ids: set<Id>)
    requires KeepsNames(names, ids) && Listing(rs, rows) && "" !in rows
    requires forall v | v in rows :: rows[v].choices <= rows[v].seen <= ids
    ensures var out := ReadResponses(SavedResponses(rs), names);
      out.Done? && Listing(out.value, rows) && |out.value| == |rs|
      && forall i | 0 <= i < |rs| :: out.value[i].voter == rs[i].voter
  {
    var drs := SavedResponses(rs);
    forall i | 0 <= i < |rs|
      ensures ReadResponse(drs[i], names).Done? && ReadResponse(drs[i], names).value.voter == rs[i].voter
      ensures AsStored(ReadResponse(drs[i], names).value, rows[rs[i].voter])
    {
      ReadSavedResponse(rs[i], rows[rs[i].voter], names, ids);
    }
    var out := ReadResponses(drs, names);
    forall i | 0 <= i < |rs| ensures out.value[i].voter == rs[i].voter && AsStored(out.value[i], rows[rs[i].voter]) {
      assert ReadResponse(drs[i], names) == Done(out.value[i]);
    }
  }

  // The rows of the voters rs lists.
  ghost function Picked(rs: seq<Response>, rows: map<Voter, Row>): map<Voter, Row> {
    map v | v in rows && (exists i :: 0 <= i < |rs| && rs[i].voter == v) :: rows[v]
  }

  lemma {:induction false} InsertListing(rs: seq<Response>, rows: map<Voter, Row>)
    requires Listing(rs, rows) && OneEach(rs)
    ensures InsertAll(rs) == Done(Picked(rs, rows))
  {
    var kept := Picked(rs, rows);
    if rs == [] {
      assert kept == map[];
    } else {
      var n := |rs| - 1;
      InsertListing(rs[..n], rows);
      var before := InsertAll(rs[..n]).value;
      forall i | 0 <= i < n ensures rs[..n][i].voter != rs[n].voter {
      }
      assert rs[n].voter !in before;
      InsertStep(rs, rows, before, kept);
    }
  }

  lemma {:induction false} InsertStep(rs: seq<Response>, rows: map<Voter, Row>, before: map<Voter, Row>,
      kept: map<Voter, Row>)
    requires rs != [] && Listing(rs, rows)
    requires before == Picked(rs[..|rs| - 1], rows) && kept == Picked(rs, rows)
    ensures kept == before[rs[|rs| - 1].voter := rows[rs[|rs| - 1].voter]]
  {
    var n := |rs| - 1;
    forall v ensures v in kept <==> v in before || v == rs[n].voter {
      if v in kept {
        var i :| 0 <= i < |rs| && rs[i].voter == v;
        if i < n {
          assert rs[..n][i].voter == v;
        }
      }
      if v in before {
        var i :| 0 <= i < n && rs[..n][i].voter == v;
        assert rs[i].voter == v;
      }
    }
  }

  lemma {:induction false} InsertWhole(rs: seq<Response>, rows: map<Voter, Row>)
    requires Listing(rs, rows) && OneEach(rs) && forall v | v in rows :: exists i :: 0 <= i < |rs| && rs[i].voter == v
    ensures InsertAll(rs) == Done(rows)
  {
    InsertListing(rs, rows);
    assert Picked(rs, rows) == rows;
  }

  // The options part of the round trip, with the ids kept.
  lemma {:induction false} OptionsReadBack(sv: Survey, rows: map<Voter, Row>, newIds: seq<Id>, now: Time)
    requires Saveable(sv, rows) && |newIds| == |sv.options|
    ensures var os := SavedOptions(sv.options, true);
      |os| == |newIds| && ReadOptions(os, true, newIds, now) == Done(sv.options)
      && KeepsNames(Renaming(os, sv.options), Ids(sv.options))
      && RepointAll(sv.options, Renaming(os, sv.options)) == Done(sv.options)
  {
    var opts, os := sv.options, SavedOptions(sv.options, true);
    SavedInFull(opts);
    ReadSavedOptions(os, opts, Ids(opts), true, newIds, now);
    RenamingAt(os, opts);
    KeptRenaming(os, opts);
    RepointKept(opts, Renaming(os, opts), Ids(opts));
  }

  lemma {:induction false} KeptRenaming(os: seq<DocOption>, opts: seq<Opt>)
    requires |os| == |opts| && forall i | 0 <= i < |os| :: os[i].id == opts[i].id
    requires var names := Renaming(os, opts);
      (forall i | 0 <= i < |os| :: os[i].id in names && names[os[i].id] == opts[i].id)
      && forall id | id in names :: exists i :: 0 <= i < |os| && os[i].id == id
    ensures KeepsNames(Renaming(os, opts), Ids(opts))
  {
    var names := Renaming(os, opts);
    forall id ensures id in names <==> id in Ids(opts) {
      if id in names {
        var i :| 0 <= i < |os| && os[i].id == id;
        assert opts[i] in opts;
      }
      if id in Ids(opts) {
        var i :| 0 <= i < |opts| && opts[i].id == id;
        assert os[i].id == id;
      }
    }
    forall id | id in Ids(opts) ensures names[id] == id {
      var i :| 0 <= i < |os| && os[i].id == id;
    }
  }

  lemma {:induction false} SavedReadsBack(sv: Survey, rs: seq<Response>, rows: map<Voter, Row>, t: Time, newId: Id,
      newIds: seq<Id>, now: Time)
    requires Saveable(sv, rows) && Lists(rs, rows) && |newIds| == |sv.options|
    ensures var doc := SavedDocument(sv, rs, true, t);
      |newIds| == |doc.body.options|
      && var c := ReadDocument(doc, true, false, newId, newIds, now);
      c.Done? && c.value.survey == sv && InsertAll(c.value.responses) == Done(rows)
  {
    var doc := SavedDocument(sv, rs, true, t);
    SavedInFull(sv.options);
    OptionsReadBack(sv, rows, newIds, now);
    NamesReadBack(Approved, sv.state, Editor);
    assert CheckDocument(doc, true, false) == None;
    assert ReadSurvey(doc, sv.id, now).(options := sv.options) == sv;
    ResponsesReadBack(rs, rows, Renaming(doc.body.options, sv.options), Ids(sv.options));
  }

  lemma {:induction false} ResponsesReadBack(rs: seq<Response>, rows: map<Voter, Row>, names: map<Id, Id>, ids: set<Id>)
    requires KeepsNames(names, ids) && Lists(rs, rows) && "" !in rows
    requires forall v | v in rows :: rows[v].choices <= rows[v].seen <= ids
    ensures var out := ReadResponses(SavedResponses(rs), names);
      out.Done? && InsertAll(out.value) == Done(rows)
  {
    forall i | 0 <= i < |rs| ensures AsStored(rs[i], rows[rs[i].voter]) {
      assert Reads(rs[i], rs[i].voter, rows[rs[i].voter]);
    }
    ReadSavedResponses(rs, rows, names, ids);
    var out := ReadResponses(SavedResponses(rs), names).value;
    forall v | v in rows ensures exists i :: 0 <= i < |out| && out[i].voter == v {
      var i :| 0 <= i < |rs| && rs[i].voter == v;
      assert out[i].voter == v;
    }
    InsertWhole(out, rows);
  }

  // Survey and rows, written where there was no survey.
  function Placed(db: Db, sv: Survey, rows: map<Voter, Row>): Outcome<Db> {
    if |sv.options| <= MAX_OPTIONS then Done(db[sv.id := Stored(sv, rows)]) else Refused(OverTheCeiling)
  }

  lemma {:induction false} WrittenAsRead(db: Db, c: Contents, rows: map<Voter, Row>, now: Time)
    requires Distinct(c.survey.options) && Ids(c.survey.options) !! Owned(db) && InsertAll(c.responses) == Done(rows)
    requires c.survey.state.Open? ==> c.survey.firstOpenedAt != ZERO_TIME
    ensures Write(db, c, now) == Placed(db, c.survey, rows)
  {
    UpsertedFree(Owned(db), c.survey.options);
    assert c.survey.(options := c.survey.options) == c.survey;
  }

  lemma {:induction false} RestoreSaved(db: Db, sv: Survey, rs: seq<Response>, rows: map<Voter, Row>, t: Time,
      newId: Id, newIds: seq<Id>, now: Time)
    requires Saveable(sv, rows) && Lists(rs, rows) && |newIds| == |sv.options|
    requires sv.id !in db && Ids(sv.options) !! Owned(db)
    ensures |SavedOptions(sv.options, true)| == |newIds|
    ensures RestoredDb(db, SavedDocument(sv, rs, true, t), true, newId, newIds, now) == Placed(db, sv, rows)
  {
    SavedReadsBack(sv, rs, rows, t, newId, newIds, now);
    var doc := SavedDocument(sv, rs, true, t);
    var c := ReadDocument(doc, true, false, newId, newIds, now).value;
    WrittenAsRead(db, c, rows, now);
  }

  lemma {:induction false} PutBack(db: Db, id: Id)
    requires id in db && db[id].survey.id == id
    ensures id !in db - {id}
    ensures Placed(db - {id}, db[id].survey, db[id].rows)
         == if |db[id].survey.options| <= MAX_OPTIONS then Done(db) else Refused(OverTheCeiling)
  {
    assert (db - {id})[id := db[id]] == db;
  }

  // Saving in full, deleting and restoring under the old ids gives back the
  // database: the survey, its options, pointers and history, every voter's
  // choices and exposures, and every other survey. The exception is a survey
  // past the option ceiling, which can be saved but not restored.
  lemma {:induction false} SaveDeleteRestore(db: Db, id: Id, rs: seq<Response>, t: Time, newId: Id, newIds: seq<Id>,
      now: Time)
    requires id in db && db[id].survey.id == id && Saveable(db[id].survey, db[id].rows) && Lists(rs, db[id].rows)
    requires Ids(db[id].survey.options) !! Owned(db - {id}) && |newIds| == |db[id].survey.options|
    ensures |SavedOptions(db[id].survey.options, true)| == |newIds|
    ensures RestoredDb(db - {id}, SavedDocument(db[id].survey, rs, true, t), true, newId, newIds, now)
         == if |db[id].survey.options| <= MAX_OPTIONS then Done(db) else Refused(OverTheCeiling)
  {
    PutBack(db, id);
    RestoreSaved(db - {id}, db[id].survey, rs, db[id].rows, t, newId, newIds, now);
  }

  // A backup written before exposures were recorded restores with every option
  // shown to exactly those who chose it.
  lemma {:induction false} PreSeenBackup(db: Db, doc: Document, newId: Id, newIds: seq<Id>, now: Time, target: Id)
    requires |newIds| == |doc.body.options| && RestoredDb(db, doc, true, newId, newIds, now).Done?
    requires doc.responses.Some? && forall dr | dr in doc.responses.value :: dr.seen == []
    ensures doc.sourceId in RestoredDb(db, doc, true, newId, newIds, now).value
    ensures var s := RestoredDb(db, doc, true, newId, newIds, now).value[doc.sourceId];
      Viewers(s.survey.options, s.rows, target) == Holders(s.survey.options, s.rows, target)
  {
    var c := ReadDocument(doc, true, doc.sourceId in db, newId, newIds, now).value;
    forall i | 0 <= i < |c.responses| ensures Elements(c.responses[i].seen) == Elements(c.responses[i].choices) {
      assert ReadResponse(doc.responses.value[i], c.names) == Done(c.responses[i]);
      ReadResponseSets(doc.responses.value[i], c.names);
    }
    InsertedPlain(c.responses);
  }

  lemma {:induction false} InsertedPlain(rs: seq<Response>)
    requires InsertAll(rs).Done? && forall i | 0 <= i < |rs| :: Elements(rs[i].seen) == Elements(rs[i].choices)
    ensures var rows := InsertAll(rs).value; forall v | v in rows :: rows[v].seen == rows[v].choices
  {
    if rs != [] {
      InsertedPlain(rs[..|rs| - 1]);
    }
  }

  /******* Where dangling seen rows come from *******/

  lemma {:induction false} UpsertedSkips(owned: set<Id>, opts: seq<Opt>, o: Opt)
    requires Distinct(opts) && Ids(opts) !! owned && o.id in owned
    ensures Upserted(owned, opts + [o]) == opts
  {
    assert (opts + [o])[..|opts|] == opts;
    UpsertedFree(owned, opts);
  }

  function Asking(id: Id, opts: seq<Opt>): Survey {
    Survey(id, TYPE_THUMBS_UP, "T", "", opts, State.Open, false, true, true, false, ZERO_TIME, 1, 1, 1)
  }

  function Choice(id: Id): Opt {
    Opt(id, "A", Approved, Editor, "", 1)
  }

  function SawOnly(b: Id): Row {
    Row({}, {b}, "", 1, 1)
  }

  // A full backup of survey id: options a and b, and a respondent who saw only b.
  function Backup(id: Id, a: Id, b: Id, v: Voter): Document {
    SavedDocument(Asking(id, [Choice(a), Choice(b)]), [Response(v, [], [b], "", 1, 1)], true, 1)
  }

  lemma {:induction false} BackupReads(id: Id, a: Id, b: Id, v: Voter, newId: Id, newIds: seq<Id>, now: Time)
    requires |newIds| == |SavedOptions([Choice(a), Choice(b)], true)|
    requires id != "" && v != "" && a != "" && b != "" && a != b
    ensures var c := ReadDocument(Backup(id, a, b, v), true, false, newId, newIds, now);
      c.Done? && c.value.survey == Asking(id, [Choice(a), Choice(b)])
      && InsertAll(c.value.responses) == Done(map[v := SawOnly(b)])
  {
    var opts, row := [Choice(a), Choice(b)], SawOnly(b);
    var r := Response(v, [], [b], "", 1, 1);
    SavedInFull(opts);
    assert Trim("A") == "A" && Trim("T") == "T" && Trim("") == "";
    assert opts[0].id in Ids(opts) && opts[1].id in Ids(opts);
    assert Reads(r, v, row) by {
      assert Elements(r.seen) == {b} && Elements(r.choices) == {};
    }
    assert [r][0].voter == v;
    SavedReadsBack(Asking(id, opts), [r], map[v := row], 1, newId, newIds, now);
  }

  lemma {:induction false} WrittenWithout(db: Db, c: Contents, a: Id, b: Id, v: Voter, now: Time)
    requires c.survey == Asking(c.survey.id, [Choice(a), Choice(b)]) && InsertAll(c.responses) == Done(map[v := SawOnly(b)])
    requires Owned(db) == {b} && a != b
    ensures Write(db, c, now) == Done(db[c.survey.id := Stored(Asking(c.survey.id, [Choice(a)]), map[v := SawOnly(b)])])
  {
    var opts := [Choice(a)];
    assert opts + [Choice(b)] == c.survey.options;
    assert Ids(opts) == {a};
    UpsertedSkips({b}, opts, Choice(b));
    assert c.survey.(options := opts) == Asking(c.survey.id, opts);
  }

  lemma {:induction false} OneOnBallot(a: Id)
    ensures Ids([Choice(a)]) == {a} && OnBallot([Choice(a)], {}, "") == {a}
  {
    assert Choice(a) in [Choice(a)];
  }

  lemma {:induction false} RowBeyondShown(sv: Survey, a: Id, b: Id, now: Time)
    requires sv.options == [Choice(a)] && a != b
    ensures var row := SavedRow(sv, Some(SawOnly(b)), {a}, "", "", now); !(row.choices <= row.seen)
  {
    OneOnBallot(a);
    SavedRowShownExactlyWhen(sv, Some(SawOnly(b)), {a}, "", "", now);
    assert {a} - {b} == {a} && {b} - {a} == {b} && {a} * {a} == {a};
    assert |{a}| == 1 && |{b}| == 1;
  }

  lemma {:induction false} AnswerBeyondShown(sv: Survey, a: Id, b: Id, v: Voter, now: Time)
    requires sv == Asking(sv.id, [Choice(a)]) && a != b
    ensures var answered := SaveResponse(sv, map[v := SawOnly(b)], v, {a}, "", "", false, now);
      answered.Ok? && !ChosenWasShown(answered.value)
  {
    RowBeyondShown(sv, a, b, now);
    var rows := map[v := SawOnly(b)];
    var row := SavedRow(sv, Some(SawOnly(b)), {a}, "", "", now);
    assert RowOf(rows, v) == Some(SawOnly(b));
    var after := rows[v := row];
    assert v in after && after[v] == row;
    assert SaveResponse(sv, rows, v, {a}, "", "", false, now) == Ok(after);
  }

  // A restore under kept ids can leave a dangling seen row: survey t owns option
  // b by now, so b is skipped without a word while the response keeps its seen
  // row. The next public answer is then chosen and not recorded as shown.
  lemma {:induction false} RestoreThenAnswerBreaksTheBound(id: Id, t: Id, a: Id, b: Id, v: Voter,
      newId: Id, newIds: seq<Id>, now: Time)
    requires |newIds| == |Backup(id, a, b, v).body.options| && id != t
    requires id != "" && v != "" && a != "" && b != "" && a != b
    ensures var db := map[t := Stored(Asking(t, [Choice(b)]), map[])];
      var after := RestoredDb(db, Backup(id, a, b, v), true, newId, newIds, now);
      after == Done(db[id := Stored(Asking(id, [Choice(a)]), map[v := SawOnly(b)])])
      && var answered := SaveResponse(after.value[id].survey, after.value[id].rows, v, {a}, "", "", false, now);
      answered.Ok? && !ChosenWasShown(answered.value)
  {
    var db: Db := map[t := Stored(Asking(t, [Choice(b)]), map[])];
    BackupReads(id, a, b, v, newId, newIds, now);
    assert Owned(db) == {b} by {
      assert db[t].survey.options[0].id == b;
    }
    WrittenWithout(db, ReadDocument(Backup(id, a, b, v), true, false, newId, newIds, now).value, a, b, v, now);
    AnswerBeyondShown(Asking(id, [Choice(a)]), a, b, v, now);
  }
}
