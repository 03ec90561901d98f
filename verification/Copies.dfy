// Restoring a document as a new survey: fresh ids, the same merge graph; and
// what a definition document carries.
module Copies {
  import opened Model
  import opened MergeGraph
  import opened Editing
  import opened Documents
  import opened Restoring
  import opened RoundTrips
  import opened Lifecycle

  /******* Renaming commutes with Resolve *******/

  ghost predicate Injective(names: map<Id, Id>) {
    forall a, b | a in names && b in names && names[a] == names[b] :: a == b
  }

  function RenamedOpt(o: Opt, names: map<Id, Id>): Opt
    requires o.id in names && (o.mergedInto == "" || o.mergedInto in names)
  {
    o.(id := names[o.id], mergedInto := if o.mergedInto == "" then "" else names[o.mergedInto])
  }

  // b is a with every id and every pointer renamed.
  ghost predicate Copy(a: seq<Opt>, b: seq<Opt>, names: map<Id, Id>) {
    |a| == |b| && names.Keys == Ids(a) && Injective(names) && "" !in names.Values
    && forall i | 0 <= i < |a| ::
      a[i].id in names && (a[i].mergedInto == "" || a[i].mergedInto in names) && b[i] == RenamedOpt(a[i], names)
  }

  lemma {:induction false} CopyIsDistinct(a: seq<Opt>, b: seq<Opt>, names: map<Id, Id>)
    requires Distinct(a) && Copy(a, b, names)
    ensures Distinct(b)
  {
    forall i, j | 0 <= i < j < |b| ensures b[i].id != b[j].id {
      assert a[i].id != a[j].id;
      assert b[i] == RenamedOpt(a[i], names) && b[j] == RenamedOpt(a[j], names);
    }
  }

  lemma {:induction false} CopyFind(a: seq<Opt>, b: seq<Opt>, names: map<Id, Id>, id: Id)
    requires Distinct(a) && Copy(a, b, names) && id in names
    ensures Distinct(b) && Find(a, id).Some? && Find(b, names[id]).Some?
    ensures var o := Find(a, id).value;
      (o.mergedInto == "" || o.mergedInto in names) && o.id in names && Find(b, names[id]).value == RenamedOpt(o, names)
  {
    var i :| 0 <= i < |a| && a[i].id == id;
    CopyIsDistinct(a, b, names);
    FindAt(a, i);
    FindAt(b, i);
  }

  // Every renamed id behaves as the id it stands for.
  ghost predicate Mirrors(a: seq<Opt>, b: seq<Opt>, names: map<Id, Id>) {
    forall id | id in names ::
      (Forwards(a, id) <==> Forwards(b, names[id])) && (IsApproved(a, id) <==> IsApproved(b, names[id]))
      && (Forwards(a, id) ==> Next(a, id) in names && Next(b, names[id]) == names[Next(a, id)])
  }

  lemma {:induction false} CopyMirrors(a: seq<Opt>, b: seq<Opt>, names: map<Id, Id>)
    requires Distinct(a) && Copy(a, b, names)
    ensures Mirrors(a, b, names)
  {
    forall id | id in names
      ensures Forwards(a, id) <==> Forwards(b, names[id])
      ensures IsApproved(a, id) <==> IsApproved(b, names[id])
      ensures Forwards(a, id) ==> Next(a, id) in names && Next(b, names[id]) == names[Next(a, id)]
    {
      CopyFind(a, b, names, id);
      var o := Find(a, id).value;
      assert o.mergedInto != "" ==> names[o.mergedInto] in names.Values;
    }
  }

  lemma {:induction false} MirrorWalks(a: seq<Opt>, b: seq<Opt>, names: map<Id, Id>, id: Id, fuel: nat)
    requires Mirrors(a, b, names) && id in names
    ensures ResolveFrom(a, id, fuel).0 in names
    ensures ResolveFrom(b, names[id], fuel) == (names[ResolveFrom(a, id, fuel).0], ResolveFrom(a, id, fuel).1)
    decreases fuel
  {
    if fuel > 0 && Forwards(a, id) {
      MirrorWalks(a, b, names, Next(a, id), fuel - 1);
    }
  }

  lemma {:induction false} MirrorsResolve(a: seq<Opt>, b: seq<Opt>, names: map<Id, Id>, id: Id)
    requires Mirrors(a, b, names) && |a| == |b| && id in names
    ensures Resolve(a, id).0 in names
    ensures Resolve(b, names[id]) == (names[Resolve(a, id).0], Resolve(a, id).1)
  {
    MirrorWalks(a, b, names, id, |a| + 1);
  }

  // On any graph, forward references and cycles included.
  lemma {:induction false} CopyCommutesWithResolve(a: seq<Opt>, b: seq<Opt>, names: map<Id, Id>, id: Id)
    requires Distinct(a) && Copy(a, b, names) && id in names
    ensures Resolve(a, id).0 in names
    ensures Resolve(b, names[id]) == (names[Resolve(a, id).0], Resolve(a, id).1)
  {
    CopyMirrors(a, b, names);
    MirrorsResolve(a, b, names, id);
  }

  /******* Any document restored under fresh ids *******/

  ghost predicate Named(os: seq<DocOption>) {
    (forall i | 0 <= i < |os| :: os[i].id != "") && forall i, j | 0 <= i < j < |os| :: os[i].id != os[j].id
  }

  ghost predicate FreshIds(newIds: seq<Id>) {
    NoRepeats(newIds) && "" !in newIds
  }

  lemma {:induction false} ReadEitherWay(os: seq<DocOption>, newIds: seq<Id>, now: Time)
    requires |newIds| == |os| && Named(os) && ReadOptions(os, false, newIds, now).Done?
    ensures ReadOptions(os, true, newIds, now).Done?
    ensures ReadOptions(os, false, newIds, now).value == Rename(ReadOptions(os, true, newIds, now).value, newIds)
    ensures forall i | 0 <= i < |os| :: ReadOptions(os, true, newIds, now).value[i].id == os[i].id
  {
    var anew, own := ReadOptions(os, false, newIds, now), ReadOptions(os, true, newIds, now);
    forall i | 0 <= i < |os| ensures ReadOption(os[i], true, newIds[i], now).Done? {
      assert ReadOption(os[i], false, newIds[i], now) == Done(anew.value[i]);
    }
    forall i | 0 <= i < |os| ensures anew.value[i] == own.value[i].(id := newIds[i]) && own.value[i].id == os[i].id {
      assert ReadOption(os[i], false, newIds[i], now) == Done(anew.value[i]);
      assert ReadOption(os[i], true, newIds[i], now) == Done(own.value[i]);
    }
    assert anew.value == Rename(own.value, newIds);
  }

  // names sends the i-th old id to the i-th new one, and knows no other.
  ghost predicate Pairs(names: map<Id, Id>, before: seq<Id>, anew: seq<Id>)
    requires |before| == |anew|
  {
    (forall i | 0 <= i < |before| :: before[i] in names && names[before[i]] == anew[i])
    && forall id | id in names :: id in before
  }

  lemma {:induction false} PairsAreInjective(names: map<Id, Id>, before: seq<Id>, anew: seq<Id>)
    requires |before| == |anew| && Pairs(names, before, anew) && FreshIds(anew)
    ensures Injective(names) && "" !in names.Values
  {
    forall a, b | a in names && b in names && names[a] == names[b] ensures a == b {
      var i :| 0 <= i < |before| && before[i] == a;
      var j :| 0 <= j < |before| && before[j] == b;
      assert names[before[i]] == anew[i] && names[before[j]] == anew[j];
    }
    forall a | a in names ensures names[a] != "" {
      var i :| 0 <= i < |before| && before[i] == a;
      assert names[before[i]] == anew[i];
    }
  }

  function IdList(opts: seq<Opt>): seq<Id> {
    seq(|opts|, i requires 0 <= i < |opts| => opts[i].id)
  }

  lemma {:induction false} IdListHolds(opts: seq<Opt>)
    ensures forall id :: id in IdList(opts) <==> id in Ids(opts)
  {
    forall id ensures id in IdList(opts) <==> id in Ids(opts) {
      if id in IdList(opts) {
        var i :| 0 <= i < |opts| && IdList(opts)[i] == id;
        assert opts[i] in opts;
      }
      if id in Ids(opts) {
        var i :| 0 <= i < |opts| && opts[i].id == id;
        assert IdList(opts)[i] == id;
      }
    }
  }

  lemma {:induction false} FreshRenaming(os: seq<DocOption>, own: seq<Opt>, newIds: seq<Id>)
    requires |own| == |newIds| == |os| && Named(os) && FreshIds(newIds)
    requires forall i | 0 <= i < |os| :: own[i].id == os[i].id
    ensures Pairs(Renaming(os, Rename(own, newIds)), IdList(own), newIds)
    ensures Renaming(os, Rename(own, newIds)).Keys == Ids(own)
  {
    var names := Renaming(os, Rename(own, newIds));
    RenamingAt(os, Rename(own, newIds));
    forall i | 0 <= i < |own| ensures IdList(own)[i] in names && names[IdList(own)[i]] == newIds[i] {
      assert names[os[i].id] == Rename(own, newIds)[i].id;
    }
    forall id | id in names ensures id in IdList(own) {
      var i :| 0 <= i < |os| && os[i].id == id;
      assert IdList(own)[i] == id;
    }
    IdListHolds(own);
  }

  lemma {:induction false} RepointCopies(own: seq<Opt>, newIds: seq<Id>, names: map<Id, Id>)
    requires |own| == |newIds| && RepointAll(Rename(own, newIds), names).Done?
    requires names.Keys == Ids(own) && Pairs(names, IdList(own), newIds) && FreshIds(newIds)
    ensures Copy(own, RepointAll(Rename(own, newIds), names).value, names)
  {
    var out := RepointAll(Rename(own, newIds), names).value;
    PairsAreInjective(names, IdList(own), newIds);
    forall i | 0 <= i < |own|
      ensures own[i].id in names && (own[i].mergedInto == "" || own[i].mergedInto in names)
      ensures out[i] == RenamedOpt(own[i], names)
    {
      assert names[IdList(own)[i]] == newIds[i];
      assert Repoint(Rename(own, newIds)[i], names) == Done(out[i]);
    }
  }

  lemma {:induction false} NewOptionsAreACopy(os: seq<DocOption>, newIds: seq<Id>, now: Time)
    requires |newIds| == |os| && Named(os) && FreshIds(newIds) && ReadOptions(os, false, newIds, now).Done?
    requires var read := ReadOptions(os, false, newIds, now).value; RepointAll(read, Renaming(os, read)).Done?
    ensures var own, read := ReadOptions(os, true, newIds, now), ReadOptions(os, false, newIds, now).value;
      var names := Renaming(os, read);
      own.Done? && Distinct(own.value) && Copy(own.value, RepointAll(read, names).value, names)
      && Ids(RepointAll(read, names).value) <= Elements(newIds)
  {
    ReadEitherWay(os, newIds, now);
    var own := ReadOptions(os, true, newIds, now).value;
    var names := Renaming(os, Rename(own, newIds));
    FreshRenaming(os, own, newIds);
    RepointCopies(own, newIds, names);
    RepointKeepsIds(Rename(own, newIds), names);
    forall i, j | 0 <= i < j < |own| ensures own[i].id != own[j].id {
      assert own[i].id == os[i].id && own[j].id == os[j].id;
    }
  }

  // An option the document leaves unnamed, under the name it gets.
  function Filled(os: seq<DocOption>, newIds: seq<Id>): seq<DocOption>
    requires |os| == |newIds|
  {
    seq(|os|, i requires 0 <= i < |os| => if os[i].id == "" then os[i].(id := newIds[i]) else os[i])
  }

  // No two options of the document carry the same id, and none a new one.
  ghost predicate Unambiguous(os: seq<DocOption>, newIds: seq<Id>) {
    (forall i, j | 0 <= i < j < |os| :: os[i].id == "" || os[i].id != os[j].id)
    && forall o | o in os :: o.id !in newIds
  }

  lemma {:induction false} FilledIsNamed(os: seq<DocOption>, newIds: seq<Id>)
    requires |os| == |newIds| && FreshIds(newIds) && Unambiguous(os, newIds)
    ensures Named(Filled(os, newIds))
  {
    var filled := Filled(os, newIds);
    forall i, j | 0 <= i < j < |os| ensures filled[i].id != filled[j].id {
      assert os[i] in os && os[j] in os && newIds[i] in newIds && newIds[j] in newIds;
    }
    forall i | 0 <= i < |os| ensures filled[i].id != "" {
      assert newIds[i] in newIds;
    }
  }

  lemma {:induction false} FilledReads(os: seq<DocOption>, newIds: seq<Id>, keepId: bool, now: Time)
    requires |os| == |newIds| && ReadOptions(os, keepId, newIds, now).Done?
    ensures ReadOptions(Filled(os, newIds), keepId, newIds, now) == ReadOptions(os, keepId, newIds, now)
  {
    var filled, read := Filled(os, newIds), ReadOptions(os, keepId, newIds, now).value;
    forall i | 0 <= i < |os| ensures ReadOption(filled[i], keepId, newIds[i], now) == Done(read[i]) {
      assert ReadOption(os[i], keepId, newIds[i], now) == Done(read[i]);
    }
    var again := ReadOptions(filled, keepId, newIds, now);
    assert again.Done?;
    assert again.value == read;
  }

  // What the document calls an option, and what it is called now; unnamed
  // options go by their new name.
  lemma {:induction false} RenamingNames(os: seq<DocOption>, opts: seq<Opt>)
    requires |os| == |opts| && forall i, j | 0 <= i < j < |os| :: os[i].id == "" || os[i].id != os[j].id
    ensures forall id | id in Renaming(os, opts) ::
      exists i :: 0 <= i < |os| && os[i].id == id && id != "" && opts[i].id == Renaming(os, opts)[id]
  {
    if os != [] {
      var n := |os| - 1;
      RenamingNames(os[..n], opts[..n]);
      var before, names := Renaming(os[..n], opts[..n]), Renaming(os, opts);
      forall id | id in names
        ensures exists i :: 0 <= i < |os| && os[i].id == id && id != "" && opts[i].id == names[id]
      {
        if id in before && id != os[n].id {
          var i :| 0 <= i < n && os[..n][i].id == id && id != "" && opts[..n][i].id == before[id];
          assert os[i].id == id && opts[i].id == names[id];
        } else {
          assert os[n].id == id && opts[n].id == names[id];
        }
      }
    }
  }

  lemma {:induction false} FilledRenaming(os: seq<DocOption>, opts: seq<Opt>, newIds: seq<Id>)
    requires |os| == |opts| == |newIds| && FreshIds(newIds) && Unambiguous(os, newIds)
    ensures var names, all := Renaming(os, opts), Renaming(Filled(os, newIds), opts);
      forall id | id in names :: id in all && all[id] == names[id]
  {
    var filled := Filled(os, newIds);
    FilledIsNamed(os, newIds);
    RenamingAt(filled, opts);
    RenamingNames(os, opts);
    var names, all := Renaming(os, opts), Renaming(filled, opts);
    forall id | id in names ensures id in all && all[id] == names[id] {
      var i :| 0 <= i < |os| && os[i].id == id && id != "" && opts[i].id == names[id];
      assert filled[i].id == id;
    }
  }

  lemma {:induction false} MoreNamesRepointAlike(opts: seq<Opt>, names: map<Id, Id>, all: map<Id, Id>)
    requires RepointAll(opts, names).Done? && forall id | id in names :: id in all && all[id] == names[id]
    ensures RepointAll(opts, all) == RepointAll(opts, names)
  {
    var out := RepointAll(opts, names).value;
    forall i | 0 <= i < |opts| ensures Repoint(opts[i], all) == Done(out[i]) {
      assert Repoint(opts[i], names) == Done(out[i]);
    }
    RepointDone(opts, all, out);
  }

  // However the document's options point at each other, and whether or not it
  // names them all: the new survey has the same graph under other names, and
  // every id resolves to the renamed end.
  lemma {:induction false} NewSurveyIsACopy(doc: Document, there: bool, newId: Id, newIds: seq<Id>, now: Time)
      returns (names: map<Id, Id>)
    requires |newIds| == |doc.body.options| && Unambiguous(doc.body.options, newIds) && FreshIds(newIds)
    requires ReadDocument(doc, false, there, newId, newIds, now).Done?
    ensures var own := ReadOptions(doc.body.options, true, newIds, now);
      var c := ReadDocument(doc, false, there, newId, newIds, now).value;
      own.Done? && Ids(c.survey.options) <= Elements(newIds) && Distinct(own.value)
      && Copy(own.value, c.survey.options, names) && forall id | id in c.names :: id in names && names[id] == c.names[id]
    ensures var own := ReadOptions(doc.body.options, true, newIds, now).value;
      var copy := ReadDocument(doc, false, there, newId, newIds, now).value.survey.options;
      forall id | id in names ::
        Resolve(own, id).0 in names && Resolve(copy, names[id]) == (names[Resolve(own, id).0], Resolve(own, id).1)
  {
    var c := ReadDocument(doc, false, there, newId, newIds, now).value;
    names := FilledIsACopy(doc.body.options, newIds, now);
    var own := ReadOptions(doc.body.options, true, newIds, now).value;
    forall id | id in names
      ensures Resolve(own, id).0 in names
      ensures Resolve(c.survey.options, names[id]) == (names[Resolve(own, id).0], Resolve(own, id).1)
    {
      CopyCommutesWithResolve(own, c.survey.options, names, id);
    }
  }

  lemma {:induction false} FilledIsACopy(os: seq<DocOption>, newIds: seq<Id>, now: Time) returns (all: map<Id, Id>)
    requires |newIds| == |os| && Unambiguous(os, newIds) && FreshIds(newIds) && ReadOptions(os, false, newIds, now).Done?
    requires var read := ReadOptions(os, false, newIds, now).value; RepointAll(read, Renaming(os, read)).Done?
    ensures var own, read := ReadOptions(os, true, newIds, now), ReadOptions(os, false, newIds, now).value;
      var names := Renaming(os, read);
      own.Done? && Distinct(own.value) && Copy(own.value, RepointAll(read, names).value, all)
      && Ids(RepointAll(read, names).value) <= Elements(newIds)
      && forall id | id in names :: id in all && all[id] == names[id]
  {
    var filled, read := Filled(os, newIds), ReadOptions(os, false, newIds, now).value;
    all := Renaming(filled, read);
    FilledIsNamed(os, newIds);
    FilledReads(os, newIds, false, now);
    FilledRenaming(os, read, newIds);
    MoreNamesRepointAlike(read, Renaming(os, read), all);
    NewOptionsAreACopy(filled, newIds, now);
    OwnNamesRead(os, newIds, now);
    FilledReads(os, newIds, true, now);
  }

  lemma {:induction false} OwnNamesRead(os: seq<DocOption>, newIds: seq<Id>, now: Time)
    requires |newIds| == |os| && ReadOptions(os, false, newIds, now).Done?
    ensures ReadOptions(os, true, newIds, now).Done?
  {
    var read := ReadOptions(os, false, newIds, now).value;
    forall i | 0 <= i < |os| ensures ReadOption(os[i], true, newIds[i], now).Done? {
      assert ReadOption(os[i], false, newIds[i], now) == Done(read[i]);
    }
  }

  /******* Draft or not *******/

  // What an accepted restore leaves in the state column. A document that
  // carries no state is always a never-opened draft; nothing else about the
  // request makes it one. A restored open survey counts as opened.
  lemma {:induction false} RestoredAsDraftExactlyWhen(db: Db, doc: Document, keepId: bool, newId: Id, newIds: seq<Id>,
      now: Time)
    requires |newIds| == |doc.body.options| && now != ZERO_TIME
    ensures var id := if keepId then doc.sourceId else newId;
      var after := RestoredDb(db, doc, keepId, newId, newIds, now);
      after.Done? ==>
        id in after.value
        && var sv := after.value[id].survey;
        (sv.state.Draft? <==> doc.body.state == "" || doc.body.state == "draft")
        && (!Full(doc) ==> sv.firstOpenedAt == ZERO_TIME && sv.created == sv.updated == now)
        && (sv.state.Open? ==> sv.firstOpenedAt != ZERO_TIME)
  {
    var c := ReadDocument(doc, keepId, doc.sourceId in db, newId, newIds, now);
    if c.Done? {
      StateRead(doc, keepId, doc.sourceId in db, newId, newIds, now);
      WrittenState(db, c.value, now);
    }
  }

  lemma {:induction false} StateRead(doc: Document, keepId: bool, there: bool, newId: Id, newIds: seq<Id>, now: Time)
    requires |newIds| == |doc.body.options|
    ensures var c := ReadDocument(doc, keepId, there, newId, newIds, now);
      c.Done? ==>
        var sv := c.value.survey;
        sv.id == (if keepId then doc.sourceId else newId)
        && (sv.state.Draft? <==> doc.body.state == "" || doc.body.state == "draft")
        && (!Full(doc) ==> sv.state.Draft? && sv.firstOpenedAt == ZERO_TIME && sv.created == sv.updated == now)
        && (sv.state.Open? <==> doc.body.state == "open")
        && (sv.firstOpenedAt == ZERO_TIME <==> !Full(doc) || doc.body.firstOpenedAt == ZERO_TIME)
  {
    var c := ReadDocument(doc, keepId, there, newId, newIds, now);
    if c.Done? {
      assert c.value.survey.state == ReadSurvey(doc, c.value.survey.id, now).state;
      StateMeans(doc.body.state);
    }
  }

  lemma {:induction false} WrittenState(db: Db, c: Contents, now: Time)
    requires now != ZERO_TIME
    ensures var after := Write(db, c, now);
      after.Done? ==>
        c.survey.id in after.value
        && var sv := after.value[c.survey.id].survey;
        sv.state == c.survey.state && sv.created == c.survey.created && sv.updated == c.survey.updated
        && (sv.state.Open? ==> sv.firstOpenedAt != ZERO_TIME)
        && (!sv.state.Open? ==> sv.firstOpenedAt == c.survey.firstOpenedAt)
  {}

  lemma {:induction false} StateMeans(s: string)
    ensures ReadState(s) == Some(Draft) <==> s == "draft"
    ensures ReadState(s) == Some(State.Open) <==> s == "open"
  {
    assert "open" != "draft" && "closed" != "draft" && "closed" != "open";
  }

  // Publishing a restored survey deletes its restored responses exactly when the
  // document records no first opening and is not open.
  lemma {:induction false} PublishAfterRestore(db: Db, doc: Document, keepId: bool, newId: Id, newIds: seq<Id>,
      now: Time, accepted: set<Voter>, later: Time)
    requires |newIds| == |doc.body.options| && now != ZERO_TIME
    ensures var id := if keepId then doc.sourceId else newId;
      var after := RestoredDb(db, doc, keepId, newId, newIds, now);
      after.Done? ==>
        id in after.value
        && var restored := after.value[id];
        var published := Step(World(restored.survey, restored.rows, accepted), Publish, later);
        published.Ok? ==>
          published.value.rows
          == if (!Full(doc) || doc.body.firstOpenedAt == ZERO_TIME) && doc.body.state != "open" then map[] else restored.rows
  {
    RestoredHistory(db, doc, keepId, newId, newIds, now);
    var after := RestoredDb(db, doc, keepId, newId, newIds, now);
    if after.Done? {
      var restored := after.value[if keepId then doc.sourceId else newId];
      PublishDiscards(World(restored.survey, restored.rows, accepted), later);
    }
  }

  lemma {:induction false} PublishDiscards(w: World, now: Time)
    ensures var published := Step(w, Publish, now);
      published.Ok? ==> published.value.rows == if w.survey.firstOpenedAt == ZERO_TIME then map[] else w.rows
  {}

  lemma {:induction false} RestoredHistory(db: Db, doc: Document, keepId: bool, newId: Id, newIds: seq<Id>, now: Time)
    requires |newIds| == |doc.body.options| && now != ZERO_TIME
    ensures var id := if keepId then doc.sourceId else newId;
      var after := RestoredDb(db, doc, keepId, newId, newIds, now);
      after.Done? ==>
        id in after.value
        && (after.value[id].survey.firstOpenedAt == ZERO_TIME
            <==> (!Full(doc) || doc.body.firstOpenedAt == ZERO_TIME) && doc.body.state != "open")
  {
    var c := ReadDocument(doc, keepId, doc.sourceId in db, newId, newIds, now);
    if c.Done? {
      StateRead(doc, keepId, doc.sourceId in db, newId, newIds, now);
      WrittenState(db, c.value, now);
    }
  }

  // A full document without responses, restored under fresh ids, is the saved
  // survey renamed: state and publication history come along, so the copy of an
  // open survey is open.
  lemma {:induction false} FullCopyKeepsItsState(db: Db, sv: Survey, t: Time, newId: Id, newIds: seq<Id>, now: Time)
    requires Saveable(sv, map[]) && |newIds| == |sv.options| && FreshIds(newIds) && Elements(newIds) !! Owned(db)
    ensures |SavedOptions(sv.options, true)| == |newIds|
    ensures exists opts, names ::
      Copy(sv.options, opts, names)
      && RestoredDb(db, SavedDocument(sv, [], true, t), false, newId, newIds, now)
        == Placed(db, sv.(id := newId, options := opts), map[])
  {
    var os := SavedOptions(sv.options, true);
    SavedInFull(sv.options);
    var names := Renaming(os, Rename(sv.options, newIds));
    SavedCopies(os, sv.options, newIds, now);
    var opts := RepointAll(Rename(sv.options, newIds), names).value;
    FullCopyReads(sv, opts, t, sv.id in db, newId, newIds, now);
    var c := ReadDocument(SavedDocument(sv, [], true, t), false, sv.id in db, newId, newIds, now).value;
    assert Ids(opts) !! Owned(db);
    WrittenAsRead(db, c, map[], now);
  }

  lemma {:induction false} FullCopyRepoints(opts: seq<Opt>, os: seq<DocOption>, newIds: seq<Id>)
    requires |os| == |opts| == |newIds| && Named(os) && FreshIds(newIds)
    requires forall i | 0 <= i < |os| :: opts[i].id == os[i].id && SaveableOption(opts[i], Ids(opts))
    ensures RepointAll(Rename(opts, newIds), Renaming(os, Rename(opts, newIds))).Done?
  {
    var names := Renaming(os, Rename(opts, newIds));
    FreshRenaming(os, opts, newIds);
    forall i | 0 <= i < |newIds| ensures Repoint(Rename(opts, newIds)[i], names).Done? {
      assert SaveableOption(opts[i], Ids(opts));
    }
  }

  lemma {:induction false} SavedCopies(os: seq<DocOption>, opts: seq<Opt>, newIds: seq<Id>, now: Time)
    requires |os| == |opts| == |newIds| && FreshIds(newIds) && Distinct(opts)
    requires forall i | 0 <= i < |os| :: os[i] == SavedOption(opts[i], true) && SaveableOption(opts[i], Ids(opts))
    ensures ReadOptions(os, false, newIds, now) == Done(Rename(opts, newIds))
    ensures RepointAll(Rename(opts, newIds), Renaming(os, Rename(opts, newIds))).Done?
    ensures var names := Renaming(os, Rename(opts, newIds));
      var out := RepointAll(Rename(opts, newIds), names).value;
      Copy(opts, out, names) && Distinct(out) && Ids(out) <= Elements(newIds)
  {
    ReadSavedOptions(os, opts, Ids(opts), false, newIds, now);
    ReadSavedOptions(os, opts, Ids(opts), true, newIds, now);
    FullCopyRepoints(opts, os, newIds);
    NewOptionsAreACopy(os, newIds, now);
    var names := Renaming(os, Rename(opts, newIds));
    CopyIsDistinct(opts, RepointAll(Rename(opts, newIds), names).value, names);
  }

  lemma {:induction false} FullCopyReads(sv: Survey, opts: seq<Opt>, t: Time, there: bool, newId: Id, newIds: seq<Id>,
      now: Time)
    requires Saveable(sv, map[]) && |newIds| == |sv.options|
    requires var os := SavedOptions(sv.options, true);
      |os| == |newIds| && ReadOptions(os, false, newIds, now) == Done(Rename(sv.options, newIds))
      && RepointAll(Rename(sv.options, newIds), Renaming(os, Rename(sv.options, newIds))) == Done(opts)
    ensures var c := ReadDocument(SavedDocument(sv, [], true, t), false, there, newId, newIds, now);
      c.Done? && c.value.survey == sv.(id := newId, options := opts) && c.value.responses == []
  {
    var doc := SavedDocument(sv, [], true, t);
    FullCopyHeader(sv, t, there, newId, now);
    assert doc.body.options == SavedOptions(sv.options, true);
    assert ReadResponses(doc.responses.value, Renaming(doc.body.options, Rename(sv.options, newIds))) == Done([]);
  }

  lemma {:induction false} FullCopyHeader(sv: Survey, t: Time, there: bool, newId: Id, now: Time)
    requires Titled(sv) && sv.created != ZERO_TIME && sv.updated != ZERO_TIME
    ensures var doc := SavedDocument(sv, [], true, t);
      CheckDocument(doc, false, there) == None && ReadState(doc.body.state).Some?
      && ReadSurvey(doc, newId, now) == sv.(id := newId, options := [])
  {
    NamesReadBack(Approved, sv.state, Editor);
  }

  /******* Definition documents *******/

  // Definable: a title and option texts as the application writes them.
  ghost predicate Definable(sv: Survey) {
    Titled(sv) && forall o | o in sv.options && o.status.Approved? :: Trim(o.text) == o.text != ""
  }

  ghost predicate Bare(d: DocOption) {
    d == DocOption(d.text, SourceName(ReadSource(d.source)), "", "", "", ZERO_TIME) && Trim(d.text) == d.text != ""
  }

  lemma {:induction false} DefinitionOptionsAreBare(opts: seq<Opt>)
    requires forall o | o in opts && o.status.Approved? :: Trim(o.text) == o.text != ""
    ensures forall d | d in SavedOptions(opts, false) :: Bare(d)
  {
    if opts != [] {
      var n := |opts| - 1;
      assert opts == opts[..n] + [opts[n]];
      DefinitionOptionsAreBare(opts[..n]);
      NamesReadBack(Approved, Draft, opts[n].source);
    }
  }

  function Asked(os: seq<DocOption>, newIds: seq<Id>, now: Time): seq<Opt>
    requires |os| == |newIds|
  {
    seq(|os|, i requires 0 <= i < |os| => Opt(newIds[i], os[i].text, Approved, ReadSource(os[i].source), "", now))
  }

  lemma {:induction false} ReadBare(os: seq<DocOption>, keepId: bool, newIds: seq<Id>, now: Time)
    requires |os| == |newIds| && forall d | d in os :: Bare(d)
    ensures ReadOptions(os, keepId, newIds, now) == Done(Asked(os, newIds, now))
    ensures forall names :: RepointAll(Asked(os, newIds, now), names) == Done(Asked(os, newIds, now))
  {
    var opts := Asked(os, newIds, now);
    forall i | 0 <= i < |os| ensures ReadOption(os[i], keepId, newIds[i], now) == Done(opts[i]) {
      assert Bare(os[i]);
    }
    assert ReadOptions(os, keepId, newIds, now).value == opts;
    forall names ensures RepointAll(opts, names) == Done(opts) {
      forall i | 0 <= i < |opts| ensures Repoint(opts[i], names) == Done(opts[i]) {
      }
      assert RepointAll(opts, names).value == opts;
    }
  }

  lemma {:induction false} AskedAgain(os: seq<DocOption>, newIds: seq<Id>, now: Time)
    requires |os| == |newIds| && forall d | d in os :: Bare(d)
    ensures SavedOptions(Asked(os, newIds, now), false) == os
  {
    if os != [] {
      var n := |os| - 1;
      assert Asked(os, newIds, now)[..n] == Asked(os[..n], newIds[..n], now);
      AskedAgain(os[..n], newIds[..n], now);
      assert Bare(os[n]);
      assert os == os[..n] + [os[n]];
    }
  }

  lemma {:induction false} AskedIds(os: seq<DocOption>, newIds: seq<Id>, now: Time)
    requires |os| == |newIds| && NoRepeats(newIds)
    ensures Distinct(Asked(os, newIds, now)) && Ids(Asked(os, newIds, now)) <= Elements(newIds)
  {
  }

  function Drafted(approved: seq<Opt>, newIds: seq<Id>, now: Time): seq<Opt>
    requires |approved| == |newIds|
  {
    seq(|approved|, i requires 0 <= i < |approved| =>
      Opt(newIds[i], approved[i].text, Approved, approved[i].source, "", now))
  }

  lemma {:induction false} DefinitionAsks(opts: seq<Opt>, newIds: seq<Id>, now: Time)
    requires |newIds| == |ApprovedOnly(opts)|
    ensures |SavedOptions(opts, false)| == |newIds|
    ensures Asked(SavedOptions(opts, false), newIds, now) == Drafted(ApprovedOnly(opts), newIds, now)
  {
    var approved := ApprovedOnly(opts);
    DefinitionLists(opts);
    forall i | 0 <= i < |approved| ensures ReadSource(SavedOptions(opts, false)[i].source) == approved[i].source {
      NamesReadBack(Approved, Draft, approved[i].source);
    }
  }

  // The copy of a survey that its approved options, wording and switches make.
  ghost function Draftee(sv: Survey, id: Id, newIds: seq<Id>, now: Time): Survey
    requires |newIds| == |ApprovedOnly(sv.options)|
  {
    sv.(id := id, options := Drafted(ApprovedOnly(sv.options), newIds, now), state := Draft,
        closeAt := ZERO_TIME, firstOpenedAt := ZERO_TIME, created := now, updated := now)
  }

  lemma {:induction false} DefinitionReads(sv: Survey, rs: seq<Response>, t: Time, keepId: bool, there: bool,
      newId: Id, newIds: seq<Id>, now: Time)
    requires Definable(sv) && |newIds| == |ApprovedOnly(sv.options)| && (keepId ==> sv.id != "" && !there)
    ensures var doc := SavedDocument(sv, rs, false, t);
      |newIds| == |doc.body.options|
      && var c := ReadDocument(doc, keepId, there, newId, newIds, now);
      c.Done? && c.value.responses == [] && c.value.survey == Draftee(sv, if keepId then sv.id else newId, newIds, now)
  {
    var doc := SavedDocument(sv, rs, false, t);
    DefinitionAsks(sv.options, newIds, now);
    DefinitionOptionsAreBare(sv.options);
    ReadBare(doc.body.options, keepId, newIds, now);
    assert CheckDocument(doc, keepId, there) == None;
  }

  // A definition document restores, under either choice of ids, to a
  // never-opened draft with no responses whose own definition says the same.
  lemma {:induction false} DefinitionRoundTrip(db: Db, sv: Survey, rs: seq<Response>, t: Time, keepId: bool,
      newId: Id, newIds: seq<Id>, now: Time)
    requires Definable(sv) && |newIds| == |ApprovedOnly(sv.options)| && (keepId ==> sv.id != "" && sv.id !in db)
    requires FreshIds(newIds) && Elements(newIds) !! Owned(db)
    ensures |newIds| == |SavedDocument(sv, rs, false, t).body.options|
    ensures var copy := Draftee(sv, if keepId then sv.id else newId, newIds, now);
      RestoredDb(db, SavedDocument(sv, rs, false, t), keepId, newId, newIds, now) == Placed(db, copy, map[])
      && SavedBody(copy, false) == SavedBody(sv, false)
  {
    DefinitionReads(sv, rs, t, keepId, sv.id in db, newId, newIds, now);
    DefinitionAsks(sv.options, newIds, now);
    DefinitionOptionsAreBare(sv.options);
    AskedAgain(SavedOptions(sv.options, false), newIds, now);
    AskedIds(SavedOptions(sv.options, false), newIds, now);
    var c := ReadDocument(SavedDocument(sv, rs, false, t), keepId, sv.id in db, newId, newIds, now).value;
    WrittenAsRead(db, c, map[], now);
  }
}
