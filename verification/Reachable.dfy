// Every survey the application can reach can be saved in full and restored.
module Reachable {
  import opened Model
  import opened Editing
  import opened Submission
  import opened Lifecycle
  import opened Documents
  import opened Restoring
  import opened RoundTrips

  predicate TidyOption(o: Opt) {
    Trim(o.text) == o.text != "" && o.created != ZERO_TIME
  }

  ghost predicate TidyOptions(opts: seq<Opt>) {
    forall o | o in opts :: TidyOption(o)
  }

  ghost predicate TidySurvey(sv: Survey) {
    Titled(sv) && sv.id != "" && sv.created != ZERO_TIME && TidyOptions(sv.options)
  }

  // Texts are trimmed, times are set and every row has a voter.
  ghost predicate Tidy(w: World) {
    TidySurvey(w.survey) && w.survey.updated != ZERO_TIME && "" !in w.rows
  }

  // A respondent's identifier is a digest, never empty.
  predicate Named(a: Action) {
    (a.Submit? ==> a.voter != "") && (a.Suggest? ==> a.proposer != "")
  }

  lemma {:induction false} TidyEdit(opts: seq<Opt>, k: nat, o: Opt)
    requires TidyOptions(opts) && k < |opts| && TidyOption(o)
    ensures TidyOptions(opts[k := o])
  {
    forall p | p in opts[k := o] ensures TidyOption(p) {
      assert p == o || p in opts;
    }
  }

  lemma {:induction false} TextKeepsTidy(opts: seq<Opt>, id: Id, text: string)
    requires Distinct(opts) && TidyOptions(opts) && SetText(opts, id, text).Ok?
    ensures TidyOptions(SetText(opts, id, text).value) && Distinct(SetText(opts, id, text).value)
  {
    var k := IndexOf(opts, id);
    var o := opts[k].(text := Trim(text));
    ReplaceAt(opts, k, o);
    FindAfterUpdate(opts, k, o, id);
    TrimTwice(text);
    assert TidyOption(opts[k]);
    TidyEdit(opts, k, o);
  }

  lemma {:induction false} StatusKeepsTidy(opts: seq<Opt>, id: Id, status: Status, mergeInto: Id)
    requires Distinct(opts) && TidyOptions(opts) && SetStatus(opts, id, status, mergeInto).Ok?
    ensures TidyOptions(SetStatus(opts, id, status, mergeInto).value)
  {
    var k, o := SetStatusShape(opts, id, status, mergeInto);
    assert TidyOption(opts[k]);
    TidyEdit(opts, k, o);
  }

  lemma {:induction false} ModerateKeepsTidy(opts: seq<Opt>, id: Id, action: ModerationAction, text: string)
    requires Distinct(opts) && TidyOptions(opts) && Moderate(opts, id, action, text).Ok?
    ensures TidyOptions(Moderate(opts, id, action, text).value)
  {
    var worded := opts;
    if Trim(text) != "" && !action.MergeInto? {
      worded := SetText(opts, id, text).value;
      TextKeepsTidy(opts, id, text);
    }
    match action {
      case Approve => StatusKeepsTidy(worded, id, Approved, "");
      case Restore => StatusKeepsTidy(worded, id, Approved, "");
      case Reject => StatusKeepsTidy(worded, id, Rejected, "");
      case Remove => StatusKeepsTidy(worded, id, Removed, "");
      case MergeInto(target) => StatusKeepsTidy(worded, id, Merged, target);
    }
  }

  lemma {:induction false} AddAllKeepsTidy(opts: seq<Opt>, texts: seq<string>, newIds: seq<Id>, now: Time)
    requires |texts| == |newIds| && TidyOptions(opts) && now != ZERO_TIME && AddAll(opts, texts, newIds, now).Ok?
    ensures TidyOptions(AddAll(opts, texts, newIds, now).value)
    decreases |texts|
  {
    if texts == [] {
    } else if Trim(texts[0]) == "" {
      AddAllKeepsTidy(opts, texts[1..], newIds[1..], now);
    } else {
      TrimTwice(texts[0]);
      AddAllKeepsTidy(AddOption(opts, texts[0], Approved, Editor, newIds[0], now).value, texts[1..], newIds[1..], now);
    }
  }

  lemma {:induction false} FormKeepsTidy(sv: Survey, form: EditForm, newIds: seq<Id>, now: Time)
    requires TidySurvey(sv) && |form.newOptions| == |newIds| && now != ZERO_TIME
    requires ApplyForm(sv, form, newIds, now).Ok?
    ensures TidySurvey(ApplyForm(sv, form, newIds, now).value)
  {
    var edited := EditAll(form, sv.options);
    forall o | o in edited ensures TidyOption(o) {
      var i :| 0 <= i < |edited| && edited[i] == o;
      var p := sv.options[i];
      assert TidyOption(p) && o == EditOne(form, p);
      if p.id in form.texts {
        TrimTwice(form.texts[p.id]);
      }
    }
    AddAllKeepsTidy(edited, form.newOptions, newIds, now);
    TrimTwice(form.title);
    TrimTwice(form.description);
  }

  lemma {:induction false} UpdateKeepsTidy(w: World, sv: Survey, now: Time)
    requires Tidy(w) && TidySurvey(sv) && now != ZERO_TIME && UpdateSurvey(w, sv, now).Ok?
    ensures Tidy(UpdateSurvey(w, sv, now).value)
  {}

  lemma {:induction false} ProposedIsTidy(sv: Survey, prior: set<Id>, text: string, newId: Id, preview: bool, now: Time)
    requires TidySurvey(sv) && now != ZERO_TIME && Proposed(sv, prior, text, newId, preview, now).Ok?
    ensures var after := Proposed(sv, prior, text, newId, preview, now).value; TidySurvey(after) && after.updated == now
  {
    ProposedShape(sv, prior, text, newId, preview, now);
    TrimTwice(text);
  }

  lemma {:induction false} SuggestionKeepsTidy(w: World, voter: Voter, text: string, newId: Id, preview: bool,
      now: Time)
    requires Sound(w) && Tidy(w) && voter != "" && now != ZERO_TIME && newId !in Ids(w.survey.options)
    requires ProposeOption(w.survey, w.rows, voter, text, newId, preview, now).Ok?
    ensures var r := ProposeOption(w.survey, w.rows, voter, text, newId, preview, now).value;
      TidySurvey(r.0) && r.0.updated == now && "" !in r.1
  {
    var prior := PriorChoices(RowOf(w.rows, voter));
    var comment := SuggestionStores(w.survey, w.rows, voter, text, newId, preview, now);
    ProposedIsTidy(w.survey, prior, text, newId, preview, now);
  }

  lemma {:induction false} AnswerKeepsTidy(w: World, e: Event)
    requires Sound(w) && Tidy(w) && Possible(w, e) && Named(e.action) && Answers(e.action)
    ensures Tidy(After(w, e))
  {
    if Step(w, e.action, e.now).Ok? {
      match e.action {
        case Submit(voter, choices, comment, preview) =>
        case Suggest(voter, text, newId, preview) =>
          assert [newId][0] == newId;
          SuggestionKeepsTidy(w, voter, text, newId, preview, e.now);
      }
    }
  }

  lemma {:induction false} OtherStepKeepsTidy(w: World, e: Event)
    requires Sound(w) && Tidy(w) && Possible(w, e) && !Answers(e.action)
    ensures Tidy(After(w, e))
  {
    if Step(w, e.action, e.now).Ok? {
      match e.action {
        case ModerateOption(id, action, text) =>
          ModerateKeepsTidy(w.survey.options, id, action, text);
          UpdateKeepsTidy(w, w.survey.(options := Moderate(w.survey.options, id, action, text).value), e.now);
        case Edit(form, newIds) =>
          FormKeepsTidy(w.survey, form, newIds, e.now);
          UpdateKeepsTidy(w, ApplyForm(w.survey, form, newIds, e.now).value, e.now);
        case SetState(state) =>
          UpdateKeepsTidy(w, w.survey.(state := state), e.now);
        case Publish =>
        case Clear =>
      }
    }
  }

  lemma {:induction false} StepKeepsTidy(w: World, e: Event)
    requires Sound(w) && Tidy(w) && Possible(w, e) && Named(e.action)
    ensures Tidy(After(w, e))
  {
    if Answers(e.action) {
      AnswerKeepsTidy(w, e);
    } else {
      OtherStepKeepsTidy(w, e);
    }
  }

  lemma {:induction false} RunsStayTidy(w: World, events: seq<Event>)
    requires Sound(w) && Tidy(w) && Legal(w, events) && forall e | e in events :: Named(e.action)
    ensures Tidy(Run(w, events))
    decreases |events|
  {
    if events != [] {
      StepKeepsTidy(w, events[0]);
      StepKeepsSound(w, events[0]);
      RunsStayTidy(After(w, events[0]), events[1..]);
    }
  }

  lemma {:induction false} CreatedIsTidy(title: string, description: string, texts: seq<string>, id: Id,
      newIds: seq<Id>, now: Time)
    requires |texts| == |newIds| && Fresh(newIds, []) && id != "" && now != ZERO_TIME
    ensures var r := CreateSurvey(title, description, texts, id, newIds, now); r.Ok? ==> Tidy(r.value)
  {
    ListedShape(texts, newIds, now);
    var opts := Listed(texts, newIds, now);
    forall o | o in opts ensures TidyOption(o) {
      var t :| t in texts && o.text == Trim(t);
      TrimTwice(t);
    }
    TrimTwice(title);
    TrimTwice(description);
  }

  lemma {:induction false} GoodAndTidyIsSaveable(w: World)
    requires Good(w) && Tidy(w)
    ensures Saveable(w.survey, w.rows) && |w.survey.options| <= MAX_OPTIONS
  {
    var opts := w.survey.options;
    forall o | o in opts ensures SaveableOption(o, Ids(opts)) {
      assert TidyOption(o) && o.id in Ids(opts);
    }
  }

  // Create a survey, let anything happen to it, save it in full, delete it and
  // restore it under its old ids: the database is back as it was.
  lemma {:induction false} ReachableSurveysRoundTrip(title: string, description: string, texts: seq<string>, id: Id,
      ids: seq<Id>, created: Time, events: seq<Event>, db: Db, rs: seq<Response>, t: Time,
      newId: Id, newIds: seq<Id>, now: Time)
    requires |texts| == |ids| && Fresh(ids, []) && id != "" && created != ZERO_TIME
    requires var w := CreateSurvey(title, description, texts, id, ids, created);
      w.Ok? && Legal(w.value, events) && (forall e | e in events :: Named(e.action))
      && var end := Run(w.value, events);
      id in db && db[id] == Stored(end.survey, end.rows) && end.survey.id == id
      && Ids(end.survey.options) !! Owned(db - {id}) && Lists(rs, end.rows) && |newIds| == |end.survey.options|
    ensures |SavedOptions(db[id].survey.options, true)| == |newIds|
    ensures RestoredDb(db - {id}, SavedDocument(db[id].survey, rs, true, t), true, newId, newIds, now) == Done(db)
  {
    var w := CreateSurvey(title, description, texts, id, ids, created).value;
    CreateSurveyCreates(title, description, texts, id, ids, created);
    CreatedIsTidy(title, description, texts, id, ids, created);
    CreatedIsGood(w);
    RunsStayGood(w, events);
    RunsStayTidy(w, events);
    GoodAndTidyIsSaveable(Run(w, events));
    SaveDeleteRestore(db, id, rs, t, newId, newIds, now);
  }

  /******* A backup read while answers come in *******/

  lemma {:induction false} InsertDistinct(rs: seq<Response>)
    requires OneEach(rs) && forall i | 0 <= i < |rs| :: NoRepeats(rs[i].choices)
    ensures InsertAll(rs).Done?
    ensures forall v | v in InsertAll(rs).value :: exists i :: 0 <= i < |rs| && rs[i].voter == v
  {
    if rs != [] {
      var n := |rs| - 1;
      InsertDistinct(rs[..n]);
      var before := InsertAll(rs[..n]).value;
      forall i | 0 <= i < n ensures rs[..n][i].voter != rs[n].voter {
      }
      forall v | v in InsertAll(rs).value ensures exists i :: 0 <= i < |rs| && rs[i].voter == v {
        if v in before {
          var i :| 0 <= i < n && rs[..n][i].voter == v;
          assert rs[i].voter == v;
        } else {
          assert rs[n].voter == v;
        }
      }
    }
  }

  // Every id in the response names one of ids.
  predicate NamesKnown(r: Response, ids: set<Id>) {
    Elements(r.choices) <= ids && Elements(r.seen) <= ids
  }

  lemma {:induction false} ReadsWhenKnown(r: Response, names: map<Id, Id>, ids: set<Id>)
    requires KeepsNames(names, ids) && r.voter != ""
    ensures var read := ReadResponse(SavedResponse(r), names);
      (read.Done? <==> NamesKnown(r, ids))
      && (read.Done? ==> read.value.voter == r.voter && read.value.choices == r.choices)
  {
    var dr := SavedResponse(r);
    assert forall c :: c in Elements(r.choices) <==> c in dr.choices;
    assert forall c :: c in Elements(r.seen) <==> c in dr.seen;
    if NamesKnown(r, ids) {
      assert Renamed(dr.choices, names) == r.choices;
    }
  }

  lemma {:induction false} ResponsesReadWhenKnown(rs: seq<Response>, names: map<Id, Id>, ids: set<Id>)
    requires KeepsNames(names, ids) && OneEach(rs)
    requires forall i | 0 <= i < |rs| :: rs[i].voter != "" && NoRepeats(rs[i].choices)
    ensures var read := ReadResponses(SavedResponses(rs), names);
      (read.Done? <==> forall i | 0 <= i < |rs| :: NamesKnown(rs[i], ids)) && (read.Done? ==> InsertAll(read.value).Done?)
  {
    var drs := SavedResponses(rs);
    var read := ReadResponses(drs, names);
    forall i | 0 <= i < |rs|
      ensures drs[i] == SavedResponse(rs[i]) && (ReadResponse(drs[i], names).Done? <==> NamesKnown(rs[i], ids))
    {
      ReadsWhenKnown(rs[i], names, ids);
    }
    if read.Done? {
      forall i | 0 <= i < |rs|
        ensures NamesKnown(rs[i], ids) && read.value[i].voter == rs[i].voter && read.value[i].choices == rs[i].choices
      {
        assert ReadResponse(drs[i], names) == Done(read.value[i]);
        ReadsWhenKnown(rs[i], names, ids);
      }
      InsertDistinct(read.value);
    }
  }

  // The survey and the responses of a backup are read by separate queries. Such
  // a backup restores if and only if the options fit and every id in the
  // responses is among the options read.
  lemma {:induction false} BackupRestoresExactlyWhen(db: Db, sv: Survey, rs: seq<Response>, t: Time,
      newId: Id, newIds: seq<Id>, now: Time)
    requires Saveable(sv, map[]) && OneEach(rs) && |newIds| == |sv.options|
    requires forall i | 0 <= i < |rs| :: rs[i].voter != "" && NoRepeats(rs[i].choices)
    requires sv.id !in db && Ids(sv.options) !! Owned(db)
    ensures |SavedOptions(sv.options, true)| == |newIds|
    ensures RestoredDb(db, SavedDocument(sv, rs, true, t), true, newId, newIds, now).Done?
      <==> |sv.options| <= MAX_OPTIONS && forall i | 0 <= i < |rs| :: NamesKnown(rs[i], Ids(sv.options))
  {
    SavedInFull(sv.options);
    BackupReadsWhen(sv, rs, t, newId, newIds, now);
    var c := ReadDocument(SavedDocument(sv, rs, true, t), true, false, newId, newIds, now);
    if c.Done? {
      WrittenAsRead(db, c.value, InsertAll(c.value.responses).value, now);
    }
  }

  lemma {:induction false} BackupReadsWhen(sv: Survey, rs: seq<Response>, t: Time, newId: Id, newIds: seq<Id>,
      now: Time)
    requires Saveable(sv, map[]) && OneEach(rs) && |newIds| == |sv.options| == |SavedOptions(sv.options, true)|
    requires forall i | 0 <= i < |rs| :: rs[i].voter != "" && NoRepeats(rs[i].choices)
    ensures var c := ReadDocument(SavedDocument(sv, rs, true, t), true, false, newId, newIds, now);
      (c.Done? <==> forall i | 0 <= i < |rs| :: NamesKnown(rs[i], Ids(sv.options)))
      && (c.Done? ==> c.value.survey == sv && InsertAll(c.value.responses).Done?)
  {
    OptionsReadBack(sv, map[], newIds, now);
    ResponsesReadWhenKnown(rs, Renaming(SavedOptions(sv.options, true), sv.options), Ids(sv.options));
    FullHeader(sv, rs, t, now);
    assert sv.(options := []).(options := sv.options) == sv;
  }

  lemma {:induction false} FullHeader(sv: Survey, rs: seq<Response>, t: Time, now: Time)
    requires Titled(sv) && sv.id != "" && sv.created != ZERO_TIME && sv.updated != ZERO_TIME
    ensures var doc := SavedDocument(sv, rs, true, t);
      CheckDocument(doc, true, false) == None && ReadState(doc.body.state).Some?
      && ReadSurvey(doc, sv.id, now) == sv.(options := [])
  {
    NamesReadBack(Approved, sv.state, Editor);
  }

  lemma {:induction false} UnknownIdIsRefused(db: Db, sv: Survey, rs: seq<Response>, rows: map<Voter, Row>, voter: Voter,
      option: Id, t: Time, newId: Id, newIds: seq<Id>, now: Time)
    requires Saveable(sv, map[]) && Lists(rs, rows) && "" !in rows && |newIds| == |sv.options|
    requires sv.id !in db && Ids(sv.options) !! Owned(db)
    requires voter in rows && option in rows[voter].choices && option !in Ids(sv.options)
    ensures |SavedOptions(sv.options, true)| == |newIds|
    ensures RestoredDb(db, SavedDocument(sv, rs, true, t), true, newId, newIds, now).Refused?
  {
    forall i | 0 <= i < |rs| ensures rs[i].voter != "" && NoRepeats(rs[i].choices) {
      assert Reads(rs[i], rs[i].voter, rows[rs[i].voter]);
    }
    BackupRestoresExactlyWhen(db, sv, rs, t, newId, newIds, now);
    var i :| 0 <= i < |rs| && rs[i].voter == voter;
    assert Reads(rs[i], voter, rows[voter]);
    assert option in Elements(rs[i].choices);
    assert !NamesKnown(rs[i], Ids(sv.options));
  }

  lemma {:induction false} SuggestedRow(w: World, voter: Voter, text: string, option: Id, preview: bool, at: Time,
      rows: map<Voter, Row>)
    requires Sound(w) && "" !in w.rows && voter != "" && option !in Ids(w.survey.options)
    requires var r := ProposeOption(w.survey, w.rows, voter, text, option, preview, at); r.Ok? && rows == r.value.1
    ensures "" !in rows && voter in rows && option in rows[voter].choices
  {
    SuggestionShape(w.survey, w.rows, voter, text, option, preview, at);
  }

  // A write-in committed between the two reads makes the backup unrestorable.
  lemma {:induction false} SuggestionBetweenReads(w: World, voter: Voter, text: string, option: Id, preview: bool, at: Time,
      rows: map<Voter, Row>, db: Db, rs: seq<Response>, t: Time, newId: Id, newIds: seq<Id>, now: Time)
    requires Good(w) && Tidy(w) && voter != "" && option !in Ids(w.survey.options)
    requires var r := ProposeOption(w.survey, w.rows, voter, text, option, preview, at); r.Ok? && rows == r.value.1
    requires Lists(rs, rows)
    requires w.survey.id !in db && Ids(w.survey.options) !! Owned(db) && |newIds| == |w.survey.options|
    ensures |SavedOptions(w.survey.options, true)| == |newIds|
    ensures RestoredDb(db, SavedDocument(w.survey, rs, true, t), true, newId, newIds, now).Refused?
  {
    SuggestedRow(w, voter, text, option, preview, at, rows);
    GoodAndTidyIsSaveable(w);
    UnknownIdIsRefused(db, w.survey, rs, rows, voter, option, t, newId, newIds, now);
  }
}
