// Everything that changes a survey's definition: moderation, the edit form, new
// options and the write that stores the result.
module Editing {
  import opened Model
  import opened MergeGraph

  /******* Specification: each edit as a function of the option list *******/

  function Replace(opts: seq<Opt>, id: Id, o: Opt): seq<Opt> {
    if opts == [] then []
    else if opts[0].id == id then [o] + opts[1..]
    else [opts[0]] + Replace(opts[1..], id, o)
  }

  lemma {:induction false} ReplaceAt(opts: seq<Opt>, k: nat, o: Opt)
    requires Distinct(opts) && k < |opts|
    ensures Replace(opts, opts[k].id, o) == opts[k := o]
  {
    if k > 0 {
      ReplaceAt(opts[1..], k - 1, o);
    }
  }

  function SetStatus(opts: seq<Opt>, id: Id, status: Status, mergeInto: Id): Result<seq<Opt>> {
    var o := Find(opts, id);
    if o.None? then Err(NotFound)
    else if !status.Merged? then Ok(Replace(opts, id, o.value.(status := status, mergedInto := "")))
    else if mergeInto == "" || mergeInto == id then Err(BadMergeTarget)
    else
      var target := Find(opts, mergeInto);
      if target.None? then Err(NotFound)
      else if target.value.status.Merged? then Err(TargetMerged)
      else Ok(Replace(opts, id, o.value.(status := Merged, mergedInto := mergeInto)))
  }

  function SetText(opts: seq<Opt>, id: Id, text: string): Result<seq<Opt>> {
    var t := Trim(text);
    if t == "" then Err(EmptyText)
    else if ByteLen(t) > MAX_OPTION_TEXT then Err(TextTooLong)
    else
      var o := Find(opts, id);
      if o.None? then Err(NotFound) else Ok(Replace(opts, id, o.value.(text := t)))
  }

  // newId stands for the random identifier minted for it.
  function AddOption(opts: seq<Opt>, text: string, status: Status, source: Source, newId: Id, now: Time)
    : Result<seq<Opt>>
  {
    var t := Trim(text);
    if t == "" then Err(EmptyText)
    else if ByteLen(t) > MAX_OPTION_TEXT then Err(TextTooLong)
    else if |opts| >= MAX_OPTIONS then Err(TooManyOptions)
    else Ok(opts + [Opt(newId, t, status, source, "", now)])
  }

  datatype ModerationAction = Approve | Restore | Reject | Remove | MergeInto(target: Id) | Unknown

  function ActOn(opts: seq<Opt>, id: Id, action: ModerationAction): Result<seq<Opt>> {
    match action
    case Approve => SetStatus(opts, id, Approved, "")
    case Restore => SetStatus(opts, id, Approved, "")
    case Reject => SetStatus(opts, id, Rejected, "")
    case Remove => SetStatus(opts, id, Removed, "")
    case MergeInto(target) => SetStatus(opts, id, Merged, target)
    case Unknown => Err(UnknownAction)
  }

  // The closure in handleModerate: an optional rewording, then the action.
  function Moderate(opts: seq<Opt>, id: Id, action: ModerationAction, text: string): Result<seq<Opt>> {
    if Trim(text) != "" && !action.MergeInto? then
      var worded := SetText(opts, id, text);
      if worded.Err? then worded else ActOn(worded.value, id, action)
    else ActOn(opts, id, action)
  }

  datatype EditForm = EditForm(
    title: string,
    description: string,
    showResults: bool,
    allowWriteIn: bool,
    allowComment: bool,
    randomize: bool,
    closeAt: Time,
    texts: map<Id, string>,
    remove: set<Id>,
    newOptions: seq<string>)

  function EditOne(form: EditForm, o: Opt): Opt {
    if o.status.Pending? || o.status.Merged? || o.status.Rejected? then o
    else
      var typed := if o.id in form.texts then Trim(form.texts[o.id]) else "";
      o.(text := if typed != "" then typed else o.text,
         status := if o.id in form.remove then Removed else Approved)
  }

  function EditAll(form: EditForm, opts: seq<Opt>): seq<Opt> {
    seq(|opts|, i requires 0 <= i < |opts| => EditOne(form, opts[i]))
  }

  // newIds[i] is the identifier minted for texts[i], if one is.
  function AddAll(opts: seq<Opt>, texts: seq<string>, newIds: seq<Id>, now: Time): Result<seq<Opt>>
    requires |texts| == |newIds|
    decreases |texts|
  {
    if texts == [] then Ok(opts)
    else if Trim(texts[0]) == "" then AddAll(opts, texts[1..], newIds[1..], now)
    else
      var added := AddOption(opts, texts[0], Approved, Editor, newIds[0], now);
      if added.Err? then added else AddAll(added.value, texts[1..], newIds[1..], now)
  }

  // The closure in handleEditSave.
  function ApplyForm(sv: Survey, form: EditForm, newIds: seq<Id>, now: Time): Result<Survey>
    requires |form.newOptions| == |newIds|
  {
    if Trim(form.title) == "" then Err(NeedsTitle)
    else
      var added := AddAll(EditAll(form, sv.options), form.newOptions, newIds, now);
      if added.Err? then Err(added.error)
      else Ok(sv.(title := Trim(form.title), description := Trim(form.description),
                  showResults := form.showResults, allowWriteIn := form.allowWriteIn,
                  allowComment := form.allowComment, noRandomize := !form.randomize,
                  closeAt := form.closeAt, options := added.value))
  }

  // saveSurvey: stamp the first opening, refuse to grow past the ceiling.
  // existing is the number of options already stored for the survey.
  function SaveSurvey(sv: Survey, existing: nat, now: Time): Result<Survey> {
    if |sv.options| > MAX_OPTIONS && |sv.options| > existing then Err(TooManyOptions)
    else Ok(if sv.state.Open? && sv.firstOpenedAt == ZERO_TIME then sv.(firstOpenedAt := now) else sv)
  }

  /******* The survey value, edited in place *******/

  class SurveyRecord {
    var value: Survey

    constructor (sv: Survey)
      ensures value == sv
    {
      value := sv;
    }

    method SetOptionStatus(id: Id, status: Status, mergeInto: Id) returns (err: Maybe<Error>)
      requires Distinct(value.options)
      modifies this
      ensures var r := SetStatus(old(value.options), id, status, mergeInto);
        if r.Ok? then err == None && value == old(value).(options := r.value)
        else err == Some(r.error) && value == old(value)
    {
      var opts := value.options;
      var idx := -1;
      for i := 0 to |opts|
        invariant -1 <= idx < i
        invariant idx < 0 ==> forall j | 0 <= j < i :: opts[j].id != id
        invariant idx >= 0 ==> opts[idx].id == id
      {
        if opts[i].id == id {
          idx := i;
        }
      }
      if idx < 0 {
        assert Find(opts, id) == None;
        return Some(NotFound);
      }
      FindAt(opts, idx);
      if status.Merged? {
        if mergeInto == "" || mergeInto == id {
          return Some(BadMergeTarget);
        }
        var target := Find(opts, mergeInto);
        if target.None? {
          return Some(NotFound);
        }
        if target.value.status.Merged? {
          return Some(TargetMerged);
        }
        ReplaceAt(opts, idx, opts[idx].(status := Merged, mergedInto := mergeInto));
        value := value.(options := opts[idx := opts[idx].(status := Merged, mergedInto := mergeInto)]);
      } else {
        ReplaceAt(opts, idx, opts[idx].(status := status, mergedInto := ""));
        value := value.(options := opts[idx := opts[idx].(status := status, mergedInto := "")]);
      }
      return None;
    }

    method SetOptionText(id: Id, text: string) returns (err: Maybe<Error>)
      requires Distinct(value.options)
      modifies this
      ensures var r := SetText(old(value.options), id, text);
        if r.Ok? then err == None && value == old(value).(options := r.value)
        else err == Some(r.error) && value == old(value)
    {
      var t := Trim(text);
      if t == "" {
        return Some(EmptyText);
      }
      if ByteLen(t) > MAX_OPTION_TEXT {
        return Some(TextTooLong);
      }
      var opts := value.options;
      for i := 0 to |opts|
        invariant value == old(value)
        invariant forall j | 0 <= j < i :: opts[j].id != id
      {
        if opts[i].id == id {
          FindAt(opts, i);
          ReplaceAt(opts, i, opts[i].(text := t));
          value := value.(options := opts[i := opts[i].(text := t)]);
          return None;
        }
      }
      assert Find(opts, id) == None;
      return Some(NotFound);
    }

    method ModerateOption(id: Id, action: ModerationAction, text: string) returns (err: Maybe<Error>)
      requires Distinct(value.options)
      modifies this
      ensures var r := Moderate(old(value.options), id, action, text);
        if r.Ok? then err == None && value == old(value).(options := r.value)
        else err == Some(r.error)
    {
      if Trim(text) != "" && !action.MergeInto? {
        err := SetOptionText(id, text);
        if err.Some? {
          return;
        }
        SetTextKeepsGraph(old(value.options), id, text);
      }
      match action {
        case Approve => err := SetOptionStatus(id, Approved, "");
        case Restore => err := SetOptionStatus(id, Approved, "");
        case Reject => err := SetOptionStatus(id, Rejected, "");
        case Remove => err := SetOptionStatus(id, Removed, "");
        case MergeInto(target) => err := SetOptionStatus(id, Merged, target);
        case Unknown => err := Some(UnknownAction);
      }
    }

    // Existing options: rename, remove or restore; the moderation queue's own
    // options are skipped.
    method EditOptions(form: EditForm)
      modifies this
      ensures value == old(value).(options := EditAll(form, old(value.options)))
      ensures |value.options| == |old(value.options)|
      ensures forall i | 0 <= i < |value.options| :: FormLeaves(form, old(value.options)[i], value.options[i])
    {
      var opts := value.options;
      ghost var before := opts;
      for i := 0 to |opts|
        invariant |opts| == |before| && value == old(value)
        invariant forall j | 0 <= j < i :: opts[j] == EditOne(form, before[j])
        invariant forall j | i <= j < |before| :: opts[j] == before[j]
      {
        var o := opts[i];
        if o.status.Pending? || o.status.Merged? || o.status.Rejected? {
          continue;
        }
        if o.id in form.texts && Trim(form.texts[o.id]) != "" {
          o := o.(text := Trim(form.texts[o.id]));
        }
        if o.id in form.remove {
          o := o.(status := Removed);
        } else {
          o := o.(status := Approved);
        }
        opts := opts[i := o];
      }
      assert opts == EditAll(form, before);
      value := value.(options := opts);
    }

    method AddOptions(texts: seq<string>, newIds: seq<Id>, now: Time) returns (err: Maybe<Error>)
      requires |texts| == |newIds|
      modifies this
      ensures var r := AddAll(old(value.options), texts, newIds, now);
        if r.Ok? then err == None && value == old(value).(options := r.value) else err == Some(r.error)
    {
      var opts := value.options;
      for i := 0 to |texts|
        invariant value == old(value)
        invariant AddAll(opts, texts[i..], newIds[i..], now) == AddAll(old(value.options), texts, newIds, now)
      {
        assert texts[i..][1..] == texts[i + 1..] && newIds[i..][1..] == newIds[i + 1..];
        if Trim(texts[i]) != "" {
          var added := AddOption(opts, texts[i], Approved, Editor, newIds[i], now);
          if added.Err? {
            return Some(added.error);
          }
          opts := added.value;
        }
      }
      value := value.(options := opts);
      return None;
    }

    method SaveForm(form: EditForm, newIds: seq<Id>, now: Time) returns (err: Maybe<Error>)
      requires |form.newOptions| == |newIds|
      modifies this
      ensures var r := ApplyForm(old(value), form, newIds, now);
        if r.Ok? then err == None && value == r.value else err == Some(r.error)
    {
      if Trim(form.title) == "" {
        return Some(NeedsTitle);
      }
      value := value.(title := Trim(form.title), description := Trim(form.description),
        showResults := form.showResults, allowWriteIn := form.allowWriteIn,
        allowComment := form.allowComment, noRandomize := !form.randomize, closeAt := form.closeAt);
      EditOptions(form);
      err := AddOptions(form.newOptions, newIds, now);
    }
  }

  /******* Every reachable merge graph is acyclic *******/

  ghost predicate PointsOnlyIfMerged(opts: seq<Opt>) {
    forall o | o in opts :: (o.status.Merged? <==> o.mergedInto != "") && (o.status.Merged? ==> o.mergedInto in Ids(opts))
  }

  ghost predicate Acyclic(opts: seq<Opt>) {
    forall id | id in Ids(opts) :: Ends(opts, id)
  }

  ghost predicate WellFormed(opts: seq<Opt>) {
    Distinct(opts) && PointsOnlyIfMerged(opts) && Acyclic(opts)
  }

  // Every chain of a well-formed graph ends in an option of the survey that is
  // not merged, and Resolve returns it.
  lemma {:induction false} WellFormedResolves(opts: seq<Opt>, id: Id)
    requires WellFormed(opts) && id in Ids(opts)
    ensures var end := Find(opts, Resolve(opts, id).0);
      end.Some? && !end.value.status.Merged? && EndsAt(opts, id, end.value.id)
  {
    var path :| EndingChain(opts, path) && path[0] == id;
    ResolveFindsTheEnd(opts, path);
    ChainStaysInside(opts, path);
  }

  lemma {:induction false} ChainStaysInside(opts: seq<Opt>, path: seq<Id>)
    requires Distinct(opts) && PointsOnlyIfMerged(opts) && Chain(opts, path) && path[0] in Ids(opts)
    ensures path[|path| - 1] in Ids(opts)
  {
    if |path| > 1 {
      assert Forwards(opts, path[|path| - 2]) && path[|path| - 2 + 1] == Next(opts, path[|path| - 2]);
    }
  }

  ghost predicate SamePointers(a: seq<Opt>, b: seq<Opt>) {
    forall id :: Forwards(a, id) == Forwards(b, id) && (Forwards(a, id) ==> Next(a, id) == Next(b, id))
  }

  lemma {:induction false} SamePointersSameEnds(a: seq<Opt>, b: seq<Opt>, id: Id)
    requires SamePointers(a, b) && Ends(a, id)
    ensures Ends(b, id)
  {
    var path :| EndingChain(a, path) && path[0] == id;
    assert EndingChain(b, path);
  }

  lemma {:induction false} EditKeepsPointers(opts: seq<Opt>, k: nat, o: Opt)
    requires Distinct(opts) && PointsOnlyIfMerged(opts) && k < |opts| && o.id == opts[k].id
    requires (o.status.Merged? <==> o.mergedInto != "") && (o.status.Merged? ==> o.mergedInto in Ids(opts))
    ensures PointsOnlyIfMerged(opts[k := o])
  {
    FindAfterUpdate(opts, k, o, o.id);
    var after := opts[k := o];
    forall p | p in after
      ensures (p.status.Merged? <==> p.mergedInto != "") && (p.status.Merged? ==> p.mergedInto in Ids(after))
    {
      var i :| 0 <= i < |after| && after[i] == p;
      if i != k {
        assert opts[i] in opts;
      }
    }
  }

  lemma {:induction false} EditKeepsAcyclic(opts: seq<Opt>, k: nat, o: Opt)
    requires SafeEdit(opts, k, o) && Acyclic(opts)
    ensures Acyclic(opts[k := o])
  {
    FindAfterUpdate(opts, k, o, o.id);
    var after := opts[k := o];
    forall id | id in Ids(after) ensures Ends(after, id) {
      EndingSurvivesEdit(opts, k, o, id);
    }
  }

  lemma {:induction false} SetStatusShape(opts: seq<Opt>, id: Id, status: Status, mergeInto: Id)
      returns (k: nat, o: Opt)
    requires Distinct(opts) && SetStatus(opts, id, status, mergeInto).Ok?
    ensures SafeEdit(opts, k, o) && SetStatus(opts, id, status, mergeInto).value == opts[k := o]
    ensures o == opts[k].(status := status, mergedInto := if status.Merged? then mergeInto else "")
    ensures status.Merged? ==> mergeInto != "" && mergeInto in Ids(opts)
  {
    k := IndexOf(opts, id);
    o := opts[k].(status := status, mergedInto := if status.Merged? then mergeInto else "");
    ReplaceAt(opts, k, o);
  }

  lemma {:induction false} SetStatusKeepsGraph(opts: seq<Opt>, id: Id, status: Status, mergeInto: Id)
    requires WellFormed(opts) && SetStatus(opts, id, status, mergeInto).Ok?
    ensures WellFormed(SetStatus(opts, id, status, mergeInto).value)
  {
    var k, o := SetStatusShape(opts, id, status, mergeInto);
    EditKeepsPointers(opts, k, o);
    EditKeepsAcyclic(opts, k, o);
    FindAfterUpdate(opts, k, o, o.id);
  }

  lemma {:induction false} IndexOf(opts: seq<Opt>, id: Id) returns (k: nat)
    requires Distinct(opts) && id in Ids(opts)
    ensures k < |opts| && opts[k].id == id && Find(opts, id) == Some(opts[k])
  {
    k :| 0 <= k < |opts| && opts[k].id == id;
    FindAt(opts, k);
  }

  lemma {:induction false} SameFollows(opts: seq<Opt>, k: nat, o: Opt)
    requires Distinct(opts) && k < |opts| && o.id == opts[k].id
    requires o.status == opts[k].status && o.mergedInto == opts[k].mergedInto
    ensures SamePointers(opts, opts[k := o])
  {
    FindAt(opts, k);
    forall x ensures Find(opts[k := o], x) == if x == o.id then Some(o) else Find(opts, x) {
      FindAfterUpdate(opts, k, o, x);
    }
  }

  lemma {:induction false} SetTextKeepsGraph(opts: seq<Opt>, id: Id, text: string)
    requires Distinct(opts) && SetText(opts, id, text).Ok?
    ensures var r := SetText(opts, id, text).value;
      Distinct(r) && Ids(r) == Ids(opts) && SamePointers(opts, r) && (PointsOnlyIfMerged(opts) ==> PointsOnlyIfMerged(r))
  {
    var k := IndexOf(opts, id);
    var o := opts[k].(text := Trim(text));
    ReplaceAt(opts, k, o);
    FindAfterUpdate(opts, k, o, id);
    SameFollows(opts, k, o);
    if PointsOnlyIfMerged(opts) {
      assert opts[k] in opts;
      EditKeepsPointers(opts, k, o);
    }
  }

  lemma {:induction false} ModerateKeepsGraph(opts: seq<Opt>, id: Id, action: ModerationAction, text: string)
    requires WellFormed(opts) && Moderate(opts, id, action, text).Ok?
    ensures WellFormed(Moderate(opts, id, action, text).value)
  {
    var worded := opts;
    if Trim(text) != "" && !action.MergeInto? {
      worded := SetText(opts, id, text).value;
      SetTextKeepsGraph(opts, id, text);
      forall x | x in Ids(opts) ensures Ends(worded, x) {
        SamePointersSameEnds(opts, worded, x);
      }
    }
    match action {
      case Approve => SetStatusKeepsGraph(worded, id, Approved, "");
      case Restore => SetStatusKeepsGraph(worded, id, Approved, "");
      case Reject => SetStatusKeepsGraph(worded, id, Rejected, "");
      case Remove => SetStatusKeepsGraph(worded, id, Removed, "");
      case MergeInto(target) => SetStatusKeepsGraph(worded, id, Merged, target);
    }
  }

  lemma {:induction false} AppendKeepsGraph(opts: seq<Opt>, o: Opt)
    requires WellFormed(opts) && o.id !in Ids(opts) && !o.status.Merged? && o.mergedInto == ""
    ensures WellFormed(opts + [o])
  {
    forall x ensures Find(opts + [o], x) == if x == o.id then Some(o) else Find(opts, x) {
      FindAfterAppend(opts, o, x);
    }
    FindAfterAppend(opts, o, o.id);
    assert SamePointers(opts, opts + [o]);
    assert !Forwards(opts + [o], o.id);
    forall x | x in Ids(opts + [o]) ensures Ends(opts + [o], x) {
      if x == o.id {
        var path := [x];
        assert EndingChain(opts + [o], path) && path[0] == x;
      } else {
        SamePointersSameEnds(opts, opts + [o], x);
      }
    }
  }

  lemma {:induction false} FindEdited(form: EditForm, opts: seq<Opt>, id: Id)
    requires Distinct(opts)
    ensures Distinct(EditAll(form, opts)) && Ids(EditAll(form, opts)) == Ids(opts)
    ensures var o := Find(opts, id);
      Find(EditAll(form, opts), id) == if o.None? then None else Some(EditOne(form, o.value))
  {
    var edited := EditAll(form, opts);
    assert forall i | 0 <= i < |opts| :: edited[i].id == opts[i].id;
    forall x ensures x in Ids(edited) <==> x in Ids(opts) {
      if x in Ids(opts) {
        var i :| 0 <= i < |opts| && opts[i].id == x;
        assert edited[i] in edited;
      }
    }
    if id in Ids(opts) {
      var k := IndexOf(opts, id);
      FindAt(edited, k);
    }
  }

  lemma {:induction false} EditAllPointsAlike(form: EditForm, opts: seq<Opt>)
    requires Distinct(opts)
    ensures SamePointers(opts, EditAll(form, opts))
  {
    var edited := EditAll(form, opts);
    forall id ensures Forwards(edited, id) == Forwards(opts, id)
      ensures Forwards(opts, id) ==> Next(edited, id) == Next(opts, id)
    {
      FindEdited(form, opts, id);
    }
  }

  lemma {:induction false} EditAllKeepsPointers(form: EditForm, opts: seq<Opt>)
    requires Distinct(opts) && PointsOnlyIfMerged(opts)
    ensures PointsOnlyIfMerged(EditAll(form, opts))
  {
    var edited := EditAll(form, opts);
    FindEdited(form, opts, "");
    forall o | o in edited
      ensures (o.status.Merged? <==> o.mergedInto != "") && (o.status.Merged? ==> o.mergedInto in Ids(edited))
    {
      var i :| 0 <= i < |edited| && edited[i] == o;
      assert o == EditOne(form, opts[i]) && opts[i] in opts;
    }
  }

  lemma {:induction false} EditAllKeepsGraph(form: EditForm, opts: seq<Opt>)
    requires WellFormed(opts)
    ensures WellFormed(EditAll(form, opts)) && Ids(EditAll(form, opts)) == Ids(opts)
  {
    var edited := EditAll(form, opts);
    FindEdited(form, opts, "");
    EditAllPointsAlike(form, opts);
    EditAllKeepsPointers(form, opts);
    forall id | id in Ids(edited) ensures Ends(edited, id) {
      SamePointersSameEnds(opts, edited, id);
    }
  }

  // newIds are distinct and new, as random identifiers are assumed to be.
  ghost predicate Fresh(newIds: seq<Id>, opts: seq<Opt>) {
    (forall i, j | 0 <= i < j < |newIds| :: newIds[i] != newIds[j])
    && forall i | 0 <= i < |newIds| :: newIds[i] != "" && newIds[i] !in Ids(opts)
  }

  lemma {:induction false} AddAllKeepsGraph(opts: seq<Opt>, texts: seq<string>, newIds: seq<Id>, now: Time)
    requires |texts| == |newIds| && WellFormed(opts) && Fresh(newIds, opts)
    requires AddAll(opts, texts, newIds, now).Ok?
    ensures WellFormed(AddAll(opts, texts, newIds, now).value)
    ensures Ids(opts) <= Ids(AddAll(opts, texts, newIds, now).value)
    decreases |texts|
  {
    if texts != [] {
      if Trim(texts[0]) == "" {
        AddAllKeepsGraph(opts, texts[1..], newIds[1..], now);
      } else {
        var o := Opt(newIds[0], Trim(texts[0]), Approved, Editor, "", now);
        AppendKeepsGraph(opts, o);
        FindAfterAppend(opts, o, o.id);
        AddAllKeepsGraph(opts + [o], texts[1..], newIds[1..], now);
      }
    }
  }

  /******* What each edit does, option by option *******/

  // Whether a status change is accepted.
  ghost predicate StatusAllowed(opts: seq<Opt>, id: Id, status: Status, mergeInto: Id) {
    id in Ids(opts)
    && (status.Merged? ==>
      mergeInto != "" && mergeInto != id && exists o :: o in opts && o.id == mergeInto && !o.status.Merged?)
  }

  lemma {:induction false} SetStatusMeans(opts: seq<Opt>, id: Id, status: Status, mergeInto: Id)
    requires Distinct(opts)
    ensures var r := SetStatus(opts, id, status, mergeInto);
      (r.Ok? <==> StatusAllowed(opts, id, status, mergeInto))
      && (r.Ok? ==> |r.value| == |opts| && forall i | 0 <= i < |opts| ::
        r.value[i] == if opts[i].id != id then opts[i]
                      else opts[i].(status := status, mergedInto := if status.Merged? then mergeInto else ""))
  {
    if status.Merged? {
      forall o | o in opts && o.id == mergeInto ensures Find(opts, mergeInto) == Some(o) {
        FindMember(opts, o);
      }
    }
    if SetStatus(opts, id, status, mergeInto).Ok? {
      var k, o := SetStatusShape(opts, id, status, mergeInto);
      var j := IndexOf(opts, id);
      ReplaceAt(opts, j, opts[j].(status := status, mergedInto := if status.Merged? then mergeInto else ""));
    }
  }

  lemma {:induction false} SetTextMeans(opts: seq<Opt>, id: Id, text: string)
    requires Distinct(opts)
    ensures var r := SetText(opts, id, text);
      (r.Ok? <==> id in Ids(opts) && Trim(text) != "" && ByteLen(Trim(text)) <= 200)
      && (r.Ok? ==> |r.value| == |opts| && forall i | 0 <= i < |opts| ::
        r.value[i] == if opts[i].id != id then opts[i] else opts[i].(text := Trim(text)))
  {
    if id in Ids(opts) {
      var k := IndexOf(opts, id);
      ReplaceAt(opts, k, opts[k].(text := Trim(text)));
    }
  }

  // The status each action asks for.
  function Wanted(action: ModerationAction): Status
    requires !action.Unknown?
  {
    match action
    case Approve => Approved
    case Restore => Approved
    case Reject => Rejected
    case Remove => Removed
    case MergeInto(_) => Merged
  }

  // Moderation gives the option the status asked for, the pointer a merge asks
  // for, and the wording given with anything but a merge; no other option moves.
  lemma {:induction false} ModerateMeans(opts: seq<Opt>, id: Id, action: ModerationAction, text: string)
    requires Distinct(opts)
    ensures var r, target, reworded := Moderate(opts, id, action, text),
        if action.MergeInto? then action.target else "", Trim(text) != "" && !action.MergeInto?;
      (r.Ok? <==>
        !action.Unknown? && StatusAllowed(opts, id, Wanted(action), target)
        && (reworded ==> ByteLen(Trim(text)) <= 200))
      && (r.Ok? ==> |r.value| == |opts| && forall i | 0 <= i < |opts| ::
        r.value[i] == if opts[i].id != id then opts[i]
                      else opts[i].(status := Wanted(action), mergedInto := target,
                                    text := if reworded then Trim(text) else opts[i].text))
  {
    var target, reworded := if action.MergeInto? then action.target else "", Trim(text) != "" && !action.MergeInto?;
    var worded := opts;
    if reworded {
      SetTextMeans(opts, id, text);
      if SetText(opts, id, text).Ok? {
        worded := SetText(opts, id, text).value;
        SetTextKeepsGraph(opts, id, text);
      }
    }
    if !action.Unknown? {
      SetStatusMeans(worded, id, Wanted(action), target);
    }
  }

  ghost predicate NewlyAdded(o: Opt, text: string, newIds: seq<Id>, now: Time) {
    o == Opt(o.id, text, Approved, Editor, "", now) && o.id in newIds
  }

  // after is before and one new option for each text, in order.
  ghost predicate Appended(before: seq<Opt>, after: seq<Opt>, texts: seq<string>, newIds: seq<Id>, now: Time) {
    |after| == |before| + |texts| && after[..|before|] == before
    && forall i | 0 <= i < |texts| :: NewlyAdded(after[|before| + i], texts[i], newIds, now)
  }

  lemma {:induction false} AppendedFirst(before: seq<Opt>, o: Opt, after: seq<Opt>, text: string, texts: seq<string>,
      newIds: seq<Id>, now: Time)
    requires newIds != [] && NewlyAdded(o, text, [newIds[0]], now)
    requires Appended(before + [o], after, texts, newIds[1..], now)
    ensures Appended(before, after, [text] + texts, newIds, now)
  {
    var front := after[..|before| + 1];
    assert front == before + [o];
    assert after[..|before|] == front[..|before|] == before && after[|before|] == front[|before|] == o;
    forall i | 0 <= i < |texts| + 1 ensures NewlyAdded(after[|before| + i], ([text] + texts)[i], newIds, now) {
      if i > 0 {
        assert NewlyAdded(after[|before + [o]| + (i - 1)], texts[i - 1], newIds[1..], now);
      }
    }
  }

  lemma {:induction false} AddAllAppends(opts: seq<Opt>, texts: seq<string>, newIds: seq<Id>, now: Time)
    requires |texts| == |newIds| && AddAll(opts, texts, newIds, now).Ok?
    ensures Appended(opts, AddAll(opts, texts, newIds, now).value, NonBlank(texts), newIds, now)
    decreases |texts|
  {
    if texts == [] {
    } else if Trim(texts[0]) == "" {
      AddAllAppends(opts, texts[1..], newIds[1..], now);
      assert forall id | id in newIds[1..] :: id in newIds;
    } else {
      var o := Opt(newIds[0], Trim(texts[0]), Approved, Editor, "", now);
      var after := AddAll(opts, texts, newIds, now).value;
      AddAllAppends(opts + [o], texts[1..], newIds[1..], now);
      AppendedFirst(opts, o, after, Trim(texts[0]), NonBlank(texts[1..]), newIds, now);
    }
  }

  // Whether new texts are accepted after n options.
  ghost predicate TextsFit(n: nat, added: seq<string>) {
    (forall t | t in added :: ByteLen(t) <= 200) && (added == [] || n + |added| <= 500)
  }

  lemma {:induction false} AddAllAccepts(opts: seq<Opt>, texts: seq<string>, newIds: seq<Id>, now: Time)
    requires |texts| == |newIds|
    ensures AddAll(opts, texts, newIds, now).Ok? <==> TextsFit(|opts|, NonBlank(texts))
    decreases |texts|
  {
    if texts == [] {
    } else if Trim(texts[0]) == "" {
      AddAllAccepts(opts, texts[1..], newIds[1..], now);
    } else {
      var added := AddOption(opts, texts[0], Approved, Editor, newIds[0], now);
      var rest := NonBlank(texts[1..]);
      assert NonBlank(texts) == [Trim(texts[0])] + rest;
      assert forall t :: t in NonBlank(texts) <==> t == Trim(texts[0]) || t in rest;
      if added.Ok? {
        AddAllAccepts(added.value, texts[1..], newIds[1..], now);
      }
    }
  }

  // The edit form, field by field: the moderation queue's options are left
  // alone; any other is removed if it is ticked and approved if not, under the
  // text typed for it if there is one; the new texts follow.
  lemma {:induction false} FormMeans(sv: Survey, form: EditForm, newIds: seq<Id>, now: Time)
    requires |form.newOptions| == |newIds|
    ensures var r, added := ApplyForm(sv, form, newIds, now), NonBlank(form.newOptions);
      (r.Ok? <==> Trim(form.title) != "" && TextsFit(|sv.options|, added))
      && (r.Ok? ==>
        r.value == sv.(title := Trim(form.title), description := Trim(form.description), options := r.value.options,
                       showResults := form.showResults, allowWriteIn := form.allowWriteIn,
                       allowComment := form.allowComment, noRandomize := !form.randomize, closeAt := form.closeAt)
        && |r.value.options| == |sv.options| + |added|
        && (forall i | 0 <= i < |sv.options| :: FormLeaves(form, sv.options[i], r.value.options[i]))
        && forall i | 0 <= i < |added| :: NewlyAdded(r.value.options[|sv.options| + i], added[i], newIds, now))
  {
    var edited := EditAll(form, sv.options);
    AddAllAccepts(edited, form.newOptions, newIds, now);
    var r := ApplyForm(sv, form, newIds, now);
    if r.Ok? {
      AddAllAppends(edited, form.newOptions, newIds, now);
      forall i | 0 <= i < |sv.options| ensures FormLeaves(form, sv.options[i], r.value.options[i]) {
        assert r.value.options[i] == r.value.options[..|edited|][i] == edited[i];
      }
    }
  }

  ghost predicate FormLeaves(form: EditForm, before: Opt, after: Opt) {
    if before.status.Pending? || before.status.Merged? || before.status.Rejected? then after == before
    else
      (after.status.Removed? <==> before.id in form.remove) && (after.status.Approved? <==> before.id !in form.remove)
      && after.text == (if before.id in form.texts && Trim(form.texts[before.id]) != "" then Trim(form.texts[before.id])
                        else before.text)
      && after == before.(status := after.status, text := after.text)
  }
}
