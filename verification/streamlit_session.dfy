/** The session logic of the Streamlit client (`activetigger/frontend.py`):
    the annotation history, the guards that keep empty names and empty
    feature lists from reaching the server, the regex feature naming, the
    default selection/sample modes, the switch into the test-annotation flow
    and the payload of an edited table.

    HTTP calls are not performed: each helper returns the request it would
    send (or the message it returns instead), and server replies the helpers
    inspect are parameters. */
module Session {
  import opened Base

  /** The element currently displayed, as returned by the server. */
  datatype Element = Element(elementId: string, selection: string, text: string)

  /** The keys of `st.session_state` this logic reads and writes. */
  datatype SessionState = SessionState(
    user: string,
    project: string,
    scheme: string,
    history: seq<string>,
    selection: Option<string>,
    sample: Option<string>,
    tag: Option<string>,
    frame: Option<seq<int>>,
    current: Option<Element>)

  /** The requests the helpers send, one constructor per route. */
  datatype Request =
    | AddScheme(project: string, name: string)
    | AddLabel(project: string, scheme: string, tag: string, user: string)
    | DeleteScheme(project: string, name: string)
    | DeleteLabel(project: string, scheme: string, tag: string, user: string)
    | AddTag(project: string, scheme: string, elementId: string, tag: string, user: string, selection: string)
    | AddRegex(project: string, name: string, value: string, user: string)
    | TrainSimpleModel(project: string, model: string, features: seq<string>, params: string, scheme: string, user: string)
    | GetElement(project: string, scheme: string, elementId: string)
    | NextElement(project: string, user: string, scheme: string, mode: Option<string>,
                  sample: Option<string>, tagFilter: Option<string>, history: seq<string>)
    | SendTable(project: string, user: string, scheme: string, ids: seq<string>, labels: seq<Option<string>>)

  /** What a helper did: returned a message without contacting the server,
      or sent a request. */
  datatype Call = Refused(message: string) | Sent(request: Request)

  /** The server's reply to an element fetch: `"status": "error"` with a
      message, the element under `"data"`, or a JSON body without a
      `"status"` key at all, such as FastAPI's `{"detail": ...}` for the 404
      of an unknown element id. */
  datatype ElementReply = ReplyError(message: string) | ReplyElement(element: Element) | ReplyWithoutStatus

  /** What `_display_element` and `_get_next_element` return: `False` on an
      error reply, `True` once the element is displayed, and the `KeyError`
      of reading `r["status"]` on a reply without that key. */
  function FetchOutcome(reply: ElementReply): (r: Result<bool>)
    ensures r == Ok(true) <==> reply.ReplyElement?
    ensures r == Ok(false) <==> reply.ReplyError?
    ensures r.Raised? <==> reply.ReplyWithoutStatus?
  {
    match reply
    case ReplyError(_) => Ok(false)
    case ReplyElement(_) => Ok(true)
    case ReplyWithoutStatus => Raised("KeyError")
  }

  /** The common tail of `_display_element` and `_get_next_element`: an error
      reply leaves the session alone, and so does a reply without `"status"`,
      which raises before anything is assigned; an element reply becomes the
      current element, and nothing else changes. */
  function ShowReply(st: SessionState, reply: ElementReply): (r: SessionState)
    ensures reply.ReplyError? ==> r == st
    ensures !reply.ReplyElement? ==> r == st
    ensures reply.ReplyElement? ==> r.current == Some(reply.element)
    ensures r == st.(current := r.current)
  {
    match reply
    case ReplyElement(e) => st.(current := Some(e))
    case _ => st
  }

  // ---------------------------------------------------------------------
  // Empty-name guards
  // ---------------------------------------------------------------------

  /** The early return shared by the scheme and label helpers. */
  function NonEmpty(s: string, req: Request): (r: Call)
    ensures r == Refused("Empty") <==> s == ""
    ensures s != "" ==> r == Sent(req)
  {
    if s == "" then Refused("Empty") else Sent(req)
  }

  /** `_create_scheme`. */
  function CreateScheme(st: SessionState, name: string): (r: Call)
    ensures r.Refused? <==> name == ""
    ensures r.Sent? ==> r.request == AddScheme(st.project, name)
  {
    NonEmpty(name, AddScheme(st.project, name))
  }

  /** `_create_label`. */
  function CreateLabel(st: SessionState, tag: string): (r: Call)
    ensures r.Refused? <==> tag == ""
    ensures r.Sent? ==> r.request == AddLabel(st.project, st.scheme, tag, st.user)
  {
    NonEmpty(tag, AddLabel(st.project, st.scheme, tag, st.user))
  }

  /** `_delete_scheme`. */
  function RemoveScheme(st: SessionState, name: string): (r: Call)
    ensures r.Refused? <==> name == ""
    ensures r.Sent? ==> r.request == DeleteScheme(st.project, name)
  {
    NonEmpty(name, DeleteScheme(st.project, name))
  }

  /** `_delete_label`. */
  function RemoveLabel(st: SessionState, tag: string): (r: Call)
    ensures r.Refused? <==> tag == ""
    ensures r.Sent? ==> r.request == DeleteLabel(st.project, st.scheme, tag, st.user)
  {
    NonEmpty(tag, DeleteLabel(st.project, st.scheme, tag, st.user))
  }

  /** The scheme or label name a scheme-editing request carries. */
  function EditedName(req: Request): Option<string>
  {
    match req
    case AddScheme(_, name) => Some(name)
    case DeleteScheme(_, name) => Some(name)
    case AddLabel(_, _, tag, _) => Some(tag)
    case DeleteLabel(_, _, tag, _) => Some(tag)
    case _ => None
  }

  /** No scheme-editing request ever names the empty string. */
  lemma EditsNeverSendEmptyNames(st: SessionState, s: string)
    ensures forall c :: c in [CreateScheme(st, s), CreateLabel(st, s), RemoveScheme(st, s), RemoveLabel(st, s)] ==>
              c.Sent? ==> EditedName(c.request) == Some(s) && s != ""
  {
  }

  /** `_train_simplemodel`: at least one feature is needed before anything is
      sent. */
  function TrainModel(st: SessionState, model: string, features: Option<seq<string>>, params: string): (r: Call)
    ensures r.Refused? <==> features.None? || |features.value| == 0
    ensures r.Refused? ==> r.message == "Need at least one feature"
    ensures r.Sent? ==> r.request == TrainSimpleModel(st.project, model, features.value, params, st.scheme, st.user)
  {
    if features.None? || |features.value| == 0 then Refused("Need at least one feature")
    else Sent(TrainSimpleModel(st.project, model, features.value, params, st.scheme, st.user))
  }

  /** No training request ever leaves the client without features, and the
      features it carries are exactly the selected ones. */
  lemma TrainingNeverSendsEmptyFeatures(st: SessionState, model: string, features: Option<seq<string>>, params: string)
    ensures TrainModel(st, model, features, params).Sent? ==>
              && TrainModel(st, model, features, params).request.TrainSimpleModel?
              && |TrainModel(st, model, features, params).request.features| > 0
              && features == Some(TrainModel(st, model, features, params).request.features)
  {
  }

  // ---------------------------------------------------------------------
  // Regex features
  // ---------------------------------------------------------------------

  /** The feature name `_add_regex` builds. */
  function RegexFeatureName(user: string, name: string): string
  {
    "regex_" + user + "_" + name
  }

  /** Reads back the name part of a regex feature of `user`. */
  function RegexSource(user: string, feature: string): Option<string>
  {
    var prefix := "regex_" + user + "_";
    if |prefix| <= |feature| && feature[..|prefix|] == prefix then Some(feature[|prefix|..]) else None
  }

  /** `_add_regex(value, name)`: the name defaults to the expression itself. */
  function AddRegexFeature(st: SessionState, value: string, name: Option<string>): (r: Request)
    ensures r.AddRegex? && r.value == value && r.user == st.user && r.project == st.project
    ensures RegexSource(st.user, r.name) == Some(if name.Some? then name.value else value)
  {
    var chosen := if name.Some? then name.value else value;
    RegexNameRoundTrip(st.user, chosen);
    AddRegex(st.project, RegexFeatureName(st.user, chosen), value, st.user)
  }

  /** The chosen name is recovered from the feature name, so one user's
      regex names never collide with each other. */
  lemma RegexNameRoundTrip(user: string, name: string)
    ensures RegexSource(user, RegexFeatureName(user, name)) == Some(name)
    ensures forall other :: RegexFeatureName(user, other) == RegexFeatureName(user, name) ==> other == name
  {
    var prefix := "regex_" + user + "_";
    assert RegexFeatureName(user, name) == prefix + name;
    assert (prefix + name)[..|prefix|] == prefix;
    assert (prefix + name)[|prefix|..] == name;
    forall other | RegexFeatureName(user, other) == RegexFeatureName(user, name) ensures other == name {
      assert (prefix + other)[|prefix|..] == other;
    }
  }

  /** Across users the naming is ambiguous whenever a user name contains
      `_`: splitting that user name at any `_` gives a second user whose regex
      of some other name builds the same feature name. */
  lemma RegexNamesCollideAcrossUsers(user: string, i: nat, name: string)
    requires i < |user| && user[i] == '_'
    ensures var other := user[..i];
            var otherName := user[i + 1..] + "_" + name;
            && other != user
            && RegexFeatureName(other, otherName) == RegexFeatureName(user, name)
  {
    assert user == user[..i] + "_" + user[i + 1..] by {
      assert user == user[..i] + [user[i]] + user[i + 1..];
    }
    assert |user[..i]| < |user|;
  }

  // ---------------------------------------------------------------------
  // History
  // ---------------------------------------------------------------------

  /** `_send_tag(label)`: sends the tag of the displayed element and pushes the
      element on the history unless the reply carries an `"error"` key.
      `replyKeys` are the keys of the server's JSON reply. */
  function SendTag(st: SessionState, tag: string, replyKeys: set<string>): (r: (Request, SessionState))
    requires st.current.Some?
    ensures r.0 == AddTag(st.project, st.scheme, st.current.value.elementId, tag, st.user, st.current.value.selection)
    ensures "error" !in replyKeys ==> r.1 == st.(history := st.history + [st.current.value.elementId])
    ensures "error" in replyKeys ==> r.1 == st
  {
    var e := st.current.value;
    var req := AddTag(st.project, st.scheme, e.elementId, tag, st.user, e.selection);
    if "error" in replyKeys then (req, st)
    else (req, st.(history := st.history + [e.elementId]))
  }

  /** What `_get_previous_element` did: nothing, or requested an element
      and returned whether it is now displayed, or raised. */
  datatype Previous = NoHistory | Displaying(request: Request, outcome: Result<bool>)

  /** `_get_previous_element`: nothing on an empty history; otherwise pop the
      last id, request that element, and display it unless the server
      answers with an error. The popped id stays popped either way, also
      when a reply without `"status"` raises `KeyError`. */
  function PreviousElement(st: SessionState, reply: ElementReply): (r: (SessionState, Previous))
    ensures |st.history| == 0 ==> r == (st, NoHistory)
    ensures |st.history| > 0 ==>
              r.1 == Displaying(GetElement(st.project, st.scheme, st.history[|st.history| - 1]), FetchOutcome(reply))
    ensures |st.history| > 0 ==> r.0.history + [st.history[|st.history| - 1]] == st.history
    ensures |st.history| > 0 && reply.ReplyElement? ==> r.0.current == Some(reply.element)
    ensures reply.ReplyError? ==> r.0.current == st.current
    ensures !reply.ReplyElement? ==> r.0.current == st.current
    ensures r.0 == st.(history := r.0.history, current := r.0.current)
  {
    if |st.history| == 0 then (st, NoHistory)
    else
      var h := st.history;
      (ShowReply(st.(history := h[..|h| - 1]), reply),
       Displaying(GetElement(st.project, st.scheme, h[|h| - 1]), FetchOutcome(reply)))
  }

  /** Back on an unknown element: the id is popped and lost, the displayed
      element stays, and `KeyError` escapes. */
  lemma PreviousElementLosesIdOnMissingStatus(st: SessionState)
    requires |st.history| > 0
    ensures PreviousElement(st, ReplyWithoutStatus).0 == st.(history := st.history[..|st.history| - 1])
    ensures PreviousElement(st, ReplyWithoutStatus).1.outcome == Raised("KeyError")
  {
  }

  /** Tag then back, as the page runs it: `_display_labels` sends the tag and
      at once fetches the next element (`next` is the server's answer), then
      the user goes back (`reply` answers that request). The next request
      carries the tagged element in its history; back requests the element
      just tagged and restores the history. An error reply to back keeps
      whatever the next fetch displayed. When the server sends the tagged
      element back, the session is exactly as it was before tagging. */
  lemma BackAfterTag(st: SessionState, tag: string, replyKeys: set<string>, next: ElementReply, reply: ElementReply)
    requires st.current.Some?
    requires "error" !in replyKeys
    ensures GetNextElement(SendTag(st, tag, replyKeys).1, next).0.history == st.history + [st.current.value.elementId]
    ensures PreviousElement(GetNextElement(SendTag(st, tag, replyKeys).1, next).1, reply)
            == (ShowReply(ShowReply(st, next), reply),
                Displaying(GetElement(st.project, st.scheme, st.current.value.elementId), FetchOutcome(reply)))
    ensures !reply.ReplyElement? ==>
              PreviousElement(GetNextElement(SendTag(st, tag, replyKeys).1, next).1, reply).0.current
              == (if next.ReplyElement? then Some(next.element) else st.current)
    ensures reply == ReplyElement(st.current.value) ==>
              PreviousElement(GetNextElement(SendTag(st, tag, replyKeys).1, next).1, reply).0 == st
  {
    var h := st.history + [st.current.value.elementId];
    assert h[..|h| - 1] == st.history;
  }

  // ---------------------------------------------------------------------
  // Selection and sample modes
  // ---------------------------------------------------------------------

  /** The `next` options of the project state. */
  datatype NextOptions = NextOptions(methods: seq<string>, methodsMin: seq<string>, sample: seq<string>)

  /** The project state the page reads: for each user, the schemes with a
      trained simple model, and the selection options. */
  datatype ProjectView = ProjectView(simpleModels: map<string, set<string>>, next: NextOptions)

  /** `_is_simplemodel`. */
  predicate IsSimpleModel(st: SessionState, view: ProjectView)
  {
    st.user in view.simpleModels && st.scheme in view.simpleModels[st.user]
  }

  /** The modes `annotate()` offers. */
  function ModeSelection(st: SessionState, view: ProjectView): (r: seq<string>)
    ensures IsSimpleModel(st, view) ==> r == view.next.methods
    ensures !IsSimpleModel(st, view) ==> r == view.next.methodsMin
  {
    if IsSimpleModel(st, view) then view.next.methods else view.next.methodsMin
  }

  /** Python falsiness of an optional string. */
  predicate Falsy(s: Option<string>)
  {
    s.None? || s.value == ""
  }

  /** The selection is reset when unset or left on the test flow. */
  predicate NeedsSelectionReset(st: SessionState)
  {
    Falsy(st.selection) || st.selection == Some("test")
  }

  /** The defaulting at the top of `annotate()`; indexing an empty option list
      raises `IndexError`. */
  function DefaultModes(st: SessionState, view: ProjectView): (r: Result<SessionState>)
    ensures r.Raised? <==> (NeedsSelectionReset(st) && |ModeSelection(st, view)| == 0)
                           || (!(NeedsSelectionReset(st) && |ModeSelection(st, view)| == 0)
                               && Falsy(st.sample) && |view.next.sample| == 0)
    ensures r.Ok? ==> r.value.selection == if NeedsSelectionReset(st) then Some(ModeSelection(st, view)[0]) else st.selection
    ensures r.Ok? ==> r.value.sample == if Falsy(st.sample) then Some(view.next.sample[0]) else st.sample
    ensures r.Ok? ==> r.value == st.(selection := r.value.selection, sample := r.value.sample)
  {
    var modes := ModeSelection(st, view);
    if NeedsSelectionReset(st) && |modes| == 0 then Raised("IndexError: list index out of range")
    else
      var st1 := if NeedsSelectionReset(st) then st.(selection := Some(modes[0])) else st;
      if Falsy(st1.sample) then
        if |view.next.sample| == 0 then Raised("IndexError: list index out of range")
        else Ok(st1.(sample := Some(view.next.sample[0])))
      else Ok(st1)
  }

  /** Option lists whose first entry is a real mode. */
  predicate UsableOptions(st: SessionState, view: ProjectView)
  {
    && |ModeSelection(st, view)| > 0
    && !Falsy(Some(ModeSelection(st, view)[0]))
    && ModeSelection(st, view)[0] != "test"
    && |view.next.sample| > 0
    && view.next.sample[0] != ""
  }

  /** With usable option lists the defaulting succeeds and a second pass
      changes nothing. */
  lemma DefaultModesIdempotent(st: SessionState, view: ProjectView)
    requires UsableOptions(st, view)
    ensures DefaultModes(st, view).Ok?
    ensures DefaultModes(DefaultModes(st, view).value, view) == DefaultModes(st, view)
  {
    var st1 := DefaultModes(st, view).value;
    assert IsSimpleModel(st1, view) == IsSimpleModel(st, view);
  }

  /** The request `_get_next_element` sends for the current options. */
  function NextElementRequest(st: SessionState): (r: Request)
    ensures r.NextElement? && r.project == st.project && r.user == st.user && r.scheme == st.scheme
    ensures r.mode == st.selection && r.sample == st.sample && r.tagFilter == st.tag
    ensures r.history == st.history
  {
    NextElement(st.project, st.user, st.scheme, st.selection, st.sample, st.tag, st.history)
  }

  /** `_get_next_element`: asks for the next element under the current
      options and, unless the server answers with an error, displays it; a
      reply without `"status"` raises `KeyError` and changes nothing. */
  function GetNextElement(st: SessionState, reply: ElementReply): (r: (Request, SessionState, Result<bool>))
    ensures r.0 == NextElementRequest(st)
    ensures reply.ReplyError? ==> r.1 == st
    ensures !reply.ReplyElement? ==> r.1 == st
    ensures reply.ReplyElement? ==> r.1 == st.(current := Some(reply.element))
    ensures r.2 == Ok(true) <==> reply.ReplyElement?
    ensures r.2 == Ok(false) <==> reply.ReplyError?
    ensures r.2.Raised? <==> reply.ReplyWithoutStatus?
  {
    (NextElementRequest(st), ShowReply(st, reply), FetchOutcome(reply))
  }

  /** Opening "Annotating the test sample" of `test_model()`: on a project
      with a test set, unless already on it, switch to the test selection over
      untagged elements without tag filter or frame, and fetch the next
      element, which `reply` answers; a reply without `"status"` raises
      `KeyError` out of the page after the selection has switched. Without a
      test set the page only offers an upload and the session is left
      alone. */
  function EnterTestFlow(st: SessionState, hasTestSet: bool, reply: ElementReply): (r: (SessionState, Option<(Request, Result<bool>)>))
    ensures hasTestSet ==> r.0.selection == Some("test")
    ensures hasTestSet && st.selection != Some("test") ==>
              var st1 := st.(selection := Some("test"), tag := None, sample := Some("untagged"), frame := None);
              && r.1 == Some((NextElementRequest(st1), FetchOutcome(reply)))
              && r.0 == st1.(current := if reply.ReplyElement? then Some(reply.element) else st.current)
    ensures !hasTestSet || st.selection == Some("test") ==> r == (st, None)
  {
    if hasTestSet && st.selection != Some("test") then
      var st1 := st.(selection := Some("test"), tag := None, sample := Some("untagged"), frame := None);
      var (req, st2, outcome) := GetNextElement(st1, reply);
      (st2, Some((req, outcome)))
    else (st, None)
  }

  /** Rendering the test page twice fetches only once, whatever the server
      answered the first time. */
  lemma EnterTestFlowIdempotent(st: SessionState, hasTestSet: bool, reply: ElementReply, reply2: ElementReply)
    ensures EnterTestFlow(EnterTestFlow(st, hasTestSet, reply).0, hasTestSet, reply2)
            == (EnterTestFlow(st, hasTestSet, reply).0, None)
  {
  }

  /** Coming back to the annotation page after the test flow always leaves
      the test selection, while the sample chosen by the test flow is kept
      (a session already on the test flow keeps its own sample, which must be
      set). */
  lemma AnnotateAfterTestFlow(st: SessionState, view: ProjectView, reply: ElementReply)
    requires |ModeSelection(st, view)| > 0
    requires !Falsy(EnterTestFlow(st, true, reply).0.sample)
    ensures DefaultModes(EnterTestFlow(st, true, reply).0, view).Ok?
    ensures DefaultModes(EnterTestFlow(st, true, reply).0, view).value.selection == Some(ModeSelection(st, view)[0])
    ensures DefaultModes(EnterTestFlow(st, true, reply).0, view).value.sample == EnterTestFlow(st, true, reply).0.sample
  {
    var t := EnterTestFlow(st, true, reply).0;
    assert IsSimpleModel(t, view) == IsSimpleModel(st, view);
    if st.selection == Some("test") {
      assert t == st;
    }
  }

  // ---------------------------------------------------------------------
  // Edited table
  // ---------------------------------------------------------------------

  /** A label cell of the edited table: pandas' missing value or a label. */
  datatype Cell = Na | Value(text: string)

  /** One row of the edited table: its index (the element id) and label cell. */
  datatype TableRow = TableRow(elementId: string, tag: Cell)

  /** `replace_na`: missing values become `None`. */
  function ReplaceNa(c: Cell): (r: Option<string>)
    ensures r.None? <==> c.Na?
    ensures c.Value? ==> r == Some(c.text)
  {
    match c
    case Na => None
    case Value(t) => Some(t)
  }

  /** `_send_table`: the ids and the cleaned labels, row by row. */
  function SendTablePayload(st: SessionState, rows: seq<TableRow>): (r: Request)
    ensures r.SendTable? && |r.ids| == |r.labels| == |rows|
    ensures forall i :: 0 <= i < |rows| ==> r.ids[i] == rows[i].elementId
    ensures forall i :: 0 <= i < |rows| ==> (r.labels[i].None? <==> rows[i].tag.Na?)
    ensures forall i :: 0 <= i < |rows| && rows[i].tag.Value? ==> r.labels[i] == Some(rows[i].tag.text)
  {
    SendTable(st.project, st.user, st.scheme,
              seq(|rows|, i requires 0 <= i < |rows| => rows[i].elementId),
              seq(|rows|, i requires 0 <= i < |rows| => ReplaceNa(rows[i].tag)))
  }

  /** The server side's reading of the payload: rows again. */
  function RowsOf(ids: seq<string>, labels: seq<Option<string>>): seq<TableRow>
    requires |ids| == |labels|
  {
    seq(|ids|, i requires 0 <= i < |ids| => TableRow(ids[i], if labels[i].None? then Na else Value(labels[i].value)))
  }

  /** The payload loses nothing: the edited table is rebuilt from it. */
  lemma SendTableRoundTrip(st: SessionState, rows: seq<TableRow>)
    ensures var p := SendTablePayload(st, rows); RowsOf(p.ids, p.labels) == rows
  {
    var p := SendTablePayload(st, rows);
    assert forall i :: 0 <= i < |rows| ==> RowsOf(p.ids, p.labels)[i] == rows[i];
  }
}
