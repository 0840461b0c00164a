/** The input guards of two routes of `activetigger/api.py`: project creation
    (`POST /projects/new`), which drops the form fields left empty and refuses
    non-CSV uploads and existing names, and annotation (`POST /tags/{action}`),
    which refuses to add or update without a tag. Project creation itself and
    the scheme store's `push_tag`/`delete_tag` are outside this model: the
    functions here return what they would be called with. */
module Routes {
  import opened Base

  /** The value of one multipart form field. */
  datatype FormValue = Text(s: string) | Number(n: int) | Items(xs: seq<string>)

  /** The form of `new_project`: required fields are plain values, optional
      ones default to `None`. */
  datatype NewProjectForm = NewProjectForm(
    projectName: string,
    user: string,
    colText: string,
    colId: string,
    nTrain: int,
    nTest: int,
    embeddings: Option<seq<string>>,
    nSkip: Option<int>,
    langage: Option<string>,
    colLabel: Option<string>,
    colsContext: Option<seq<string>>)

  const RequiredKeys: set<string> := {"project_name", "user", "col_text", "col_id", "n_train", "n_test"}
  const OptionalKeys: set<string> := {"embeddings", "n_skip", "langage", "col_label", "cols_context"}

  function Lift<T>(o: Option<T>, wrap: T -> FormValue): Option<FormValue>
  {
    match o
    case None => None
    case Some(v) => Some(wrap(v))
  }

  /** `params_in`: every form field under its key, `None` for an absent one. */
  function ParamsIn(f: NewProjectForm): (m: map<string, Option<FormValue>>)
    ensures m.Keys == RequiredKeys + OptionalKeys
    ensures forall k :: k in RequiredKeys ==> m[k].Some?
  {
    map[
      "project_name" := Some(Text(f.projectName)),
      "user" := Some(Text(f.user)),
      "col_text" := Some(Text(f.colText)),
      "col_id" := Some(Text(f.colId)),
      "n_train" := Some(Number(f.nTrain)),
      "n_test" := Some(Number(f.nTest)),
      "embeddings" := Lift(f.embeddings, (xs: seq<string>) => Items(xs)),
      "n_skip" := Lift(f.nSkip, (n: int) => Number(n)),
      "langage" := Lift(f.langage, (s: string) => Text(s)),
      "col_label" := Lift(f.colLabel, (s: string) => Text(s)),
      "cols_context" := Lift(f.colsContext, (xs: seq<string>) => Items(xs))
    ]
  }

  /** Reference definition of the filtered parameters: the present fields,
      unwrapped. */
  function DropNone(m: map<string, Option<FormValue>>): (r: map<string, FormValue>)
    ensures forall k :: k in r <==> k in m && m[k].Some?
    ensures forall k :: k in r ==> m[k] == Some(r[k])
  {
    map k | k in m && m[k].Some? :: m[k].value
  }

  /** Putting `None` back under every dropped key restores the form. */
  function RestoreNone(params: map<string, FormValue>, keys: set<string>): map<string, Option<FormValue>>
  {
    map k | k in keys :: if k in params then Some(params[k]) else None
  }

  /** Dropping the `None` fields loses nothing: the original parameters are
      recovered from the filtered ones and the key set. */
  lemma DropNoneRoundTrip(m: map<string, Option<FormValue>>)
    ensures RestoreNone(DropNone(m), m.Keys) == m
  {
    var r := RestoreNone(DropNone(m), m.Keys);
    assert forall k :: k in m ==> r[k] == m[k];
  }

  /** The loop of `new_project` that copies `params_in` and deletes every key
      whose value is `None`. */
  method FilterParams(paramsIn: map<string, Option<FormValue>>) returns (paramsOut: map<string, FormValue>)
    ensures forall k :: k in paramsOut <==> k in paramsIn && paramsIn[k].Some?
    ensures forall k :: k in paramsOut ==> paramsIn[k] == Some(paramsOut[k])
    ensures paramsOut == DropNone(paramsIn)
  {
    var out := paramsIn;
    var todo := paramsIn.Keys;
    while todo != {}
      invariant todo <= paramsIn.Keys
      invariant forall k :: k in out <==> k in paramsIn && (k in todo || paramsIn[k].Some?)
      invariant forall k :: k in out ==> out[k] == paramsIn[k]
      decreases |todo|
    {
      var k :| k in todo;
      if paramsIn[k].None? {
        out := out - {k};
      }
      todo := todo - {k};
    }
    paramsOut := map k | k in out :: out[k].value;
  }

  /** Python's `str.endswith`: the text is some stem followed by the suffix. */
  predicate EndsWith(s: string, suffix: string)
    ensures EndsWith(s, suffix) ==> |suffix| <= |s| && s == s[..|s| - |suffix|] + suffix
  {
    |suffix| <= |s| && s[|s| - |suffix|..] == suffix
  }

  /** Any text followed by the suffix ends with it. */
  lemma EndsWithAppend(stem: string, suffix: string)
    ensures EndsWith(stem + suffix, suffix)
  {
    assert (stem + suffix)[|stem|..] == suffix;
  }

  /** What `new_project` does with a request: refuse it, or hand the filtered
      parameters to `create_project`. */
  datatype Creation = Rejected(error: string) | Create(params: map<string, FormValue>)

  /** `POST /projects/new`: parameters filtered first, then the file type
      check, then the existence check against the registered projects. */
  method NewProject(form: NewProjectForm, fileName: string, registered: set<string>) returns (r: Creation)
    ensures !EndsWith(fileName, ".csv") ==> r == Rejected("Only CSV file for the moment")
    ensures EndsWith(fileName, ".csv") && form.projectName in registered ==>
              r == Rejected("Project already exist")
    ensures r.Create? <==> EndsWith(fileName, ".csv") && form.projectName !in registered
    ensures r.Create? ==> RequiredKeys <= r.params.Keys
    ensures r.Create? ==> forall k :: k in r.params <==> k in ParamsIn(form) && ParamsIn(form)[k].Some?
    ensures r.Create? ==> forall k :: k in r.params ==> ParamsIn(form)[k] == Some(r.params[k])
  {
    var paramsOut := FilterParams(ParamsIn(form));
    if !EndsWith(fileName, ".csv") {
      return Rejected("Only CSV file for the moment");
    }
    if form.projectName in registered {
      return Rejected("Project already exist");
    }
    return Create(paramsOut);
  }

  // ---------------------------------------------------------------------
  // POST /tags/{action}
  // ---------------------------------------------------------------------

  datatype Action = Add | Update | Delete

  datatype Annotation = Annotation(elementId: string, tag: Option<string>, scheme: string, user: string)

  /** The route's outcome: an HTTP error, or the scheme-store call it makes. */
  datatype TagDispatch =
    | HttpError(code: nat, detail: string)
    | PushTag(elementId: string, tag: string, scheme: string, user: string)
    | DeleteTag(elementId: string, scheme: string, user: string)

  /** `post_tag`: add and update both push the tag and need one; delete does not. */
  function PostTag(action: Action, a: Annotation): (r: TagDispatch)
    ensures r.HttpError? <==> action != Delete && a.tag.None?
    ensures r.HttpError? ==> r == HttpError(422, "Missing a tag")
    ensures r.PushTag? <==> action != Delete && a.tag.Some?
    ensures r.PushTag? ==> r == PushTag(a.elementId, a.tag.value, a.scheme, a.user)
    ensures action == Delete ==> r == DeleteTag(a.elementId, a.scheme, a.user)
  {
    match action
    case Add | Update =>
      if a.tag.None? then HttpError(422, "Missing a tag")
      else PushTag(a.elementId, a.tag.value, a.scheme, a.user)
    case Delete => DeleteTag(a.elementId, a.scheme, a.user)
  }

  /** "For the moment add == update": both actions dispatch identically. */
  lemma AddIsUpdate(a: Annotation)
    ensures PostTag(Add, a) == PostTag(Update, a)
  {
  }

  /** Deleting ignores the tag the request carries: annotations that differ
      only in their tag dispatch the same deletion. */
  lemma DeleteIgnoresTag(a: Annotation, tag: Option<string>)
    ensures PostTag(Delete, a) == PostTag(Delete, a.(tag := tag))
  {
  }

  /** A pushed tag carries the whole annotation: the request is rebuilt from
      the call it dispatches. */
  lemma PushTagRoundTrip(action: Action, a: Annotation)
    requires PostTag(action, a).PushTag?
    ensures var r := PostTag(action, a);
            Annotation(r.elementId, Some(r.tag), r.scheme, r.user) == a
  {
  }
}
