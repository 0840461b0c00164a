/** The server's job registry and the reconciliation pass that runs before
    every request (`activetigger/api.py`).

    A loaded project keeps three things about background work:
    - `available`: the feature manager's map of computed feature tables,
    - `training`: the list of feature names whose computation is pending,
    - `projections`: one entry per user holding an optional future and,
      once it resolved, the projected data.
    Embedding processes signal completion by dropping `<name>.parquet` in the
    project directory (`files`); projection jobs by a future becoming done,
    with a result or with an exception. These completions are environment
    steps (`ArtifactLands`, `JobCompletes`); the request path only
    observes them through `Update`.

    Python dicts iterate in insertion order, and `update()` stops at the first
    future whose `result()` raises, so the order matters: `users` and `order`
    record the iteration order of `projections` and of the loaded projects. */
module Registry {
  import opened Base

  /** An opaque computed table: an embedding matrix or a 2-D projection. */
  datatype Frame = Frame(id: nat)

  /** A projection future as seen by a non-blocking `done()` probe. A job that
      raised is done as well, and `result()` re-raises its `error`. */
  datatype Job = Running | Done(result: Frame) | Failed(error: string)

  /** The body of a projection request: algorithm name, features, parameters. */
  datatype ProjectionRequest = ProjectionRequest(algorithm: string, features: seq<string>, params: string)

  /** One user's entry of `available_projections`: the request, the method,
      the `future` key (absent once absorbed) and the `data` key (absent until
      absorbed). */
  datatype ProjectionEntry = ProjectionEntry(
    request: ProjectionRequest,
    algorithm: string,
    future: Option<Job>,
    data: Option<Frame>)

  /** The feature manager; `users` is the iteration order of `projections`. */
  datatype FeatureStore = FeatureStore(
    available: map<string, Frame>,
    training: seq<string>,
    projections: map<string, ProjectionEntry>,
    users: seq<string>)

  /** A loaded project: its name, the parquet files present in its directory
      (keyed by the stem of the file name) and its feature manager. */
  datatype Project = Project(name: string, files: map<string, Frame>, features: FeatureStore)

  /** `registered`: the projects `server.exists` knows about;
      `projects`: those loaded in memory, `order` their iteration order. */
  datatype Server = Server(registered: set<string>, projects: map<string, Project>, order: seq<string>)

  /** How a reconciliation pass ends: it runs through, or an exception
      interrupts it. Either way `state` holds everything it did up to then. */
  datatype Pass<T> = Completed(state: T) | Interrupted(state: T, error: string)

  /** The replies a request gets. `ServerError` is the 500 response the
      framework sends when the middleware raises. */
  datatype Reply =
    | Success(message: string)
    | Failure(message: string)
    | Status(message: string)
    | ProjectionData(frame: Frame)
    | FeatureNames(names: set<string>)
    | NotFound(code: nat, detail: string)
    | ServerError(code: nat, detail: string)

  const Sbert: string := "sbert"
  const Fasttext: string := "fasttext"
  const Umap: string := "umap"
  const Tsne: string := "tsne"
  const InternalError: Reply := ServerError(500, "Internal Server Error")

  /** The two embeddings whose artifacts `update()` looks for. */
  predicate IsEmbedding(name: string)
  {
    name == Sbert || name == Fasttext
  }

  // ---------------------------------------------------------------------
  // Invariant
  // ---------------------------------------------------------------------

  /** `order` lists the keys of the dict `m` in its iteration order. */
  predicate OrderOf<V>(order: seq<string>, m: map<string, V>)
  {
    && NoDuplicates(order)
    && (forall k :: k in order ==> k in m)
    && (forall k :: k in m ==> k in order)
  }

  /** The pending list never holds a name twice; `users` orders the
      projection dict. */
  predicate Valid(p: Project)
  {
    NoDuplicates(p.features.training) && OrderOf(p.features.users, p.features.projections)
  }

  predicate ValidServer(s: Server)
  {
    OrderOf(s.order, s.projects) && forall n :: n in s.projects ==> Valid(s.projects[n])

  }
  // ---------------------------------------------------------------------
  // The steps of a reconciliation pass
  // ---------------------------------------------------------------------

  /** One `if (dir / "<name>.parquet").exists()` block of `update()`: load the
      file into the feature manager, drop the name from the pending list and
      delete the file. */
  function AbsorbArtifact(p: Project, name: string): (r: Project)
    ensures r.name == p.name
    ensures r.features.projections == p.features.projections
    ensures r.features.users == p.features.users
    ensures name !in r.files
    ensures forall n :: n != name ==> (n in r.files <==> n in p.files)
    ensures forall n :: n in r.files ==> r.files[n] == p.files[n]
  {
    if name in p.files then
      p.(files := p.files - {name},
         features := p.features.(
           available := p.features.available[name := p.files[name]],
           training := RemoveFirst(p.features.training, name)))
    else p
  }

  /** The entry's future is done and raised. */
  predicate Failing(e: ProjectionEntry)
  {
    e.future.Some? && e.future.value.Failed?
  }

  /** The projection part of `update()` for one user: a done future hands its
      result to `data` and the `future` key is deleted. A future that raised
      is left where it is, because `result()` throws before the entry is
      touched. */
  function ResolveEntry(e: ProjectionEntry): (r: ProjectionEntry)
    ensures r.request == e.request && r.algorithm == e.algorithm
    ensures Failing(e) ==> r == e
    ensures !Failing(e) ==> r.future.None? || r.future == Some(Running)
  {
    match e.future
    case Some(Done(f)) => e.(data := Some(f), future := None)
    case _ => e
  }

  /** The body of the loop over users: `result()` of a done future either
      hands its frame over or re-raises the job's exception. */
  function ResolveStep(e: ProjectionEntry): (r: Pass<ProjectionEntry>)
    ensures r.state == ResolveEntry(e)
    ensures r.Interrupted? <==> Failing(e)
  {
    if Failing(e) then Interrupted(e, e.future.value.error) else Completed(ResolveEntry(e))
  }

  /** Resolving an entry twice is resolving it once. */
  lemma ResolveStepIdempotent(e: ProjectionEntry)
    ensures ResolveStep(ResolveStep(e).state) == ResolveStep(e)
  {
  }

  // ---------------------------------------------------------------------
  // A dict loop whose body may raise
  // ---------------------------------------------------------------------

  /** `for k in d: d[k] = step(d[k])` where `step` may raise: the keys are
      visited in the order `keys`, and the first step that raises ends the
      loop, keeping what that step did to its value. */
  function ForEach<V>(step: V -> Pass<V>, m: map<string, V>, keys: seq<string>): (r: Pass<map<string, V>>)
    ensures r.state.Keys == m.Keys
    decreases |keys|
  {
    if |keys| == 0 then Completed(m)
    else
      var m1 := if keys[0] in m then m[keys[0] := step(m[keys[0]]).state] else m;
      if keys[0] in m && step(m[keys[0]]).Interrupted? then Interrupted(m1, step(m[keys[0]]).error)
      else ForEach(step, m1, keys[1..])
  }

  /** Position of the first key whose step raises; `|keys|` when none does. */
  function FirstRaise<V>(step: V -> Pass<V>, m: map<string, V>, keys: seq<string>): (k: nat)
    ensures k <= |keys|
    ensures forall i :: 0 <= i < k ==> !(keys[i] in m && step(m[keys[i]]).Interrupted?)
    ensures k < |keys| ==> keys[k] in m && step(m[keys[k]]).Interrupted?
    decreases |keys|
  {
    if |keys| == 0 then 0
    else if keys[0] in m && step(m[keys[0]]).Interrupted? then 0
    else 1 + FirstRaise(step, m, keys[1..])
  }

  /** The position described by `FirstRaise`'s contract is unique. */
  lemma FirstRaiseAt<V>(step: V -> Pass<V>, m: map<string, V>, keys: seq<string>, k: nat)
    requires k <= |keys|
    requires forall i :: 0 <= i < k ==> !(keys[i] in m && step(m[keys[i]]).Interrupted?)
    requires k < |keys| ==> keys[k] in m && step(m[keys[k]]).Interrupted?
    ensures FirstRaise(step, m, keys) == k
  {
  }

  /** How many keys the loop visits: those before the first raising step, and
      that one. */
  function Visited<V>(step: V -> Pass<V>, m: map<string, V>, keys: seq<string>): (c: nat)
    ensures c <= |keys|
  {
    var k := FirstRaise(step, m, keys);
    if k < |keys| then k + 1 else k
  }

  /** The loop applies `step` to exactly the visited keys, leaves the others
      alone, completes if and only if no step raises, and otherwise carries
      the first raised error. */
  lemma ForEachEffect<V>(step: V -> Pass<V>, m: map<string, V>, keys: seq<string>)
    requires NoDuplicates(keys)
    ensures ForEach(step, m, keys).Completed? <==> FirstRaise(step, m, keys) == |keys|
    ensures ForEach(step, m, keys).Interrupted? ==>
              ForEach(step, m, keys).error == step(m[keys[FirstRaise(step, m, keys)]]).error
    ensures forall k :: k in m ==>
              ForEach(step, m, keys).state[k] == if k in keys[..Visited(step, m, keys)] then step(m[k]).state else m[k]
  {
    ForEachOutcome(step, m, keys);
    ForEachState(step, m, keys);
  }

  /** Removing the head of a list without duplicates leaves one without
      duplicates that misses the head. */
  lemma TailDistinct(keys: seq<string>)
    requires NoDuplicates(keys) && |keys| > 0
    ensures NoDuplicates(keys[1..])
    ensures keys[0] !in keys[1..]
  {
    forall i | 0 <= i < |keys| - 1 ensures keys[1..][i] != keys[0] {
      DistinctAt(keys, 0, i + 1);
    }
  }

  lemma {:induction false} ForEachOutcome<V>(step: V -> Pass<V>, m: map<string, V>, keys: seq<string>)
    requires NoDuplicates(keys)
    ensures ForEach(step, m, keys).Completed? <==> FirstRaise(step, m, keys) == |keys|
    ensures ForEach(step, m, keys).Interrupted? ==>
              ForEach(step, m, keys).error == step(m[keys[FirstRaise(step, m, keys)]]).error
    decreases |keys|
  {
    if |keys| > 0 {
      var k0 := keys[0];
      if !(k0 in m && step(m[k0]).Interrupted?) {
        var m1 := if k0 in m then m[k0 := step(m[k0]).state] else m;
        TailDistinct(keys);
        ForEachOutcome(step, m1, keys[1..]);
        FirstRaiseAt(step, m1, keys[1..], FirstRaise(step, m, keys[1..]));
      }
    }
  }

  lemma {:induction false} ForEachState<V>(step: V -> Pass<V>, m: map<string, V>, keys: seq<string>)
    requires NoDuplicates(keys)
    ensures forall k :: k in m ==>
              ForEach(step, m, keys).state[k] == if k in keys[..Visited(step, m, keys)] then step(m[k]).state else m[k]
    decreases |keys|
  {
    if |keys| > 0 {
      var k0 := keys[0];
      var rest := keys[1..];
      if k0 in m && step(m[k0]).Interrupted? {
        assert keys[..1] == [k0];
      } else {
        var m1 := if k0 in m then m[k0 := step(m[k0]).state] else m;
        TailDistinct(keys);
        ForEachState(step, m1, rest);
        FirstRaiseAt(step, m1, rest, FirstRaise(step, m, rest));
        var c1 := Visited(step, m1, rest);
        assert keys[..Visited(step, m, keys)] == [k0] + rest[..c1];
      }
    }
  }

  /** A step that repeats itself when re-applied to its own result makes the
      whole loop repeat itself: a second run changes nothing more and raises
      the same error at the same key. */
  lemma ForEachIdempotent<V>(step: V -> Pass<V>, m: map<string, V>, keys: seq<string>)
    requires NoDuplicates(keys)
    requires forall k :: k in m ==> step(step(m[k]).state) == step(m[k])
    ensures ForEach(step, ForEach(step, m, keys).state, keys) == ForEach(step, m, keys)
  {
    var r := ForEach(step, m, keys);
    ForEachEffect(step, m, keys);
    var k := FirstRaise(step, m, keys);
    var seen := keys[..Visited(step, m, keys)];
    forall i | 0 <= i < k ensures !(keys[i] in r.state && step(r.state[keys[i]]).Interrupted?) {
      assert keys[i] in seen;
    }
    if k < |keys| {
      assert keys[k] in seen;
    }
    FirstRaiseAt(step, r.state, keys, k);
    ForEachEffect(step, r.state, keys);
    assert ForEach(step, r.state, keys).state == r.state;
  }

  // ---------------------------------------------------------------------
  // Reconciliation of one project
  // ---------------------------------------------------------------------

  /** Some user's projection future raised, found by scanning the users in
      order (`NoFailedJobIff` shows the scan misses none). */
  predicate HasFailedJob(p: Project)
  {
    FirstRaise(ResolveStep, p.features.projections, p.features.users) < |p.features.users|
  }

  /** The scan finds a raising future if and only if there is one. */
  lemma NoFailedJobIff(p: Project)
    requires Valid(p)
    ensures !HasFailedJob(p) <==> forall u :: u in p.features.projections ==> !Failing(p.features.projections[u])
  {
    var m := p.features.projections;
    var users := p.features.users;
    if !HasFailedJob(p) {
      forall u | u in m ensures !Failing(m[u]) {
        var i := IndexOf(users, u);
        assert !ResolveStep(m[users[i]]).Interrupted?;
      }
    }
  }

  /** A user whose future raised is found by the scan, at its place or
      before. */
  lemma FailedJobFound(p: Project, user: string)
    requires Valid(p)
    requires user in p.features.projections && Failing(p.features.projections[user])
    ensures HasFailedJob(p)
    ensures FirstRaise(ResolveStep, p.features.projections, p.features.users) <= IndexOf(p.features.users, user)
  {
    assert ResolveStep(p.features.projections[user]).Interrupted?;
  }

  /** The users `update()` visits on this project: all of them, or those up to
      and including the first whose future raised. */
  function ReachedUsers(p: Project): seq<string>
  {
    p.features.users[..Visited(ResolveStep, p.features.projections, p.features.users)]
  }

  /** `update()` for one project: both embedding artifacts, then every user's
      projection in dict order until a future raises. */
  function UpdateProject(p: Project): (r: Pass<Project>)
    ensures r.state.name == p.name
    ensures r.state.features.users == p.features.users
    ensures r.state.features.projections.Keys == p.features.projections.Keys
    ensures Sbert !in r.state.files && Fasttext !in r.state.files
    ensures forall n :: n in r.state.files ==> n in p.files && r.state.files[n] == p.files[n]
  {
    var p2 := AbsorbArtifact(AbsorbArtifact(p, Sbert), Fasttext);
    var pass := ForEach(ResolveStep, p2.features.projections, p2.features.users);
    var q := p2.(features := p2.features.(projections := pass.state));
    if pass.Completed? then Completed(q) else Interrupted(q, pass.error)
  }

  /** Nothing has completed: no embedding artifact on disk and no done future. */
  predicate Quiescent(p: Project)
  {
    && Sbert !in p.files
    && Fasttext !in p.files
    && forall u :: u in p.features.projections ==> !p.features.projections[u].future.Some? || p.features.projections[u].future.value.Running?
  }

  /** What `update()` leaves of one project, stated without the code's steps.
      The embedding blocks come first and always run: landed embeddings are
      available with the file's content and their files are gone. Then the
      visited users get their done futures resolved and the others are
      untouched. The pass completes if and only if no future raised, and
      otherwise stops at the first raising future with its error. */
  lemma UpdateProjectEffect(p: Project)
    requires Valid(p)
    ensures UpdateProject(p).state.name == p.name
    ensures UpdateProject(p).state.files == p.files - {Sbert, Fasttext}
    ensures forall n :: n in UpdateProject(p).state.features.available <==>
                        n in p.features.available || (IsEmbedding(n) && n in p.files)
    ensures forall n :: IsEmbedding(n) && n in p.files ==>
                        UpdateProject(p).state.features.available[n] == p.files[n]
    ensures forall n :: !(IsEmbedding(n) && n in p.files) && n in p.features.available ==>
                        UpdateProject(p).state.features.available[n] == p.features.available[n]
    ensures UpdateProject(p).state.features.users == p.features.users
    ensures UpdateProject(p).state.features.projections.Keys == p.features.projections.Keys
    ensures UpdateProject(p).Completed? <==> !HasFailedJob(p)
    ensures !HasFailedJob(p) ==> ReachedUsers(p) == p.features.users
    ensures UpdateProject(p).Interrupted? ==>
              var k := FirstRaise(ResolveStep, p.features.projections, p.features.users);
              && ReachedUsers(p) == p.features.users[..k + 1]
              && Failing(p.features.projections[p.features.users[k]])
              && UpdateProject(p).error == p.features.projections[p.features.users[k]].future.value.error
    ensures forall u :: u in p.features.projections ==>
              UpdateProject(p).state.features.projections[u]
              == if u in ReachedUsers(p) then ResolveEntry(p.features.projections[u]) else p.features.projections[u]
  {
    UpdateProjectFiles(p);
    UpdateProjectAvailable(p);
    UpdateProjectProjections(p);
  }

  lemma UpdateProjectFiles(p: Project)
    ensures UpdateProject(p).state.name == p.name
    ensures UpdateProject(p).state.files == p.files - {Sbert, Fasttext}
    ensures UpdateProject(p).state.features.users == p.features.users
  {
    var p1 := AbsorbArtifact(p, Sbert);
    var p2 := AbsorbArtifact(p1, Fasttext);
    assert p2.files == p.files - {Sbert, Fasttext};
  }

  lemma UpdateProjectAvailable(p: Project)
    ensures forall n :: n in UpdateProject(p).state.features.available <==>
                        n in p.features.available || (IsEmbedding(n) && n in p.files)
    ensures forall n :: IsEmbedding(n) && n in p.files ==>
                        UpdateProject(p).state.features.available[n] == p.files[n]
    ensures forall n :: !(IsEmbedding(n) && n in p.files) && n in p.features.available ==>
                        UpdateProject(p).state.features.available[n] == p.features.available[n]
  {
    var a := p.features.available;
    var p1 := AbsorbArtifact(p, Sbert);
    var a1 := if Sbert in p.files then a[Sbert := p.files[Sbert]] else a;
    assert p1.features.available == a1;
    var p2 := AbsorbArtifact(p1, Fasttext);
    assert Fasttext in p1.files <==> Fasttext in p.files;
    var a2 := if Fasttext in p.files then a1[Fasttext := p.files[Fasttext]] else a1;
    assert p2.features.available == a2;
    assert UpdateProject(p).state.features.available == a2;
  }

  lemma UpdateProjectProjections(p: Project)
    requires Valid(p)
    ensures UpdateProject(p).state.features.projections.Keys == p.features.projections.Keys
    ensures UpdateProject(p).Completed? <==> !HasFailedJob(p)
    ensures !HasFailedJob(p) ==> ReachedUsers(p) == p.features.users
    ensures UpdateProject(p).Interrupted? ==>
              var k := FirstRaise(ResolveStep, p.features.projections, p.features.users);
              && ReachedUsers(p) == p.features.users[..k + 1]
              && Failing(p.features.projections[p.features.users[k]])
              && UpdateProject(p).error == p.features.projections[p.features.users[k]].future.value.error
    ensures forall u :: u in p.features.projections ==>
              UpdateProject(p).state.features.projections[u]
              == if u in ReachedUsers(p) then ResolveEntry(p.features.projections[u]) else p.features.projections[u]
  {
    var m := p.features.projections;
    var users := p.features.users;
    var pass := ForEach(ResolveStep, m, users);
    UpdateProjectIsPass(p);
    ForEachEffect(ResolveStep, m, users);
    if pass.Interrupted? {
      var k := FirstRaise(ResolveStep, m, users);
      assert ResolveStep(m[users[k]]).Interrupted?;
    }
  }

  /** The projection part of one project's pass is the generic loop over its
      users. */
  lemma UpdateProjectIsPass(p: Project)
    ensures var pass := ForEach(ResolveStep, p.features.projections, p.features.users);
            && UpdateProject(p).state.features.projections == pass.state
            && UpdateProject(p).Completed? == pass.Completed?
            && (pass.Interrupted? ==> UpdateProject(p).error == pass.error)
  {
    var p2 := AbsorbArtifact(AbsorbArtifact(p, Sbert), Fasttext);
    assert p2.features.projections == p.features.projections && p2.features.users == p.features.users;
  }

  /** The two embedding blocks of `update()`: a landed embedding leaves the
      pending list even when it was never pending, other pending names stay
      pending, and the list stays free of duplicates. */
  lemma {:induction false} AbsorbBothClearsPending(p: Project)
    requires NoDuplicates(p.features.training)
    ensures var p2 := AbsorbArtifact(AbsorbArtifact(p, Sbert), Fasttext);
            && NoDuplicates(p2.features.training)
            && (forall n :: IsEmbedding(n) && n in p.files ==> n !in p2.features.training)
            && (forall n :: !(IsEmbedding(n) && n in p.files) ==>
                             (n in p2.features.training <==> n in p.features.training))
  {
    var t0 := p.features.training;
    var p1 := AbsorbArtifact(p, Sbert);
    var t1 := p1.features.training;
    RemoveFirstFromDistinct(t0, Sbert);
    assert t1 == if Sbert in p.files then RemoveFirst(t0, Sbert) else t0;
    assert Fasttext in p1.files <==> Fasttext in p.files;
    var p2 := AbsorbArtifact(p1, Fasttext);
    RemoveFirstFromDistinct(t1, Fasttext);
    assert p2.features.training == if Fasttext in p.files then RemoveFirst(t1, Fasttext) else t1;
  }

  /** Landed embeddings leave the pending list even when they were never
      pending, and other pending names stay pending, whether or not a
      raising future interrupts the pass afterwards. */
  lemma UpdateClearsPending(p: Project)
    requires Valid(p)
    ensures Valid(UpdateProject(p).state)
    ensures forall n :: IsEmbedding(n) && n in p.files ==> n !in UpdateProject(p).state.features.training
    ensures forall n :: !(IsEmbedding(n) && n in p.files) ==>
                        (n in UpdateProject(p).state.features.training <==> n in p.features.training)
  {
    var p2 := AbsorbArtifact(AbsorbArtifact(p, Sbert), Fasttext);
    AbsorbBothClearsPending(p);
    assert UpdateProject(p).state.features.training == p2.features.training;
    UpdateProjectFiles(p);
    UpdateProjectProjections(p);
  }

  /** Absorbing a landed embedding: available with the file's content, no
      longer pending, file deleted. */
  lemma UpdateAbsorbsLanded(p: Project, name: string)
    requires Valid(p)
    requires IsEmbedding(name) && name in p.files
    ensures name in UpdateProject(p).state.features.available
    ensures UpdateProject(p).state.features.available[name] == p.files[name]
    ensures name !in UpdateProject(p).state.features.training
    ensures name !in UpdateProject(p).state.files
  {
    UpdateProjectFiles(p);
    UpdateProjectAvailable(p);
    UpdateClearsPending(p);
  }

  /** A finished projection ends with `data` and no `future`, unless an
      earlier user's future raised: then the pass stops before it and the
      entry keeps its future. Without raising futures the entry is always
      reached. */
  lemma UpdateResolvesProjection(p: Project, user: string, f: Frame)
    requires Valid(p)
    requires user in p.features.projections
    requires p.features.projections[user].future == Some(Done(f))
    ensures user in UpdateProject(p).state.features.projections
    ensures user in ReachedUsers(p) ==>
              && UpdateProject(p).state.features.projections[user].data == Some(f)
              && UpdateProject(p).state.features.projections[user].future.None?
    ensures user !in ReachedUsers(p) ==>
              && UpdateProject(p).Interrupted?
              && UpdateProject(p).state.features.projections[user] == p.features.projections[user]
    ensures !HasFailedJob(p) ==> user in ReachedUsers(p)
  {
    UpdateProjectProjections(p);
  }

  /** A future that raised is never cleared: every pass over the project is
      interrupted and leaves that entry as it is. */
  lemma UpdateKeepsFailedJob(p: Project, user: string)
    requires Valid(p)
    requires user in p.features.projections && Failing(p.features.projections[user])
    ensures UpdateProject(p).Interrupted?
    ensures user in UpdateProject(p).state.features.projections
    ensures UpdateProject(p).state.features.projections[user] == p.features.projections[user]
  {
    FailedJobFound(p, user);
    UpdateProjectProjections(p);
  }

  /** `update()` changes nothing and runs through if and only if no job has
      completed, successfully or not. */
  lemma UpdateNoOpIffQuiescent(p: Project)
    requires Valid(p)
    ensures UpdateProject(p) == Completed(p) <==> Quiescent(p)
  {
    UpdateProjectEffect(p);
    NoFailedJobIff(p);
    var r := UpdateProject(p).state;
    if Quiescent(p) {
      assert r.files == p.files;
      assert r.features.available == p.features.available;
      assert r.features.training == p.features.training;
      assert r.features.projections == p.features.projections;
    } else if UpdateProject(p).Completed? {
      if Sbert in p.files {
        assert Sbert !in r.files;
      } else if Fasttext in p.files {
        assert Fasttext !in r.files;
      } else {
        var u :| u in p.features.projections && p.features.projections[u].future.Some?
                 && !p.features.projections[u].future.value.Running?;
        assert r.features.projections[u].future.None?;
      }
    }
  }

  /** Without raising futures one reconciliation leaves nothing to absorb.
      With one, the pass is interrupted and the raising future is still
      there, so the project never becomes quiescent. */
  lemma UpdateReachesQuiescence(p: Project)
    requires Valid(p)
    ensures !HasFailedJob(p) ==> UpdateProject(p).Completed? && Quiescent(UpdateProject(p).state)
    ensures HasFailedJob(p) ==> UpdateProject(p).Interrupted? && HasFailedJob(UpdateProject(p).state)
  {
    UpdateProjectEffect(p);
    if HasFailedJob(p) {
      var u := p.features.users[FirstRaise(ResolveStep, p.features.projections, p.features.users)];
      UpdateKeepsFailedJob(p, u);
      UpdateClearsPending(p);
      FailedJobFound(UpdateProject(p).state, u);
    }
  }

  /** A second pass over a project repeats the first: it changes nothing
      more, and a raising future stops it at the same user with the same
      error. */
  lemma UpdateProjectIdempotent(p: Project)
    requires Valid(p)
    ensures UpdateProject(UpdateProject(p).state) == UpdateProject(p)
  {
    var m := p.features.projections;
    var users := p.features.users;
    var p2 := AbsorbArtifact(AbsorbArtifact(p, Sbert), Fasttext);
    var q := UpdateProject(p).state;
    assert q == p2.(features := p2.features.(projections := ForEach(ResolveStep, m, users).state));
    assert AbsorbArtifact(q, Sbert) == q;
    assert AbsorbArtifact(q, Fasttext) == q;
    forall u | u in m ensures ResolveStep(ResolveStep(m[u]).state) == ResolveStep(m[u]) {
      ResolveStepIdempotent(m[u]);
    }
    ForEachIdempotent(ResolveStep, m, users);
  }

  // ---------------------------------------------------------------------
  // Reconciliation of the server
  // ---------------------------------------------------------------------

  /** Some loaded project holds a future that raised, found by scanning the
      projects in order (`BlockedFound` shows the scan misses none). */
  predicate Blocked(s: Server)
  {
    FirstRaise(UpdateProject, s.projects, s.order) < |s.order|
  }

  /** A project holding a raising future is found by the scan, at its place
      or before. */
  lemma BlockedFound(s: Server, name: string)
    requires ValidServer(s)
    requires name in s.projects && HasFailedJob(s.projects[name])
    ensures Blocked(s)
    ensures FirstRaise(UpdateProject, s.projects, s.order) <= IndexOf(s.order, name)
  {
    UpdateProjectProjections(s.projects[name]);
  }

  /** The projects `update()` works on: all of them, or those up to and
      including the first holding a raising future. */
  function ReachedProjects(s: Server): seq<string>
  {
    s.order[..Visited(UpdateProject, s.projects, s.order)]
  }

  /** `update()`, run by the HTTP middleware before every request. */
  function Update(s: Server): (r: Pass<Server>)
    ensures r.state.registered == s.registered
    ensures r.state.order == s.order
    ensures r.state.projects.Keys == s.projects.Keys
  {
    var pass := ForEach(UpdateProject, s.projects, s.order);
    if pass.Completed? then Completed(s.(projects := pass.state))
    else Interrupted(s.(projects := pass.state), pass.error)
  }

  /** What `update()` does to the server: it completes if and only if no
      loaded project holds a raising future; otherwise it raises the error of
      the first such project in order. The projects it reaches are updated
      as one pass over each would; the others are untouched. Without
      raising futures every project is reached. */
  lemma UpdateEffect(s: Server)
    requires ValidServer(s)
    ensures Update(s).Completed? <==> !Blocked(s)
    ensures forall n :: n in s.projects ==>
              Update(s).state.projects[n] == if n in ReachedProjects(s) then UpdateProject(s.projects[n]).state else s.projects[n]
    ensures !Blocked(s) ==> ReachedProjects(s) == s.order
    ensures Update(s).Interrupted? ==>
              var n := s.order[FirstRaise(UpdateProject, s.projects, s.order)];
              && n in s.projects && HasFailedJob(s.projects[n])
              && UpdateProject(s.projects[n]).Interrupted?
              && Update(s).error == UpdateProject(s.projects[n]).error
  {
    ForEachEffect(UpdateProject, s.projects, s.order);
    if Update(s).Interrupted? {
      UpdateProjectProjections(s.projects[s.order[FirstRaise(UpdateProject, s.projects, s.order)]]);
    }
  }

  /** A raising future also starves the projects after its own in dict
      order: `update()` never reaches them, so their landed files and done
      futures wait on every request. */
  lemma FailedJobStarvesLaterProjects(s: Server, name: string, later: string)
    requires ValidServer(s)
    requires name in s.projects && HasFailedJob(s.projects[name])
    requires later in s.projects && IndexOf(s.order, name) < IndexOf(s.order, later)
    ensures Update(s).Interrupted?
    ensures later !in ReachedProjects(s)
    ensures Update(s).state.projects[later] == s.projects[later]
  {
    BlockedFound(s, name);
    UpdateEffect(s);
  }

  /** `update()` keeps every loaded project valid. */
  lemma UpdatePreservesValid(s: Server)
    requires ValidServer(s)
    ensures ValidServer(Update(s).state)
  {
    UpdateEffect(s);
    forall n | n in s.projects ensures Valid(Update(s).state.projects[n]) {
      UpdateClearsPending(s.projects[n]);
    }
  }

  /** Reconciliation is idempotent: re-running it changes nothing more and,
      when a raising future blocks it, raises the same error again. */
  lemma UpdateIdempotent(s: Server)
    requires ValidServer(s)
    ensures Update(Update(s).state) == Update(s)
  {
    forall n | n in s.projects ensures UpdateProject(UpdateProject(s.projects[n]).state) == UpdateProject(s.projects[n]) {
      UpdateProjectIdempotent(s.projects[n]);
    }
    ForEachIdempotent(UpdateProject, s.projects, s.order);
  }

  // ---------------------------------------------------------------------
  // Environment steps: the background work finishing
  // ---------------------------------------------------------------------

  /** An embedding process writes `<name>.parquet` into the project directory. */
  function ArtifactLands(p: Project, name: string, f: Frame): (r: Project)
    ensures r.features == p.features
    ensures r.files == p.files[name := f]
  {
    p.(files := p.files[name := f])
  }

  /** A running projection future of `user` finishes, with result `f`
      (`Done`) or by raising `error` (`Failed`). */
  function JobCompletes(p: Project, user: string, outcome: Job): (r: Project)
    requires !outcome.Running?
    ensures r.files == p.files
    ensures r.features.available == p.features.available
    ensures r.features.training == p.features.training
    ensures r.features.users == p.features.users
    ensures r.features.projections.Keys == p.features.projections.Keys
    ensures forall u :: u in p.features.projections && u != user ==>
              r.features.projections[u] == p.features.projections[u]
    ensures user in p.features.projections ==>
              r.features.projections[user] ==
                if p.features.projections[user].future == Some(Running)
                then p.features.projections[user].(future := Some(outcome))
                else p.features.projections[user]
  {
    if user in p.features.projections && p.features.projections[user].future == Some(Running) then
      p.(features := p.features.(projections :=
        p.features.projections[user := p.features.projections[user].(future := Some(outcome))]))
    else p
  }

  // ---------------------------------------------------------------------
  // Routes on a loaded project
  // ---------------------------------------------------------------------

  /** `POST /features/add/{name}`: single-flight submission of an embedding
      computation. The detached process itself is the environment step
      `ArtifactLands`. */
  function PostEmbeddings(p: Project, name: string): (r: (Project, Reply))
    ensures r.0.name == p.name && r.0.files == p.files
    ensures r.0.features.available == p.features.available
    ensures r.0.features.projections == p.features.projections
    ensures r.0.features.users == p.features.users
    ensures name in p.features.training ==>
              r == (p, Failure("This feature is already in training"))
    ensures name !in p.features.training && IsEmbedding(name) ==>
              r.0.features.training == p.features.training + [name] && r.1.Success?
    ensures name !in p.features.training && !IsEmbedding(name) ==>
              r == (p, Failure("not implemented"))
    ensures Valid(p) ==> Valid(r.0)
  {
    if name in p.features.training then
      (p, Failure("This feature is already in training"))
    else if name == Sbert then
      (p.(features := p.features.(training := p.features.training + [name])),
       Success("computing sbert, it could take a few minutes"))
    else if name == Fasttext then
      (p.(features := p.features.(training := p.features.training + [name])),
       Success("computing fasttext, it could take a few minutes"))
    else
      (p, Failure("not implemented"))
  }

  /** Requesting the same embedding twice without reconciliation in between:
      the second request is refused and changes nothing. */
  lemma PostEmbeddingsTwice(p: Project, name: string)
    requires IsEmbedding(name)
    requires name !in p.features.training
    ensures PostEmbeddings(p, name).1.Success?
    ensures PostEmbeddings(PostEmbeddings(p, name).0, name)
            == (PostEmbeddings(p, name).0, Failure("This feature is already in training"))
    ensures multiset(PostEmbeddings(PostEmbeddings(p, name).0, name).0.features.training)[name] == 1
  {
    var t := p.features.training;
    assert multiset(t)[name] == 0;
    assert multiset(t + [name]) == multiset(t) + multiset{name};
  }

  /** The whole lifecycle of one embedding: submitted, its file lands, the next
      reconciliation makes it available and ends the pending state. A raising
      projection future does not prevent this, since the embedding blocks of
      `update()` run before the projection loop. */
  lemma EmbeddingLifecycle(p: Project, name: string, f: Frame)
    requires Valid(p)
    requires IsEmbedding(name) && name !in p.features.training
    ensures var q := UpdateProject(ArtifactLands(PostEmbeddings(p, name).0, name, f)).state;
            && Valid(q)
            && name in q.features.available
            && q.features.available[name] == f
            && name !in q.features.training
            && name !in q.files
  {
    var p1 := PostEmbeddings(p, name).0;
    var p2 := ArtifactLands(p1, name, f);
    assert Valid(p2);
    UpdateAbsorbsLanded(p2, name);
    UpdateClearsPending(p2);
  }

  /** `POST /elements/projection/compute`: replaces the user's whole entry by
      a fresh running job (prior `data` is dropped). A new user is appended
      to the dict's order; an existing one keeps its place. The result of
      `features.get` only feeds the job and is not modelled. */
  function ComputeProjection(p: Project, user: string, req: ProjectionRequest): (r: (Project, Reply))
    ensures r.0.name == p.name && r.0.files == p.files
    ensures r.0.features.available == p.features.available
    ensures r.0.features.training == p.features.training
    ensures |req.features| == 0 ==> r == (p, Failure("No feature"))
    ensures |req.features| > 0 && (req.algorithm == Umap || req.algorithm == Tsne) ==>
              && r.1.Success?
              && r.0.features.projections == p.features.projections[user := ProjectionEntry(req, req.algorithm, Some(Running), None)]
              && r.0.features.users == if user in p.features.projections then p.features.users else p.features.users + [user]
    ensures |req.features| > 0 && req.algorithm != Umap && req.algorithm != Tsne ==>
              r == (p, Failure("This projection is not available"))
    ensures Valid(p) ==> Valid(r.0)
  {
    if |req.features| == 0 then
      (p, Failure("No feature"))
    else if req.algorithm == Umap || req.algorithm == Tsne then
      var users := if user in p.features.projections then p.features.users else p.features.users + [user];
      (p.(features := p.features.(
         projections := p.features.projections[user := ProjectionEntry(req, req.algorithm, Some(Running), None)],
         users := users)),
       Success("Projection " + req.algorithm + " under computation"))
    else
      (p, Failure("This projection is not available"))
  }

  /** `GET /elements/projection/current`. */
  function GetProjection(p: Project, user: string): (r: Reply)
    ensures r.ProjectionData? <==> user in p.features.projections && p.features.projections[user].data.Some?
    ensures r.ProjectionData? ==> r.frame == p.features.projections[user].data.value
    ensures r == Status("Still computing") <==> user in p.features.projections && p.features.projections[user].data.None?
    ensures r == Failure("There is no projection available") <==> user !in p.features.projections
  {
    if user in p.features.projections then
      match p.features.projections[user].data
      case None => Status("Still computing")
      case Some(f) => ProjectionData(f)
    else Failure("There is no projection available")
  }

  /** Recomputing overwrites: right after a successful request the user sees
      "Still computing", even if an older projection was already available. */
  lemma RecomputeHidesOldData(p: Project, user: string, req: ProjectionRequest)
    requires Valid(p)
    requires |req.features| > 0 && (req.algorithm == Umap || req.algorithm == Tsne)
    ensures GetProjection(ComputeProjection(p, user, req).0, user) == Status("Still computing")
    ensures GetProjection(UpdateProject(ComputeProjection(p, user, req).0).state, user) == Status("Still computing")
  {
    UpdateProjectProjections(ComputeProjection(p, user, req).0);
  }

  /** Projection lifecycle: requested, the future finishes, the next
      reconciliation publishes exactly that result, unless another user's
      raising future stops the pass first; without raising futures it always
      does. */
  lemma ProjectionLifecycle(p: Project, user: string, req: ProjectionRequest, f: Frame)
    requires Valid(p)
    requires |req.features| > 0 && (req.algorithm == Umap || req.algorithm == Tsne)
    ensures var q := JobCompletes(ComputeProjection(p, user, req).0, user, Done(f));
            GetProjection(UpdateProject(q).state, user)
            == if user in ReachedUsers(q) then ProjectionData(f) else Status("Still computing")
    ensures !HasFailedJob(p) ==>
              GetProjection(UpdateProject(JobCompletes(ComputeProjection(p, user, req).0, user, Done(f))).state, user)
              == ProjectionData(f)
  {
    var q := JobCompletes(ComputeProjection(p, user, req).0, user, Done(f));
    assert Valid(q);
    UpdateResolvesProjection(q, user, f);
    NoFailedJobIff(p);
    NoFailedJobIff(q);
  }

  /** Computing for one user leaves every other user's entry as it was. */
  lemma ComputeProjectionIsolatesUsers(p: Project, user: string, other: string, req: ProjectionRequest)
    requires other != user && other in p.features.projections
    ensures other in ComputeProjection(p, user, req).0.features.projections
    ensures ComputeProjection(p, user, req).0.features.projections[other] == p.features.projections[other]
  {
  }

  // ---------------------------------------------------------------------
  // Project loading and request handling
  // ---------------------------------------------------------------------

  /** The `get_project` dependency: 404 for an unknown project, the loaded
      instance when there is one, otherwise `start_project` loads it (the
      freshly loaded state is the parameter `loaded`) at the end of the
      dict's order. */
  function GetProject(s: Server, name: string, loaded: Project): (r: (Server, Option<Project>))
    ensures name !in s.registered ==> r == (s, None)
    ensures name in s.registered ==> r.1.Some? && name in r.0.projects && r.0.projects[name] == r.1.value
    ensures name in s.projects ==> r.0 == s
    ensures r.0.registered == s.registered
    ensures r.0.projects.Keys == s.projects.Keys + (if name in s.registered then {name} else {})
    ensures forall n :: n in s.projects && n != name ==> r.0.projects[n] == s.projects[n]
    ensures ValidServer(s) && Valid(loaded) ==> ValidServer(r.0)
  {
    if name !in s.registered then (s, None)
    else if name in s.projects then (s, Some(s.projects[name]))
    else (s.(projects := s.projects[name := loaded], order := s.order + [name]), Some(loaded))
  }

  /** An already-loaded project is returned as is: whatever `start_project`
      would have produced plays no part. */
  lemma GetProjectLoadsOnce(s: Server, name: string, loaded1: Project, loaded2: Project)
    requires name in s.registered && name in s.projects
    ensures GetProject(s, name, loaded1) == GetProject(s, name, loaded2)
    ensures GetProject(s, name, loaded1).1 == Some(s.projects[name])
  {
  }

  /** The routes of this module. */
  datatype Request =
    | AddEmbedding(project: string, feature: string)
    | ComputeProjectionOf(project: string, user: string, projection: ProjectionRequest)
    | CurrentProjection(project: string, user: string)
    | ListFeatures(project: string)

  function RequestProject(req: Request): string
  {
    match req
    case AddEmbedding(n, _) => n
    case ComputeProjectionOf(n, _, _) => n
    case CurrentProjection(n, _) => n
    case ListFeatures(n) => n
  }

  /** One HTTP request: the middleware's `update()` runs first, then the
      `get_project` dependency, then the route. When `update()` raises, the
      request never reaches its route and gets the 500 response. */
  function Handle(s: Server, req: Request, loaded: Project): (r: (Server, Reply))
    ensures r.0.registered == s.registered
    ensures forall n :: n in s.projects ==> n in r.0.projects
    ensures Update(s).Interrupted? ==> r == (Update(s).state, InternalError)
    ensures Update(s).Completed? && RequestProject(req) !in s.registered ==> r.1 == NotFound(404, "Project not found")
  {
    var pass := Update(s);
    if pass.Interrupted? then (pass.state, InternalError)
    else
      var s1 := pass.state;
      var name := RequestProject(req);
      var (s2, found) := GetProject(s1, name, loaded);
      match found
      case None => (s2, NotFound(404, "Project not found"))
      case Some(p) =>
        match req
        case AddEmbedding(_, feature) =>
          var (q, reply) := PostEmbeddings(p, feature);
          (s2.(projects := s2.projects[name := q]), reply)
        case ComputeProjectionOf(_, user, projection) =>
          var (q, reply) := ComputeProjection(p, user, projection);
          (s2.(projects := s2.projects[name := q]), reply)
        case CurrentProjection(_, user) =>
          (s2, GetProjection(p, user))
        case ListFeatures(_) =>
          (s2, FeatureNames(p.features.available.Keys))
  }

  /** Reconciliation runs before the route: a loaded project whose embedding
      file has landed lists that feature in the very next request, and a new
      request for it is accepted again. If any loaded project holds a raising
      future, both requests get the 500 response instead; the file is still
      absorbed when the pass reaches the project, and otherwise waits on
      disk. */
  lemma LandedEmbeddingVisibleNextRequest(s: Server, name: string, feature: string, loaded: Project)
    requires ValidServer(s)
    requires name in s.registered && name in s.projects
    requires IsEmbedding(feature) && feature in s.projects[name].files
    ensures !Blocked(s) ==>
              && Handle(s, ListFeatures(name), loaded).1.FeatureNames?
              && feature in Handle(s, ListFeatures(name), loaded).1.names
              && Handle(s, AddEmbedding(name, feature), loaded).1.Success?
    ensures Blocked(s) ==>
              && Handle(s, ListFeatures(name), loaded).1 == InternalError
              && Handle(s, AddEmbedding(name, feature), loaded).1 == InternalError
    ensures name in ReachedProjects(s) ==>
              feature in Handle(s, ListFeatures(name), loaded).0.projects[name].features.available
    ensures name !in ReachedProjects(s) ==>
              Handle(s, ListFeatures(name), loaded).0.projects[name] == s.projects[name]
  {
    UpdateEffect(s);
    UpdateAbsorbsLanded(s.projects[name], feature);
  }

  /** Every request keeps every loaded project valid. */
  lemma HandlePreservesValid(s: Server, req: Request, loaded: Project)
    requires ValidServer(s)
    requires Valid(loaded)
    ensures ValidServer(Handle(s, req, loaded).0)
  {
    UpdatePreservesValid(s);
  }

  /** A run of requests, each handled on the state the previous one left. */
  function Serve(s: Server, reqs: seq<Request>, loaded: Project): (r: (Server, seq<Reply>))
    ensures |r.1| == |reqs|
    decreases |reqs|
  {
    if |reqs| == 0 then (s, [])
    else
      var (s1, reply) := Handle(s, reqs[0], loaded);
      var (s2, replies) := Serve(s1, reqs[1..], loaded);
      (s2, [reply] + replies)
  }

  /** One request on a server holding a raising future: the 500 response, and
      the raising future is still in place for the next request. */
  lemma FailedJobBlocksRequest(s: Server, req: Request, loaded: Project, name: string, user: string)
    requires ValidServer(s)
    requires name in s.projects && user in s.projects[name].features.projections
    requires Failing(s.projects[name].features.projections[user])
    ensures Handle(s, req, loaded).1 == InternalError
    ensures ValidServer(Handle(s, req, loaded).0)
    ensures name in Handle(s, req, loaded).0.projects
    ensures user in Handle(s, req, loaded).0.projects[name].features.projections
    ensures Handle(s, req, loaded).0.projects[name].features.projections[user]
            == s.projects[name].features.projections[user]
  {
    UpdateEffect(s);
    UpdatePreservesValid(s);
    UpdateKeepsFailedJob(s.projects[name], user);
  }

  /** Once a projection future has raised, every later request fails with
      the 500 response: nothing on the request path can remove the future. */
  lemma {:induction false} FailedJobBlocksServer(s: Server, reqs: seq<Request>, loaded: Project, name: string, user: string)
    requires ValidServer(s)
    requires name in s.projects && user in s.projects[name].features.projections
    requires Failing(s.projects[name].features.projections[user])
    ensures forall i :: 0 <= i < |reqs| ==> Serve(s, reqs, loaded).1[i] == InternalError
    decreases |reqs|
  {
    if |reqs| > 0 {
      FailedJobBlocksRequest(s, reqs[0], loaded, name, user);
      var s1 := Handle(s, reqs[0], loaded).0;
      FailedJobBlocksServer(s1, reqs[1..], loaded, name, user);
      var replies := Serve(s, reqs, loaded).1;
      assert replies == [InternalError] + Serve(s1, reqs[1..], loaded).1;
    }
  }
}
