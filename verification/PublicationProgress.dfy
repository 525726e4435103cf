/** A process that is left alone, with sources that hold still, publishes all its inputs and then its bundle:
    no check refuses good work. */
module PublicationProgress {
  import opened Options
  import opened Sorting
  import opened Publication
  import opened PublicationRoles

  /** The state after one process alone has taken these actions, if each was enabled. */
  function Execute(w: World, s: State, id: nat, actions: seq<Action>): Option<State>
    decreases |actions|
  {
    if actions == [] then Some(s) else
      var t := Step(w, s, id, actions[0]);
      if t.None? then None else Execute(w, t.value, id, actions[1..])
  }

  lemma {:induction false} ExecuteConcat(w: World, s: State, id: nat, a: seq<Action>, t: State, b: seq<Action>)
    requires Execute(w, s, id, a) == Some(t)
    ensures Execute(w, s, id, a + b) == Execute(w, t, id, b)
    decreases |a|
  {
    if a == [] {
      assert a + b == b;
    } else {
      assert (a + b)[0] == a[0] && (a + b)[1..] == a[1..] + b;
      ExecuteConcat(w, Step(w, s, id, a[0]).value, id, a[1..], t, b);
    }
  }

  lemma {:induction false} ExecuteKeeps(w: World, s: State, id: nat, a: seq<Action>, t: State)
    requires Invariant(w, s) && Execute(w, s, id, a) == Some(t)
    ensures Invariant(w, t) && Keeps(s, t)
    decreases |a|
  {
    if a != [] {
      var u := Step(w, s, id, a[0]).value;
      StepKeepsInvariant(w, s, id, a[0], u);
      ExecuteKeeps(w, u, id, a[1..], t);
    }
  }

  lemma {:induction false} Twice(w: World, s: State, id: nat, a: Action, t: State, rest: seq<Action>)
    requires Step(w, s, id, a) == Some(t)
    ensures Execute(w, s, id, [a] + rest) == Execute(w, t, id, rest)
  {
    assert ([a] + rest)[0] == a && ([a] + rest)[1..] == rest;
  }

  // ----- one object

  /** The root with the object in place and the process past it. */
  function Placed(w: World, s: State, id: nat, p: Process, job: Job, content: Bytes, inode: nat): State {
    var destination := Destination(w, job);
    if destination in s.names then Complete(s, id, p, job)
    else Complete(s.(names := s.names[destination := inode], data := s.data[inode := content]), id, p, job)
  }

  /** No leftover of this process is in its way, and nobody else's object holds its name. */
  ghost predicate Free(w: World, s: State, p: Process, job: Job) {
    && Temporary(w, p.pid, job) !in s.names
    && (Destination(w, job) in s.names ==> Matches(w, s, Destination(w, job), job))
  }

  lemma {:induction false} ReuseObject(w: World, s: State, id: nat, p: Process, job: Job)
    requires id in s.processes && s.processes[id] == p && p.stage == Deciding(job)
    requires Destination(w, job) in s.names && Matches(w, s, Destination(w, job), job)
    ensures Execute(w, s, id, [TestExists, Compare]) == Some(Complete(s, id, p, job))
  {
    var t := Move(s, id, p, Comparing(job));
    Twice(w, s, id, TestExists, t, [Compare]);
    assert [TestExists] + [Compare] == [TestExists, Compare];
    var u := Complete(t, id, t.processes[id], job);
    Twice(w, t, id, Compare, u, []);
    assert [Compare] + [] == [Compare];
    assert u.processes == Complete(s, id, p, job).processes;
  }

  /** The file is written under its temporary name. */
  lemma {:induction false} WriteObject(w: World, s: State, id: nat, p: Process, job: Job, content: Bytes, inode: nat)
    requires id in s.processes && s.processes[id] == p && p.stage == Deciding(job)
    requires Destination(w, job) !in s.names && Temporary(w, p.pid, job) !in s.names && inode !in s.data
    requires SameContent(w, job, content)
    ensures var written := s.(names := s.names[Temporary(w, p.pid, job) := inode], data := s.data[inode := content]);
      Execute(w, s, id, [TestExists, Open(inode), Write(content)])
      == Some(Move(written, id, p, Writing(job, inode)))
  {
    var temporary := Temporary(w, p.pid, job);
    var a := Move(s, id, p, Creating(job));
    var b := Move(s.(names := s.names[temporary := inode], data := s.data[inode := []]), id, p, Writing(job, inode));
    var c := b.(data := s.data[inode := content]);
    Twice(w, s, id, TestExists, a, [Open(inode), Write(content)]);
    assert [TestExists] + [Open(inode), Write(content)] == [TestExists, Open(inode), Write(content)];
    assert a.processes[id := p.(stage := Writing(job, inode))] == s.processes[id := p.(stage := Writing(job, inode))];
    assert Step(w, a, id, Open(inode)) == Some(b);
    Twice(w, a, id, Open(inode), b, [Write(content)]);
    assert [Open(inode)] + [Write(content)] == [Open(inode), Write(content)];
    assert [] + content == content;
    assert b.data[inode := content] == s.data[inode := content];
    assert Step(w, b, id, Write(content)) == Some(c);
    Twice(w, b, id, Write(content), c, []);
    assert [Write(content)] + [] == [Write(content)];
  }

  function CheckActions(job: Job): seq<Action> {
    if job.InputJob? then [Close, Rehash] else [Close]
  }

  /** It passes its check. */
  lemma {:induction false} CheckObject(w: World, s: State, id: nat, p: Process, job: Job, inode: nat)
    requires id in s.processes && s.processes[id] == p && p.stage == Writing(job, inode)
    requires Temporary(w, p.pid, job) in s.names && s.names[Temporary(w, p.pid, job)] == inode
    requires inode in s.data && SameContent(w, job, s.data[inode])
    ensures Execute(w, s, id, CheckActions(job)) == Some(Move(s, id, p, Linking(job, inode)))
  {
    match job
    case InputJob(_, _) =>
      var a := Move(s, id, p, Checking(job, inode));
      var b := Move(a, id, a.processes[id], Linking(job, inode));
      Twice(w, s, id, Close, a, [Rehash]);
      assert [Close] + [Rehash] == [Close, Rehash];
      Twice(w, a, id, Rehash, b, []);
      assert [Rehash] + [] == [Rehash];
      assert b.processes == s.processes[id := p.(stage := Linking(job, inode))];
    case BundleJob(_) =>
      Twice(w, s, id, Close, Move(s, id, p, Linking(job, inode)), []);
      assert [Close] + [] == [Close];
  }

  /** It gets its final name and loses the temporary one. */
  lemma {:induction false} LinkObject(
      w: World, s: State, id: nat, p: Process, job: Job, inode: nat, names: map<Path, nat>)
    requires id in s.processes && s.processes[id] == p && p.stage == Linking(job, inode)
    requires Destination(w, job) !in names && Temporary(w, p.pid, job) !in names
    requires Destination(w, job) != Temporary(w, p.pid, job)
    requires s.names == names[Temporary(w, p.pid, job) := inode]
    ensures Execute(w, s, id, [Link, Unlink])
      == Some(Complete(s.(names := names[Destination(w, job) := inode]), id, p, job))
  {
    var destination, temporary := Destination(w, job), Temporary(w, p.pid, job);
    var a := Move(s.(names := s.names[destination := inode]), id, p, Cleaning(job, inode, true));
    assert Step(w, s, id, Link) == Some(a);
    Twice(w, s, id, Link, a, [Unlink]);
    assert [Link] + [Unlink] == [Link, Unlink];
    assert s.names[destination := inode] - {temporary} == names[destination := inode];
    var b := Complete(a.(names := names[destination := inode]), id, a.processes[id], job);
    assert Step(w, a, id, Unlink) == Some(b);
    Twice(w, a, id, Unlink, b, []);
    assert [Unlink] + [] == [Unlink];
    assert b.processes == Complete(s.(names := names[destination := inode]), id, p, job).processes;
  }

  lemma {:induction false} PlaceObject(w: World, s: State, id: nat, p: Process, job: Job, content: Bytes, inode: nat)
    returns (actions: seq<Action>)
    requires id in s.processes && s.processes[id] == p && p.stage == Deciding(job) && inode !in s.data
    requires Free(w, s, p, job) && SameContent(w, job, content) && (job.InputJob? ==> ValidArtifactName(job.name))
    ensures Execute(w, s, id, actions) == Some(Placed(w, s, id, p, job, content, inode))
  {
    if Destination(w, job) in s.names {
      ReuseObject(w, s, id, p, job);
      return [TestExists, Compare];
    }
    NamesSeparate(w, p.pid, job);
    var temporary := Temporary(w, p.pid, job);
    var written := s.(names := s.names[temporary := inode], data := s.data[inode := content]);
    var a := Move(written, id, p, Writing(job, inode));
    WriteObject(w, s, id, p, job, content, inode);
    CheckObject(w, a, id, a.processes[id], job, inode);
    var b := Move(a, id, a.processes[id], Linking(job, inode));
    LinkObject(w, b, id, b.processes[id], job, inode, s.names);
    var first := [TestExists, Open(inode), Write(content)];
    ExecuteConcat(w, s, id, first, a, CheckActions(job));
    ExecuteConcat(w, s, id, first + CheckActions(job), b, [Link, Unlink]);
    actions := first + CheckActions(job) + [Link, Unlink];
    SameEnd(w, s, id, p, b, job, content, inode);
  }

  lemma {:induction false} SameEnd(
      w: World, s: State, id: nat, p: Process, b: State, job: Job, content: Bytes, inode: nat)
    requires id in s.processes && s.processes[id] == p && Destination(w, job) !in s.names
    requires id in b.processes && b.data == s.data[inode := content]
    requires b.processes == s.processes[id := p.(stage := Linking(job, inode))]
    ensures Complete(b.(names := s.names[Destination(w, job) := inode]), id, b.processes[id], job)
      == Placed(w, s, id, p, job, content, inode)
  {
    var x := Complete(b.(names := s.names[Destination(w, job) := inode]), id, b.processes[id], job);
    var y := Placed(w, s, id, p, job, content, inode);
    assert x.processes == y.processes;
  }

  lemma {:induction false} FreshInode(used: set<nat>) returns (n: nat)
    ensures n !in used
  {
    n := Above(used);
  }

  lemma {:induction false} Above(used: set<nat>) returns (n: nat)
    ensures forall x :: x in used ==> x < n
    decreases |used|
  {
    if used == {} { return 0; }
    var x :| x in used;
    n := Above(used - {x});
    n := if x < n then n else x + 1;
    assert forall y :: y in used ==> y == x || y in used - {x};
  }

  // ----- all inputs

  /** No file of the root has a temporary name of this process. */
  ghost predicate NoLeftovers(w: World, s: State, pid: string) {
    forall job :: Temporary(w, pid, job) !in s.names
  }

  /** Bundles are untouched. */
  ghost predicate SameBundles(s: State, t: State) {
    forall path: Path :: path.folder.Bundles? ==>
      && (path in t.names <==> path in s.names)
      && (path in s.names && s.names[path] in s.data ==>
            t.names[path] in t.data && t.data[t.names[path]] == s.data[s.names[path]])
  }

  /** The process has published its inputs so far, each with the digest of its content. */
  ghost predicate Ready(w: World, s: State, id: nat, p: Process, contents: seq<Bytes>) {
    && Invariant(w, s) && id in s.processes && s.processes[id] == p && p.stage.Idle? && NoLeftovers(w, s, p.pid)
    && |contents| == |p.inputs| && |p.published| <= |p.inputs|
    && (forall i :: 0 <= i < |p.inputs| ==> ValidArtifactName(p.inputs[i]))
    && forall i :: 0 <= i < |p.published| ==> p.published[i] == Ref(w.sha(contents[i]), p.inputs[i])
  }

  /** The process with its next input published. */
  function Next(w: World, p: Process, contents: seq<Bytes>): Process
    requires |p.published| < |p.inputs| == |contents|
  {
    var k := |p.published|;
    p.(published := p.published + [Ref(w.sha(contents[k]), p.inputs[k])])
  }

  /** A name that is taken for an input holds an object with its digest. */
  lemma {:induction false} InputFree(w: World, s: State, p: Process, job: Job)
    requires Invariant(w, s) && NoLeftovers(w, s, p.pid) && job.InputJob? && ValidArtifactName(job.name)
    ensures Free(w, s, p, job)
  {
    NamesSeparate(w, p.pid, job);
    assert Temporary(w, p.pid, job) !in s.names;
    if Destination(w, job) in s.names { assert GoodFile(w, s, Destination(w, job)); }
  }

  lemma {:induction false} PlacedNames(w: World, s: State, id: nat, p: Process, job: Job, content: Bytes, inode: nat)
    requires Invariant(w, s) && inode !in s.data && NoLeftovers(w, s, p.pid)
    requires job.InputJob? ==> ValidArtifactName(job.name)
    ensures NoLeftovers(w, Placed(w, s, id, p, job, content, inode), p.pid)
    ensures job.InputJob? ==> SameBundles(s, Placed(w, s, id, p, job, content, inode))
  {
    var t := Placed(w, s, id, p, job, content, inode);
    NamesSeparate(w, p.pid, job);
    forall other ensures Temporary(w, p.pid, other) !in t.names {
      assert Temporary(w, p.pid, other) !in s.names;
      assert !Published(Temporary(w, p.pid, other));
    }
  }

  /** The next input is digested, and its name is free. */
  lemma {:induction false} DecideNext(w: World, s: State, id: nat, p: Process, contents: seq<Bytes>)
    returns (job: Job, u: State)
    requires Ready(w, s, id, p, contents) && |p.published| < |p.inputs|
    ensures job == InputJob(w.sha(contents[|p.published|]), p.inputs[|p.published|])
    ensures u == Move(s, id, p, Deciding(job)) && Step(w, s, id, Digest(job.digest)) == Some(u)
    ensures Invariant(w, u) && NoLeftovers(w, u, p.pid) && SameBundles(s, u)
    ensures Free(w, u, p.(stage := Deciding(job)), job) && ValidArtifactName(job.name)
  {
    var k := |p.published|;
    job := InputJob(w.sha(contents[k]), p.inputs[k]);
    u := Move(s, id, p, Deciding(job));
    StepKeepsInvariant(w, s, id, Digest(job.digest), u);
    InputFree(w, u, p.(stage := Deciding(job)), job);
  }

  lemma {:induction false} PublishNext(w: World, s: State, id: nat, p: Process, contents: seq<Bytes>)
    returns (actions: seq<Action>, t: State)
    requires Ready(w, s, id, p, contents) && |p.published| < |p.inputs|
    ensures Execute(w, s, id, actions) == Some(t) && SameBundles(s, t)
    ensures Ready(w, t, id, Next(w, p, contents), contents)
  {
    var content := contents[|p.published|];
    var job, u := DecideNext(w, s, id, p, contents);
    var q := p.(stage := Deciding(job));
    var inode := FreshInode(u.data.Keys);
    var rest := PlaceObject(w, u, id, q, job, content, inode);
    t := Placed(w, u, id, q, job, content, inode);
    Twice(w, s, id, Digest(job.digest), u, rest);
    actions := [Digest(job.digest)] + rest;
    ExecuteKeeps(w, s, id, actions, t);
    PlacedNames(w, u, id, q, job, content, inode);
    BundlesThen(s, u, t);
    NextReady(w, s, id, p, contents, t);
  }

  lemma {:induction false} NextReady(w: World, s: State, id: nat, p: Process, contents: seq<Bytes>, t: State)
    requires Ready(w, s, id, p, contents) && |p.published| < |p.inputs|
    requires Invariant(w, t) && NoLeftovers(w, t, p.pid)
    requires id in t.processes && t.processes[id] == Next(w, p, contents)
    ensures Ready(w, t, id, Next(w, p, contents), contents)
  {
  }

  lemma {:induction false} BundlesThen(s: State, t: State, u: State)
    requires SameBundles(s, t) && SameBundles(t, u)
    ensures SameBundles(s, u)
  {
  }

  lemma {:induction false} PublishAll(w: World, s: State, id: nat, p: Process, contents: seq<Bytes>)
    returns (actions: seq<Action>, t: State, q: Process)
    requires Ready(w, s, id, p, contents)
    ensures Execute(w, s, id, actions) == Some(t) && Ready(w, t, id, q, contents) && SameBundles(s, t)
    ensures q.pid == p.pid && q.inputs == p.inputs && q.settings == p.settings && |q.published| == |q.inputs|
    decreases |p.inputs| - |p.published|
  {
    if |p.published| == |p.inputs| { return [], s, p; }
    var first, u := PublishNext(w, s, id, p, contents);
    var rest;
    rest, t, q := PublishAll(w, u, id, Next(w, p, contents), contents);
    ExecuteConcat(w, s, id, first, u, rest);
    BundlesThen(s, u, t);
    actions := first + rest;
  }

  // ----- and the bundle

  /** The bundle of these inputs with these contents. */
  ghost predicate Describes(w: World, inputs: seq<string>, contents: seq<Bytes>, settings: string, b: Bundle) {
    && FillsRoles(inputs, settings, b) && |contents| == |inputs|
    && b.source.sha256 == w.sha(contents[0])
    && (forall i :: 0 <= i < |b.ontologies| ==> b.ontologies[i].sha256 == w.sha(contents[i+1]))
    && b.query.sha256 == w.sha(contents[|inputs|-2])
    && b.expected.sha256 == w.sha(contents[|inputs|-1])
  }

  /** No other bundle is published under the digest of this one. */
  ghost predicate NoConflict(w: World, s: State, b: Bundle) {
    Destination(w, BundleJob(b)) in s.names ==> Matches(w, s, Destination(w, BundleJob(b)), BundleJob(b))
  }

  lemma {:induction false} BundleDescribes(w: World, s: State, id: nat, p: Process, contents: seq<Bytes>)
    requires Ready(w, s, id, p, contents) && |p.published| == |p.inputs| >= 4
    ensures Describes(w, p.inputs, contents, p.settings, BundleOf(p))
  {
    var b, n := BundleOf(p), |p.published|;
    assert forall i :: 0 <= i < |b.ontologies| ==> b.ontologies[i] == p.published[i+1];
  }

  lemma {:induction false} PublishBundle(w: World, s: State, id: nat, p: Process, contents: seq<Bytes>)
    returns (actions: seq<Action>, t: State, b: Bundle)
    requires Ready(w, s, id, p, contents) && |p.published| == |p.inputs| >= 4
    requires forall b :: Describes(w, p.inputs, contents, p.settings, b) ==> NoConflict(w, s, b)
    ensures Execute(w, s, id, actions) == Some(t) && Describes(w, p.inputs, contents, p.settings, b)
    ensures id in t.processes && t.processes[id].stage.Finished?
    ensures Matches(w, t, Destination(w, BundleJob(b)), BundleJob(b))
  {
    b := BundleOf(p);
    BundleDescribes(w, s, id, p, contents);
    var job := BundleJob(b);
    var q, u := p.(stage := Deciding(job)), Move(s, id, p, Deciding(job));
    Twice(w, s, id, Assemble, u, []);
    assert [Assemble] + [] == [Assemble];
    assert Temporary(w, p.pid, job) !in u.names;
    var inode := FreshInode(u.data.Keys);
    var rest := PlaceObject(w, u, id, q, job, w.json(b), inode);
    ExecuteConcat(w, s, id, [Assemble], u, rest);
    actions := [Assemble] + rest;
    t := Placed(w, u, id, q, job, w.json(b), inode);
  }

  /** A process started alone on a good root, with names that are valid and different, sources that hold
      still, no leftovers of its own and no colliding bundle, finishes: it publishes the bundle that describes
      its inputs, and everything the bundle names is visible. */
  lemma {:induction false} LoneProcessFinishes(
      w: World, s: State, id: nat, pid: string, inputs: seq<string>, settings: string, contents: seq<Bytes>)
    returns (actions: seq<Action>, t: State, b: Bundle)
    requires Invariant(w, s) && id !in s.processes && NoLeftovers(w, s, pid)
    requires |contents| == |inputs| >= 4 && Distinct(inputs)
    requires forall i :: 0 <= i < |inputs| ==> ValidArtifactName(inputs[i])
    requires forall b :: Describes(w, inputs, contents, settings, b) ==> NoConflict(w, s, b)
    ensures Execute(w, s, id, actions) == Some(t) && Describes(w, inputs, contents, settings, b)
    ensures id in t.processes && t.processes[id].stage.Finished?
    ensures var path := Path(Bundles(w.sha(w.json(b))), "compilation-bundle.json");
      path in t.names && t.names[path] in t.data && t.data[t.names[path]] == w.json(b)
    ensures Invariant(w, t) && Keeps(s, t)
  {
    var spawn := Spawn(pid, inputs, settings);
    var p := Process(pid, inputs, settings, [], Idle);
    var u := s.(processes := s.processes[id := p]);
    Twice(w, s, id, spawn, u, []);
    assert [spawn] + [] == [spawn];
    StepKeepsInvariant(w, s, id, spawn, u);
    assert Ready(w, u, id, p, contents);
    var middle, v, q := PublishAll(w, u, id, p, contents);
    ExecuteConcat(w, s, id, [spawn], u, middle);
    StillNoConflict(w, u, v, inputs, contents, settings);
    var last;
    last, t, b := PublishBundle(w, v, id, q, contents);
    ExecuteConcat(w, s, id, [spawn] + middle, v, last);
    actions := [spawn] + middle + last;
    ExecuteKeeps(w, s, id, actions, t);
  }

  lemma {:induction false} StillNoConflict(
      w: World, s: State, t: State, inputs: seq<string>, contents: seq<Bytes>, settings: string)
    requires SameBundles(s, t)
    requires forall b :: Describes(w, inputs, contents, settings, b) ==> NoConflict(w, s, b)
    ensures forall b :: Describes(w, inputs, contents, settings, b) ==> NoConflict(w, t, b)
  {
    forall b | Describes(w, inputs, contents, settings, b) ensures NoConflict(w, t, b) {
      var path := Destination(w, BundleJob(b));
      assert NoConflict(w, s, b) && path.folder.Bundles?;
      assert path in t.names <==> path in s.names;
    }
  }

  // ----- and what stops it

  /** ASCII letters, digits, full stop, hyphen and underscore. */
  predicate NameCharacter(c: char) {
    var n := c as int;
    65 <= n < 91 || 97 <= n < 123 || 48 <= n < 58 || n == 46 || n == 45 || n == 95
  }

  /** A file name of these characters that starts with no full stop or hyphen and is not reserved. */
  ghost predicate GoodName(name: string) {
    && name != [] && (forall i :: 0 <= i < |name| ==> NameCharacter(name[i])) && name[0] != '.' && name[0] != '-'
    && name != "compilation-bundle.json" && name != "reference-compile.json"
  }

  lemma {:induction false} NameExactly(name: string)
    ensures ValidArtifactName(name) <==> GoodName(name)
  {
    forall c ensures NameCharacter(c) <==> SegmentStart(c) || c in "._-" { CharacterExactly(c); }
  }

  lemma {:induction false} CharacterExactly(c: char)
    ensures NameCharacter(c) <==> SegmentStart(c) || c in "._-"
  {
    var others := "._-";
    assert others[0] == '.' && others[1] == '_' && others[2] == '-';
  }

  /** A bad name raises before anything is written. */
  lemma {:induction false} BadNameRaises(w: World, s: State, id: nat, digest: string)
    requires id in s.processes && s.processes[id].stage.Idle?
    requires |s.processes[id].published| < |s.processes[id].inputs|
    requires !GoodName(s.processes[id].inputs[|s.processes[id].published|])
    ensures Step(w, s, id, Digest(digest)) == Some(Move(s, id, s.processes[id], Raised))
  {
    NameExactly(s.processes[id].inputs[|s.processes[id].published|]);
  }

  /** A crash leaves every file as it is, and the process takes no further step. */
  lemma {:induction false} CrashLeavesFiles(w: World, s: State, id: nat, t: State, a: Action)
    requires Step(w, s, id, Crash) == Some(t)
    ensures t.names == s.names && t.data == s.data && t.processes == s.processes - {id}
    ensures !a.Spawn? ==> Step(w, t, id, a) == None
  {
  }

  /** A leftover of an earlier process with the same pid stops its successor before it writes anything. */
  lemma {:induction false} LeftoverRaises(w: World, s: State, id: nat, job: Job, inode: nat)
    requires id in s.processes && s.processes[id].stage == Deciding(job)
    requires Temporary(w, s.processes[id].pid, job) in s.names && Destination(w, job) !in s.names
    ensures Execute(w, s, id, [TestExists, Open(inode)]) == Some(Move(s, id, s.processes[id], Raised))
  {
    var t := Move(s, id, s.processes[id], Creating(job));
    var u := Move(t, id, t.processes[id], Raised);
    Twice(w, s, id, TestExists, t, [Open(inode)]);
    assert [TestExists] + [Open(inode)] == [TestExists, Open(inode)];
    Twice(w, t, id, Open(inode), u, []);
    assert [Open(inode)] + [] == [Open(inode)];
    assert u == Move(s, id, s.processes[id], Raised);
  }
}
