/** Which published object fills which role of a bundle, in every run of the shared object root; and that a
    process left alone does finish. */
module PublicationRoles {
  import opened Options
  import opened Sorting
  import opened Publication

  // ----- roles

  /** The bundle names the inputs in their order on the command line: source, ontologies, query, expected. */
  ghost predicate FillsRoles(inputs: seq<string>, settings: string, b: Bundle) {
    && |inputs| >= 4 && |b.ontologies| == |inputs| - 3
    && b.source.fileName == inputs[0]
    && (forall i :: 0 <= i < |b.ontologies| ==> b.ontologies[i].fileName == inputs[i+1])
    && b.query.fileName == inputs[|inputs|-2]
    && b.expected.fileName == inputs[|inputs|-1]
    && b.settings == settings
  }

  /** Every object the bundle names is one of these. */
  ghost predicate DrawnFrom(refs: seq<Ref>, b: Bundle) {
    && b.source in refs && b.query in refs && b.expected in refs
    && forall i :: 0 <= i < |b.ontologies| ==> b.ontologies[i] in refs
  }

  /** A process publishes its inputs one after the other, and what it then publishes is their bundle. */
  ghost predicate InOrder(p: Process) {
    && |p.published| <= |p.inputs|
    && (forall i :: 0 <= i < |p.published| ==> p.published[i].fileName == p.inputs[i])
    && (p.stage.Raised? || Distinct(p.inputs))
    && (Busy(p.stage) ==> JobInOrder(p, p.stage.job))
  }

  ghost predicate JobInOrder(p: Process, job: Job) {
    match job
    case InputJob(_, name) => |p.published| < |p.inputs| && name == p.inputs[|p.published|]
    case BundleJob(b) => FillsRoles(p.inputs, p.settings, b) && DrawnFrom(p.published, b)
  }

  ghost predicate AllInOrder(s: State) {
    forall id :: id in s.processes ==> InOrder(s.processes[id])
  }

  lemma {:induction false} BundleInOrder(p: Process)
    requires InOrder(p) && p.stage.Idle? && |p.published| == |p.inputs| >= 4
    ensures JobInOrder(p, BundleJob(BundleOf(p)))
  {
    var b, n := BundleOf(p), |p.published|;
    assert forall i :: 0 <= i < |b.ontologies| ==> b.ontologies[i] == p.published[i+1];
  }

  /** The process has moved on, and nothing but its progress has changed. */
  ghost predicate Moved(p: Process, q: Process) {
    InOrder(q) && q.inputs == p.inputs && q.settings == p.settings
  }

  lemma {:induction false} SameJob(p: Process, stage: Stage)
    requires InOrder(p) && Busy(p.stage)
    requires Busy(stage) ==> stage.job == p.stage.job
    ensures Moved(p, p.(stage := stage))
  {
  }

  lemma {:induction false} NextPublished(p: Process, ref: Ref)
    requires InOrder(p) && !p.stage.Raised? && |p.published| < |p.inputs| && ref.fileName == p.inputs[|p.published|]
    ensures Moved(p, p.(published := p.published + [ref], stage := Idle))
  {
    var q := p.(published := p.published + [ref], stage := Idle);
    forall i | 0 <= i < |q.published| ensures q.published[i].fileName == q.inputs[i] {
      if i < |p.published| { assert q.published[i] == p.published[i]; }
    }
  }

  lemma {:induction false} JobDone(s: State, id: nat, p: Process)
    requires InOrder(p) && Busy(p.stage)
    ensures var t := Complete(s, id, p, p.stage.job);
      id in t.processes && t.processes == s.processes[id := t.processes[id]] && Moved(p, t.processes[id])
  {
    match p.stage.job
    case InputJob(digest, name) => NextPublished(p, Ref(digest, name));
    case BundleJob(_) => SameJob(p, Finished);
  }

  lemma {:induction false} BeginInOrder(w: World, s: State, id: nat, p: Process, a: Action, t: State)
    requires InOrder(p) && (a.Digest? || a.Assemble?) && ProcessStep(w, s, id, p, a) == Some(t)
    ensures t.processes == s.processes[id := t.processes[id]] && Moved(p, t.processes[id])
  {
    if a.Assemble? { BundleInOrder(p); }
  }

  /** The step only moved the process on with its job, or stopped it. */
  ghost predicate Shifted(s: State, id: nat, p: Process, t: State) {
    && Busy(p.stage) && id in t.processes
    && t.processes == s.processes[id := p.(stage := t.processes[id].stage)]
    && (Busy(t.processes[id].stage) ==> t.processes[id].stage.job == p.stage.job)
  }

  lemma {:induction false} OpenShifts(w: World, s: State, id: nat, p: Process, inode: nat, t: State)
    requires OpenStep(w, s, id, p, inode) == Some(t)
    ensures Shifted(s, id, p, t)
  {
  }

  lemma {:induction false} LinkShifts(w: World, s: State, id: nat, p: Process, t: State)
    requires LinkStep(w, s, id, p) == Some(t)
    ensures Shifted(s, id, p, t)
  {
  }

  lemma {:induction false} ShiftInOrder(s: State, id: nat, p: Process, t: State)
    requires InOrder(p) && Shifted(s, id, p, t)
    ensures id in t.processes && t.processes == s.processes[id := t.processes[id]] && Moved(p, t.processes[id])
  {
    SameJob(p, t.processes[id].stage);
  }

  lemma {:induction false} UnlinkInOrder(w: World, s: State, id: nat, p: Process, t: State)
    requires InOrder(p) && UnlinkStep(w, s, id, p) == Some(t)
    ensures id in t.processes && t.processes == s.processes[id := t.processes[id]] && Moved(p, t.processes[id])
  {
    JobDone(s.(names := s.names - {Temporary(w, p.pid, p.stage.job)}), id, p);
    SameJob(p, Raised);
  }

  lemma {:induction false} CompareInOrder(w: World, s: State, id: nat, p: Process, t: State)
    requires InOrder(p) && CompareStep(w, s, id, p) == Some(t)
    ensures id in t.processes && t.processes == s.processes[id := t.processes[id]] && Moved(p, t.processes[id])
  {
    JobDone(s, id, p);
    SameJob(p, Raised);
  }

  lemma {:induction false} QuietShifts(w: World, s: State, id: nat, p: Process, a: Action, t: State)
    requires id in s.processes && s.processes[id] == p
    requires a.TestExists? || a.Write? || a.Close? || a.Rehash? || a.Settle?
    requires ProcessStep(w, s, id, p, a) == Some(t)
    ensures Shifted(s, id, p, t)
  {
  }

  lemma {:induction false} ActInOrder(w: World, s: State, id: nat, p: Process, a: Action, t: State)
    requires id in s.processes && s.processes[id] == p && InOrder(p) && !a.Spawn? && !a.Crash?
    requires ProcessStep(w, s, id, p, a) == Some(t)
    ensures id in t.processes && t.processes == s.processes[id := t.processes[id]] && Moved(p, t.processes[id])
  {
    match a
    case Digest(_) => BeginInOrder(w, s, id, p, a, t);
    case Assemble => BeginInOrder(w, s, id, p, a, t);
    case Unlink => UnlinkInOrder(w, s, id, p, t);
    case Compare => CompareInOrder(w, s, id, p, t);
    case Open(inode) =>
      OpenShifts(w, s, id, p, inode, t);
      ShiftInOrder(s, id, p, t);
    case Link =>
      LinkShifts(w, s, id, p, t);
      ShiftInOrder(s, id, p, t);
    case _ =>
      QuietShifts(w, s, id, p, a, t);
      ShiftInOrder(s, id, p, t);
  }

  /** Every step keeps the order, and no process changes its inputs. */
  lemma {:induction false} StepKeepsOrder(w: World, s: State, id: nat, a: Action, t: State)
    requires AllInOrder(s) && Step(w, s, id, a) == Some(t)
    ensures AllInOrder(t)
    ensures forall j :: j in t.processes && j in s.processes ==>
      t.processes[j].inputs == s.processes[j].inputs && t.processes[j].settings == s.processes[j].settings
  {
    if !a.Spawn? && !a.Crash? {
      ActInOrder(w, s, id, s.processes[id], a, t);
    }
  }

  /** A run in which the processes present at the start are in order, as when there are none. */
  ghost predicate OrderedRun(w: World, states: seq<State>, steps: seq<(nat, Action)>) {
    Run(w, states, steps) && AllInOrder(states[0])
  }

  lemma {:induction false} RunKeepsOrder(w: World, states: seq<State>, steps: seq<(nat, Action)>, i: nat)
    requires OrderedRun(w, states, steps) && i < |states|
    ensures AllInOrder(states[i])
  {
    if i > 0 {
      RunKeepsOrder(w, states, steps, i - 1);
      StepKeepsOrder(w, states[i-1], steps[i-1].0, steps[i-1].1, states[i]);
    }
  }

  /** In every reachable state a process that publishes a bundle has its inputs, and only they, in the roles
      their order gives them; no two of them have the same name. */
  lemma {:induction false} BundleFillsRoles(
      w: World, states: seq<State>, steps: seq<(nat, Action)>, i: nat, id: nat)
    requires OrderedRun(w, states, steps) && i < |states| && id in states[i].processes
    requires Busy(states[i].processes[id].stage) && states[i].processes[id].stage.job.BundleJob?
    ensures var p := states[i].processes[id];
      && FillsRoles(p.inputs, p.settings, p.stage.job.bundle) && DrawnFrom(p.published, p.stage.job.bundle)
      && Distinct(p.inputs) && |p.published| <= |p.inputs|
      && forall k :: 0 <= k < |p.published| ==> p.published[k].fileName == p.inputs[k]
  {
    RunKeepsOrder(w, states, steps, i);
  }

  // ----- who published a visible bundle

  /** No other step gives a file a final name. */
  lemma {:induction false} OthersDoNotPublish(w: World, s: State, id: nat, a: Action, t: State, path: Path)
    requires Invariant(w, s) && Step(w, s, id, a) == Some(t) && !a.Link?
    requires Published(path) && path in t.names
    ensures path in s.names
  {
    if a.Open? && s.processes[id].stage.Creating? {
      var p := s.processes[id];
      assert GoodProcess(w, s, p);
      NamesSeparate(w, p.pid, p.stage.job);
    }
  }

  /** Only a link gives a file a final name, and it is a checked temporary of its own. */
  lemma {:induction false} AppearsByLink(w: World, s: State, id: nat, a: Action, t: State, path: Path)
    requires Invariant(w, s) && Step(w, s, id, a) == Some(t)
    requires Published(path) && path !in s.names && path in t.names
    ensures id in s.processes && a.Link? && s.processes[id].stage.Linking?
    ensures path == Destination(w, s.processes[id].stage.job)
    ensures t.names[path] == s.processes[id].stage.inode && t.data == s.data
    ensures s.processes[id].stage.inode in s.data
    ensures SameContent(w, s.processes[id].stage.job, s.data[s.processes[id].stage.inode])
  {
    if !a.Link? { OthersDoNotPublish(w, s, id, a, t, path); }
    assert GoodProcess(w, s, s.processes[id]);
  }

  /** Event `k` of the run linked the bundle `b` of process `id`, whose roles its inputs fill. */
  ghost predicate LinkedBy(w: World, states: seq<State>, steps: seq<(nat, Action)>, k: nat, id: nat, b: Bundle) {
    && k < |steps| < |states| && steps[k] == (id, Link) && id in states[k].processes
    && var p := states[k].processes[id];
       && p.stage.Linking? && p.stage.job == BundleJob(b)
       && FillsRoles(p.inputs, p.settings, b) && DrawnFrom(p.published, b)
  }

  lemma {:induction false} FirstAppearance(
      w: World, states: seq<State>, steps: seq<(nat, Action)>, i: nat, path: Path) returns (k: nat)
    requires Run(w, states, steps) && i < |states| && path !in states[0].names && path in states[i].names
    ensures k < i && path !in states[k].names && path in states[k+1].names
  {
    k := i - 1;
    while path in states[k].names
      invariant 0 <= k < i && path in states[k+1].names
      decreases k
    {
      k := k - 1;
    }
  }

  /** Every bundle that became visible during a run was linked by a process of that run: its content is the
      rendering of a bundle whose roles that process's inputs fill, and all it names is visible. */
  lemma {:induction false} VisibleBundleOrigin(
      w: World, states: seq<State>, steps: seq<(nat, Action)>, i: nat, path: Path)
    returns (k: nat, id: nat, b: Bundle)
    requires OrderedRun(w, states, steps) && i < |states|
    requires Published(path) && path.folder.Bundles? && path !in states[0].names && path in states[i].names
    ensures k < i && LinkedBy(w, states, steps, k, id, b)
    ensures states[i].names[path] in states[i].data && states[i].data[states[i].names[path]] == w.json(b)
    ensures AllAvailable(w, states[i], b)
  {
    k := FirstAppearance(w, states, steps, i, path);
    id := steps[k].0;
    RunKeeps(w, states, steps, k, i);
    RunKeeps(w, states, steps, k + 1, i);
    RunKeeps(w, states, steps, k, k + 1);
    AppearsByLink(w, states[k], id, steps[k].1, states[k+1], path);
    var p := states[k].processes[id];
    b := p.stage.job.bundle;
    RunKeepsOrder(w, states, steps, k);
    assert GoodProcess(w, states[k], p);
    AvailableLater(w, states[k], states[i], b);
  }

  lemma {:induction false} AvailableLater(w: World, s: State, t: State, b: Bundle)
    requires AllAvailable(w, s, b) && Keeps(s, t)
    ensures AllAvailable(w, t, b)
  {
  }
}
