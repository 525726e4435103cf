/** Publication into the shared object root by any number of processes at once: write a
    private temporary, re-hash it, hard-link it to its content-addressed name if that name is
    free, unlink the temporary; and the compilation bundle only after everything it names.
    Every file-system call is one step, any process may crash between steps, and the source
    bytes may change while they are copied. */
module Publication {
  import opened Options
  import opened Sorting

  type Bytes = string

  datatype Ref = Ref(sha256: string, fileName: string)
  datatype Bundle = Bundle(source: Ref, ontologies: seq<Ref>, query: Ref, expected: Ref, settings: string)

  /** SHA-256 in hexadecimal and the JSON rendering of a bundle, both taken as given. */
  datatype World = World(sha: Bytes -> string, json: Bundle -> Bytes)

  datatype Folder = Inputs(digest: string) | Bundles(digest: string)
  datatype Path = Path(folder: Folder, name: string)

  const BUNDLE_NAME := "compilation-bundle.json"
  const RESERVED_NAMES := {"compilation-bundle.json", "reference-compile.json"}

  predicate SegmentStart(c: char) {
    'A' <= c <= 'Z' || 'a' <= c <= 'z' || '0' <= c <= '9' || c == '_'
  }

  predicate ObjectSegment(name: string) {
    name != [] && SegmentStart(name[0])
    && forall i :: 1 <= i < |name| ==> SegmentStart(name[i]) || name[i] in "._-"
  }

  predicate ValidArtifactName(name: string) {
    ObjectSegment(name) && name !in RESERVED_NAMES
  }

  /** What a process is publishing. */
  datatype Job = InputJob(digest: string, name: string) | BundleJob(bundle: Bundle)

  function Destination(w: World, job: Job): Path {
    match job
    case InputJob(digest, name) => Path(Inputs(digest), name)
    case BundleJob(bundle) => Path(Bundles(w.sha(w.json(bundle))), BUNDLE_NAME)
  }

  function Temporary(w: World, pid: string, job: Job): Path {
    var destination := Destination(w, job);
    Path(destination.folder, "." + destination.name + "." + pid + ".partial")
  }

  datatype Stage =
    | Idle
    | Deciding(job: Job)
    | Comparing(job: Job)
    | Creating(job: Job)
    | Writing(job: Job, inode: nat)
    | Checking(job: Job, inode: nat)
    | Linking(job: Job, inode: nat)
    | Refused(job: Job, inode: nat)
    | Cleaning(job: Job, inode: nat, ok: bool)
    | Finished
    | Raised

  /** `inputs` are the base names in publication order: source, ontologies, query, expected. */
  datatype Process = Process(pid: string, inputs: seq<string>, settings: string, published: seq<Ref>, stage: Stage)

  /** Names are hard links to inodes; two processes may share a pid on different hosts. */
  datatype State = State(names: map<Path, nat>, data: map<nat, Bytes>, processes: map<nat, Process>)

  datatype Action =
    | Spawn(pid: string, inputs: seq<string>, settings: string)
    | Digest(digest: string)
    | Assemble
    | TestExists
    | Compare
    | Open(inode: nat)
    | Write(chunk: Bytes)
    | Close
    | Rehash
    | Link
    | Settle
    | Unlink
    | Crash

  function BundleOf(p: Process): Bundle
    requires |p.published| >= 4
  {
    var n := |p.published|;
    Bundle(p.published[0], p.published[1..n-2], p.published[n-2], p.published[n-1], p.settings)
  }

  function Move(s: State, id: nat, p: Process, stage: Stage): State {
    s.(processes := s.processes[id := p.(stage := stage)])
  }

  /** `publish_file` returned, or the bundle is in place. */
  function Complete(s: State, id: nat, p: Process, job: Job): State {
    match job
    case InputJob(digest, name) =>
      s.(processes := s.processes[id := p.(published := p.published + [Ref(digest, name)], stage := Idle)])
    case BundleJob(_) => Move(s, id, p, Finished)
  }

  /** An existing destination is accepted if it re-hashes to the digest, or is byte-equal to the bundle. */
  predicate SameContent(w: World, job: Job, content: Bytes) {
    match job
    case InputJob(digest, _) => w.sha(content) == digest
    case BundleJob(bundle) => content == w.json(bundle)
  }

  /** One step of process `id`, or none when the action is not enabled. */
  function Step(w: World, s: State, id: nat, a: Action): Option<State> {
    if a.Spawn? then
      if id in s.processes || |a.inputs| < 4 then None
      else
        var stage := if Distinct(a.inputs) then Idle else Raised;
        Some(s.(processes := s.processes[id := Process(a.pid, a.inputs, a.settings, [], stage)]))
    else if id !in s.processes then None
    else ProcessStep(w, s, id, s.processes[id], a)
  }

  function ProcessStep(w: World, s: State, id: nat, p: Process, a: Action): Option<State> {
    match a
    case Spawn(_, _, _) => None
    case Crash => Some(s.(processes := s.processes - {id}))
    case Digest(digest) => DigestStep(s, id, p, digest)
    case Assemble => AssembleStep(s, id, p)
    case TestExists => TestStep(w, s, id, p)
    case Compare => CompareStep(w, s, id, p)
    case Open(inode) => OpenStep(w, s, id, p, inode)
    case Write(chunk) => WriteStep(w, s, p, chunk)
    case Close => CloseStep(w, s, id, p)
    case Rehash => RehashStep(w, s, id, p)
    case Link => LinkStep(w, s, id, p)
    case Settle => SettleStep(w, s, id, p)
    case Unlink => UnlinkStep(w, s, id, p)
  }

  /** `sha256(source)`: whatever bytes the source had at that moment. */
  function DigestStep(s: State, id: nat, p: Process, digest: string): Option<State> {
    if !p.stage.Idle? || |p.published| >= |p.inputs| then None
    else if !ValidArtifactName(p.inputs[|p.published|]) then Some(Move(s, id, p, Raised))
    else Some(Move(s, id, p, Deciding(InputJob(digest, p.inputs[|p.published|]))))
  }

  function AssembleStep(s: State, id: nat, p: Process): Option<State> {
    if !p.stage.Idle? || |p.published| < 4 || |p.published| != |p.inputs| then None
    else Some(Move(s, id, p, Deciding(BundleJob(BundleOf(p)))))
  }

  function TestStep(w: World, s: State, id: nat, p: Process): Option<State> {
    if !p.stage.Deciding? then None
    else
      var job := p.stage.job;
      Some(Move(s, id, p, if Destination(w, job) in s.names then Comparing(job) else Creating(job)))
  }

  /** Whether the destination is there and holds the content this job expects. */
  predicate Matches(w: World, s: State, path: Path, job: Job) {
    path in s.names && s.names[path] in s.data && SameContent(w, job, s.data[s.names[path]])
  }

  function CompareStep(w: World, s: State, id: nat, p: Process): Option<State> {
    if !p.stage.Comparing? then None
    else if Matches(w, s, Destination(w, p.stage.job), p.stage.job) then Some(Complete(s, id, p, p.stage.job))
    else Some(Move(s, id, p, Raised))
  }

  /** `open("xb")`: exclusive creation. */
  function OpenStep(w: World, s: State, id: nat, p: Process, inode: nat): Option<State> {
    if !p.stage.Creating? then None
    else
      var temporary := Temporary(w, p.pid, p.stage.job);
      if temporary in s.names then Some(Move(s, id, p, Raised))
      else if inode in s.data then None
      else
        var created := s.(names := s.names[temporary := inode], data := s.data[inode := []]);
        Some(Move(created, id, p, Writing(p.stage.job, inode)))
  }

  /** Copied bytes are arbitrary, for the source may be changing; bundle bytes are the rendering. */
  function WriteStep(w: World, s: State, p: Process, chunk: Bytes): Option<State> {
    if !p.stage.Writing? || p.stage.inode !in s.data then None
    else
      var content := s.data[p.stage.inode] + chunk;
      if p.stage.job.BundleJob? && !(content <= w.json(p.stage.job.bundle)) then None
      else Some(s.(data := s.data[p.stage.inode := content]))
  }

  function CloseStep(w: World, s: State, id: nat, p: Process): Option<State> {
    if !p.stage.Writing? then None
    else if p.stage.job.InputJob? then Some(Move(s, id, p, Checking(p.stage.job, p.stage.inode)))
    else if p.stage.inode in s.data && s.data[p.stage.inode] == w.json(p.stage.job.bundle)
    then Some(Move(s, id, p, Linking(p.stage.job, p.stage.inode)))
    else None
  }

  function RehashStep(w: World, s: State, id: nat, p: Process): Option<State> {
    if !p.stage.Checking? then None
    else if Matches(w, s, Temporary(w, p.pid, p.stage.job), p.stage.job)
    then Some(Move(s, id, p, Linking(p.stage.job, p.stage.inode)))
    else Some(Move(s, id, p, Cleaning(p.stage.job, p.stage.inode, false)))
  }

  /** `os.link`: fails if the destination exists. */
  function LinkStep(w: World, s: State, id: nat, p: Process): Option<State> {
    if !p.stage.Linking? then None
    else
      var destination, temporary := Destination(w, p.stage.job), Temporary(w, p.pid, p.stage.job);
      if destination in s.names then Some(Move(s, id, p, Refused(p.stage.job, p.stage.inode)))
      else if temporary !in s.names then Some(Move(s, id, p, Cleaning(p.stage.job, p.stage.inode, false)))
      else
        var linked := s.(names := s.names[destination := s.names[temporary]]);
        Some(Move(linked, id, p, Cleaning(p.stage.job, p.stage.inode, true)))
  }

  function SettleStep(w: World, s: State, id: nat, p: Process): Option<State> {
    if !p.stage.Refused? then None
    else
      var job := p.stage.job;
      Some(Move(s, id, p, Cleaning(job, p.stage.inode, Matches(w, s, Destination(w, job), job))))
  }

  function UnlinkStep(w: World, s: State, id: nat, p: Process): Option<State> {
    if !p.stage.Cleaning? then None
    else
      var t := s.(names := s.names - {Temporary(w, p.pid, p.stage.job)});
      if p.stage.ok then Some(Complete(t, id, p, p.stage.job)) else Some(Move(t, id, p, Raised))
  }

  // ----- the invariant

  /** A name no temporary can have: what readers of the object root look up. */
  predicate Published(path: Path) {
    path.name != [] && path.name[0] != '.'
  }

  ghost predicate Available(w: World, s: State, ref: Ref) {
    var path := Path(Inputs(ref.sha256), ref.fileName);
    Published(path) && path in s.names && s.names[path] in s.data && w.sha(s.data[s.names[path]]) == ref.sha256
  }

  ghost predicate AllAvailable(w: World, s: State, b: Bundle) {
    && Available(w, s, b.source) && Available(w, s, b.query) && Available(w, s, b.expected)
    && forall i :: 0 <= i < |b.ontologies| ==> Available(w, s, b.ontologies[i])
  }

  /** A published input hashes to its folder; a published bundle is the rendering of one whose
      every referenced object is available. */
  ghost predicate GoodFile(w: World, s: State, path: Path) {
    && path in s.names && s.names[path] in s.data
    && match path.folder
       case Inputs(digest) => w.sha(s.data[s.names[path]]) == digest
       case Bundles(digest) =>
         w.sha(s.data[s.names[path]]) == digest
         && exists b :: s.data[s.names[path]] == w.json(b) && AllAvailable(w, s, b)
  }

  predicate Owns(stage: Stage) {
    stage.Writing? || stage.Checking? || stage.Linking? || stage.Refused? || stage.Cleaning?
  }

  /** Until it is linked, a temporary's inode has no other name. */
  predicate Private(stage: Stage) {
    stage.Writing? || stage.Checking? || stage.Linking?
  }

  predicate Busy(stage: Stage) {
    stage.Deciding? || stage.Comparing? || stage.Creating? || Owns(stage)
  }

  ghost predicate GoodJob(w: World, s: State, job: Job) {
    match job
    case InputJob(_, name) => ValidArtifactName(name)
    case BundleJob(b) => AllAvailable(w, s, b)
  }

  ghost predicate GoodProcess(w: World, s: State, p: Process) {
    && (forall i :: 0 <= i < |p.published| ==> Available(w, s, p.published[i]))
    && (Busy(p.stage) ==> GoodJob(w, s, p.stage.job))
    && (Owns(p.stage) ==> OwnsTemporary(w, s, p))
    && (p.stage.Linking? ==> SameContent(w, p.stage.job, s.data[p.stage.inode]))
    && (p.stage.Cleaning? && p.stage.ok ==> GoodFile(w, s, Destination(w, p.stage.job)))
  }

  ghost predicate OwnsTemporary(w: World, s: State, p: Process)
    requires Owns(p.stage)
  {
    var temporary := Temporary(w, p.pid, p.stage.job);
    && temporary in s.names && s.names[temporary] == p.stage.inode && p.stage.inode in s.data
    && (Private(p.stage) ==> forall q :: q in s.names && s.names[q] == p.stage.inode ==> q == temporary)
  }

  ghost predicate Invariant(w: World, s: State) {
    && (forall q :: q in s.names ==> s.names[q] in s.data)
    && (forall q :: q in s.names && Published(q) ==> GoodFile(w, s, q))
    && (forall id :: id in s.processes ==> GoodProcess(w, s, s.processes[id]))
    && (forall i, j :: i in s.processes && j in s.processes && i != j
          && Owns(s.processes[i].stage) && Owns(s.processes[j].stage)
          ==> Temporary(w, s.processes[i].pid, s.processes[i].stage.job)
              != Temporary(w, s.processes[j].pid, s.processes[j].stage.job))
  }

  /** Temporary and final names never collide. */
  lemma {:induction false} NamesSeparate(w: World, pid: string, job: Job)
    requires job.InputJob? ==> ValidArtifactName(job.name)
    ensures !Published(Temporary(w, pid, job))
    ensures Published(Destination(w, job))
  {
  }

  /** Whatever readers could see before, they see unchanged afterwards. */
  ghost predicate Keeps(s: State, t: State) {
    forall q :: q in s.names && Published(q) && s.names[q] in s.data ==>
      q in t.names && t.names[q] in t.data && t.data[t.names[q]] == s.data[s.names[q]]
  }

  // ----- preservation

  lemma {:induction false} FileKept(w: World, s: State, t: State, path: Path)
    requires Keeps(s, t) && Published(path) && GoodFile(w, s, path)
    ensures GoodFile(w, t, path)
  {
    if path.folder.Bundles? {
      var b :| s.data[s.names[path]] == w.json(b) && AllAvailable(w, s, b);
      assert AllAvailable(w, t, b);
    }
  }

  /** What a process that does not move still needs from the root. */
  ghost predicate Undisturbed(w: World, s: State, t: State, p: Process) {
    Owns(p.stage) && OwnsTemporary(w, s, p) ==>
      OwnsTemporary(w, t, p) && t.data[p.stage.inode] == s.data[p.stage.inode]
  }

  lemma {:induction false} ProcessKept(w: World, s: State, t: State, p: Process)
    requires GoodProcess(w, s, p) && Keeps(s, t) && Undisturbed(w, s, t, p)
    ensures GoodProcess(w, t, p)
  {
    if Busy(p.stage) && p.stage.job.BundleJob? {
      assert AllAvailable(w, t, p.stage.job.bundle);
    }
    if p.stage.Cleaning? && p.stage.ok {
      NamesSeparate(w, p.pid, p.stage.job);
      FileKept(w, s, t, Destination(w, p.stage.job));
    }
  }

  /** Steps that only change the moving process. */
  lemma {:induction false} QuietStep(w: World, s: State, id: nat, p: Process, q: Process)
    requires Invariant(w, s) && id in s.processes && s.processes[id] == p
    requires GoodProcess(w, s, q)
    requires Owns(q.stage) ==> Owns(p.stage) && q.pid == p.pid && q.stage.job == p.stage.job
    ensures Invariant(w, s.(processes := s.processes[id := q]))
    ensures Keeps(s, s.(processes := s.processes[id := q]))
  {
    var t := s.(processes := s.processes[id := q]);
    forall path | path in t.names && Published(path) ensures GoodFile(w, t, path) { FileKept(w, s, t, path); }
    forall j | j in t.processes ensures GoodProcess(w, t, t.processes[j]) { ProcessKept(w, s, t, t.processes[j]); }
  }

  lemma {:induction false} SpawnKeeps(w: World, s: State, id: nat, a: Action, t: State)
    requires Invariant(w, s) && (a.Spawn? || a.Crash?) && Step(w, s, id, a) == Some(t)
    ensures Invariant(w, t) && Keeps(s, t)
  {
    forall path | path in t.names && Published(path) ensures GoodFile(w, t, path) { FileKept(w, s, t, path); }
    forall j | j in t.processes ensures GoodProcess(w, t, t.processes[j]) {
      if j in s.processes { ProcessKept(w, s, t, t.processes[j]); }
    }
  }

  /** Every file-changing step leaves the other processes' temporaries alone. */
  lemma {:induction false} EffectKeeps(w: World, s: State, t: State, id: nat)
    requires Invariant(w, s) && id in s.processes && id in t.processes
    requires Keeps(s, t)
    requires forall q :: q in t.names ==> t.names[q] in t.data
    requires forall q :: q in t.names && Published(q) && q !in s.names ==> GoodFile(w, t, q)
    requires forall j :: j in t.processes && j != id ==>
      j in s.processes && t.processes[j] == s.processes[j] && Undisturbed(w, s, t, t.processes[j])
    requires GoodProcess(w, t, t.processes[id])
    requires Owns(t.processes[id].stage) ==> forall j :: j in s.processes && j != id && Owns(s.processes[j].stage) ==>
      Temporary(w, s.processes[j].pid, s.processes[j].stage.job)
      != Temporary(w, t.processes[id].pid, t.processes[id].stage.job)
    ensures Invariant(w, t)
  {
    forall path | path in t.names && Published(path) ensures GoodFile(w, t, path) {
      if path in s.names { FileKept(w, s, t, path); }
    }
    forall j | j in t.processes ensures GoodProcess(w, t, t.processes[j]) {
      if j != id { ProcessKept(w, s, t, t.processes[j]); }
    }
  }

  /** A freshly created temporary disturbs nobody and is owned by nobody else. */
  lemma {:induction false} OpenFrame(w: World, s: State, id: nat, p: Process, inode: nat, t: State)
    requires Invariant(w, s) && id in s.processes && s.processes[id] == p && p.stage.Creating?
    requires Temporary(w, p.pid, p.stage.job) !in s.names && inode !in s.data
    requires t.names == s.names[Temporary(w, p.pid, p.stage.job) := inode] && t.data == s.data[inode := []]
    ensures Keeps(s, t)
    ensures forall j :: j in s.processes && j != id ==> Undisturbed(w, s, t, s.processes[j])
    ensures GoodProcess(w, t, p.(stage := Writing(p.stage.job, inode)))
  {
    NamesSeparate(w, p.pid, p.stage.job);
    assert Keeps(s, t);
    ProcessKept(w, s, t, p);
  }

  lemma {:induction false} OpenKeeps(w: World, s: State, id: nat, p: Process, inode: nat, t: State)
    requires Invariant(w, s) && id in s.processes && s.processes[id] == p
    requires OpenStep(w, s, id, p, inode) == Some(t)
    ensures Invariant(w, t) && Keeps(s, t)
  {
    NamesSeparate(w, p.pid, p.stage.job);
    if Temporary(w, p.pid, p.stage.job) in s.names {
      QuietStep(w, s, id, p, p.(stage := Raised));
    } else {
      OpenFrame(w, s, id, p, inode, t);
      EffectKeeps(w, s, t, id);
    }
  }

  lemma {:induction false} WriteKeeps(w: World, s: State, id: nat, p: Process, chunk: Bytes, t: State)
    requires Invariant(w, s) && id in s.processes && s.processes[id] == p
    requires WriteStep(w, s, p, chunk) == Some(t)
    ensures Invariant(w, t) && Keeps(s, t)
  {
    NamesSeparate(w, p.pid, p.stage.job);
    assert Keeps(s, t);
    ProcessKept(w, s, t, p.(stage := Deciding(p.stage.job)));
    EffectKeeps(w, s, t, id);
  }

  /** A fresh hard link to a verified temporary is a good file, and disturbs nobody. */
  lemma {:induction false} LinkFrame(w: World, s: State, id: nat, p: Process, t: State)
    requires Invariant(w, s) && id in s.processes && s.processes[id] == p && p.stage.Linking?
    requires Destination(w, p.stage.job) !in s.names
    requires t.names == s.names[Destination(w, p.stage.job) := p.stage.inode] && t.data == s.data
    ensures Keeps(s, t)
    ensures forall j :: j in s.processes && j != id ==> Undisturbed(w, s, t, s.processes[j])
    ensures GoodFile(w, t, Destination(w, p.stage.job))
    ensures GoodProcess(w, t, p.(stage := Cleaning(p.stage.job, p.stage.inode, true)))
  {
    var destination := Destination(w, p.stage.job);
    NamesSeparate(w, p.pid, p.stage.job);
    assert Keeps(s, t);
    ProcessKept(w, s, t, p.(stage := Deciding(p.stage.job)));
    if p.stage.job.BundleJob? {
      assert t.data[t.names[destination]] == w.json(p.stage.job.bundle) && AllAvailable(w, t, p.stage.job.bundle);
    }
  }

  lemma {:induction false} LinkKeeps(w: World, s: State, id: nat, p: Process, t: State)
    requires Invariant(w, s) && id in s.processes && s.processes[id] == p
    requires LinkStep(w, s, id, p) == Some(t)
    ensures Invariant(w, t) && Keeps(s, t)
  {
    if Destination(w, p.stage.job) in s.names {
      QuietStep(w, s, id, p, p.(stage := Refused(p.stage.job, p.stage.inode)));
    } else {
      LinkFrame(w, s, id, p, t);
      EffectKeeps(w, s, t, id);
    }
  }

  /** Once the destination is good, the finished job can be recorded. */
  lemma {:induction false} RecordGood(w: World, s: State, id: nat, p: Process, job: Job)
    requires forall i :: 0 <= i < |p.published| ==> Available(w, s, p.published[i])
    requires GoodJob(w, s, job) && GoodFile(w, s, Destination(w, job))
    ensures GoodProcess(w, s, Complete(s, id, p, job).processes[id])
    ensures !Owns(Complete(s, id, p, job).processes[id].stage)
  {
    NamesSeparate(w, p.pid, job);
    if job.InputJob? {
      assert Available(w, s, Ref(job.digest, job.name));
    }
  }

  /** Removing one's own temporary disturbs nobody. */
  lemma {:induction false} UnlinkFrame(w: World, s: State, id: nat, p: Process, t: State)
    requires Invariant(w, s) && id in s.processes && s.processes[id] == p && p.stage.Cleaning?
    requires t.names == s.names - {Temporary(w, p.pid, p.stage.job)} && t.data == s.data
    ensures Keeps(s, t)
    ensures forall j :: j in s.processes && j != id ==> Undisturbed(w, s, t, s.processes[j])
    ensures forall i :: 0 <= i < |p.published| ==> Available(w, t, p.published[i])
    ensures GoodJob(w, t, p.stage.job)
    ensures p.stage.ok ==> GoodFile(w, t, Destination(w, p.stage.job))
  {
    NamesSeparate(w, p.pid, p.stage.job);
    assert Keeps(s, t);
    ProcessKept(w, s, t, p.(stage := Deciding(p.stage.job)));
    if p.stage.ok {
      FileKept(w, s, t, Destination(w, p.stage.job));
    }
  }

  lemma {:induction false} UnlinkKeeps(w: World, s: State, id: nat, p: Process, t: State)
    requires Invariant(w, s) && id in s.processes && s.processes[id] == p
    requires UnlinkStep(w, s, id, p) == Some(t)
    ensures Invariant(w, t) && Keeps(s, t)
  {
    UnlinkFrame(w, s, id, p, t);
    var u := s.(names := t.names);
    UnlinkFrame(w, s, id, p, u);
    if p.stage.ok {
      RecordGood(w, u, id, p, p.stage.job);
    }
    ProcessKept(w, u, t, t.processes[id]);
    EffectKeeps(w, s, t, id);
  }

  /** The stages a process passes through without touching a file. */
  lemma {:induction false} QuietGood(w: World, s: State, p: Process, q: Stage)
    requires GoodProcess(w, s, p) && (forall path :: path in s.names && Published(path) ==> GoodFile(w, s, path))
    requires match p.stage
      case Deciding(job) => q == Comparing(job) || q == Creating(job)
      case Writing(job, inode) =>
        q == Checking(job, inode) || (q == Linking(job, inode) && SameContent(w, job, s.data[inode]))
      case Checking(job, inode) =>
        || q == Cleaning(job, inode, false)
        || (q == Linking(job, inode) && Matches(w, s, Temporary(w, p.pid, job), job))
      case Refused(job, inode) => q == Cleaning(job, inode, Matches(w, s, Destination(w, job), job))
      case _ => false
    ensures GoodProcess(w, s, p.(stage := q))
  {
    NamesSeparate(w, p.pid, p.stage.job);
  }

  lemma {:induction false} QuietKeeps(w: World, s: State, id: nat, p: Process, a: Action, t: State)
    requires Invariant(w, s) && id in s.processes && s.processes[id] == p
    requires a.TestExists? || a.Close? || a.Rehash? || a.Settle?
    requires ProcessStep(w, s, id, p, a) == Some(t)
    ensures Invariant(w, t) && Keeps(s, t)
  {
    var q := t.processes[id];
    QuietGood(w, s, p, q.stage);
    QuietStep(w, s, id, p, q);
  }

  lemma {:induction false} BeginKeeps(w: World, s: State, id: nat, p: Process, a: Action, t: State)
    requires Invariant(w, s) && id in s.processes && s.processes[id] == p
    requires a.Digest? || a.Assemble?
    requires ProcessStep(w, s, id, p, a) == Some(t)
    ensures Invariant(w, t) && Keeps(s, t)
  {
    if a.Assemble? {
      var b := BundleOf(p);
      assert forall i :: 0 <= i < |b.ontologies| ==> b.ontologies[i] == p.published[i+1];
      assert AllAvailable(w, s, b);
    }
    QuietStep(w, s, id, p, t.processes[id]);
  }

  lemma {:induction false} CompareKeeps(w: World, s: State, id: nat, p: Process, t: State)
    requires Invariant(w, s) && id in s.processes && s.processes[id] == p
    requires CompareStep(w, s, id, p) == Some(t)
    ensures Invariant(w, t) && Keeps(s, t)
  {
    NamesSeparate(w, p.pid, p.stage.job);
    if Matches(w, s, Destination(w, p.stage.job), p.stage.job) {
      RecordGood(w, s, id, p, p.stage.job);
    }
    QuietStep(w, s, id, p, t.processes[id]);
  }

  /** Every step of every process keeps the invariant and everything already visible. */
  lemma {:induction false} StepKeepsInvariant(w: World, s: State, id: nat, a: Action, t: State)
    requires Invariant(w, s) && Step(w, s, id, a) == Some(t)
    ensures Invariant(w, t)
    ensures Keeps(s, t)
  {
    if a.Spawn? || a.Crash? {
      SpawnKeeps(w, s, id, a, t);
    } else {
      var p := s.processes[id];
      match a
      case Open(inode) => OpenKeeps(w, s, id, p, inode, t);
      case Write(chunk) => WriteKeeps(w, s, id, p, chunk, t);
      case Link => LinkKeeps(w, s, id, p, t);
      case Unlink => UnlinkKeeps(w, s, id, p, t);
      case Compare => CompareKeeps(w, s, id, p, t);
      case Digest(_) => BeginKeeps(w, s, id, p, a, t);
      case Assemble => BeginKeeps(w, s, id, p, a, t);
      case _ => QuietKeeps(w, s, id, p, a, t);
    }
  }

  // ----- main results, over whole runs

  /** A run: states joined by steps of any processes in any order, from a root that is already
      good, such as the empty one. */
  ghost predicate Run(w: World, states: seq<State>, steps: seq<(nat, Action)>) {
    && |states| == |steps| + 1
    && Invariant(w, states[0])
    && forall i :: 0 <= i < |steps| ==> Step(w, states[i], steps[i].0, steps[i].1) == Some(states[i+1])
  }

  lemma {:induction false} EmptyRootIsGood(w: World)
    ensures Invariant(w, State(map[], map[], map[]))
  {
  }

  lemma {:induction false} RunKeeps(w: World, states: seq<State>, steps: seq<(nat, Action)>, i: nat, j: nat)
    requires Run(w, states, steps) && i <= j < |states|
    ensures Invariant(w, states[i]) && Invariant(w, states[j]) && Keeps(states[i], states[j])
    decreases j
  {
    if j > 0 {
      RunKeeps(w, states, steps, if i < j then i else j - 1, j - 1);
      StepKeepsInvariant(w, states[j-1], steps[j-1].0, steps[j-1].1, states[j]);
    }
  }

  /** In every run: whatever is visible under a final input name hashes to its folder, a visible
      file never changes, and a visible bundle is a whole rendering all of whose objects are available. */
  lemma {:induction false} PublishedObjectsAreImmutable(
      w: World, states: seq<State>, steps: seq<(nat, Action)>, i: nat, path: Path)
    requires Run(w, states, steps) && i < |states|
    requires Published(path) && path in states[i].names
    ensures states[i].names[path] in states[i].data
    ensures path.folder.digest == w.sha(states[i].data[states[i].names[path]])
    ensures path.folder.Bundles? ==>
      exists b :: states[i].data[states[i].names[path]] == w.json(b) && AllAvailable(w, states[i], b)
    ensures forall j :: i <= j < |states| ==>
      && path in states[j].names && states[j].names[path] in states[j].data
      && states[j].data[states[j].names[path]] == states[i].data[states[i].names[path]]
  {
    RunKeeps(w, states, steps, i, i);
    forall j | i <= j < |states|
      ensures path in states[j].names && states[j].names[path] in states[j].data
      ensures states[j].data[states[j].names[path]] == states[i].data[states[i].names[path]]
    {
      RunKeeps(w, states, steps, i, j);
    }
  }

  ghost predicate RendersUniquely(w: World) {
    forall a, b :: w.json(a) == w.json(b) ==> a == b
  }

  /** Inputs before bundle: in every reachable state a reader who finds a bundle finds everything it names. */
  lemma {:induction false} VisibleBundleIsComplete(
      w: World, states: seq<State>, steps: seq<(nat, Action)>, i: nat, path: Path, b: Bundle)
    requires Run(w, states, steps) && i < |states|
    requires Published(path) && path.folder.Bundles? && path in states[i].names
    requires states[i].names[path] in states[i].data
    requires RendersUniquely(w) && states[i].data[states[i].names[path]] == w.json(b)
    ensures AllAvailable(w, states[i], b)
  {
    RunKeeps(w, states, steps, i, i);
  }

  /** The conflict branches are never taken for inputs in any reachable state; for a bundle only if what
      is published under its name differs from its own rendering and has the same digest. */
  lemma {:induction false} ConflictMeansCollision(
      w: World, states: seq<State>, steps: seq<(nat, Action)>, i: nat, id: nat)
    requires Run(w, states, steps) && i < |states| && id in states[i].processes
    requires states[i].processes[id].stage.Comparing? || states[i].processes[id].stage.Refused?
    requires Destination(w, states[i].processes[id].stage.job) in states[i].names
    requires var job := states[i].processes[id].stage.job;
      !Matches(w, states[i], Destination(w, job), job)
    ensures states[i].processes[id].stage.job.BundleJob?
    ensures var s, job := states[i], states[i].processes[id].stage.job;
      var published := s.names[Destination(w, job)];
      && published in s.data && s.data[published] != w.json(job.bundle)
      && w.sha(s.data[published]) == w.sha(w.json(job.bundle))
  {
    RunKeeps(w, states, steps, i, i);
    var s, p := states[i], states[i].processes[id];
    NamesSeparate(w, p.pid, p.stage.job);
    assert GoodFile(w, s, Destination(w, p.stage.job));
  }
}
