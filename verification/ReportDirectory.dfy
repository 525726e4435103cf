/** The directory the partition workers write their reports to: workers run, fail, rerun and
    overwrite files in any order, and files may be torn or removed, before a merger lists it. */
module ReportDirectory {
  import opened Options
  import opened Orders

  /** A finished worker invocation with its output path, a report file being removed, or one left
      unreadable by a worker that died while writing it. */
  datatype Event<J> = WorkerRan(file: string, job: J) | Removed(file: string) | Torn(file: string)

  datatype Directory<R> = Directory(reports: map<string, R>, torn: set<string>)

  function Apply<J, R>(worker: J -> Option<R>, dir: Directory<R>, e: Event<J>): Directory<R> {
    match e
    case WorkerRan(file, job) =>
      if worker(job).Some? then Directory(dir.reports[file := worker(job).value], dir.torn - {file}) else dir
    case Removed(file) => Directory(dir.reports - {file}, dir.torn - {file})
    case Torn(file) => Directory(dir.reports - {file}, dir.torn + {file})
  }

  /** The directory after some events, if `worker` gives the report of each successful invocation: one
      that fails writes nothing, one that succeeds replaces its file. */
  ghost function After<J, R>(worker: J -> Option<R>, events: seq<Event<J>>): Directory<R> {
    if events == [] then Directory(map[], {})
    else Apply(worker, After(worker, events[..|events|-1]), events[|events|-1])
  }

  /** The merger parses every file it lists, so a torn one makes it raise. */
  predicate Legible<R>(dir: Directory<R>) {
    dir.torn == {}
  }

  /** The readable reports in the order of their file names. */
  ghost function Listing<R>(dir: Directory<R>): (reports: seq<R>)
    ensures |reports| == |dir.reports|
    ensures forall r :: r in reports ==> exists file :: file in dir.reports && dir.reports[file] == r
  {
    var names := SortedSet(dir.reports.Keys);
    assert forall i :: 0 <= i < |names| ==> names[i] in names;
    var reports := seq(|names|, i requires 0 <= i < |names| => dir.reports[names[i]]);
    assert forall i :: 0 <= i < |names| ==> names[i] in dir.reports && dir.reports[names[i]] == reports[i];
    reports
  }

  /** Every readable file was written by some successful invocation. */
  lemma {:induction false} Provenance<J, R>(worker: J -> Option<R>, events: seq<Event<J>>, file: string)
    returns (i: nat)
    requires file in After(worker, events).reports
    ensures i < |events| && events[i].WorkerRan? && worker(events[i].job) == Some(After(worker, events).reports[file])
    decreases |events|
  {
    var n := |events| - 1;
    var e := events[n];
    if e.WorkerRan? && e.file == file && worker(e.job).Some? {
      return n;
    }
    i := Provenance(worker, events[..n], file);
  }

  /** Every report the merger lists was written by some successful invocation. */
  lemma {:induction false} ListedReportOrigin<J, R>(worker: J -> Option<R>, events: seq<Event<J>>, r: R)
    returns (i: nat)
    requires r in Listing(After(worker, events))
    ensures i < |events| && events[i].WorkerRan? && worker(events[i].job) == Some(r)
  {
    var file :| file in After(worker, events).reports && After(worker, events).reports[file] == r;
    i := Provenance(worker, events, file);
  }

  /** A successful invocation wrote the file, or it was removed. */
  predicate Mends<J, R>(worker: J -> Option<R>, e: Event<J>, file: string) {
    e.file == file && (e.Removed? || (e.WorkerRan? && worker(e.job).Some?))
  }

  /** A file is torn exactly when a worker died writing it and nothing has mended it since. */
  lemma {:induction false} TornUntilMended<J, R>(worker: J -> Option<R>, events: seq<Event<J>>, file: string)
    ensures file in After(worker, events).torn <==>
      exists i :: 0 <= i < |events| && events[i] == Torn(file)
                  && forall k :: i < k < |events| ==> !Mends(worker, events[k], file)
  {
    if events != [] {
      var n := |events| - 1;
      var init, e := events[..n], events[n];
      TornUntilMended(worker, init, file);
      assert forall k :: 0 <= k < n ==> init[k] == events[k];
      if e == Torn(file) {
        assert events[n] == Torn(file);
      } else if file in After(worker, init).torn {
        var i :| 0 <= i < n && init[i] == Torn(file) && forall k :: i < k < n ==> !Mends(worker, init[k], file);
        assert events[i] == Torn(file);
        if !Mends(worker, e, file) {
          assert forall k :: i < k < |events| ==> !Mends(worker, events[k], file);
        }
      }
    }
  }
}
