/** internal/worker/local_store.go: the buffer files of one worker. The object is
    proved to carry out the store steps of the system in Delivery, so that what is
    known of the system's store is known of the files. */
module ReportStore {
  import opened Common
  import opened RuntimeModel
  import opened Moves
  import opened Runs
  import opened Delivery

  type Files = map<ScheduleId, Report>

  /** The part of the system's store that belongs to one worker. */
  ghost function FilesOf(sys: System, w: WorkerId): Files {
    map sid | sid in (set job | job in sys.store && job.1 == w :: job.0) :: sys.store[(sid, w)]
  }

  /** A step that reads or changes the files of worker w. */
  ghost predicate Touches(e: SystemEvent, w: WorkerId) {
    match e
    case Answered(r) => r.worker == Some(w)
    case TimedOut(r) => r.worker == Some(w)
    case FlushAnswered(r) => r.worker == Some(w)
    case FlushSend(job) => job.1 == w
    case FlushFailed(r) => r.worker == Some(w)
    case _ => false
  }

  ghost function FilesAfter(files: Files, e: SystemEvent): Files {
    match e
    case Answered(r) => files - {r.schedule}
    case TimedOut(r) => files[r.schedule := r]
    case FlushAnswered(r) => files - {r.schedule}
    case _ => files
  }

  ghost function Replay(files: Files, steps: seq<SystemEvent>): Files {
    if steps == [] then files else FilesAfter(Replay(files, steps[..|steps| - 1]), steps[|steps| - 1])
  }

  /** The steps of a run that concern the files of worker w. */
  ghost function StepsOf(events: seq<SystemEvent>, w: WorkerId): seq<SystemEvent> {
    if events == [] then []
    else
      var front, last := events[..|events| - 1], events[|events| - 1];
      StepsOf(front, w) + if Touches(last, w) then [last] else []
  }

  // ------------------------------------------------------------ one worker's view

  lemma FilesStep(sys: System, e: SystemEvent, w: WorkerId)
    requires Occurs(sys, e)
    ensures FilesOf(Next(sys, e), w) == if Touches(e, w) then FilesAfter(FilesOf(sys, w), e) else FilesOf(sys, w)
  {
    var before, after := FilesOf(sys, w), FilesOf(Next(sys, e), w);
    var wanted := if Touches(e, w) then FilesAfter(before, e) else before;
    forall sid ensures sid in after <==> sid in wanted
               ensures sid in after ==> after[sid] == wanted[sid]
    {
      FileOf(sys, w, sid);
      FileOf(Next(sys, e), w, sid);
      StoreStep(sys, e, (sid, w));
    }
  }

  lemma FileOf(sys: System, w: WorkerId, sid: ScheduleId)
    ensures sid in FilesOf(sys, w) <==> (sid, w) in sys.store
    ensures (sid, w) in sys.store ==> FilesOf(sys, w)[sid] == sys.store[(sid, w)]
  {}

  /** What an event does to one job's entry of the store. */
  lemma StoreStep(sys: System, e: SystemEvent, job: Job)
    requires Occurs(sys, e)
    ensures var before, after := sys.store, Next(sys, e).store;
            match e
            case TimedOut(r) => if JobOf(r) == job then job in after && after[job] == r else Same(before, after, job)
            case Answered(r) => if JobOf(r) == job then job !in after else Same(before, after, job)
            case FlushAnswered(r) => if JobOf(r) == job then job !in after else Same(before, after, job)
            case _ => Same(before, after, job)
  {}

  ghost predicate Same(a: map<Job, Report>, b: map<Job, Report>, job: Job) {
    (job in a <==> job in b) && (job in a ==> a[job] == b[job])
  }

  lemma {:induction false} RunEnds(sys: System, events: seq<SystemEvent>)
    requires IsSystemRun(sys, events) && events != []
    ensures var front, last := events[..|events| - 1], events[|events| - 1];
            && IsSystemRun(sys, front) && Occurs(RunSystem(sys, front), last)
            && RunSystem(sys, events) == Next(RunSystem(sys, front), last)
    decreases |events|
  {
    if |events| > 1 {
      var front := events[..|events| - 1];
      RunEnds(Next(sys, events[0]), events[1..]);
      assert front[1..] == events[1..][..|events| - 2];
    }
  }

  /** However the steps of one worker's store are interleaved with everything else, its
      part of the system's store is what these steps alone make of it. */
  lemma {:induction false} FilesOfRun(sys: System, events: seq<SystemEvent>, w: WorkerId)
    requires IsSystemRun(sys, events)
    ensures FilesOf(RunSystem(sys, events), w) == Replay(FilesOf(sys, w), StepsOf(events, w))
    decreases |events|
  {
    if events != [] {
      var front, last := events[..|events| - 1], events[|events| - 1];
      RunEnds(sys, events);
      FilesOfRun(sys, front, w);
      FilesStep(RunSystem(sys, front), last, w);
      if Touches(last, w) {
        ReplayEnd(FilesOf(sys, w), StepsOf(front, w), last);
      } else {
        assert StepsOf(front, w) + [] == StepsOf(front, w);
      }
    }
  }

  lemma ReplayEnd(files: Files, steps: seq<SystemEvent>, e: SystemEvent)
    ensures Replay(files, steps + [e]) == FilesAfter(Replay(files, steps), e)
  {
    assert (steps + [e])[..|steps|] == steps;
  }

  /** The outcome of an ended job of this worker is in its hand, in its files or at the
      scheduler. */
  ghost predicate OnFile(sys: System, files: Files, job: Job) {
    || (exists r :: r in sys.inHand && r.worker.Some? && JobOf(r) == job)
    || job.0 in files
    || Settled(sys.core, job.0)
  }

  /** Files that went through the store steps of a run keep every outcome. */
  lemma EndedIsOnFile(sys: System, events: seq<SystemEvent>, files: Files, job: Job)
    requires Initial(sys) && IsSystemRun(sys, events) && files == Replay(map[], StepsOf(events, job.1))
    requires job in RunSystem(sys, events).ended
    ensures OnFile(RunSystem(sys, events), files, job)
  {
    var sys' := RunSystem(sys, events);
    NoOutcomeIsLost(sys, events, job);
    FilesOfRun(sys, events, job.1);
    assert FilesOf(sys, job.1) == map[];
    if job in sys'.store { assert (job.0, job.1) == job && job.0 in FilesOf(sys', job.1); }
  }

  // ------------------------------------------------------------------- the object

  ghost predicate Named(files: Files, w: WorkerId) {
    forall sid :: sid in files ==> files[sid].schedule == sid && files[sid].worker == Some(w)
  }

  ghost predicate Own(steps: seq<SystemEvent>, w: WorkerId) { forall i :: 0 <= i < |steps| ==> Touches(steps[i], w) }

  /** The files are what the steps so far have made of an empty directory, each named
      after the schedule ID of its report. */
  ghost predicate Reached(files: Files, steps: seq<SystemEvent>, w: WorkerId) {
    files == Replay(map[], steps) && Named(files, w) && Own(steps, w)
  }

  lemma ReachedStep(files: Files, steps: seq<SystemEvent>, w: WorkerId, e: SystemEvent)
    requires Reached(files, steps, w) && Touches(e, w)
    ensures Reached(FilesAfter(files, e), steps + [e], w)
  {
    ReplayEnd(map[], steps, e);
  }

  class Store {
    const worker: WorkerId
    var files: Files
    ghost var steps: seq<SystemEvent>

    ghost predicate Valid()
      reads this
    {
      Reached(files, steps, worker)
    }

    constructor (w: WorkerId)
      ensures Valid() && worker == w && steps == [] && files == map[]
    {
      worker := w;
      files, steps := map[], [];
    }

    /** After a report that could not be delivered. */
    method Buffer(r: Report)
      requires Valid() && r.worker == Some(worker)
      modifies this
      ensures Valid() && steps == old(steps) + [TimedOut(r)] && r.schedule in files
    {
      ReachedStep(files, steps, worker, TimedOut(r));
      files := files[r.schedule := r];
      steps := steps + [TimedOut(r)];
    }

    /** After a report that was answered at once. */
    method Remove(r: Report)
      requires Valid() && r.worker == Some(worker)
      modifies this
      ensures Valid() && steps == old(steps) + [Answered(r)] && r.schedule !in files
    {
      ReachedStep(files, steps, worker, Answered(r));
      files := files - {r.schedule};
      steps := steps + [Answered(r)];
    }

    /** One turn of Flush: send the report again, and delete it if it was answered. */
    method FlushOne(sid: ScheduleId, answered: bool)
      requires Valid() && sid in files
      modifies this
      ensures Valid() && files == if answered then old(files) - {sid} else old(files)
      ensures steps == old(steps) + [FlushSend((sid, worker))]
                       + [if answered then FlushAnswered(old(files)[sid]) else FlushFailed(old(files)[sid])]
    {
      var r := files[sid];
      ghost var send := FlushSend((sid, worker));
      ghost var end := if answered then FlushAnswered(r) else FlushFailed(r);
      ReachedStep(files, steps, worker, send);
      ReachedStep(files, steps + [send], worker, end);
      if answered { files := files - {sid}; }
      steps := steps + [send] + [end];
    }

    /** Tries every file of the listing once; exactly the reports that were not answered
        stay, and they are counted. */
    method Flush(entries: seq<ScheduleId>, answered: ScheduleId -> bool) returns (remaining: nat)
      requires Valid() && Lists(entries, files)
      modifies this
      ensures Valid() && remaining == |files|
      ensures steps == old(steps) + FlushSteps(old(files), entries, answered, worker)
      ensures files == map sid | sid in old(files) && !answered(sid) :: old(files)[sid]
    {
      ghost var before, first := files, steps;
      remaining := 0;
      TriedNone(before, first, entries, answered, worker);
      for k := 0 to |entries|
        invariant Valid() && Tried(before, files, first, steps, entries, k, answered, remaining, worker)
      {
        TriedStep(before, files, first, steps, entries, k, answered, remaining, worker);
        FlushOne(entries[k], answered(entries[k]));
        if !answered(entries[k]) { remaining := remaining + 1; }
      }
      TriedAll(before, files, first, steps, entries, answered, remaining, worker);
    }

    /** The directory is listed and its entries are counted. */
    method PendingCount(entries: seq<ScheduleId>) returns (n: nat)
      requires Valid() && Lists(entries, files)
      ensures n == |files| && (n == 0 <==> files == map[])
    {
      n := 0;
      ghost var seen: set<ScheduleId> := {};
      for k := 0 to |entries|
        invariant n == |seen| && forall sid :: sid in seen <==> exists i :: 0 <= i < k && entries[i] == sid
      {
        n := n + 1;
        seen := seen + {entries[k]};
      }
      assert seen == files.Keys;
    }
  }

  /** A directory listing: every file once. */
  ghost predicate Lists(entries: seq<ScheduleId>, files: Files) {
    && (forall sid :: sid in files <==> sid in entries) && (forall i :: 0 <= i < |entries| ==> entries[i] in files)
    && (forall i, j :: 0 <= i < j < |entries| ==> entries[i] != entries[j])
  }

  /** The store steps of a flush: each file is sent, then answered or not. */
  ghost function FlushSteps(files: Files, entries: seq<ScheduleId>, answered: ScheduleId -> bool, w: WorkerId): seq<SystemEvent>
    requires forall i :: 0 <= i < |entries| ==> entries[i] in files
  {
    if entries == [] then []
    else
      var sid := entries[|entries| - 1];
      FlushSteps(files, entries[..|entries| - 1], answered, w) + [FlushSend((sid, w))]
      + [if answered(sid) then FlushAnswered(files[sid]) else FlushFailed(files[sid])]
  }

  /** The entries whose delivery was not answered. */
  ghost function Failed(entries: seq<ScheduleId>, answered: ScheduleId -> bool): set<ScheduleId> {
    set sid | sid in entries && !answered(sid)
  }

  /** The first k entries have been tried, n of them in vain. */
  ghost predicate Tried(before: Files, now: Files, first: seq<SystemEvent>, steps: seq<SystemEvent>, entries: seq<ScheduleId>,
                        k: nat, answered: ScheduleId -> bool, n: nat, w: WorkerId)
    requires k <= |entries|
  {
    && Lists(entries, before)
    && (forall sid :: sid in now <==> sid in before && (sid in entries[..k] ==> !answered(sid)))
    && (forall sid :: sid in now ==> now[sid] == before[sid])
    && n == |Failed(entries[..k], answered)|
    && steps == first + FlushSteps(before, entries[..k], answered, w)
  }

  lemma TriedNone(files: Files, steps: seq<SystemEvent>, entries: seq<ScheduleId>, answered: ScheduleId -> bool, w: WorkerId)
    requires Lists(entries, files)
    ensures Tried(files, files, steps, steps, entries, 0, answered, 0, w)
  {
    assert Failed(entries[..0], answered) == {};
    assert steps + [] == steps;
  }

  lemma FailedStep(entries: seq<ScheduleId>, k: nat, answered: ScheduleId -> bool)
    requires k < |entries| && forall i, j :: 0 <= i < j < |entries| ==> entries[i] != entries[j]
    ensures entries[k] !in entries[..k]
    ensures |Failed(entries[..k + 1], answered)| == |Failed(entries[..k], answered)| + if answered(entries[k]) then 0 else 1
  {
    assert entries[..k + 1] == entries[..k] + [entries[k]];
    var more: set<ScheduleId> := if answered(entries[k]) then {} else {entries[k]};
    assert Failed(entries[..k + 1], answered) == Failed(entries[..k], answered) + more;
  }

  lemma FlushStepsEnd(files: Files, entries: seq<ScheduleId>, k: nat, answered: ScheduleId -> bool, w: WorkerId,
                      first: seq<SystemEvent>)
    requires k < |entries| && forall i :: 0 <= i < |entries| ==> entries[i] in files
    ensures first + FlushSteps(files, entries[..k + 1], answered, w)
            == first + FlushSteps(files, entries[..k], answered, w) + [FlushSend((entries[k], w))]
               + [if answered(entries[k]) then FlushAnswered(files[entries[k]]) else FlushFailed(files[entries[k]])]
  {
    assert entries[..k + 1][..k] == entries[..k];
  }

  lemma TriedStep(before: Files, now: Files, first: seq<SystemEvent>, steps: seq<SystemEvent>, entries: seq<ScheduleId>,
                  k: nat, answered: ScheduleId -> bool, n: nat, w: WorkerId)
    requires k < |entries| && Tried(before, now, first, steps, entries, k, answered, n, w)
    ensures entries[k] in now
    ensures var sid := entries[k];
            Tried(before, if answered(sid) then now - {sid} else now, first,
                  steps + [FlushSend((sid, w))] + [if answered(sid) then FlushAnswered(now[sid]) else FlushFailed(now[sid])],
                  entries, k + 1, answered, if answered(sid) then n else n + 1, w)
  {
    assert entries[..k + 1] == entries[..k] + [entries[k]];
    FailedStep(entries, k, answered);
    FlushStepsEnd(before, entries, k, answered, w, first);
  }

  lemma TriedAll(before: Files, now: Files, first: seq<SystemEvent>, steps: seq<SystemEvent>, entries: seq<ScheduleId>,
                 answered: ScheduleId -> bool, n: nat, w: WorkerId)
    requires Tried(before, now, first, steps, entries, |entries|, answered, n, w)
    ensures now == (map sid | sid in before && !answered(sid) :: before[sid]) && n == |now|
    ensures steps == first + FlushSteps(before, entries, answered, w)
  {
    assert entries[..|entries|] == entries;
    assert now.Keys == Failed(entries, answered);
  }
}
