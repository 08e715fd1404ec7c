/**
  * The download repository: the aggregate task list shown to front-ends,
  * the resume-state store, and the forwarding of a session's events up to
  * the first terminal one.  The list transforms are functions; the
  * repository is a class whose methods reassign its task list, store and
  * session map.
  */
module DownloadRepository {
  import opened Wrappers
  import opened Domain
  import KtorEngine
  import DownloadControl

  // ---------------------------------------------------------------------------
  // The task list
  // ---------------------------------------------------------------------------

  /** No two tasks share an id. */
  predicate UniqueIds(tasks: seq<DownloadTask>)
  {
    forall i, j :: 0 <= i < j < |tasks| ==> tasks[i].id != tasks[j].id
  }

  /** Some task has the id. */
  predicate HasTask(tasks: seq<DownloadTask>, id: DownloadId)
  {
    exists i :: 0 <= i < |tasks| && tasks[i].id == id
  }

  /** The ids of the tasks, in order. */
  function Ids(tasks: seq<DownloadTask>): (r: seq<DownloadId>)
    ensures |r| == |tasks| && forall i :: 0 <= i < |tasks| ==> r[i] == tasks[i].id
  {
    seq(|tasks|, i requires 0 <= i < |tasks| => tasks[i].id)
  }

  /** `updateTask`: append the task unless one with its id is already listed. */
  function WithTask(tasks: seq<DownloadTask>, task: DownloadTask): (r: seq<DownloadTask>)
    ensures HasTask(tasks, task.id) ==> r == tasks
    ensures !HasTask(tasks, task.id) ==> r == tasks + [task]
    ensures UniqueIds(tasks) ==> UniqueIds(r)
  {
    if HasTask(tasks, task.id) then tasks else tasks + [task]
  }

  /** `updateStatus`: the matching task takes the status; an absent id leaves the list as it is. */
  function WithStatus(tasks: seq<DownloadTask>, id: DownloadId, status: DownloadStatus): (r: seq<DownloadTask>)
    ensures !HasTask(tasks, id) ==> r == tasks
    ensures |r| == |tasks| && Ids(r) == Ids(tasks)
    ensures forall i :: 0 <= i < |r| ==>
      r[i] == if tasks[i].id == id then tasks[i].(status := status) else tasks[i]
  {
    if !HasTask(tasks, id) then tasks
    else seq(|tasks|, i requires 0 <= i < |tasks| => if tasks[i].id == id then tasks[i].(status := status) else tasks[i])
  }

  /** `updateProgress`: the matching task is downloading, with the progress. */
  function WithProgress(tasks: seq<DownloadTask>, id: DownloadId, progress: DownloadProgress): (r: seq<DownloadTask>)
    ensures |r| == |tasks| && Ids(r) == Ids(tasks)
    ensures forall i :: 0 <= i < |r| ==>
      r[i] == if tasks[i].id == id then tasks[i].(status := DOWNLOADING, progress := Some(progress)) else tasks[i]
  {
    seq(|tasks|, i requires 0 <= i < |tasks| =>
      if tasks[i].id == id then tasks[i].(status := DOWNLOADING, progress := Some(progress)) else tasks[i])
  }

  /** `updateCompleted`: the matching task is completed, with its output path. */
  function WithCompleted(tasks: seq<DownloadTask>, id: DownloadId, path: string): (r: seq<DownloadTask>)
    ensures |r| == |tasks| && Ids(r) == Ids(tasks)
    ensures forall i :: 0 <= i < |r| ==>
      r[i] == if tasks[i].id == id then tasks[i].(status := COMPLETED, outputPath := Some(path)) else tasks[i]
  {
    seq(|tasks|, i requires 0 <= i < |tasks| =>
      if tasks[i].id == id then tasks[i].(status := COMPLETED, outputPath := Some(path)) else tasks[i])
  }

  /** The status an event gives its task. */
  function EventStatus(event: DownloadEvent): DownloadStatus
  {
    match event
    case Queued(_) => QUEUED
    case Started(_) => DOWNLOADING
    case Progress(_, _) => DOWNLOADING
    case Paused(_) => PAUSED
    case Resumed(_) => DOWNLOADING
    case Completed(_, _) => COMPLETED
    case Failed(_, error) => if error == CancelledError then CANCELLED else FAILED
    case Cancelled(_) => CANCELLED
  }

  /** The task list after `handleEvent`. */
  function TasksOnEvent(tasks: seq<DownloadTask>, event: DownloadEvent): (r: seq<DownloadTask>)
    ensures |r| == |tasks| && Ids(r) == Ids(tasks)
  {
    match event
    case Progress(id, progress) => WithProgress(tasks, id, progress)
    case Completed(id, path) => WithCompleted(tasks, id, path)
    case _ => WithStatus(tasks, event.id, EventStatus(event))
  }

  /**
    * Every event sets the status of the task with its id, and of no other
    * task; a progress event records its progress, a completion its path.
    */
  lemma TasksOnEventStatus(tasks: seq<DownloadTask>, event: DownloadEvent, i: nat)
    requires i < |tasks|
    ensures |TasksOnEvent(tasks, event)| == |tasks|
    ensures tasks[i].id == event.id ==> TasksOnEvent(tasks, event)[i].status == EventStatus(event)
    ensures tasks[i].id != event.id ==> TasksOnEvent(tasks, event)[i] == tasks[i]
    ensures tasks[i].id == event.id && event.Progress? ==> TasksOnEvent(tasks, event)[i].progress == Some(event.progress)
    ensures tasks[i].id == event.id && event.Completed? ==> TasksOnEvent(tasks, event)[i].outputPath == Some(event.filePath)
    ensures TasksOnEvent(tasks, event)[i].title == tasks[i].title && TasksOnEvent(tasks, event)[i].url == tasks[i].url
  {
    if tasks[i].id == event.id && !event.Progress? && !event.Completed? {
      assert HasTask(tasks, event.id);
    }
  }

  /** Equal id lists have the same duplicates. */
  lemma SameIdsUnique(a: seq<DownloadTask>, b: seq<DownloadTask>)
    requires Ids(a) == Ids(b) && UniqueIds(a)
    ensures UniqueIds(b)
  {
    forall i, j | 0 <= i < j < |b| ensures b[i].id != b[j].id {
      assert Ids(a)[i] == b[i].id && Ids(a)[j] == b[j].id;
    }
  }

  /** The task list after each of `events` in turn. */
  function TasksAfter(tasks: seq<DownloadTask>, events: seq<DownloadEvent>): seq<DownloadTask>
  {
    if events == [] then tasks
    else TasksOnEvent(TasksAfter(tasks, events[..|events| - 1]), events[|events| - 1])
  }

  /** Handling events never adds, removes or reorders tasks, so ids stay unique. */
  lemma {:induction false} TasksAfterKeepsIds(tasks: seq<DownloadTask>, events: seq<DownloadEvent>)
    ensures Ids(TasksAfter(tasks, events)) == Ids(tasks)
    ensures UniqueIds(tasks) ==> UniqueIds(TasksAfter(tasks, events))
  {
    if events != [] {
      TasksAfterKeepsIds(tasks, events[..|events| - 1]);
    }
    if UniqueIds(tasks) {
      SameIdsUnique(tasks, TasksAfter(tasks, events));
    }
  }

  /** After a run of events, a task carries the status its last event gave it. */
  lemma TaskStatusAfter(tasks: seq<DownloadTask>, events: seq<DownloadEvent>, i: nat)
    requires i < |tasks| && events != [] && tasks[i].id == events[|events| - 1].id
    ensures i < |TasksAfter(tasks, events)|
    ensures TasksAfter(tasks, events)[i].status == EventStatus(events[|events| - 1])
  {
    var before := TasksAfter(tasks, events[..|events| - 1]);
    TasksAfterKeepsIds(tasks, events[..|events| - 1]);
    assert Ids(before)[i] == Ids(tasks)[i];
    TasksOnEventStatus(before, events[|events| - 1], i);
  }

  /** A queued task stays listed, and ends with the status of the last event for its id. */
  lemma QueuedTaskAfter(tasks: seq<DownloadTask>, task: DownloadTask, events: seq<DownloadEvent>)
    ensures HasTask(TasksAfter(WithTask(tasks, task), events), task.id)
    ensures events != [] && events[|events| - 1].id == task.id ==>
      forall i :: 0 <= i < |TasksAfter(WithTask(tasks, task), events)| && TasksAfter(WithTask(tasks, task), events)[i].id == task.id ==>
        TasksAfter(WithTask(tasks, task), events)[i].status == EventStatus(events[|events| - 1])
  {
    var queued := WithTask(tasks, task);
    var after := TasksAfter(queued, events);
    if !HasTask(tasks, task.id) {
      assert queued[|tasks|].id == task.id;
    }
    var k :| 0 <= k < |queued| && queued[k].id == task.id;
    TasksAfterKeepsIds(queued, events);
    assert Ids(after)[k] == Ids(queued)[k];
    if events != [] && events[|events| - 1].id == task.id {
      forall i | 0 <= i < |after| && after[i].id == task.id
        ensures after[i].status == EventStatus(events[|events| - 1])
      {
        assert Ids(after)[i] == Ids(queued)[i];
        TaskStatusAfter(queued, events, i);
      }
    }
  }

  // ---------------------------------------------------------------------------
  // The state store
  // ---------------------------------------------------------------------------

  /** `persistState`: the record saved on a progress event; `stamp` is the random update time. */
  function SavedState(request: DownloadRequest, progress: DownloadProgress, stamp: int): (s: DownloadState)
    ensures s.id == request.id && s.fileName == request.id.value
    ensures s.url == request.url && s.outputDirectory == request.outputDirectory
    ensures s.outputFormat == request.outputFormat && s.qualityPreference == request.qualityPreference
    ensures s.downloadedBytes == progress.downloadedBytes && s.totalBytes == progress.totalBytes
    ensures s.eTag.None? && s.lastModified.None?
  {
    DownloadState(request.id, request.url, request.outputDirectory, request.id.value, request.outputFormat,
      request.qualityPreference, progress.downloadedBytes, progress.totalBytes, None, None, stamp)
  }

  /** The store after `handleEvent`: a progress saves the request's state, a terminal event deletes its id's. */
  function StoreOnEvent(store: map<DownloadId, DownloadState>, request: DownloadRequest, event: DownloadEvent, stamp: int)
    : (r: map<DownloadId, DownloadState>)
    ensures event.Progress? ==> r == store[request.id := SavedState(request, event.progress, stamp)]
    ensures event.IsTerminal() ==> event.id !in r && forall k :: k in store && k != event.id ==> k in r && r[k] == store[k]
    ensures event.IsTerminal() ==> forall k :: k in r ==> k in store
    ensures !event.Progress? && !event.IsTerminal() ==> r == store
  {
    if event.Progress? then store[request.id := SavedState(request, event.progress, stamp)]
    else if event.IsTerminal() then store - {event.id}
    else store
  }

  /** The store after each of `events` in turn; the event at position k is stamped `stamp(k)`. */
  function StoreAfter(store: map<DownloadId, DownloadState>, request: DownloadRequest, events: seq<DownloadEvent>, stamp: nat -> int)
    : map<DownloadId, DownloadState>
  {
    if events == [] then store
    else StoreOnEvent(StoreAfter(store, request, events[..|events| - 1], stamp), request, events[|events| - 1], stamp(|events| - 1))
  }

  /**
    * After events ending with a terminal one the request's state is gone;
    * after events ending with a progress the saved state holds its counts.
    */
  lemma StoreAfterLast(store: map<DownloadId, DownloadState>, request: DownloadRequest, events: seq<DownloadEvent>, stamp: nat -> int)
    requires events != []
    ensures events[|events| - 1].IsTerminal() && events[|events| - 1].id == request.id ==>
      request.id !in StoreAfter(store, request, events, stamp)
    ensures events[|events| - 1].Progress? ==>
      && request.id in StoreAfter(store, request, events, stamp)
      && StoreAfter(store, request, events, stamp)[request.id].downloadedBytes == events[|events| - 1].progress.downloadedBytes
      && StoreAfter(store, request, events, stamp)[request.id].totalBytes == events[|events| - 1].progress.totalBytes
  {
  }

  // ---------------------------------------------------------------------------
  // Forwarding
  // ---------------------------------------------------------------------------

  /** The index of the first terminal event, or |events| when there is none. */
  function FirstTerminal(events: seq<DownloadEvent>): (k: nat)
    ensures k <= |events|
    ensures forall i :: 0 <= i < k ==> !events[i].IsTerminal()
    ensures k < |events| ==> events[k].IsTerminal()
  {
    if events == [] then 0
    else if events[0].IsTerminal() then 0
    else 1 + FirstTerminal(events[1..])
  }

  /** The events a collector forwards: everything up to and including the first terminal event. */
  function UpToTerminal(events: seq<DownloadEvent>): (r: seq<DownloadEvent>)
    ensures r <= events
    ensures forall i :: 0 <= i < |r| - 1 ==> !r[i].IsTerminal()
    ensures (exists i :: 0 <= i < |events| && events[i].IsTerminal()) <==> r != [] && r[|r| - 1].IsTerminal()
  {
    var k := FirstTerminal(events);
    if k < |events| then events[..k + 1] else events
  }

  // ---------------------------------------------------------------------------
  // The repository
  // ---------------------------------------------------------------------------

  class DefaultDownloadRepository {
    const engine: KtorEngine.Engine
    /** The aggregate task list. */
    var tasks: seq<DownloadTask>
    /** The resume-state store. */
    var store: map<DownloadId, DownloadState>
    /** The session of each enqueued download. */
    var sessions: map<DownloadId, KtorEngine.Session>

    ghost predicate Valid()
      reads this
    {
      UniqueIds(tasks)
    }

    constructor(engine: KtorEngine.Engine, store: map<DownloadId, DownloadState>)
      ensures Valid()
      ensures this.engine == engine && tasks == [] && this.store == store && sessions == map[]
    {
      this.engine := engine;
      tasks := [];
      this.store := store;
      sessions := map[];
    }

    /** `handleEvent`: the task list and the store after one event of `request`'s session. */
    method HandleEvent(event: DownloadEvent, request: DownloadRequest, stamp: int)
      modifies this`tasks, this`store
      ensures tasks == TasksOnEvent(old(tasks), event)
      ensures store == StoreOnEvent(old(store), request, event, stamp)
    {
      match event {
        case Queued(id) => tasks := WithStatus(tasks, id, QUEUED);
        case Started(id) => tasks := WithStatus(tasks, id, DOWNLOADING);
        case Progress(id, progress) =>
          tasks := WithProgress(tasks, id, progress);
          store := store[request.id := SavedState(request, progress, stamp)];
        case Paused(id) => tasks := WithStatus(tasks, id, PAUSED);
        case Resumed(id) => tasks := WithStatus(tasks, id, DOWNLOADING);
        case Completed(id, path) =>
          tasks := WithCompleted(tasks, id, path);
          store := store - {id};
        case Failed(id, error) =>
          tasks := WithStatus(tasks, id, if error == CancelledError then CANCELLED else FAILED);
          store := store - {id};
        case Cancelled(id) =>
          tasks := WithStatus(tasks, id, CANCELLED);
          store := store - {id};
      }
    }

    /**
      * `enqueue`: forward `Queued`, list the task, read the resume state,
      * start the session, then forward and handle its events up to and
      * including the first terminal one.  `stamp(k)` is the update time of
      * the state saved for the session's event at position k.
      */
    method Enqueue(request: DownloadRequest, stamp: nat -> int) returns (forwarded: seq<DownloadEvent>, resumeState: Option<DownloadState>)
      requires Valid()
      modifies this, engine
      ensures Valid()
      ensures resumeState == if request.id in old(store) then Some(old(store)[request.id]) else None
      ensures request.id in sessions && fresh(sessions[request.id])
      ensures sessions == old(sessions)[request.id := sessions[request.id]]
      ensures
        var queued := WithTask(old(tasks), DownloadTask(request.id, request.url, QUEUED, None, None, None));
        var handled := UpToTerminal(sessions[request.id].events);
        && forwarded == [Queued(request.id)] + handled
        && tasks == TasksAfter(queued, handled)
        && store == StoreAfter(old(store), request, handled, stamp)
      ensures HasTask(tasks, request.id)
      ensures
        var handled := UpToTerminal(sessions[request.id].events);
        handled != [] && handled[|handled| - 1].id == request.id ==>
          && (forall i :: 0 <= i < |tasks| && tasks[i].id == request.id ==> tasks[i].status == EventStatus(handled[|handled| - 1]))
          && (handled[|handled| - 1].IsTerminal() ==> request.id !in store)
    {
      tasks := WithTask(tasks, DownloadTask(request.id, request.url, QUEUED, None, None, None));
      resumeState := if request.id in store then Some(store[request.id]) else None;
      var session, _ := engine.StartDownload(request, resumeState);
      sessions := sessions[request.id := session];
      forwarded := Forward(request, session.events, stamp);
      forwarded := [Queued(request.id)] + forwarded;
      QueuedTaskAfter(old(tasks), DownloadTask(request.id, request.url, QUEUED, None, None, None), UpToTerminal(session.events));
      if UpToTerminal(session.events) != [] {
        StoreAfterLast(old(store), request, UpToTerminal(session.events), stamp);
      }
    }

    /**
      * The collector of `enqueue`: handle and forward `events` up to and
      * including the first terminal one, stamping the event at position k
      * with `stamp(k)`.
      */
    method Forward(request: DownloadRequest, events: seq<DownloadEvent>, stamp: nat -> int) returns (forwarded: seq<DownloadEvent>)
      requires Valid()
      modifies this`tasks, this`store
      ensures Valid()
      ensures forwarded == UpToTerminal(events)
      ensures tasks == TasksAfter(old(tasks), forwarded)
      ensures store == StoreAfter(old(store), request, forwarded, stamp)
    {
      forwarded := [];
      ghost var queued := tasks;
      ghost var stored := store;
      var i := 0;
      while i < |events|
        invariant 0 <= i <= |events|
        invariant forall j :: 0 <= j < i ==> !events[j].IsTerminal()
        invariant forwarded == events[..i]
        invariant tasks == TasksAfter(queued, events[..i])
        invariant store == StoreAfter(stored, request, events[..i], stamp)
      {
        var event := events[i];
        HandleEvent(event, request, stamp(i));
        assert events[..i + 1][..i] == events[..i];
        forwarded := forwarded + [event];
        if event.IsTerminal() {
          assert FirstTerminal(events) == i by {
            FirstTerminalAt(events, i);
          }
          TasksAfterKeepsIds(queued, forwarded);
          return;
        }
        i := i + 1;
      }
      assert events[..i] == events;
      FirstTerminalNone(events);
      TasksAfterKeepsIds(queued, events);
    }

    /** `pause(id)`: the session's pause, if there is a session. */
    method Pause(id: DownloadId)
      modifies if id in sessions then {sessions[id], sessions[id].controller} else {}
      ensures id in sessions ==>
        && sessions[id].events == old(sessions[id].events) + [Paused(sessions[id].id)]
        && sessions[id].controller.state == DownloadControl.Step(old(sessions[id].controller.state), DownloadControl.PauseOp)
    {
      if id in sessions {
        sessions[id].Pause();
      }
    }

    /** `resume(id)`: the session's resume, if there is a session. */
    method Resume(id: DownloadId)
      modifies if id in sessions then {sessions[id], sessions[id].controller} else {}
      ensures id in sessions ==>
        && sessions[id].events == old(sessions[id].events) + [Resumed(sessions[id].id)]
        && sessions[id].controller.state == DownloadControl.Step(old(sessions[id].controller.state), DownloadControl.ResumeOp)
    {
      if id in sessions {
        sessions[id].Resume();
      }
    }

    /** `cancel(id)`: the session's cancel, if there is a session. */
    method Cancel(id: DownloadId)
      modifies if id in sessions then {sessions[id], sessions[id].controller} else {}
      ensures id in sessions ==>
        && sessions[id].events == old(sessions[id].events) + [Cancelled(sessions[id].id)]
        && sessions[id].controller.state == DownloadControl.CANCELLED
    {
      if id in sessions {
        sessions[id].Cancel();
      }
    }
  }

  /** A terminal event after only non-terminal ones is the first terminal event. */
  lemma {:induction false} FirstTerminalAt(events: seq<DownloadEvent>, i: nat)
    requires i < |events| && events[i].IsTerminal()
    requires forall j :: 0 <= j < i ==> !events[j].IsTerminal()
    ensures FirstTerminal(events) == i
  {
    if i > 0 {
      FirstTerminalAt(events[1..], i - 1);
    }
  }

  /** Without a terminal event, the collector forwards every event. */
  lemma FirstTerminalNone(events: seq<DownloadEvent>)
    requires forall j :: 0 <= j < |events| ==> !events[j].IsTerminal()
    ensures UpToTerminal(events) == events
  {
  }
}
