/** The window's shutdown, deferral and import-queue protocol as steps between states. */
module Lifecycle {

  type Arg = nat

  /** A callback posted to the event loop. Other stands for the remaining deferrable actions, by number. */
  datatype Job =
    | LoadFiles
    | ShowWindow
    | MarkReady
    | ScheduleImports
    | RunImports
    | CompleteImports(batch: seq<Arg>)
    | BeginShutdown
    | Close
    | Other(name: nat)

  const RESTORE_WORKSPACE: nat := 0

  /**
   * The window's flags and queues; what the environment still owes (drain reports, shutdown reports,
   * batches being imported); and history: what this shutdown attempt has achieved, the actions carried
   * out, and where the import arguments went.
   */
  datatype State = State(
    startupLoaded: bool, windowReady: bool,
    scheduled: bool, running: bool, pending: seq<Arg>,
    deferred: seq<Job>,
    shutdownPending: bool, complete: bool, failed: bool, finalized: bool,
    posted: seq<Job>,
    drains: nat, closings: nat, batches: seq<seq<Arg>>,
    flushed: bool, drained: bool, closed: bool,
    acts: seq<Job>, enqueued: seq<Arg>, delivered: seq<Arg>, lost: seq<Arg>)

  function Initial(args: seq<Arg>): State {
    State(false, false, false, false, args, [], false, false, false, false,
          [LoadFiles, ShowWindow], 0, 0, [], false, false, false, [], args, [], [])
  }

  // --- Deferral ---

  function Terminal(s: State): bool {
    s.complete || s.finalized
  }

  /** Jobs under one key of the deferral table. */
  predicate SameKey(j: Job, k: Job) {
    j == k || (j.CompleteImports? && k.CompleteImports?)
  }

  /** A keyed entry: it replaces the entry with its key in place, or comes last. */
  function Put(table: seq<Job>, job: Job): seq<Job> {
    if table == [] then [job]
    else if SameKey(table[0], job) then [job] + table[1..]
    else [table[0]] + Put(table[1..], job)
  }

  /** The import arguments that an entry of the table with this key holds. */
  function Displaced(table: seq<Job>, job: Job): seq<Arg> {
    if table == [] then []
    else if SameKey(table[0], job) then Carried(table[0])
    else Displaced(table[1..], job)
  }

  function Carried(job: Job): seq<Arg> {
    if job.CompleteImports? then job.batch else []
  }

  /** The import arguments held by a list of jobs. */
  function AllCarried(jobs: seq<Job>): seq<Arg> {
    if jobs == [] then [] else Carried(jobs[0]) + AllCarried(jobs[1..])
  }

  /** Whether an action is held back now. */
  predicate Defers(s: State) {
    Terminal(s) || s.shutdownPending
  }

  /** _defer_during_application_shutdown, for an action that is held back: dropped at the end, else entered. */
  function Defer(s: State, job: Job): State {
    if Terminal(s) then s.(lost := s.lost + Carried(job))
    else s.(deferred := Put(s.deferred, job), lost := s.lost + Displaced(s.deferred, job))
  }

  /** The table in the order in which it is resumed: loading and showing come first. */
  function ResumeOrder(table: seq<Job>): seq<Job> {
    Pick(table, LoadFiles) + Pick(table, ShowWindow) + Rest(table)
  }

  function Pick(table: seq<Job>, job: Job): seq<Job> {
    if job in table then [job] else []
  }

  function Rest(table: seq<Job>): seq<Job> {
    if table == [] then []
    else if table[0] == LoadFiles || table[0] == ShowWindow then Rest(table[1..])
    else [table[0]] + Rest(table[1..])
  }

  function Resume(s: State): State {
    s.(posted := s.posted + ResumeOrder(s.deferred), deferred := [])
  }

  function Discard(s: State): State {
    s.(deferred := [], lost := s.lost + AllCarried(s.deferred))
  }

  function Post(s: State, job: Job): State {
    s.(posted := s.posted + [job])
  }

  function Act(s: State, job: Job): State {
    s.(acts := s.acts + [job])
  }

  // --- The import queue ---

  /** _schedule_pending_project_file_imports. */
  function Schedule(s: State): State {
    if Defers(s) then Defer(s, ScheduleImports)
    else if s.pending == [] then s
    else if !s.startupLoaded || !s.windowReady then s
    else if s.scheduled || s.running then s
    else Post(s.(scheduled := true), RunImports)
  }

  /** enqueue_project_file_args, for arguments that name files. */
  function Enqueue(s: State, arg: Arg): State {
    Schedule(s.(pending := s.pending + [arg], enqueued := s.enqueued + [arg]))
  }

  /** _run_pending_project_file_imports; `sync` says whether the import answers at once. */
  function Run(s0: State, sync: bool): State {
    var s := s0.(scheduled := false);
    if Defers(s) then Defer(s, RunImports)
    else if s.pending == [] then s
    else if s.running then Schedule(s)
    else
      var t := Act(s.(pending := []), RunImports);
      if sync then Schedule(t.(delivered := t.delivered + s.pending, running := false))
      else t.(running := true, batches := t.batches + [s.pending])
  }

  /** _complete_async_project_file_imports. */
  function Complete(s: State, batch: seq<Arg>): State {
    if Defers(s) then Defer(s, CompleteImports(batch)).(running := false)
    else Schedule(Act(s, CompleteImports(batch)).(delivered := s.delivered + batch, running := false))
  }

  /** _load_files_from_config. */
  function Load(s: State): State {
    if Defers(s) then Defer(s, LoadFiles)
    else Schedule(Post(Act(s, LoadFiles), Other(RESTORE_WORKSPACE)).(startupLoaded := true))
  }

  /** _show_main_window; showing the window posts the ready mark. */
  function Show(s: State): State {
    if Defers(s) then Defer(s, ShowWindow)
    else Post(Act(s, ShowWindow), MarkReady)
  }

  /** _mark_main_window_ready. */
  function Ready(s: State): State {
    Schedule(s.(windowReady := true))
  }

  /** Any other deferrable action. */
  function Do(s: State, name: nat): State {
    if Defers(s) then Defer(s, Other(name)) else Act(s, Other(name))
  }

  // --- Shutdown ---

  /** closeEvent; `maintenance` says whether maintenance or a database creation is going on. */
  function CloseEvent(s: State, maintenance: bool): State {
    if maintenance then s
    else if s.finalized then s
    else if s.shutdownPending || s.failed then s
    else if !s.complete then
      Post(s.(shutdownPending := true, flushed := false, drained := false, closed := false), BeginShutdown)
    else Discard(s.(finalized := true))
  }

  /** The way back from a shutdown that failed: the window is shown again and the table resumed. */
  function Abort(s: State): State {
    Resume(Post(s.(shutdownPending := false), MarkReady))
  }

  /** _begin_application_shutdown. */
  function Begin(s: State, flushOk: bool): State {
    if !s.shutdownPending || s.complete || s.failed then s
    else if !flushOk then Abort(s)
    else s.(flushed := true, drains := s.drains + 1)
  }

  /** _on_collaboration_shutdown_complete. */
  function CollaborationDone(s: State, ok: bool): State {
    if !ok then Abort(s.(failed := true))
    else Post(Discard(s.(shutdownPending := false, complete := true, closed := true)), Close)
  }

  /** _on_shutdown_mutation_drain_complete; `already` says whether collaboration is closed already. */
  function DrainDone(s: State, ok: bool, already: bool): State {
    if !s.shutdownPending then s
    else if !ok then Abort(s)
    else if already then CollaborationDone(s.(drained := true), true)
    else s.(drained := true, closings := s.closings + 1)
  }

  // --- Steps ---

  datatype Oracle = Oracle(flushOk: bool, sync: bool, maintenance: bool)

  /** What can happen next: something from outside, or the event loop takes the next posted job. */
  datatype Label =
    | Arrive(arg: Arg)
    | UserClose(maintenance: bool)
    | DrainReport(ok: bool, already: bool)
    | ShutdownReport(ok: bool)
    | BatchDone(i: nat)
    | PostOther(name: nat)
    | Dispatch(oracle: Oracle)

  /** Reports come once for each request, and batches finish once. */
  predicate Enabled(s: State, l: Label) {
    match l
    case DrainReport(_, _) => s.drains > 0
    case ShutdownReport(_) => s.closings > 0
    case BatchDone(i) => i < |s.batches|
    case Dispatch(_) => s.posted != []
    case _ => true
  }

  function Perform(s: State, job: Job, o: Oracle): State {
    match job
    case LoadFiles => Load(s)
    case ShowWindow => Show(s)
    case MarkReady => Ready(s)
    case ScheduleImports => Schedule(s)
    case RunImports => Run(s, o.sync)
    case CompleteImports(batch) => Complete(s, batch)
    case BeginShutdown => Begin(s, o.flushOk)
    case Close => CloseEvent(s, o.maintenance)
    case Other(name) => Do(s, name)
  }

  function Next(s: State, l: Label): State
    requires Enabled(s, l)
  {
    match l
    case Arrive(arg) => Enqueue(s, arg)
    case UserClose(m) => CloseEvent(s, m)
    case DrainReport(ok, already) => DrainDone(s.(drains := s.drains - 1), ok, already)
    case ShutdownReport(ok) => CollaborationDone(s.(closings := s.closings - 1), ok)
    case BatchDone(i) => Complete(s.(batches := s.batches[..i] + s.batches[i + 1..]), s.batches[i])
    case PostOther(name) => Post(s, Other(name))
    case Dispatch(o) => Perform(s.(posted := s.posted[1..]), s.posted[0], o)
  }

  /** A run: the initial state, and one allowed step after the other. */
  ghost predicate IsRun(states: seq<State>, labels: seq<Label>) {
    && |states| == |labels| + 1
    && (exists args :: states[0] == Initial(args))
    && forall i :: 0 <= i < |labels| ==> Enabled(states[i], labels[i]) && states[i + 1] == Next(states[i], labels[i])
  }
}
