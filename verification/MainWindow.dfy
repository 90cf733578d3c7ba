/** The window object: its flags and queues, and the event methods that update them in place. */
module MainWindow {
  import opened Lifecycle
  import opened LifecycleSafety
  import LifecycleClose
  import opened LifecycleQueue

  /** One more allowed step makes a longer run. */
  lemma RunOn(states: seq<State>, labels: seq<Label>, l: Label)
    requires IsRun(states, labels) && Enabled(states[|labels|], l)
    ensures IsRun(states + [Next(states[|labels|], l)], labels + [l])
  {
    var s', l' := states + [Next(states[|labels|], l)], labels + [l];
    assert s'[0] == states[0];
    forall i | 0 <= i < |l'| ensures Enabled(s'[i], l'[i]) && s'[i + 1] == Next(s'[i], l'[i]) {
      assert s'[i] == states[i];
      if i < |labels| {
        assert s'[i + 1] == states[i + 1] && l'[i] == labels[i];
      }
    }
  }

  /** A run, and what every run theorem says of the state that it has come to. */
  ghost predicate SoundRun(states: seq<State>, labels: seq<Label>) {
    && IsRun(states, labels) && Safe(states[|labels|]) && Awake(states[|labels|])
    && (forall a :: Conserved(states[|labels|], a))
    && LifecycleClose.CloseKnown(states, labels, |labels|)
  }

  lemma RunSound(states: seq<State>, labels: seq<Label>)
    requires IsRun(states, labels)
    ensures SoundRun(states, labels)
  {
    RunSafe(states, labels, |labels|);
    LifecycleClose.RunClose(states, labels, |labels|);
    RunAwake(states, labels, |labels|);
    forall a ensures Conserved(states[|labels|], a) {
      RunConserved(states, labels, |labels|, a);
    }
  }

  /** Both of a step to t. */
  lemma LongerRun(states: seq<State>, labels: seq<Label>, l: Label, t: State)
    requires IsRun(states, labels) && Enabled(states[|labels|], l) && t == Next(states[|labels|], l)
    ensures SoundRun(states + [t], labels + [l])
  {
    RunOn(states, labels, l);
    RunSound(states + [t], labels + [l]);
  }

  lemma {:induction false} PutReplaces(table: seq<Job>, job: Job, i: nat)
    requires i < |table| && SameKey(table[i], job) && forall k :: 0 <= k < i ==> !SameKey(table[k], job)
    ensures Put(table, job) == table[..i] + [job] + table[i + 1..]
    ensures Displaced(table, job) == Carried(table[i])
  {
    if i > 0 {
      PutReplaces(table[1..], job, i - 1);
      assert table == [table[0]] + table[1..];
    }
  }

  lemma {:induction false} PutAppends(table: seq<Job>, job: Job)
    requires forall k :: 0 <= k < |table| ==> !SameKey(table[k], job)
    ensures Put(table, job) == table + [job] && Displaced(table, job) == []
  {
    if table != [] {
      PutAppends(table[1..], job);
      assert table == [table[0]] + table[1..];
    }
  }

  lemma {:induction false} RestJoin(x: seq<Job>, y: seq<Job>)
    ensures Rest(x + y) == Rest(x) + Rest(y)
  {
    if x == [] {
      assert x + y == y;
    } else {
      RestJoin(x[1..], y);
      assert (x + y)[1..] == x[1..] + y;
    }
  }

  lemma RestWithout(table: seq<Job>, i: nat)
    requires i < |table| && (table[i] == LoadFiles || table[i] == ShowWindow)
    ensures Rest(table[..i] + table[i + 1..]) == Rest(table)
  {
    var front, back := table[..i], table[i + 1..];
    assert table == front + ([table[i]] + back);
    RestJoin(front, [table[i]] + back);
    RestJoin(front, back);
    assert ([table[i]] + back)[1..] == back;
  }

  /** The waiting arguments are imported on the spot. */
  ghost function Imported(s: State): State {
    Act(s.(pending := []), RunImports).(delivered := s.delivered + s.pending, running := false)
  }

  lemma RunAtOnce(s: State)
    requires !Defers(s) && !s.scheduled && !s.running && s.pending != []
    ensures Run(s, true) == Schedule(Imported(s))
  {
    assert s.(scheduled := false) == s;
  }

  /** Collaboration is closed: the held callbacks are dropped, and the window is to be closed for good. */
  lemma ClosedDown(s: State)
    ensures CollaborationDone(s, true)
         == Post(Discard(s.(shutdownPending := false, complete := true, closed := true)), Close)
  {
  }

  class MainWindow {
    var startupLoadComplete: bool
    var mainWindowReady: bool
    var importScheduled: bool
    var importRunning: bool
    var pendingArgs: seq<Arg>
    var deferredCallbacks: seq<Job>
    var shutdownPending: bool
    var shutdownComplete: bool
    var shutdownFailed: bool
    var finalized: bool
    var posted: seq<Job>

    /** The abstract state, with what the environment owes and what has happened so far. */
    ghost var model: State

    /** The run so far: its states, and what the window was called for. */
    ghost var states: seq<State>
    ghost var labels: seq<Label>

    /** The fields are those of the abstract state. */
    ghost predicate Tracks()
      reads this
    {
      && model.startupLoaded == startupLoadComplete && model.windowReady == mainWindowReady
      && model.scheduled == importScheduled && model.running == importRunning
      && model.pending == pendingArgs && model.deferred == deferredCallbacks
      && model.shutdownPending == shutdownPending && model.complete == shutdownComplete
      && model.failed == shutdownFailed && model.finalized == finalized && model.posted == posted
    }

    /** Between two events: the state is the end of the run so far, and has what every run keeps. */
    ghost predicate Sound()
      reads this
    {
      Tracks() && SoundRun(states, labels) && model == states[|labels|]
    }

    constructor (args: seq<Arg>)
      ensures Sound() && model == Initial(args) && labels == []
    {
      startupLoadComplete, mainWindowReady, importScheduled, importRunning := false, false, false, false;
      pendingArgs, deferredCallbacks := args, [];
      shutdownPending, shutdownComplete, shutdownFailed, finalized := false, false, false, false;
      posted := [LoadFiles, ShowWindow];
      model := Initial(args);
      states, labels := [Initial(args)], [];
      new;
      RunSound(states, labels);
    }

    /** Enters the step just made into the run. */
    ghost method Record(l: Label)
      requires Tracks() && IsRun(states, labels)
      requires Enabled(states[|labels|], l) && model == Next(states[|labels|], l)
      modifies this`states, this`labels
      ensures Sound() && labels == old(labels) + [l] && states == old(states) + [model]
    {
      LongerRun(states, labels, l, model);
      states, labels := states + [model], labels + [l];
    }

    /** QTimer.singleShot(0, ...). */
    method PostCallback(job: Job)
      requires Tracks()
      modifies this`posted, this`model
      ensures Tracks() && model == Post(old(model), job)
    {
      posted := posted + [job];
      model := Post(model, job);
    }

    /** Enters a callback under its key: in the place of an earlier one, or last. */
    method StoreDeferred(job: Job)
      modifies this`deferredCallbacks
      ensures deferredCallbacks == Put(old(deferredCallbacks), job)
    {
      var i := 0;
      while i < |deferredCallbacks|
        invariant 0 <= i <= |deferredCallbacks| && deferredCallbacks == old(deferredCallbacks)
        invariant forall k :: 0 <= k < i ==> !SameKey(deferredCallbacks[k], job)
      {
        if SameKey(deferredCallbacks[i], job) {
          PutReplaces(deferredCallbacks, job, i);
          deferredCallbacks := deferredCallbacks[..i] + [job] + deferredCallbacks[i + 1..];
          return;
        }
        i := i + 1;
      }
      PutAppends(deferredCallbacks, job);
      deferredCallbacks := deferredCallbacks + [job];
    }

    /** _defer_during_application_shutdown. */
    method DeferDuringShutdown(job: Job) returns (r: bool)
      requires Tracks()
      modifies this`deferredCallbacks, this`model
      ensures Tracks() && r == Defers(old(model))
      ensures model == if r then Defer(old(model), job) else old(model)
    {
      if shutdownComplete || finalized {
        model := Defer(model, job);
        return true;
      }
      if !shutdownPending {
        return false;
      }
      StoreDeferred(job);
      model := Defer(model, job);
      return true;
    }

    /** The part of _resume_shutdown_deferred_callbacks that pops one key. */
    method Pop(job: Job) returns (found: seq<Job>)
      requires job == LoadFiles || job == ShowWindow
      modifies this`deferredCallbacks
      ensures found == Pick(old(deferredCallbacks), job)
      ensures Rest(deferredCallbacks) == Rest(old(deferredCallbacks))
      ensures forall k :: k != job ==> (k in deferredCallbacks <==> k in old(deferredCallbacks))
    {
      found := [];
      var i := 0;
      while i < |deferredCallbacks|
        invariant 0 <= i <= |deferredCallbacks| && found == [] && deferredCallbacks == old(deferredCallbacks)
        invariant job !in deferredCallbacks[..i]
      {
        if deferredCallbacks[i] == job {
          RestWithout(deferredCallbacks, i);
          deferredCallbacks := deferredCallbacks[..i] + deferredCallbacks[i + 1..];
          return [job];
        }
        assert deferredCallbacks[..i + 1] == deferredCallbacks[..i] + [deferredCallbacks[i]];
        i := i + 1;
      }
      assert deferredCallbacks[..i] == deferredCallbacks;
    }

    /** _resume_shutdown_deferred_callbacks. */
    method ResumeDeferred()
      requires Tracks()
      modifies this`posted, this`deferredCallbacks, this`model
      ensures Tracks() && model == Resume(old(model))
    {
      var load := Pop(LoadFiles);
      var show := Pop(ShowWindow);
      var rest := RestOfTable();
      deferredCallbacks := [];
      posted := posted + (load + show + rest);
      model := Resume(model);
    }

    /** The callbacks of the table other than loading and showing, in order. */
    method RestOfTable() returns (rest: seq<Job>)
      ensures rest == Rest(deferredCallbacks)
    {
      rest := [];
      var i := 0;
      while i < |deferredCallbacks|
        invariant 0 <= i <= |deferredCallbacks| && rest == Rest(deferredCallbacks[..i])
      {
        assert deferredCallbacks[..i + 1] == deferredCallbacks[..i] + [deferredCallbacks[i]];
        RestJoin(deferredCallbacks[..i], [deferredCallbacks[i]]);
        if deferredCallbacks[i] != LoadFiles && deferredCallbacks[i] != ShowWindow {
          rest := rest + [deferredCallbacks[i]];
        }
        i := i + 1;
      }
      assert deferredCallbacks[..i] == deferredCallbacks;
    }

    /** _discard_shutdown_deferred_callbacks. */
    method DiscardDeferred()
      requires Tracks()
      modifies this`deferredCallbacks, this`model
      ensures Tracks() && model == Discard(old(model))
    {
      deferredCallbacks := [];
      model := Discard(model);
    }

    /** _schedule_pending_project_file_imports. */
    method ScheduleImportsIfNeeded()
      requires Tracks()
      modifies this`deferredCallbacks, this`importScheduled, this`posted, this`model
      ensures Tracks() && model == Schedule(old(model))
    {
      var held := DeferDuringShutdown(ScheduleImports);
      if held {
        return;
      }
      model := Schedule(model);
      if pendingArgs == [] {
        return;
      }
      if !startupLoadComplete || !mainWindowReady {
        return;
      }
      if importScheduled || importRunning {
        return;
      }
      importScheduled := true;
      posted := posted + [RunImports];
    }

    /** enqueue_project_file_args. */
    method EnqueueProjectFileArgs(arg: Arg)
      requires Tracks()
      modifies this`pendingArgs, this`deferredCallbacks, this`importScheduled, this`posted, this`model
      ensures Tracks() && model == Enqueue(old(model), arg)
    {
      pendingArgs := pendingArgs + [arg];
      model := model.(pending := model.pending + [arg], enqueued := model.enqueued + [arg]);
      ScheduleImportsIfNeeded();
    }

    /** _run_pending_project_file_imports; `sync` stands for an import that answers at once. */
    method RunPendingImports(sync: bool)
      requires Tracks()
      modifies this`pendingArgs, this`deferredCallbacks, this`importScheduled, this`importRunning, this`posted
      modifies this`model
      ensures Tracks() && model == Run(old(model), sync)
    {
      ghost var t := model.(scheduled := false);
      importScheduled := false;
      model := t;
      var held := DeferDuringShutdown(RunImports);
      if held {
        assert model == Defer(t, RunImports);
        return;
      }
      if pendingArgs == [] {
        assert model == t;
        return;
      }
      if importRunning {
        ScheduleImportsIfNeeded();
        assert model == Schedule(t);
        return;
      }
      StartImport(sync);
      assert model == Run(t, sync);
    }

    /** The import itself, when it is neither held back nor running already. */
    method StartImport(sync: bool)
      requires Tracks() && !Defers(model) && !importScheduled && !importRunning && pendingArgs != []
      modifies this`pendingArgs, this`importScheduled, this`importRunning, this`deferredCallbacks, this`posted
      modifies this`model
      ensures Tracks() && model == Run(old(model), sync)
    {
      importRunning := true;
      pendingArgs := [];
      if !sync {
        model := Run(model, false);
        return;
      }
      ghost var before := model;
      importRunning := false;
      model := Imported(before);
      ScheduleImportsIfNeeded();
      RunAtOnce(before);
    }

    /** _complete_async_project_file_imports. */
    method CompleteAsyncImports(batch: seq<Arg>)
      requires Tracks()
      modifies this`deferredCallbacks, this`importScheduled, this`importRunning, this`posted, this`model
      ensures Tracks() && model == Complete(old(model), batch)
    {
      ghost var d := Defer(model, CompleteImports(batch));
      var held := DeferDuringShutdown(CompleteImports(batch));
      if held {
        importRunning := false;
        model := d.(running := false);
        return;
      }
      Deliver(batch);
    }

    /** Delivering a result that is not held back. */
    method Deliver(batch: seq<Arg>)
      requires Tracks() && !Defers(model)
      modifies this`deferredCallbacks, this`importScheduled, this`importRunning, this`posted, this`model
      ensures Tracks() && model == Complete(old(model), batch)
    {
      ghost var t := Act(model, CompleteImports(batch)).(delivered := model.delivered + batch, running := false);
      importRunning := false;
      model := t;
      ScheduleImportsIfNeeded();
      assert model == Schedule(t);
    }

    /** _load_files_from_config. */
    method LoadFilesFromConfig()
      requires Tracks()
      modifies this`deferredCallbacks, this`importScheduled, this`posted, this`startupLoadComplete, this`model
      ensures Tracks() && model == Load(old(model))
    {
      var held := DeferDuringShutdown(LoadFiles);
      if held {
        return;
      }
      posted := posted + [Other(RESTORE_WORKSPACE)];
      startupLoadComplete := true;
      model := Post(Act(model, LoadFiles), Other(RESTORE_WORKSPACE)).(startupLoaded := true);
      ScheduleImportsIfNeeded();
    }

    /** _show_main_window; the show event posts the ready mark. */
    method ShowMainWindow()
      requires Tracks()
      modifies this`deferredCallbacks, this`posted, this`model
      ensures Tracks() && model == Show(old(model))
    {
      var held := DeferDuringShutdown(ShowWindow);
      if held {
        return;
      }
      posted := posted + [MarkReady];
      model := Show(model);
    }

    method SetReady()
      requires Tracks()
      modifies this`mainWindowReady, this`model
      ensures Tracks() && model == old(model).(windowReady := true)
    {
      model := model.(windowReady := true);
      mainWindowReady := true;
    }

    /** _mark_main_window_ready. */
    method MarkMainWindowReady()
      requires Tracks()
      modifies this`deferredCallbacks, this`importScheduled, this`posted, this`mainWindowReady, this`model
      ensures Tracks() && model == Ready(old(model))
    {
      SetReady();
      ghost var t := model;
      ScheduleImportsIfNeeded();
      assert model == Schedule(t);
    }

    /** Any other deferrable action. */
    method DoOther(name: nat)
      requires Tracks()
      modifies this`deferredCallbacks, this`model
      ensures Tracks() && model == Do(old(model), name)
    {
      var held := DeferDuringShutdown(Other(name));
      if !held {
        model := Act(model, Other(name));
      }
    }

    /** closeEvent; `maintenance` says whether maintenance or a database creation is going on. */
    method CloseWindow(maintenance: bool) returns (accepted: bool)
      requires Tracks()
      modifies this`shutdownPending, this`finalized, this`posted, this`deferredCallbacks, this`model
      ensures Tracks() && model == CloseEvent(old(model), maintenance)
      ensures accepted <==> !maintenance && finalized
    {
      if maintenance {
        model := CloseEvent(model, true);
        return false;
      }
      if finalized {
        return true;
      }
      if shutdownPending || shutdownFailed {
        return false;
      }
      if !shutdownComplete {
        shutdownPending := true;
        posted := posted + [BeginShutdown];
        model := CloseEvent(model, false);
        return false;
      }
      finalized := true;
      model := model.(finalized := true);
      DiscardDeferred();
      return true;
    }

    /** The way back from a shutdown that failed. */
    method AbortShutdown()
      requires Tracks()
      modifies this`shutdownPending, this`posted, this`deferredCallbacks, this`model
      ensures Tracks() && model == Abort(old(model))
    {
      shutdownPending := false;
      model := model.(shutdownPending := false);
      PostCallback(MarkReady);
      ResumeDeferred();
    }

    /** _begin_application_shutdown. */
    method BeginApplicationShutdown(flushOk: bool)
      requires Tracks()
      modifies this`shutdownPending, this`posted, this`deferredCallbacks, this`model
      ensures Tracks() && model == Begin(old(model), flushOk)
    {
      if !shutdownPending || shutdownComplete || shutdownFailed {
        return;
      }
      if !flushOk {
        AbortShutdown();
        return;
      }
      model := Begin(model, true);
    }

    /** _on_shutdown_mutation_drain_complete, once its report is no longer due. */
    method OnMutationDrainComplete(success: bool, alreadyClosed: bool)
      requires Tracks()
      modifies this`shutdownPending, this`shutdownComplete, this`shutdownFailed, this`deferredCallbacks, this`posted
      modifies this`model
      ensures Tracks() && model == DrainDone(old(model), success, alreadyClosed)
    {
      if !shutdownPending {
        return;
      }
      if !success {
        AbortShutdown();
        return;
      }
      Drained(alreadyClosed);
    }

    /** The mutations are drained: what is left is to close collaboration, unless it is closed. */
    method Drained(alreadyClosed: bool)
      requires Tracks() && shutdownPending
      modifies this`shutdownPending, this`shutdownComplete, this`shutdownFailed, this`deferredCallbacks, this`posted
      modifies this`model
      ensures Tracks() && model == DrainDone(old(model), true, alreadyClosed)
    {
      ghost var before := model;
      if alreadyClosed {
        model := model.(drained := true);
        OnCollaborationShutdownComplete(true);
        return;
      }
      model := DrainDone(before, true, false);
    }

    /** The shutdown is complete. */
    method MarkComplete()
      requires Tracks()
      modifies this`shutdownPending, this`shutdownComplete, this`model
      ensures Tracks() && model == old(model).(shutdownPending := false, complete := true, closed := true)
    {
      shutdownPending := false;
      shutdownComplete := true;
      model := model.(shutdownPending := false, complete := true, closed := true);
    }

    /** The success branch of _on_collaboration_shutdown_complete. */
    method FinishShutdown()
      requires Tracks()
      modifies this`shutdownPending, this`shutdownComplete, this`deferredCallbacks, this`posted, this`model
      ensures Tracks() && model == CollaborationDone(old(model), true)
    {
      ghost var before := model;
      MarkComplete();
      DiscardDeferred();
      PostCallback(Close);
      ClosedDown(before);
    }

    /** The failure branch of _on_collaboration_shutdown_complete. */
    method FailShutdown()
      requires Tracks()
      modifies this`shutdownPending, this`shutdownFailed, this`deferredCallbacks, this`posted, this`model
      ensures Tracks() && model == CollaborationDone(old(model), false)
    {
      shutdownFailed := true;
      model := model.(failed := true);
      AbortShutdown();
    }

    /** _on_collaboration_shutdown_complete. */
    method OnCollaborationShutdownComplete(success: bool)
      requires Tracks()
      modifies this`shutdownPending, this`shutdownComplete, this`shutdownFailed, this`deferredCallbacks, this`posted
      modifies this`model
      ensures Tracks() && model == CollaborationDone(old(model), success)
    {
      if !success {
        FailShutdown();
        return;
      }
      FinishShutdown();
    }

    method CarryOut(job: Job, o: Oracle)
      requires Tracks()
      modifies this`pendingArgs, this`deferredCallbacks, this`importScheduled, this`importRunning, this`posted,
        this`startupLoadComplete, this`mainWindowReady, this`shutdownPending, this`shutdownComplete,
        this`shutdownFailed, this`finalized, this`model
      ensures Tracks() && model == Perform(old(model), job, o)
    {
      match job
      case LoadFiles => LoadFilesFromConfig();
      case ShowWindow => ShowMainWindow();
      case MarkReady => MarkMainWindowReady();
      case ScheduleImports => ScheduleImportsIfNeeded();
      case RunImports => RunPendingImports(o.sync);
      case CompleteImports(batch) => CompleteAsyncImports(batch);
      case BeginShutdown => BeginApplicationShutdown(o.flushOk);
      case Close =>
        var accepted := CloseWindow(o.maintenance);
      case Other(name) => DoOther(name);
    }

    // --- What the window is called for: each event is one step of the run ---

    /** An argument arrives, from the command line or from another instance. */
    method Arrives(arg: Arg)
      requires Sound()
      modifies this
      ensures Sound() && model == Next(old(model), Arrive(arg)) && labels == old(labels) + [Arrive(arg)]
    {
      EnqueueProjectFileArgs(arg);
      Record(Arrive(arg));
    }

    /** The user closes the window. */
    method UserCloses(maintenance: bool) returns (accepted: bool)
      requires Sound()
      modifies this
      ensures Sound() && model == Next(old(model), UserClose(maintenance))
      ensures labels == old(labels) + [UserClose(maintenance)]
      ensures accepted ==> old(model).complete && model.flushed && model.drained && model.closed
    {
      accepted := CloseWindow(maintenance);
      Record(UserClose(maintenance));
    }

    /** The drain that a shutdown asked for reports. */
    method DrainReports(ok: bool, already: bool)
      requires Sound() && model.drains > 0
      modifies this
      ensures Sound() && model == Next(old(model), DrainReport(ok, already))
      ensures labels == old(labels) + [DrainReport(ok, already)]
    {
      model := model.(drains := model.drains - 1);
      OnMutationDrainComplete(ok, already);
      Record(DrainReport(ok, already));
    }

    /** Collaboration reports that it is closed, or could not be. */
    method ShutdownReports(ok: bool)
      requires Sound() && model.closings > 0
      modifies this
      ensures Sound() && model == Next(old(model), ShutdownReport(ok))
      ensures labels == old(labels) + [ShutdownReport(ok)]
    {
      model := model.(closings := model.closings - 1);
      OnCollaborationShutdownComplete(ok);
      Record(ShutdownReport(ok));
    }

    /** A batch of imports under way is done, whichever it is. */
    method BatchEnds(ghost i: nat, batch: seq<Arg>)
      requires Sound() && i < |model.batches| && batch == model.batches[i]
      modifies this
      ensures Sound() && model == Next(old(model), BatchDone(i)) && labels == old(labels) + [BatchDone(i)]
    {
      model := model.(batches := model.batches[..i] + model.batches[i + 1..]);
      CompleteAsyncImports(batch);
      Record(BatchDone(i));
    }

    /** Someone else posts a deferrable action. */
    method PostAction(name: nat)
      requires Sound()
      modifies this
      ensures Sound() && model == Next(old(model), PostOther(name)) && labels == old(labels) + [PostOther(name)]
    {
      PostCallback(Other(name));
      Record(PostOther(name));
    }

    method TakePosted() returns (job: Job)
      requires Tracks() && posted != []
      modifies this`posted, this`model
      ensures Tracks() && job == old(model).posted[0] && model == old(model).(posted := old(model).posted[1..])
    {
      job := posted[0];
      posted := posted[1..];
      model := model.(posted := model.posted[1..]);
    }

    /** The event loop takes the next posted callback. */
    method DispatchNext(o: Oracle)
      requires Sound() && posted != []
      modifies this
      ensures Sound() && model == Next(old(model), Dispatch(o)) && labels == old(labels) + [Dispatch(o)]
    {
      var job := TakePosted();
      CarryOut(job, o);
      Record(Dispatch(o));
    }
  }
}
