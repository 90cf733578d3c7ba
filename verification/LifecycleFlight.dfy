/** When at most one import batch is in flight, and how a second one gets off the ground. */
module LifecycleFlight {
  import opened Lifecycle
  import opened LifecycleSafety

  ghost function Completions(jobs: seq<Job>): nat {
    if jobs == [] then 0 else (if jobs[0].CompleteImports? then 1 else 0) + Completions(jobs[1..])
  }

  /** Batches that were started and are not yet delivered or dropped. */
  ghost function Busy(s: State): nat {
    |s.batches| + Completions(s.posted) + Completions(s.deferred)
  }

  lemma {:induction false} CompletionsJoin(x: seq<Job>, y: seq<Job>)
    ensures Completions(x + y) == Completions(x) + Completions(y)
  {
    if x == [] {
      assert x + y == y;
    } else {
      CompletionsJoin(x[1..], y);
      assert (x + y)[1..] == x[1..] + y;
    }
  }

  lemma {:induction false} PutCompletions(table: seq<Job>, job: Job)
    ensures Completions(table) <= Completions(Put(table, job))
    ensures !job.CompleteImports? ==> Completions(Put(table, job)) == Completions(table) && Displaced(table, job) == []
    ensures job.CompleteImports? ==> Completions(Put(table, job)) <= Completions(table) + 1
    ensures job.CompleteImports? && Completions(table) == 0 ==> Displaced(table, job) == []
  {
    if table != [] {
      if SameKey(table[0], job) {
        assert Put(table, job)[1..] == table[1..];
      } else {
        PutCompletions(table[1..], job);
        assert Put(table, job)[1..] == Put(table[1..], job);
      }
    }
  }

  lemma {:induction false} RestCompletions(table: seq<Job>)
    ensures Completions(Rest(table)) == Completions(table)
  {
    if table != [] {
      RestCompletions(table[1..]);
      if table[0] != LoadFiles && table[0] != ShowWindow {
        assert Rest(table)[1..] == Rest(table[1..]);
      }
    }
  }

  lemma ResumeCompletions(table: seq<Job>)
    ensures Completions(ResumeOrder(table)) == Completions(table)
  {
    RestCompletions(table);
    CompletionsJoin(Pick(table, LoadFiles) + Pick(table, ShowWindow), Rest(table));
    CompletionsJoin(Pick(table, LoadFiles), Pick(table, ShowWindow));
  }

  // --- What one step does to the number of batches ---

  lemma PostBusy(s: State, job: Job)
    requires !job.CompleteImports?
    ensures Busy(Post(s, job)) == Busy(s)
  {
    CompletionsJoin(s.posted, [job]);
  }

  lemma DeferBusy(s: State, job: Job)
    ensures Busy(Defer(s, job)) <= Busy(s) + if job.CompleteImports? then 1 else 0
  {
    PutCompletions(s.deferred, job);
  }

  lemma ScheduleBusy(s: State)
    ensures Busy(Schedule(s)) <= Busy(s)
  {
    if Defers(s) {
      DeferBusy(s, ScheduleImports);
    } else if s.pending != [] && s.startupLoaded && s.windowReady && !s.scheduled && !s.running {
      PostBusy(s.(scheduled := true), RunImports);
    }
  }

  /** A run job takes off with a new batch. */
  predicate TakesOff(s: State, o: Oracle) {
    !Defers(s) && s.pending != [] && !s.running && !o.sync
  }

  lemma RunHeldBusy(s: State, o: Oracle)
    requires Defers(s)
    ensures Busy(Run(s, o.sync)) <= Busy(s)
  {
    DeferBusy(s.(scheduled := false), RunImports);
  }

  lemma RunAnsweredBusy(s: State)
    requires !Defers(s) && s.pending != [] && !s.running
    ensures Busy(Run(s, true)) <= Busy(s)
  {
    var u := Act(s.(scheduled := false, pending := []), RunImports);
    ScheduleBusy(u.(delivered := u.delivered + s.pending, running := false));
  }

  lemma RunAgainBusy(s: State, o: Oracle)
    requires !Defers(s) && (s.pending == [] || s.running)
    ensures Busy(Run(s, o.sync)) <= Busy(s)
  {
    ScheduleBusy(s.(scheduled := false));
  }

  lemma TakeOffBusy(s: State, o: Oracle)
    requires TakesOff(s, o)
    ensures Busy(Run(s, o.sync)) == Busy(s) + 1
  {
  }

  lemma RunBusy(s: State, o: Oracle)
    ensures if TakesOff(s, o) then Busy(Run(s, o.sync)) == Busy(s) + 1 else Busy(Run(s, o.sync)) <= Busy(s)
  {
    if Defers(s) {
      RunHeldBusy(s, o);
    } else if s.pending == [] || s.running {
      RunAgainBusy(s, o);
    } else if o.sync {
      RunAnsweredBusy(s);
    } else {
      TakeOffBusy(s, o);
    }
  }

  lemma CompleteBusy(s: State, batch: seq<Arg>)
    ensures Busy(Complete(s, batch)) <= Busy(s) + 1
    ensures !Defers(s) ==> Busy(Complete(s, batch)) <= Busy(s)
  {
    if Defers(s) {
      DeferBusy(s, CompleteImports(batch));
    } else {
      ScheduleBusy(Act(s, CompleteImports(batch)).(delivered := s.delivered + batch, running := false));
    }
  }

  lemma AbortBusy(s: State)
    ensures Busy(Abort(s)) == Busy(s)
  {
    var t := s.(shutdownPending := false);
    PostBusy(t, MarkReady);
    ResumeCompletions(s.deferred);
    CompletionsJoin(Post(t, MarkReady).posted, ResumeOrder(s.deferred));
  }

  lemma CollaborationBusy(s: State, ok: bool)
    ensures Busy(CollaborationDone(s, ok)) <= Busy(s)
  {
    if ok {
      var t := s.(shutdownPending := false, complete := true, closed := true);
      PostBusy(Discard(t), Close);
    } else {
      AbortBusy(s.(failed := true));
    }
  }

  lemma CloseBusy(s: State, maintenance: bool)
    ensures Busy(CloseEvent(s, maintenance)) <= Busy(s)
  {
    PostBusy(s.(shutdownPending := true, flushed := false, drained := false, closed := false), BeginShutdown);
  }

  lemma LoadBusy(s: State)
    ensures Busy(Load(s)) <= Busy(s)
  {
    if Defers(s) {
      DeferBusy(s, LoadFiles);
    } else {
      PostBusy(Act(s, LoadFiles), Other(RESTORE_WORKSPACE));
      ScheduleBusy(Post(Act(s, LoadFiles), Other(RESTORE_WORKSPACE)).(startupLoaded := true));
    }
  }

  lemma ShowBusy(s: State)
    ensures Busy(Show(s)) <= Busy(s)
  {
    DeferBusy(s, ShowWindow);
    PostBusy(Act(s, ShowWindow), MarkReady);
  }

  lemma BeginBusy(s: State, flushOk: bool)
    ensures Busy(Begin(s, flushOk)) <= Busy(s)
  {
    AbortBusy(s);
  }

  /** Carrying out a job that is not a completion and does not take off adds no batch. */
  lemma PerformBusy(s: State, job: Job, o: Oracle)
    requires !job.CompleteImports? && job != RunImports
    ensures Busy(Perform(s, job, o)) <= Busy(s)
  {
    match job
    case LoadFiles => LoadBusy(s);
    case ShowWindow => ShowBusy(s);
    case MarkReady => ScheduleBusy(s.(windowReady := true));
    case ScheduleImports => ScheduleBusy(s);
    case BeginShutdown => BeginBusy(s, o.flushOk);
    case Close => CloseBusy(s, o.maintenance);
    case Other(name) => DeferBusy(s, Other(name));
  }

  /** The step that puts a second batch into the air: a run overtakes a completion still to come. */
  predicate Overtakes(s: State, l: Label) {
    && l.Dispatch? && s.posted != [] && s.posted[0] == RunImports && TakesOff(s, l.oracle)
  }

  lemma DispatchBusy(s: State, o: Oracle)
    requires s.posted != []
    ensures if Overtakes(s, Dispatch(o)) then Busy(Next(s, Dispatch(o))) == Busy(s) + 1
            else Busy(Next(s, Dispatch(o))) <= Busy(s)
  {
    var job, t := s.posted[0], s.(posted := s.posted[1..]);
    assert Busy(s) == Busy(t) + if job.CompleteImports? then 1 else 0;
    match job
    case RunImports => RunBusy(t, o);
    case CompleteImports(batch) => CompleteBusy(t, batch);
    case _ => PerformBusy(t, job, o);
  }

  lemma BatchBusy(s: State, i: nat)
    requires i < |s.batches|
    ensures Busy(Next(s, BatchDone(i))) <= Busy(s)
  {
    CompleteBusy(s.(batches := s.batches[..i] + s.batches[i + 1..]), s.batches[i]);
  }

  lemma DrainedBusy(s: State, already: bool)
    requires s.shutdownPending
    ensures Busy(DrainDone(s, true, already)) <= Busy(s)
  {
    var t := s.(drained := true);
    assert Busy(t) == Busy(s);
    if already {
      CollaborationBusy(t, true);
    }
  }

  lemma DrainBusy(s: State, ok: bool, already: bool)
    ensures Busy(DrainDone(s, ok, already)) <= Busy(s)
  {
    if !s.shutdownPending {
    } else if !ok {
      AbortBusy(s);
    } else {
      DrainedBusy(s, already);
    }
  }

  lemma DrainReportBusy(s: State, ok: bool, already: bool)
    requires s.drains > 0
    ensures Busy(Next(s, DrainReport(ok, already))) <= Busy(s)
  {
    var t := s.(drains := s.drains - 1);
    assert Busy(t) == Busy(s);
    DrainBusy(t, ok, already);
  }

  lemma ReportBusy(s: State, ok: bool)
    requires s.closings > 0
    ensures Busy(Next(s, ShutdownReport(ok))) <= Busy(s)
  {
    var t := s.(closings := s.closings - 1);
    assert Busy(t) == Busy(s);
    CollaborationBusy(t, ok);
  }

  /**
   * With at most one batch under way, a step leads to two exactly when a posted run takes off while
   * a batch or its completion is still outstanding.
   */
  lemma SecondFlight(s: State, l: Label)
    requires Enabled(s, l) && Busy(s) <= 1
    ensures Busy(Next(s, l)) > 1 <==> Overtakes(s, l) && Busy(s) == 1
  {
    match l
    case Arrive(arg) => ScheduleBusy(s.(pending := s.pending + [arg], enqueued := s.enqueued + [arg]));
    case UserClose(m) => CloseBusy(s, m);
    case DrainReport(ok, already) => DrainReportBusy(s, ok, already);
    case ShutdownReport(ok) => ReportBusy(s, ok);
    case BatchDone(i) => BatchBusy(s, i);
    case PostOther(name) => PostBusy(s, Other(name));
    case Dispatch(o) => DispatchBusy(s, o);
  }

  // --- Runs in which no shutdown resumes a run before a completion ---

  /** No run job comes before a completion. */
  ghost predicate NoRunBefore(jobs: seq<Job>) {
    jobs == [] || ((jobs[0] == RunImports ==> Completions(jobs[1..]) == 0) && NoRunBefore(jobs[1..]))
  }

  /** Run jobs only come before the start of a shutdown; without such a start there are none. */
  ghost predicate RunsLead(jobs: seq<Job>) {
    if jobs == [] then true
    else if jobs[0] == BeginShutdown then RunImports !in jobs[1..]
    else RunsLead(jobs[1..]) && (jobs[0] == RunImports ==> BeginShutdown in jobs[1..])
  }

  lemma {:induction false} NoRunBeforeJoin(x: seq<Job>, y: seq<Job>)
    ensures RunImports !in x && NoRunBefore(y) ==> NoRunBefore(x + y)
    ensures NoRunBefore(x) && Completions(y) == 0 && NoRunBefore(y) ==> NoRunBefore(x + y)
  {
    if x == [] {
      assert x + y == y;
    } else {
      NoRunBeforeJoin(x[1..], y);
      assert (x + y)[1..] == x[1..] + y;
      CompletionsJoin(x[1..], y);
    }
  }

  lemma {:induction false} RestNoRun(table: seq<Job>)
    requires NoRunBefore(table)
    ensures NoRunBefore(Rest(table))
  {
    if table != [] {
      RestNoRun(table[1..]);
      RestCompletions(table[1..]);
      if table[0] != LoadFiles && table[0] != ShowWindow {
        assert Rest(table)[1..] == Rest(table[1..]);
      }
    }
  }

  lemma ResumeNoRun(table: seq<Job>)
    requires NoRunBefore(table)
    ensures NoRunBefore(ResumeOrder(table))
  {
    RestNoRun(table);
    NoRunBeforeJoin(Pick(table, LoadFiles) + Pick(table, ShowWindow), Rest(table));
  }

  lemma {:induction false} LeadsEnd(jobs: seq<Job>)
    requires RunsLead(jobs) && Begins(jobs) == 0
    ensures RunImports !in jobs
  {
    if jobs != [] {
      assert jobs == [jobs[0]] + jobs[1..];
      assert BeginShutdown !in jobs[1..];
      LeadsEnd(jobs[1..]);
    }
  }

  lemma {:induction false} LeadsJoin(jobs: seq<Job>, job: Job)
    ensures job == BeginShutdown && BeginShutdown !in jobs ==> RunsLead(jobs + [job])
    ensures RunsLead(jobs) && job != RunImports && job != BeginShutdown ==> RunsLead(jobs + [job])
  {
    if jobs == [] {
      assert [job][1..] == [];
    } else {
      LeadsJoin(jobs[1..], job);
      assert (jobs + [job])[1..] == jobs[1..] + [job];
    }
  }

  lemma {:induction false} NoRunsLead(jobs: seq<Job>)
    requires RunImports !in jobs
    ensures RunsLead(jobs)
  {
    if jobs != [] {
      NoRunsLead(jobs[1..]);
    }
  }

  /** One batch at most, the running flag set exactly while it is imported, and nothing lost before the end. */
  ghost predicate Orderly(s: State) {
    && Busy(s) <= 1
    && (s.running <==> s.batches != [])
    && NoRunBefore(s.posted)
    && (s.shutdownPending ==> RunsLead(s.posted))
    && (s.lost != [] ==> Terminal(s))
  }

  /** The step gives a shutdown up and resumes the deferred callbacks. */
  predicate Resumes(s: State, l: Label) {
    match l
    case DrainReport(ok, _) => !ok && s.shutdownPending
    case ShutdownReport(ok) => !ok
    case Dispatch(o) => s.posted != [] && s.posted[0] == BeginShutdown && s.shutdownPending && !o.flushOk
    case _ => false
  }

  lemma PostOrderly(s: State, job: Job)
    requires Orderly(s) && !job.CompleteImports? && job != BeginShutdown && (job == RunImports ==> !s.shutdownPending)
    ensures Orderly(Post(s, job))
  {
    PostBusy(s, job);
    assert [job][1..] == [];
    assert Completions([job]) == 0 && NoRunBefore([job]);
    NoRunBeforeJoin(s.posted, [job]);
    LeadsJoin(s.posted, job);
  }

  lemma DeferOrderly(s: State, job: Job)
    requires Orderly(s) && Defers(s) && !job.CompleteImports?
    ensures Orderly(Defer(s, job))
  {
    PutCompletions(s.deferred, job);
  }

  lemma ScheduleOrderly(s: State)
    requires Orderly(s)
    ensures Orderly(Schedule(s))
  {
    if Defers(s) {
      DeferOrderly(s, ScheduleImports);
    } else if s.pending != [] && s.startupLoaded && s.windowReady && !s.scheduled && !s.running {
      PostOrderly(s.(scheduled := true), RunImports);
    }
  }

  lemma RunHeldOrderly(s: State, sync: bool)
    requires Orderly(s) && Defers(s)
    ensures Orderly(Run(s, sync))
  {
    var t := s.(scheduled := false);
    assert Orderly(t);
    DeferOrderly(t, RunImports);
  }

  lemma RunAgainOrderly(s: State, sync: bool)
    requires Orderly(s) && !Defers(s) && (s.pending == [] || s.running)
    ensures Orderly(Run(s, sync))
  {
    var t := s.(scheduled := false);
    assert Orderly(t);
    ScheduleOrderly(t);
  }

  lemma RunNowOrderly(s: State, sync: bool)
    requires Orderly(s) && !Defers(s) && s.pending != [] && !s.running && Completions(s.posted) == 0 && s.deferred == []
    ensures Orderly(Run(s, sync))
  {
    if sync {
      var u := Act(s.(scheduled := false, pending := []), RunImports);
      var w := u.(delivered := u.delivered + s.pending, running := false);
      assert Orderly(w);
      ScheduleOrderly(w);
    }
  }

  /** A completion in hand, with nothing else under way. */
  lemma CompleteOrderly(s: State, batch: seq<Arg>)
    requires Busy(s) == 0 && NoRunBefore(s.posted) && (s.shutdownPending ==> RunsLead(s.posted))
    requires s.lost != [] ==> Terminal(s)
    ensures Orderly(Complete(s, batch))
  {
    if Defers(s) {
      PutCompletions(s.deferred, CompleteImports(batch));
    } else {
      var w := Act(s, CompleteImports(batch)).(delivered := s.delivered + batch, running := false);
      assert Orderly(w);
      ScheduleOrderly(w);
    }
  }

  lemma AbortOrderly(s: State)
    requires Orderly(s) && !Terminal(s) && RunImports !in s.posted && NoRunBefore(s.deferred)
    ensures Orderly(Abort(s))
  {
    AbortBusy(s);
    ResumeNoRun(s.deferred);
    NoRunBeforeJoin(s.posted + [MarkReady], ResumeOrder(s.deferred));
  }

  lemma LoadOrderly(s: State)
    requires Orderly(s)
    ensures Orderly(Load(s))
  {
    if Defers(s) {
      DeferOrderly(s, LoadFiles);
    } else {
      PostOrderly(Act(s, LoadFiles), Other(RESTORE_WORKSPACE));
      var t := Post(Act(s, LoadFiles), Other(RESTORE_WORKSPACE)).(startupLoaded := true);
      assert Orderly(t);
      ScheduleOrderly(t);
    }
  }

  lemma ShowOrderly(s: State)
    requires Orderly(s)
    ensures Orderly(Show(s))
  {
    if Defers(s) {
      DeferOrderly(s, ShowWindow);
    } else {
      PostOrderly(Act(s, ShowWindow), MarkReady);
    }
  }

  lemma OtherOrderly(s: State, name: nat)
    requires Orderly(s)
    ensures Orderly(Do(s, name))
  {
    if Defers(s) {
      DeferOrderly(s, Other(name));
    }
  }

  lemma CollaborationOrderly(s: State, ok: bool)
    requires Orderly(s) && !Terminal(s) && s.shutdownPending && Begins(s.posted) == 0
    requires !ok ==> NoRunBefore(s.deferred)
    ensures Orderly(CollaborationDone(s, ok))
  {
    LeadsEnd(s.posted);
    if ok {
      var t := Discard(s.(shutdownPending := false, complete := true, closed := true));
      assert Orderly(t);
      PostOrderly(t, Close);
    } else {
      var t := s.(failed := true);
      assert Orderly(t);
      AbortOrderly(t);
    }
  }

  lemma DrainOrderly(s: State, ok: bool, already: bool)
    requires Orderly(s) && !Terminal(s) && s.shutdownPending && Begins(s.posted) == 0
    requires !ok ==> NoRunBefore(s.deferred)
    ensures Orderly(DrainDone(s, ok, already))
  {
    LeadsEnd(s.posted);
    if !ok {
      AbortOrderly(s);
    } else {
      var t := s.(drained := true);
      assert Orderly(t);
      if already {
        CollaborationOrderly(t, true);
      }
    }
  }

  lemma BeginOrderly(s: State, flushOk: bool)
    requires Orderly(s) && !Terminal(s) && RunImports !in s.posted && (!flushOk ==> NoRunBefore(s.deferred))
    ensures Orderly(Begin(s, flushOk))
  {
    if !flushOk {
      AbortOrderly(s);
    }
  }

  lemma CloseOrderly(s: State, maintenance: bool)
    requires Orderly(s) && (!s.shutdownPending ==> Begins(s.posted) == 0)
    ensures Orderly(CloseEvent(s, maintenance))
  {
    if !maintenance && !s.finalized && !s.shutdownPending && !s.failed && !s.complete {
      var t := s.(flushed := false, drained := false, closed := false);
      PostBusy(t, BeginShutdown);
      assert [BeginShutdown][1..] == [];
      NoRunBeforeJoin(s.posted, [BeginShutdown]);
      assert BeginShutdown !in s.posted;
      LeadsJoin(s.posted, BeginShutdown);
    }
  }

  /** Taking a job other than a completion. */
  lemma TakenOrderly(s: State, t: State)
    requires Safe(s) && Orderly(s) && s.posted != [] && t == s.(posted := s.posted[1..])
    requires !s.posted[0].CompleteImports?
    ensures Orderly(t)
    ensures s.posted[0] == RunImports ==> Completions(t.posted) == 0
    ensures s.posted[0] == BeginShutdown && s.shutdownPending ==> RunImports !in t.posted
  {
    if s.posted[0] == BeginShutdown && s.shutdownPending {
      NoRunsLead(t.posted);
    }
  }

  lemma DispatchOrderly(s: State, o: Oracle)
    requires Safe(s) && Orderly(s) && s.posted != [] && (Resumes(s, Dispatch(o)) ==> NoRunBefore(s.deferred))
    ensures Orderly(Next(s, Dispatch(o)))
  {
    var job, t := s.posted[0], s.(posted := s.posted[1..]);
    if job.CompleteImports? {
      CompleteOrderly(t, job.batch);
    } else {
      TakenOrderly(s, t);
      PerformOrderly(s, t, job, o);
    }
  }

  lemma PerformOrderly(s: State, t: State, job: Job, o: Oracle)
    requires Safe(s) && s.posted != [] && job == s.posted[0] && t == s.(posted := s.posted[1..]) && Orderly(t)
    requires !job.CompleteImports? && (Resumes(s, Dispatch(o)) ==> NoRunBefore(s.deferred))
    requires job == RunImports ==> Completions(t.posted) == 0
    requires job == BeginShutdown && s.shutdownPending ==> RunImports !in t.posted
    ensures Orderly(Perform(t, job, o))
  {
    match job
    case LoadFiles => LoadOrderly(t);
    case ShowWindow => ShowOrderly(t);
    case MarkReady => ScheduleOrderly(t.(windowReady := true));
    case ScheduleImports => ScheduleOrderly(t);
    case RunImports => RunOrderly(t, o.sync);
    case BeginShutdown =>
      if t.shutdownPending { BeginOrderly(t, o.flushOk); }
    case Close =>
      TakenClear(s, t);
      CloseOrderly(t, o.maintenance);
    case Other(name) => OtherOrderly(t, name);
  }

  lemma RunOrderly(s: State, sync: bool)
    requires Orderly(s) && Completions(s.posted) == 0 && (s.deferred != [] ==> s.shutdownPending)
    ensures Orderly(Run(s, sync))
  {
    if Defers(s) {
      RunHeldOrderly(s, sync);
    } else if s.pending == [] || s.running {
      RunAgainOrderly(s, sync);
    } else {
      RunNowOrderly(s, sync);
    }
  }

  lemma TakenClear(s: State, t: State)
    requires Safe(s) && s.posted != [] && t == s.(posted := s.posted[1..])
    ensures !s.shutdownPending ==> Begins(t.posted) == 0
  {
    assert s.posted == [s.posted[0]] + t.posted;
  }

  lemma BatchOrderly(s: State, i: nat)
    requires Orderly(s) && i < |s.batches|
    ensures Orderly(Next(s, BatchDone(i)))
  {
    var t := s.(batches := s.batches[..i] + s.batches[i + 1..]);
    assert |t.batches| == |s.batches| - 1;
    CompleteOrderly(t, s.batches[i]);
    assert Next(s, BatchDone(i)) == Complete(t, s.batches[i]);
  }

  lemma ArriveOrderly(s: State, arg: Arg)
    requires Orderly(s)
    ensures Orderly(Next(s, Arrive(arg)))
  {
    var t := s.(pending := s.pending + [arg], enqueued := s.enqueued + [arg]);
    assert Orderly(t);
    ScheduleOrderly(t);
  }

  lemma DrainReportOrderly(s: State, ok: bool, already: bool)
    requires Safe(s) && Orderly(s) && s.drains > 0 && (!ok ==> NoRunBefore(s.deferred))
    ensures Orderly(Next(s, DrainReport(ok, already)))
  {
    var t := s.(drains := s.drains - 1);
    assert Orderly(t);
    DrainOrderly(t, ok, already);
  }

  lemma ReportOrderly(s: State, ok: bool)
    requires Safe(s) && Orderly(s) && s.closings > 0 && (!ok ==> NoRunBefore(s.deferred))
    ensures Orderly(Next(s, ShutdownReport(ok)))
  {
    var t := s.(closings := s.closings - 1);
    assert Orderly(t);
    CollaborationOrderly(t, ok);
  }

  lemma NextOrderly(s: State, l: Label)
    requires Safe(s) && Orderly(s) && Enabled(s, l) && (Resumes(s, l) ==> NoRunBefore(s.deferred))
    ensures Orderly(Next(s, l))
  {
    match l
    case Arrive(arg) => ArriveOrderly(s, arg);
    case UserClose(m) => CloseOrderly(s, m);
    case DrainReport(ok, already) => DrainReportOrderly(s, ok, already);
    case ShutdownReport(ok) => ReportOrderly(s, ok);
    case BatchDone(i) => BatchOrderly(s, i);
    case PostOther(name) => PostOrderly(s, Other(name));
    case Dispatch(o) => DispatchOrderly(s, o);
  }

  /**
   * If no shutdown that is given up resumes a run job ahead of a completion, at most one batch is
   * in flight throughout, and nothing is lost before the window closes for good.
   */
  lemma {:induction false} OneBatchAtATime(states: seq<State>, labels: seq<Label>, i: nat)
    requires IsRun(states, labels) && i < |states|
    requires forall k :: 0 <= k < |labels| && Resumes(states[k], labels[k]) ==> NoRunBefore(states[k].deferred)
    ensures Orderly(states[i])
  {
    if i > 0 {
      OneBatchAtATime(states, labels, i - 1);
      RunSafe(states, labels, i - 1);
      NextOrderly(states[i - 1], labels[i - 1]);
    } else {
      var args :| states[0] == Initial(args);
      assert [LoadFiles, ShowWindow][1..] == [ShowWindow] && [ShowWindow][1..] == [];
    }
  }
}
