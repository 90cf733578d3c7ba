/** The import queue over all runs: nothing vanishes, nothing sleeps, and when one batch is in flight at a time. */
module LifecycleQueue {
  import opened Lifecycle
  import opened LifecycleSafety

  // --- Conservation ---

  ghost function Count(args: seq<Arg>, a: Arg): nat {
    multiset(args)[a]
  }

  /** How often a is carried by a list of jobs. */
  ghost function InJobs(jobs: seq<Job>, a: Arg): nat {
    if jobs == [] then 0 else Count(Carried(jobs[0]), a) + InJobs(jobs[1..], a)
  }

  ghost function InBatches(batches: seq<seq<Arg>>, a: Arg): nat {
    if batches == [] then 0 else Count(batches[0], a) + InBatches(batches[1..], a)
  }

  /** Where argument a can be: waiting, being imported, in a posted or deferred completion, delivered, lost. */
  ghost function Held(s: State, a: Arg): nat {
    Count(s.pending, a) + InBatches(s.batches, a) + InJobs(s.posted, a) + InJobs(s.deferred, a)
    + Count(s.delivered, a) + Count(s.lost, a)
  }

  /** From s to s' the arguments in `extra` were added to the account. */
  ghost predicate Accounts(s: State, s': State, extra: seq<Arg>, a: Arg) {
    s'.enqueued == s.enqueued && Held(s', a) == Held(s, a) + Count(extra, a)
  }

  lemma {:induction false} InJobsJoin(x: seq<Job>, y: seq<Job>, a: Arg)
    ensures InJobs(x + y, a) == InJobs(x, a) + InJobs(y, a)
  {
    if x == [] {
      assert x + y == y;
    } else {
      InJobsJoin(x[1..], y, a);
      assert (x + y)[1..] == x[1..] + y;
    }
  }

  lemma {:induction false} PutCounts(table: seq<Job>, job: Job, a: Arg)
    ensures InJobs(Put(table, job), a) + Count(Displaced(table, job), a) == InJobs(table, a) + Count(Carried(job), a)
  {
    if table != [] {
      if SameKey(table[0], job) {
        assert Put(table, job)[1..] == table[1..];
      } else {
        PutCounts(table[1..], job, a);
        assert Put(table, job)[1..] == Put(table[1..], job);
      }
    }
  }

  lemma {:induction false} RestCounts(table: seq<Job>, a: Arg)
    ensures InJobs(Rest(table), a) == InJobs(table, a)
  {
    if table != [] {
      RestCounts(table[1..], a);
      if table[0] != LoadFiles && table[0] != ShowWindow {
        assert Rest(table)[1..] == Rest(table[1..]);
      }
    }
  }

  lemma ResumeCounts(table: seq<Job>, a: Arg)
    ensures InJobs(ResumeOrder(table), a) == InJobs(table, a)
  {
    RestCounts(table, a);
    InJobsJoin(Pick(table, LoadFiles) + Pick(table, ShowWindow), Rest(table), a);
    InJobsJoin(Pick(table, LoadFiles), Pick(table, ShowWindow), a);
  }

  lemma {:induction false} AllCarriedCounts(jobs: seq<Job>, a: Arg)
    ensures Count(AllCarried(jobs), a) == InJobs(jobs, a)
  {
    if jobs != [] {
      AllCarriedCounts(jobs[1..], a);
    }
  }

  lemma PostAccounts(s: State, job: Job, a: Arg)
    requires Carried(job) == []
    ensures Accounts(s, Post(s, job), [], a)
  {
    InJobsJoin(s.posted, [job], a);
  }

  lemma DeferAccounts(s: State, job: Job, a: Arg)
    ensures Accounts(s, Defer(s, job), Carried(job), a)
  {
    PutCounts(s.deferred, job, a);
  }

  lemma ResumeAccounts(s: State, a: Arg)
    ensures Accounts(s, Resume(s), [], a)
  {
    ResumeCounts(s.deferred, a);
    InJobsJoin(s.posted, ResumeOrder(s.deferred), a);
  }

  lemma DiscardAccounts(s: State, a: Arg)
    ensures Accounts(s, Discard(s), [], a)
  {
    AllCarriedCounts(s.deferred, a);
  }

  lemma ScheduleAccounts(s: State, a: Arg)
    ensures Accounts(s, Schedule(s), [], a)
  {
    if Defers(s) {
      DeferAccounts(s, ScheduleImports, a);
    } else if s.pending != [] && s.startupLoaded && s.windowReady && !s.scheduled && !s.running {
      PostAccounts(s.(scheduled := true), RunImports, a);
    }
  }

  lemma {:induction false} BatchAdded(batches: seq<seq<Arg>>, batch: seq<Arg>, a: Arg)
    ensures InBatches(batches + [batch], a) == InBatches(batches, a) + Count(batch, a)
  {
    if batches == [] {
      assert batches + [batch] == [batch];
    } else {
      BatchAdded(batches[1..], batch, a);
      assert (batches + [batch])[1..] == batches[1..] + [batch];
    }
  }

  lemma RunAccounts(s: State, sync: bool, a: Arg)
    ensures Accounts(s, Run(s, sync), [], a)
  {
    var t := s.(scheduled := false);
    if Defers(s) {
      DeferAccounts(t, RunImports, a);
    } else if s.pending != [] && s.running {
      ScheduleAccounts(t, a);
    } else if s.pending != [] {
      StartAccounts(s, sync, a);
    }
  }

  lemma StartAccounts(s: State, sync: bool, a: Arg)
    requires !Defers(s) && s.pending != [] && !s.running
    ensures Accounts(s, Run(s, sync), [], a)
  {
    if sync {
      var u := Act(s.(scheduled := false, pending := []), RunImports);
      ScheduleAccounts(u.(delivered := u.delivered + s.pending, running := false), a);
    } else {
      BatchAdded(s.batches, s.pending, a);
    }
  }

  lemma CompleteAccounts(s: State, batch: seq<Arg>, a: Arg)
    ensures Accounts(s, Complete(s, batch), batch, a)
  {
    if Defers(s) {
      DeferAccounts(s, CompleteImports(batch), a);
    } else {
      ScheduleAccounts(Act(s, CompleteImports(batch)).(delivered := s.delivered + batch, running := false), a);
    }
  }

  lemma LoadAccounts(s: State, a: Arg)
    ensures Accounts(s, Load(s), [], a)
  {
    if Defers(s) {
      DeferAccounts(s, LoadFiles, a);
    } else {
      PostAccounts(Act(s, LoadFiles), Other(RESTORE_WORKSPACE), a);
      ScheduleAccounts(Post(Act(s, LoadFiles), Other(RESTORE_WORKSPACE)).(startupLoaded := true), a);
    }
  }

  lemma AbortAccounts(s: State, a: Arg)
    ensures Accounts(s, Abort(s), [], a)
  {
    var t := s.(shutdownPending := false);
    PostAccounts(t, MarkReady, a);
    ResumeAccounts(Post(t, MarkReady), a);
  }

  lemma CollaborationAccounts(s: State, ok: bool, a: Arg)
    ensures Accounts(s, CollaborationDone(s, ok), [], a)
  {
    if ok {
      var t := s.(shutdownPending := false, complete := true, closed := true);
      DiscardAccounts(t, a);
      PostAccounts(Discard(t), Close, a);
    } else {
      AbortAccounts(s.(failed := true), a);
    }
  }

  lemma DrainAccounts(s: State, ok: bool, already: bool, a: Arg)
    ensures Accounts(s, DrainDone(s, ok, already), [], a)
  {
    if s.shutdownPending {
      if !ok {
        AbortAccounts(s, a);
      } else if already {
        CollaborationAccounts(s.(drained := true), true, a);
      }
    }
  }

  lemma CloseAccounts(s: State, maintenance: bool, a: Arg)
    ensures Accounts(s, CloseEvent(s, maintenance), [], a)
  {
    PostAccounts(s.(shutdownPending := true, flushed := false, drained := false, closed := false), BeginShutdown, a);
    DiscardAccounts(s.(finalized := true), a);
  }

  lemma ShowAccounts(s: State, a: Arg)
    ensures Accounts(s, Show(s), [], a)
  {
    DeferAccounts(s, ShowWindow, a);
    PostAccounts(Act(s, ShowWindow), MarkReady, a);
  }

  lemma BeginAccounts(s: State, flushOk: bool, a: Arg)
    ensures Accounts(s, Begin(s, flushOk), [], a)
  {
    AbortAccounts(s, a);
  }

  /** Carrying out a job puts what it carried back into the account. */
  lemma PerformAccounts(s: State, job: Job, o: Oracle, a: Arg)
    ensures Accounts(s, Perform(s, job, o), Carried(job), a)
  {
    match job
    case LoadFiles => LoadAccounts(s, a);
    case ShowWindow => ShowAccounts(s, a);
    case MarkReady => ScheduleAccounts(s.(windowReady := true), a);
    case ScheduleImports => ScheduleAccounts(s, a);
    case RunImports => RunAccounts(s, o.sync, a);
    case CompleteImports(batch) => CompleteAccounts(s, batch, a);
    case BeginShutdown => BeginAccounts(s, o.flushOk, a);
    case Close => CloseAccounts(s, o.maintenance, a);
    case Other(name) => DeferAccounts(s, Other(name), a);
  }

  /** Argument a is accounted for as often as it was enqueued. */
  ghost predicate Conserved(s: State, a: Arg) {
    Held(s, a) == Count(s.enqueued, a)
  }

  lemma {:induction false} BatchTaken(batches: seq<seq<Arg>>, i: nat, a: Arg)
    requires i < |batches|
    ensures InBatches(batches, a) == InBatches(batches[..i] + batches[i + 1..], a) + Count(batches[i], a)
  {
    var rest := batches[..i] + batches[i + 1..];
    if i == 0 {
      assert rest == batches[1..];
    } else {
      BatchTaken(batches[1..], i - 1, a);
      assert rest[1..] == batches[1..][..i - 1] + batches[1..][i..];
      assert rest[0] == batches[0];
    }
  }

  lemma BatchConserved(s: State, i: nat, a: Arg)
    requires Conserved(s, a) && i < |s.batches|
    ensures Conserved(Next(s, BatchDone(i)), a)
  {
    BatchTaken(s.batches, i, a);
    CompleteAccounts(s.(batches := s.batches[..i] + s.batches[i + 1..]), s.batches[i], a);
  }

  lemma DispatchConserved(s: State, o: Oracle, a: Arg)
    requires Conserved(s, a) && s.posted != []
    ensures Conserved(Next(s, Dispatch(o)), a)
  {
    PerformAccounts(s.(posted := s.posted[1..]), s.posted[0], o, a);
  }

  lemma ArriveConserved(s: State, arg: Arg, a: Arg)
    requires Conserved(s, a)
    ensures Conserved(Next(s, Arrive(arg)), a)
  {
    ScheduleAccounts(s.(pending := s.pending + [arg], enqueued := s.enqueued + [arg]), a);
  }

  lemma CloseConserved(s: State, maintenance: bool, a: Arg)
    requires Conserved(s, a)
    ensures Conserved(Next(s, UserClose(maintenance)), a)
  {
    CloseAccounts(s, maintenance, a);
  }

  lemma DrainConserved(s: State, ok: bool, already: bool, a: Arg)
    requires Conserved(s, a) && s.drains > 0
    ensures Conserved(Next(s, DrainReport(ok, already)), a)
  {
    DrainAccounts(s.(drains := s.drains - 1), ok, already, a);
  }

  lemma ReportConserved(s: State, ok: bool, a: Arg)
    requires Conserved(s, a) && s.closings > 0
    ensures Conserved(Next(s, ShutdownReport(ok)), a)
  {
    CollaborationAccounts(s.(closings := s.closings - 1), ok, a);
  }

  lemma OtherConserved(s: State, name: nat, a: Arg)
    requires Conserved(s, a)
    ensures Conserved(Next(s, PostOther(name)), a)
  {
    PostAccounts(s, Other(name), a);
  }

  lemma NextConserved(s: State, l: Label, a: Arg)
    requires Conserved(s, a) && Enabled(s, l)
    ensures Conserved(Next(s, l), a)
  {
    match l
    case Arrive(arg) => ArriveConserved(s, arg, a);
    case UserClose(m) => CloseConserved(s, m, a);
    case DrainReport(ok, already) => DrainConserved(s, ok, already, a);
    case ShutdownReport(ok) => ReportConserved(s, ok, a);
    case BatchDone(i) => BatchConserved(s, i, a);
    case PostOther(name) => OtherConserved(s, name, a);
    case Dispatch(o) => DispatchConserved(s, o, a);
  }

  /** In every run every enqueued argument is accounted for, as often as it was enqueued. */
  lemma {:induction false} RunConserved(states: seq<State>, labels: seq<Label>, i: nat, a: Arg)
    requires IsRun(states, labels) && i < |states|
    ensures Conserved(states[i], a)
  {
    if i > 0 {
      RunConserved(states, labels, i - 1, a);
      NextConserved(states[i - 1], labels[i - 1], a);
    } else {
      var args :| states[0] == Initial(args);
      InJobsJoin([LoadFiles], [ShowWindow], a);
      assert [LoadFiles] + [ShowWindow] == [LoadFiles, ShowWindow];
      assert InJobs([LoadFiles], a) == 0 && InJobs([ShowWindow], a) == 0;
    }
  }

  // --- No lost wakeup ---

  /** Jobs that will look at the queue again. */
  predicate IsWake(j: Job) {
    j == ScheduleImports || j == RunImports || j.CompleteImports?
  }

  ghost predicate HasWake(jobs: seq<Job>) {
    jobs != [] && (IsWake(jobs[0]) || HasWake(jobs[1..]))
  }

  /** Waiting arguments that could be imported are on their way to being imported. */
  ghost predicate Awake(s: State) {
    && (s.pending != [] && s.startupLoaded && s.windowReady && !Terminal(s) ==>
          s.running || HasWake(s.posted) || HasWake(s.deferred))
    && (s.scheduled ==> RunImports in s.posted)
    && (s.running ==> s.batches != [])
  }

  /** Awake but for the job in hand. */
  ghost predicate Nodding(s: State) {
    (s.scheduled ==> RunImports in s.posted) && (s.running ==> s.batches != [])
  }

  lemma {:induction false} WakeJoin(x: seq<Job>, y: seq<Job>)
    ensures HasWake(x + y) <==> HasWake(x) || HasWake(y)
  {
    if x == [] {
      assert x + y == y;
    } else {
      WakeJoin(x[1..], y);
      assert (x + y)[1..] == x[1..] + y;
    }
  }

  lemma {:induction false} WakeMember(jobs: seq<Job>, job: Job)
    requires job in jobs && IsWake(job)
    ensures HasWake(jobs)
  {
    if jobs[0] != job {
      WakeMember(jobs[1..], job);
    }
  }

  lemma {:induction false} PutHas(table: seq<Job>, job: Job)
    ensures HasWake(table) || IsWake(job) ==> HasWake(Put(table, job))
  {
    if table != [] {
      if SameKey(table[0], job) {
        assert Put(table, job)[1..] == table[1..];
      } else {
        PutHas(table[1..], job);
        assert Put(table, job)[1..] == Put(table[1..], job);
      }
    }
  }

  lemma {:induction false} RestHas(table: seq<Job>)
    ensures HasWake(table) ==> HasWake(Rest(table))
  {
    if table != [] {
      RestHas(table[1..]);
      if table[0] != LoadFiles && table[0] != ShowWindow {
        assert Rest(table)[1..] == Rest(table[1..]);
      }
    }
  }

  lemma ResumeHas(table: seq<Job>)
    ensures HasWake(table) ==> HasWake(ResumeOrder(table))
  {
    RestHas(table);
    WakeJoin(Pick(table, LoadFiles) + Pick(table, ShowWindow), Rest(table));
  }

  lemma DeferWake(s: State, job: Job)
    requires Nodding(s) && Defers(s) && (IsWake(job) || Awake(s))
    ensures Awake(Defer(s, job))
  {
    PutHas(s.deferred, job);
  }

  lemma ScheduleWake(s: State)
    requires Nodding(s)
    ensures Awake(Schedule(s))
  {
    if Defers(s) {
      DeferWake(s, ScheduleImports);
    } else if s.pending != [] && s.startupLoaded && s.windowReady && !s.running {
      WakeMember(Schedule(s).posted, RunImports);
    }
  }

  lemma RunHeldWake(s: State, sync: bool)
    requires (s.running ==> s.batches != []) && Defers(s)
    ensures Awake(Run(s, sync))
  {
    DeferWake(s.(scheduled := false), RunImports);
  }

  lemma RunAgainWake(s: State, sync: bool)
    requires (s.running ==> s.batches != []) && !Defers(s) && s.pending != [] && s.running
    ensures Awake(Run(s, sync))
  {
    ScheduleWake(s.(scheduled := false));
  }

  lemma RunNowWake(s: State, sync: bool)
    requires !Defers(s) && s.pending != [] && !s.running
    ensures Awake(Run(s, sync))
  {
    var u := Act(s.(scheduled := false, pending := []), RunImports);
    ScheduleWake(u.(delivered := u.delivered + s.pending, running := false));
  }

  lemma RunWake(s: State, sync: bool)
    requires s.running ==> s.batches != []
    ensures Awake(Run(s, sync))
  {
    if Defers(s) {
      RunHeldWake(s, sync);
    } else if s.pending != [] && s.running {
      RunAgainWake(s, sync);
    } else if s.pending != [] {
      RunNowWake(s, sync);
    }
  }

  lemma CompleteWake(s: State, batch: seq<Arg>)
    requires s.scheduled ==> RunImports in s.posted
    ensures Awake(Complete(s, batch))
  {
    if Defers(s) {
      DeferWake(s.(running := false), CompleteImports(batch));
    } else {
      ScheduleWake(Act(s, CompleteImports(batch)).(delivered := s.delivered + batch, running := false));
    }
  }

  lemma AbortWake(s: State)
    requires Awake(s)
    ensures Awake(Abort(s))
  {
    WakeJoin(s.posted, [MarkReady]);
    WakeJoin(s.posted + [MarkReady], ResumeOrder(s.deferred));
    ResumeHas(s.deferred);
  }

  lemma CollaborationWake(s: State, ok: bool)
    requires Awake(s)
    ensures Awake(CollaborationDone(s, ok))
  {
    if !ok {
      AbortWake(s.(failed := true));
    }
  }

  lemma PostWake(s: State, job: Job)
    requires Awake(s)
    ensures Awake(Post(s, job))
  {
    WakeJoin(s.posted, [job]);
  }

  /** Taking a job that does not look at the queue. */
  lemma TakenWake(s: State, t: State)
    requires Awake(s) && s.posted != [] && t == s.(posted := s.posted[1..]) && !IsWake(s.posted[0])
    ensures Awake(t)
  {
  }

  lemma TakenRest(s: State, t: State)
    requires Awake(s) && s.posted != [] && t == s.(posted := s.posted[1..])
    ensures s.posted[0] != RunImports ==> Nodding(t)
    ensures t.running ==> t.batches != []
  {
  }

  lemma LoadWake(s: State)
    requires Awake(s)
    ensures Awake(Load(s))
  {
    if Defers(s) {
      DeferWake(s, LoadFiles);
    } else {
      ScheduleWake(Post(Act(s, LoadFiles), Other(RESTORE_WORKSPACE)).(startupLoaded := true));
    }
  }

  lemma CloseWake(s: State, maintenance: bool)
    requires Awake(s)
    ensures Awake(CloseEvent(s, maintenance))
  {
    WakeJoin(s.posted, [BeginShutdown]);
  }

  lemma ShowWake(s: State)
    requires Awake(s)
    ensures Awake(Show(s))
  {
    if Defers(s) {
      DeferWake(s, ShowWindow);
    } else {
      PostWake(Act(s, ShowWindow), MarkReady);
    }
  }

  lemma BeginWake(s: State, flushOk: bool)
    requires Awake(s)
    ensures Awake(Begin(s, flushOk))
  {
    AbortWake(s);
  }

  lemma OtherWake(s: State, name: nat)
    requires Awake(s)
    ensures Awake(Do(s, name))
  {
    if Defers(s) {
      DeferWake(s, Other(name));
    }
  }

  /** A job that does not look at the queue is carried out. */
  lemma PerformWake(s: State, job: Job, o: Oracle)
    requires !IsWake(job) && Awake(s)
    ensures Awake(Perform(s, job, o))
  {
    match job
    case LoadFiles => LoadWake(s);
    case ShowWindow => ShowWake(s);
    case MarkReady => ScheduleWake(s.(windowReady := true));
    case BeginShutdown => BeginWake(s, o.flushOk);
    case Close => CloseWake(s, o.maintenance);
    case Other(name) => OtherWake(s, name);
  }

  lemma DispatchWake(s: State, o: Oracle)
    requires Awake(s) && s.posted != []
    ensures Awake(Next(s, Dispatch(o)))
  {
    var job, t := s.posted[0], s.(posted := s.posted[1..]);
    TakenRest(s, t);
    if !IsWake(job) {
      TakenWake(s, t);
      PerformWake(t, job, o);
    } else {
      match job
      case ScheduleImports => ScheduleWake(t);
      case RunImports => RunWake(t, o.sync);
      case CompleteImports(batch) => CompleteWake(t, batch);
    }
  }

  lemma BatchWake(s: State, i: nat)
    requires Awake(s) && i < |s.batches|
    ensures Awake(Next(s, BatchDone(i)))
  {
    CompleteWake(s.(batches := s.batches[..i] + s.batches[i + 1..]), s.batches[i]);
  }

  lemma ArriveWake(s: State, arg: Arg)
    requires Awake(s)
    ensures Awake(Next(s, Arrive(arg)))
  {
    ScheduleWake(s.(pending := s.pending + [arg], enqueued := s.enqueued + [arg]));
  }

  lemma DrainWake(s: State, ok: bool, already: bool)
    requires Awake(s)
    ensures Awake(DrainDone(s, ok, already))
  {
    if !s.shutdownPending {
    } else if !ok {
      AbortWake(s);
    } else {
      DrainedWake(s, already);
    }
  }

  lemma DrainedWake(s: State, already: bool)
    requires Awake(s) && s.shutdownPending
    ensures Awake(DrainDone(s, true, already))
  {
    var t := s.(drained := true);
    assert Awake(t);
    if already {
      CollaborationWake(t, true);
    }
  }

  lemma DrainReportWake(s: State, ok: bool, already: bool)
    requires Awake(s) && s.drains > 0
    ensures Awake(Next(s, DrainReport(ok, already)))
  {
    var t := s.(drains := s.drains - 1);
    assert Awake(t);
    DrainWake(t, ok, already);
  }

  lemma ReportWake(s: State, ok: bool)
    requires Awake(s) && s.closings > 0
    ensures Awake(Next(s, ShutdownReport(ok)))
  {
    var t := s.(closings := s.closings - 1);
    assert Awake(t);
    CollaborationWake(t, ok);
  }

  lemma NextWake(s: State, l: Label)
    requires Awake(s) && Enabled(s, l)
    ensures Awake(Next(s, l))
  {
    match l
    case Arrive(arg) => ArriveWake(s, arg);
    case UserClose(m) => CloseWake(s, m);
    case DrainReport(ok, already) => DrainReportWake(s, ok, already);
    case ShutdownReport(ok) => ReportWake(s, ok);
    case BatchDone(i) => BatchWake(s, i);
    case PostOther(name) => PostWake(s, Other(name));
    case Dispatch(o) => DispatchWake(s, o);
  }

  lemma {:induction false} RunAwake(states: seq<State>, labels: seq<Label>, i: nat)
    requires IsRun(states, labels) && i < |states|
    ensures Awake(states[i])
  {
    if i > 0 {
      RunAwake(states, labels, i - 1);
      NextWake(states[i - 1], labels[i - 1]);
    }
  }

  /**
   * No lost wakeup: with arguments waiting, loading done, the window ready and no shutdown under
   * way, a batch is being imported or a job that looks at the queue is posted, even after shutdowns
   * that were given up.
   */
  lemma NoLostWakeup(states: seq<State>, labels: seq<Label>, i: nat)
    requires IsRun(states, labels) && i < |states|
    requires states[i].pending != [] && states[i].startupLoaded && states[i].windowReady
    requires !states[i].shutdownPending && !Terminal(states[i])
    ensures (states[i].running && states[i].batches != []) || HasWake(states[i].posted)
  {
    RunAwake(states, labels, i);
    RunSafe(states, labels, i);
  }
}
