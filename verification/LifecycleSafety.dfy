/** Shutdown safety over all runs. */
module LifecycleSafety {
  import opened Lifecycle

  ghost function Begins(jobs: seq<Job>): nat {
    multiset(jobs)[BeginShutdown]
  }

  ghost function Finals(jobs: seq<Job>): nat {
    multiset(jobs)[Close]
  }

  /** What the deferral table may hold. */
  predicate Deferrable(j: Job) {
    j != BeginShutdown && j != Close && j != MarkReady
  }

  ghost predicate AllDeferrable(jobs: seq<Job>) {
    forall j :: j in jobs ==> Deferrable(j)
  }

  /** The one token of a pending shutdown: its start is posted, or a drain, or a closing report is due. */
  ghost predicate OneToken(s: State) {
    Begins(s.posted) + s.drains + s.closings == if s.shutdownPending then 1 else 0
  }

  ghost predicate Exclusive(s: State) {
    !(s.shutdownPending && s.complete) && !(s.shutdownPending && s.failed) && !(s.complete && s.failed)
  }

  /** What a shutdown has achieved when it has come this far. */
  ghost predicate Achieved(s: State) {
    && (s.drains > 0 || s.closings > 0 ==> s.flushed)
    && (s.closings > 0 ==> s.drained)
    && (s.complete ==> s.flushed && s.drained && s.closed)
    && (s.finalized ==> s.complete)
  }

  /** One final close at most is posted, and only when the shutdown is complete. */
  ghost predicate OneFinal(s: State) {
    Finals(s.posted) <= if s.complete then 1 else 0
  }

  ghost predicate Safe(s: State) {
    && OneToken(s) && Exclusive(s) && Achieved(s) && OneFinal(s)
    && AllDeferrable(s.deferred) && (s.deferred != [] ==> s.shutdownPending)
  }

  lemma {:induction false} PutJobs(table: seq<Job>, job: Job)
    ensures forall j :: j in Put(table, job) ==> j in table || j == job
  {
    if table != [] && !SameKey(table[0], job) {
      PutJobs(table[1..], job);
    }
  }

  lemma {:induction false} RestJobs(table: seq<Job>)
    ensures forall j :: j in Rest(table) <==> j in table && j != LoadFiles && j != ShowWindow
  {
    if table != [] {
      RestJobs(table[1..]);
    }
  }

  /** Resuming yields exactly the jobs of the table. */
  lemma ResumeJobs(table: seq<Job>)
    ensures forall j :: j in ResumeOrder(table) <==> j in table
  {
    RestJobs(table);
  }

  lemma NoBegins(jobs: seq<Job>)
    requires AllDeferrable(jobs)
    ensures Begins(jobs) == 0 && Finals(jobs) == 0
  {
    assert BeginShutdown !in jobs && Close !in jobs;
  }

  /** One more job at the end. */
  lemma PostCounts(jobs: seq<Job>, job: Job)
    ensures Begins(jobs + [job]) == Begins(jobs) + if job == BeginShutdown then 1 else 0
    ensures Finals(jobs + [job]) == Finals(jobs) + if job == Close then 1 else 0
  {
    assert multiset(jobs + [job]) == multiset(jobs) + multiset{job};
  }

  lemma TakeCounts(jobs: seq<Job>)
    requires jobs != []
    ensures Begins(jobs) == Begins(jobs[1..]) + if jobs[0] == BeginShutdown then 1 else 0
    ensures Finals(jobs) == Finals(jobs[1..]) + if jobs[0] == Close then 1 else 0
  {
    assert jobs == [jobs[0]] + jobs[1..];
    assert multiset(jobs) == multiset{jobs[0]} + multiset(jobs[1..]);
  }

  /** What giving a shutdown up posts. */
  lemma AbortCounts(s: State)
    requires AllDeferrable(s.deferred)
    ensures Begins(Abort(s).posted) == Begins(s.posted) && Finals(Abort(s).posted) == Finals(s.posted)
  {
    ResumeJobs(s.deferred);
    NoBegins(ResumeOrder(s.deferred));
    PostCounts(s.posted, MarkReady);
    assert multiset(Abort(s).posted) == multiset(s.posted + [MarkReady]) + multiset(ResumeOrder(s.deferred));
  }

  /** s' differs from s in nothing that the shutdown looks at, apart from harmless posts. */
  ghost predicate Quiet(s: State, s': State) {
    && s'.shutdownPending == s.shutdownPending && s'.complete == s.complete && s'.failed == s.failed
    && s'.finalized == s.finalized && s'.drains == s.drains && s'.closings == s.closings
    && s'.flushed == s.flushed && s'.drained == s.drained && s'.closed == s.closed
    && s.posted <= s'.posted && Begins(s'.posted) == Begins(s.posted) && Finals(s'.posted) == Finals(s.posted)
    && (AllDeferrable(s.deferred) ==> AllDeferrable(s'.deferred))
    && (s'.deferred == s.deferred || (s.shutdownPending && !Terminal(s)))
    && (Terminal(s) ==> s'.acts == s.acts && s'.posted == s.posted)
  }

  lemma QuietSafe(s: State, s': State)
    requires Safe(s) && Quiet(s, s')
    ensures Safe(s')
  {
  }

  lemma QuietTrans(s: State, t: State, u: State)
    requires Quiet(s, t) && Quiet(t, u)
    ensures Quiet(s, u)
  {
  }

  lemma DeferQuiet(s: State, job: Job)
    requires Defers(s) && Deferrable(job)
    ensures Quiet(s, Defer(s, job))
  {
    PutJobs(s.deferred, job);
  }

  lemma PostQuiet(s: State, job: Job)
    requires !Terminal(s) && job != BeginShutdown && job != Close
    ensures Quiet(s, Post(s, job))
  {
    PostCounts(s.posted, job);
  }

  lemma ScheduleQuiet(s: State)
    ensures Quiet(s, Schedule(s))
  {
    if Defers(s) {
      DeferQuiet(s, ScheduleImports);
    } else if s.pending != [] && s.startupLoaded && s.windowReady && !s.scheduled && !s.running {
      PostQuiet(s.(scheduled := true), RunImports);
    }
  }

  lemma RunHeld(s: State, sync: bool)
    requires Defers(s)
    ensures Quiet(s, Run(s, sync))
  {
    DeferQuiet(s.(scheduled := false), RunImports);
  }

  lemma RunAgain(s: State, sync: bool)
    requires !Defers(s) && (s.pending == [] || s.running)
    ensures Quiet(s, Run(s, sync))
  {
    ScheduleQuiet(s.(scheduled := false));
  }

  lemma RunNow(s: State, sync: bool)
    requires !Defers(s) && s.pending != [] && !s.running
    ensures Quiet(s, Run(s, sync))
  {
    var u := Act(s.(scheduled := false, pending := []), RunImports);
    if sync {
      var w := u.(delivered := u.delivered + s.pending, running := false);
      assert Quiet(s, w);
      ScheduleQuiet(w);
      QuietTrans(s, w, Schedule(w));
    }
  }

  lemma RunQuiet(s: State, sync: bool)
    ensures Quiet(s, Run(s, sync))
  {
    if Defers(s) {
      RunHeld(s, sync);
    } else if s.pending == [] || s.running {
      RunAgain(s, sync);
    } else {
      RunNow(s, sync);
    }
  }

  lemma CompleteQuiet(s: State, batch: seq<Arg>)
    ensures Quiet(s, Complete(s, batch))
  {
    if Defers(s) {
      DeferQuiet(s, CompleteImports(batch));
    } else {
      ScheduleQuiet(Act(s, CompleteImports(batch)).(delivered := s.delivered + batch, running := false));
    }
  }

  lemma LoadQuiet(s: State)
    ensures Quiet(s, Load(s))
  {
    if Defers(s) {
      DeferQuiet(s, LoadFiles);
    } else {
      var t := Post(Act(s, LoadFiles), Other(RESTORE_WORKSPACE));
      PostQuiet(Act(s, LoadFiles), Other(RESTORE_WORKSPACE));
      ScheduleQuiet(t.(startupLoaded := true));
      QuietTrans(s, t.(startupLoaded := true), Load(s));
    }
  }

  lemma ShowQuiet(s: State)
    ensures Quiet(s, Show(s))
  {
    if Defers(s) {
      DeferQuiet(s, ShowWindow);
    } else {
      PostQuiet(Act(s, ShowWindow), MarkReady);
    }
  }

  lemma OtherQuiet(s: State, name: nat)
    ensures Quiet(s, Do(s, name))
  {
    if Defers(s) {
      DeferQuiet(s, Other(name));
    }
  }

  // --- The steps of the shutdown itself ---

  /** Safe except for the token, which is on its way. */
  ghost predicate SafeInHand(s: State) {
    && Begins(s.posted) + s.drains + s.closings == 0
    && Exclusive(s) && OneFinal(s) && (s.complete ==> s.flushed && s.drained && s.closed)
    && (s.finalized ==> s.complete)
    && AllDeferrable(s.deferred) && (s.deferred != [] ==> s.shutdownPending)
  }

  lemma AbortSafe(s: State)
    requires SafeInHand(s) && !s.complete
    ensures Safe(Abort(s)) && Abort(s).acts == s.acts
  {
    AbortCounts(s);
  }

  lemma BeginSafe(s: State, flushOk: bool)
    requires SafeInHand(s) && s.shutdownPending
    ensures Safe(Begin(s, flushOk))
  {
    if !flushOk {
      AbortSafe(s);
    }
  }

  lemma CollaborationSafe(s: State, ok: bool)
    requires SafeInHand(s) && s.shutdownPending && s.flushed && s.drained
    ensures Safe(CollaborationDone(s, ok))
  {
    if !ok {
      AbortCounts(s.(failed := true));
    } else {
      PostCounts(s.posted, Close);
    }
  }

  lemma DrainSafe(s: State, ok: bool, already: bool)
    requires SafeInHand(s) && s.shutdownPending && s.flushed
    ensures Safe(DrainDone(s, ok, already))
  {
    if !ok {
      AbortSafe(s);
    } else if already {
      CollaborationSafe(s.(drained := true), true);
    }
  }

  lemma CloseSafe(s: State, maintenance: bool)
    requires Safe(s)
    ensures Safe(CloseEvent(s, maintenance))
  {
    PostCounts(s.posted, BeginShutdown);
  }

  lemma TakenSafe(s: State, t: State)
    requires Safe(s) && s.posted != [] && t == s.(posted := s.posted[1..])
    requires s.posted[0] != BeginShutdown && s.posted[0] != Close
    ensures Safe(t)
  {
    TakeCounts(s.posted);
  }

  lemma TakenToken(s: State, t: State)
    requires Safe(s) && s.posted != [] && t == s.(posted := s.posted[1..])
    ensures s.posted[0] == BeginShutdown ==> s.shutdownPending && SafeInHand(t)
    ensures s.posted[0] == Close ==> Safe(t) && s.complete && Finals(t.posted) == 0
  {
    TakeCounts(s.posted);
  }

  /** Taking the next posted job. */
  lemma DispatchSafe(s: State, o: Oracle)
    requires Safe(s) && s.posted != []
    ensures Safe(Perform(s.(posted := s.posted[1..]), s.posted[0], o))
  {
    var job, t := s.posted[0], s.(posted := s.posted[1..]);
    if job == BeginShutdown {
      TakenToken(s, t);
      BeginSafe(t, o.flushOk);
    } else if job == Close {
      TakenToken(s, t);
      CloseSafe(t, o.maintenance);
    } else {
      TakenSafe(s, t);
      OrdinaryQuiet(t, job, o);
      QuietSafe(t, Perform(t, job, o));
    }
  }

  lemma OrdinaryQuiet(s: State, job: Job, o: Oracle)
    requires job != BeginShutdown && job != Close
    ensures Quiet(s, Perform(s, job, o))
  {
    match job
    case LoadFiles => LoadQuiet(s);
    case ShowWindow => ShowQuiet(s);
    case MarkReady => ScheduleQuiet(s.(windowReady := true));
    case ScheduleImports => ScheduleQuiet(s);
    case RunImports => RunQuiet(s, o.sync);
    case CompleteImports(batch) => CompleteQuiet(s, batch);
    case Other(name) => OtherQuiet(s, name);
  }

  lemma ArriveSafe(s: State, arg: Arg)
    requires Safe(s)
    ensures Safe(Enqueue(s, arg))
  {
    var t := s.(pending := s.pending + [arg], enqueued := s.enqueued + [arg]);
    ScheduleQuiet(t);
    QuietSafe(t, Schedule(t));
  }

  lemma BatchSafe(s: State, i: nat)
    requires Safe(s) && i < |s.batches|
    ensures Safe(Next(s, BatchDone(i)))
  {
    var t := s.(batches := s.batches[..i] + s.batches[i + 1..]);
    CompleteQuiet(t, s.batches[i]);
    QuietSafe(t, Complete(t, s.batches[i]));
  }

  lemma OtherSafe(s: State, name: nat)
    requires Safe(s)
    ensures Safe(Next(s, PostOther(name)))
  {
    PostCounts(s.posted, Other(name));
  }

  lemma ReportSafe(s: State, ok: bool)
    requires Safe(s) && s.closings > 0
    ensures Safe(Next(s, ShutdownReport(ok)))
  {
    CollaborationSafe(s.(closings := s.closings - 1), ok);
  }

  lemma DrainReportSafe(s: State, ok: bool, already: bool)
    requires Safe(s) && s.drains > 0
    ensures Safe(Next(s, DrainReport(ok, already)))
  {
    DrainSafe(s.(drains := s.drains - 1), ok, already);
  }

  lemma NextSafe(s: State, l: Label)
    requires Safe(s) && Enabled(s, l)
    ensures Safe(Next(s, l))
  {
    match l
    case Arrive(arg) => ArriveSafe(s, arg);
    case UserClose(m) => CloseSafe(s, m);
    case DrainReport(ok, already) => DrainReportSafe(s, ok, already);
    case ShutdownReport(ok) => ReportSafe(s, ok);
    case BatchDone(i) => BatchSafe(s, i);
    case PostOther(name) => OtherSafe(s, name);
    case Dispatch(o) => DispatchSafe(s, o);
  }

  /** Every state of every run is safe. */
  lemma {:induction false} RunSafe(states: seq<State>, labels: seq<Label>, i: nat)
    requires IsRun(states, labels) && i < |states|
    ensures Safe(states[i])
  {
    if i > 0 {
      RunSafe(states, labels, i - 1);
      NextSafe(states[i - 1], labels[i - 1]);
    } else {
      var args :| states[0] == Initial(args);
      assert Begins([LoadFiles, ShowWindow]) == 0 && Finals([LoadFiles, ShowWindow]) == 0;
    }
  }

  /** The end is for good, and no deferrable action comes after it; nor is a failure forgotten. */
  ghost predicate EndKept(s: State, t: State) {
    (Terminal(s) ==> Terminal(t) && t.acts == s.acts) && (s.failed ==> t.failed)
  }

  lemma ArriveEnd(s: State, arg: Arg)
    ensures EndKept(s, Next(s, Arrive(arg)))
  {
    ScheduleQuiet(s.(pending := s.pending + [arg], enqueued := s.enqueued + [arg]));
  }

  lemma BatchEnd(s: State, i: nat)
    requires i < |s.batches|
    ensures EndKept(s, Next(s, BatchDone(i)))
  {
    CompleteQuiet(s.(batches := s.batches[..i] + s.batches[i + 1..]), s.batches[i]);
  }

  lemma BeginEnd(s: State, flushOk: bool)
    requires s.finalized ==> s.complete
    ensures EndKept(s, Begin(s, flushOk))
  {
  }

  lemma CloseEnd(s: State, maintenance: bool)
    ensures EndKept(s, CloseEvent(s, maintenance))
  {
  }

  lemma DispatchEnd(s: State, o: Oracle)
    requires Safe(s) && s.posted != []
    ensures EndKept(s, Next(s, Dispatch(o)))
  {
    var t := s.(posted := s.posted[1..]);
    if s.posted[0] == BeginShutdown {
      BeginEnd(t, o.flushOk);
    } else if s.posted[0] == Close {
      CloseEnd(t, o.maintenance);
    } else {
      OrdinaryQuiet(t, s.posted[0], o);
    }
  }

  lemma DrainEnd(s: State, ok: bool, already: bool)
    requires Safe(s) && s.drains > 0
    ensures EndKept(s, Next(s, DrainReport(ok, already)))
  {
  }

  lemma ReportEnd(s: State, ok: bool)
    requires Safe(s) && s.closings > 0
    ensures EndKept(s, Next(s, ShutdownReport(ok)))
  {
  }

  /** Once complete or finalised, the window does no further deferrable action and stays so; failed is never left. */
  lemma TerminalStep(s: State, l: Label)
    requires Safe(s) && Enabled(s, l)
    ensures EndKept(s, Next(s, l))
  {
    match l
    case Arrive(arg) => ArriveEnd(s, arg);
    case UserClose(m) =>
    case DrainReport(ok, already) => DrainEnd(s, ok, already);
    case ShutdownReport(ok) => ReportEnd(s, ok);
    case BatchDone(i) => BatchEnd(s, i);
    case PostOther(name) =>
    case Dispatch(o) => DispatchEnd(s, o);
  }

  lemma EndKeptTrans(s: State, t: State, u: State)
    requires EndKept(s, t) && EndKept(t, u)
    ensures EndKept(s, u)
  {
  }

  /** After the end of a run no further deferrable action is carried out, and the window stays closed. */
  lemma {:induction false} NoActionAfterTheEnd(states: seq<State>, labels: seq<Label>, i: nat, j: nat)
    requires IsRun(states, labels) && i <= j < |states|
    ensures EndKept(states[i], states[j])
    decreases j
  {
    if i < j {
      NoActionAfterTheEnd(states, labels, i, j - 1);
      RunSafe(states, labels, j - 1);
      TerminalStep(states[j - 1], labels[j - 1]);
      EndKeptTrans(states[i], states[j - 1], states[j]);
    }
  }
}
