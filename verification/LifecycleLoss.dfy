/** Exactly when giving up a shutdown can put two import batches in flight, and when it can lose one. */
module LifecycleLoss {
  import opened Lifecycle
  import opened LifecycleSafety
  import opened LifecycleQueue
  import opened LifecycleFlight

  // --- One step ---

  /** The step holds a completion back and enters it in the table. */
  ghost predicate HoldsCompletion(s: State, l: Label) {
    && s.shutdownPending && !Terminal(s)
    && match l
       case BatchDone(_) => true
       case Dispatch(_) => s.posted != [] && s.posted[0].CompleteImports?
       case _ => false
  }

  ghost predicate HoldsBatch(table: seq<Job>) {
    exists b: seq<Arg> :: b != [] && CompleteImports(b) in table
  }

  lemma {:induction false} DisplacedIs(table: seq<Job>, batch: seq<Arg>)
    requires Completions(table) <= 1
    ensures Displaced(table, CompleteImports(batch)) != [] <==> HoldsBatch(table)
  {
    if table != [] {
      assert table == [table[0]] + table[1..];
      if table[0].CompleteImports? {
        NoneLeft(table[1..]);
      } else {
        DisplacedIs(table[1..], batch);
        assert forall j :: j in table[1..] ==> j in table;
      }
    }
  }

  lemma {:induction false} NoneLeft(jobs: seq<Job>)
    requires Completions(jobs) == 0
    ensures forall j :: j in jobs ==> !j.CompleteImports?
  {
    if jobs != [] {
      NoneLeft(jobs[1..]);
    }
  }

  lemma {:induction false} NothingDisplaced(table: seq<Job>, job: Job)
    requires !job.CompleteImports?
    ensures Displaced(table, job) == []
  {
    if table != [] && !SameKey(table[0], job) {
      NothingDisplaced(table[1..], job);
    }
  }

  lemma ScheduleLoss(s: State)
    ensures !Terminal(s) ==> Schedule(s).lost == s.lost && !Terminal(Schedule(s))
  {
    NothingDisplaced(s.deferred, ScheduleImports);
  }

  lemma RunLoss(s: State, sync: bool)
    requires !Terminal(s)
    ensures Run(s, sync).lost == s.lost && !Terminal(Run(s, sync))
  {
    NothingDisplaced(s.deferred, RunImports);
    var u := s.(scheduled := false);
    ScheduleLoss(u);
    ScheduleLoss(Act(u.(pending := []), RunImports).(delivered := s.delivered + s.pending, running := false));
  }

  lemma CompleteLoss(s: State, batch: seq<Arg>)
    requires !Terminal(s)
    ensures Complete(s, batch).lost == s.lost + if Defers(s) then Displaced(s.deferred, CompleteImports(batch)) else []
  {
    if !Defers(s) {
      ScheduleLoss(Act(s, CompleteImports(batch)).(delivered := s.delivered + batch, running := false));
    }
  }

  lemma LoadLoss(s: State)
    requires !Terminal(s)
    ensures Load(s).lost == s.lost
  {
    NothingDisplaced(s.deferred, LoadFiles);
    ScheduleLoss(Post(Act(s, LoadFiles), Other(RESTORE_WORKSPACE)).(startupLoaded := true));
  }

  lemma ShowLoss(s: State)
    requires !Terminal(s)
    ensures Show(s).lost == s.lost
  {
    NothingDisplaced(s.deferred, ShowWindow);
  }

  lemma OtherLoss(s: State, name: nat)
    requires !Terminal(s)
    ensures Do(s, name).lost == s.lost
  {
    NothingDisplaced(s.deferred, Other(name));
  }

  lemma CloseLoss(s: State, maintenance: bool)
    requires !Terminal(s)
    ensures CloseEvent(s, maintenance).lost == s.lost
  {
  }

  lemma CollaborationLoss(s: State, ok: bool)
    requires !Terminal(s) && !Terminal(CollaborationDone(s, ok))
    ensures CollaborationDone(s, ok).lost == s.lost
  {
  }

  lemma DrainLoss(s: State, ok: bool, already: bool)
    requires !Terminal(s) && !Terminal(DrainDone(s, ok, already))
    ensures DrainDone(s, ok, already).lost == s.lost
  {
    if s.shutdownPending && ok && already {
      CollaborationLoss(s.(drained := true), true);
    }
  }

  lemma BeginLoss(s: State, flushOk: bool)
    requires !Terminal(s)
    ensures Begin(s, flushOk).lost == s.lost
  {
  }

  /** Carrying out a job other than a completion loses nothing. */
  lemma PerformLoss(s: State, job: Job, o: Oracle)
    requires !Terminal(s) && !job.CompleteImports?
    ensures Perform(s, job, o).lost == s.lost
  {
    match job
    case LoadFiles => LoadLoss(s);
    case ShowWindow => ShowLoss(s);
    case MarkReady => ScheduleLoss(s.(windowReady := true));
    case ScheduleImports => ScheduleLoss(s);
    case RunImports => RunLoss(s, o.sync);
    case BeginShutdown => BeginLoss(s, o.flushOk);
    case Close => CloseLoss(s, o.maintenance);
    case Other(name) => OtherLoss(s, name);
  }

  /** What has come to an end stays so. */
  lemma StaysTerminal(s: State, l: Label)
    requires Enabled(s, l) && Safe(s) && Terminal(s)
    ensures Terminal(Next(s, l))
  {
    TerminalStep(s, l);
  }

  /**
   * Short of the end, a step loses arguments exactly when it holds a completion back while another
   * one with arguments is held.
   */
  lemma LossStep(s: State, l: Label)
    requires Enabled(s, l) && Safe(s) && Completions(s.deferred) <= 1 && !Terminal(Next(s, l))
    ensures Next(s, l).lost != s.lost <==> HoldsCompletion(s, l) && HoldsBatch(s.deferred)
  {
    if Terminal(s) {
      StaysTerminal(s, l);
    } else {
      LiveLoss(s, l);
    }
  }

  lemma LiveLoss(s: State, l: Label)
    requires Enabled(s, l) && Completions(s.deferred) <= 1 && !Terminal(s) && !Terminal(Next(s, l))
    ensures Next(s, l).lost != s.lost <==> HoldsCompletion(s, l) && HoldsBatch(s.deferred)
  {
    if l.BatchDone? {
      BatchLoss(s, l.i);
    } else if l.Dispatch? {
      DispatchLoss(s, l.oracle);
    } else {
      OutsideLoss(s, l);
    }
  }

  lemma ArriveLoss(s: State, arg: Arg)
    requires !Terminal(s)
    ensures Enqueue(s, arg).lost == s.lost
  {
    ScheduleLoss(s.(pending := s.pending + [arg], enqueued := s.enqueued + [arg]));
  }

  lemma OutsideLoss(s: State, l: Label)
    requires Enabled(s, l) && !Terminal(s) && !Terminal(Next(s, l)) && !l.BatchDone? && !l.Dispatch?
    ensures Next(s, l).lost == s.lost
  {
    match l
    case Arrive(arg) => ArriveLoss(s, arg);
    case UserClose(m) => CloseLoss(s, m);
    case DrainReport(ok, already) => DrainReportLoss(s, ok, already);
    case ShutdownReport(ok) => ReportLoss(s, ok);
    case PostOther(name) =>
  }

  lemma DrainReportLoss(s: State, ok: bool, already: bool)
    requires s.drains > 0 && !Terminal(s) && !Terminal(Next(s, DrainReport(ok, already)))
    ensures Next(s, DrainReport(ok, already)).lost == s.lost
  {
    DrainLoss(s.(drains := s.drains - 1), ok, already);
  }

  lemma ReportLoss(s: State, ok: bool)
    requires s.closings > 0 && !Terminal(s) && !Terminal(Next(s, ShutdownReport(ok)))
    ensures Next(s, ShutdownReport(ok)).lost == s.lost
  {
    CollaborationLoss(s.(closings := s.closings - 1), ok);
  }

  lemma BatchLoss(s: State, i: nat)
    requires i < |s.batches| && Completions(s.deferred) <= 1 && !Terminal(s)
    ensures Next(s, BatchDone(i)).lost != s.lost <==> s.shutdownPending && HoldsBatch(s.deferred)
  {
    CompleteLoss(s.(batches := s.batches[..i] + s.batches[i + 1..]), s.batches[i]);
    DisplacedIs(s.deferred, s.batches[i]);
  }

  lemma DispatchLoss(s: State, o: Oracle)
    requires s.posted != [] && Completions(s.deferred) <= 1 && !Terminal(s)
    ensures Next(s, Dispatch(o)).lost != s.lost <==>
      s.posted[0].CompleteImports? && s.shutdownPending && HoldsBatch(s.deferred)
  {
    var t := s.(posted := s.posted[1..]);
    if s.posted[0].CompleteImports? {
      CompleteLoss(t, s.posted[0].batch);
      DisplacedIs(s.deferred, s.posted[0].batch);
    } else {
      PerformLoss(t, s.posted[0], o);
    }
  }

  // --- The table holds one completion at most ---

  lemma {:induction false} PutOne(table: seq<Job>, job: Job)
    requires Completions(table) <= 1
    ensures Completions(Put(table, job)) <= 1
  {
    PutCompletions(table, job);
    if job.CompleteImports? && Completions(table) == 1 {
      PutInPlace(table, job);
    }
  }

  lemma {:induction false} PutInPlace(table: seq<Job>, job: Job)
    requires job.CompleteImports? && Completions(table) > 0
    ensures Completions(Put(table, job)) == Completions(table)
  {
    if !table[0].CompleteImports? {
      PutInPlace(table[1..], job);
    }
  }

  // --- A state in which nothing is held back ---

  /** No shutdown is under way, no batch is marked as running, and nothing is held back. */
  ghost predicate Calm(s: State) {
    !Defers(s) && !s.running && s.deferred == []
  }

  /** t comes from s by taking one job, or by something from outside; what was posted before is still there. */
  ghost predicate CalmStep(s: State, t: State, rest: seq<Job>) {
    Calm(t) && t.lost == s.lost && t.failed == s.failed && |t.posted| >= |rest| && t.posted[..|rest|] == rest
  }

  const QUIETLY := Dispatch(Oracle(true, true, true))

  lemma ScheduleCalm(s: State, u: State, rest: seq<Job>)
    requires CalmStep(s, u, rest)
    ensures CalmStep(s, Schedule(u), rest)
  {
  }

  lemma PerformCalm(s: State, job: Job)
    requires Calm(s)
    ensures CalmStep(s, Perform(s, job, Oracle(true, true, true)), s.posted)
  {
    match job
    case LoadFiles => ScheduleCalm(s, Post(Act(s, LoadFiles), Other(RESTORE_WORKSPACE)).(startupLoaded := true),
                                   s.posted);
    case MarkReady => ScheduleCalm(s, s.(windowReady := true), s.posted);
    case ScheduleImports => ScheduleCalm(s, s, s.posted);
    case RunImports => RunCalm(s);
    case CompleteImports(batch) =>
      ScheduleCalm(s, Act(s, CompleteImports(batch)).(delivered := s.delivered + batch, running := false), s.posted);
    case _ =>
  }

  lemma RunCalm(s: State)
    requires Calm(s)
    ensures CalmStep(s, Run(s, true), s.posted)
  {
    var u := s.(scheduled := false);
    ScheduleCalm(s, Act(u.(pending := []), RunImports).(delivered := s.delivered + s.pending, running := false),
                 s.posted);
  }

  // --- Runs that go on without giving up another shutdown ---

  /** States and steps that follow one another, with no shutdown given up on the way. */
  ghost predicate Onward(states: seq<State>, labels: seq<Label>) {
    && |states| == |labels| + 1
    && forall i :: 0 <= i < |labels| ==> Follows(states[i], labels[i], states[i + 1])
  }

  ghost predicate Follows(s: State, l: Label, t: State) {
    Enabled(s, l) && t == Next(s, l) && !Resumes(s, l)
  }

  lemma Append(states: seq<State>, labels: seq<Label>, l: Label) returns (more: seq<State>, all: seq<Label>)
    requires Onward(states, labels) && Enabled(states[|states| - 1], l) && !Resumes(states[|states| - 1], l)
    ensures Onward(more, all) && more[0] == states[0] && more[|more| - 1] == Next(states[|states| - 1], l)
    ensures |more| == |states| + 1 && more[..|states|] == states
  {
    more, all := states + [Next(states[|states| - 1], l)], labels + [l];
    forall i | 0 <= i < |all|
      ensures Follows(more[i], all[i], more[i + 1])
    {
      assert i < |labels| ==> Follows(states[i], labels[i], states[i + 1]);
    }
  }

  lemma TakeOne(s: State)
    requires Calm(s) && s.posted != []
    ensures CalmStep(s, Next(s, QUIETLY), s.posted[1..]) && !Resumes(s, QUIETLY)
  {
    PerformCalm(s.(posted := s.posted[1..]), s.posted[0]);
  }

  /** The first k posted jobs are taken while nothing is held back. */
  lemma {:induction false} TakeQuietly(states: seq<State>, labels: seq<Label>, k: nat)
    returns (more: seq<State>, all: seq<Label>)
    requires Onward(states, labels)
    requires Calm(states[|states| - 1]) && k <= |states[|states| - 1].posted|
    ensures Onward(more, all) && more[0] == states[0]
    ensures CalmStep(states[|states| - 1], more[|more| - 1], states[|states| - 1].posted[k..])
    decreases k
  {
    var s := states[|states| - 1];
    if k == 0 {
      more, all := states, labels;
    } else {
      var u := Next(s, QUIETLY);
      TakeOne(s);
      more, all := Append(states, labels, QUIETLY);
      more, all := TakeQuietly(more, all, k - 1);
      var v := more[|more| - 1];
      assert u.posted[k - 1..][..|s.posted| - k] == s.posted[k..];
      assert v.posted[..|s.posted| - k] == s.posted[k..];
    }
  }

  // --- A state in which a shutdown holds things back ---

  /** A shutdown is under way, and a completion with arguments is held, the only one. */
  ghost predicate Holding(s: State) {
    s.shutdownPending && !Terminal(s) && Completions(s.deferred) == 1 && HoldsBatch(s.deferred)
  }

  const HELD := Dispatch(Oracle(true, false, true))

  lemma {:induction false} PutElsewhere(table: seq<Job>, job: Job)
    requires !job.CompleteImports?
    ensures HoldsBatch(table) ==> HoldsBatch(Put(table, job))
  {
    if b: seq<Arg> :| b != [] && CompleteImports(b) in table {
      PutKeeps(table, job, CompleteImports(b));
    }
  }

  lemma {:induction false} PutKeeps(table: seq<Job>, job: Job, other: Job)
    requires other in table && !SameKey(other, job)
    ensures other in Put(table, job)
  {
    if table[0] != other {
      if SameKey(table[0], job) {
        assert other in table[1..];
      } else {
        PutKeeps(table[1..], job, other);
      }
    }
  }

  predicate Passes(job: Job) {
    !job.CompleteImports? && job != BeginShutdown
  }

  predicate AllPass(jobs: seq<Job>) {
    forall j :: j in jobs ==> Passes(j)
  }

  lemma DeferHeld(s: State, job: Job)
    requires Holding(s) && !job.CompleteImports?
    ensures Holding(Defer(s, job)) && Defer(s, job).posted == s.posted && Defer(s, job).lost == s.lost
  {
    NothingDisplaced(s.deferred, job);
    PutElsewhere(s.deferred, job);
    PutCompletions(s.deferred, job);
  }

  lemma RunHeld(s: State)
    requires Holding(s)
    ensures Holding(Run(s, false)) && Run(s, false).posted == s.posted && Run(s, false).lost == s.lost
  {
    DeferHeld(s.(scheduled := false), RunImports);
  }

  lemma ReadyHeld(s: State)
    requires Holding(s)
    ensures Holding(Ready(s)) && Ready(s).posted == s.posted && Ready(s).lost == s.lost
  {
    DeferHeld(s.(windowReady := true), ScheduleImports);
  }

  /** A job other than a completion or the start of the shutdown is held back or does nothing. */
  lemma PerformHeld(s: State, job: Job)
    requires Holding(s) && Passes(job)
    ensures var t := Perform(s, job, Oracle(true, false, true)); Holding(t) && t.posted == s.posted && t.lost == s.lost
  {
    match job
    case MarkReady => ReadyHeld(s);
    case RunImports => RunHeld(s);
    case Close =>
    case _ => DeferHeld(s, job);
  }

  /** The posted jobs up to the first completion are taken while the shutdown holds things back. */
  lemma {:induction false} TakeHeld(states: seq<State>, labels: seq<Label>, k: nat)
    returns (more: seq<State>, all: seq<Label>)
    requires Onward(states, labels)
    requires Holding(states[|states| - 1]) && k <= |states[|states| - 1].posted|
    requires AllPass(states[|states| - 1].posted[..k])
    ensures Onward(more, all) && more[0] == states[0]
    ensures var s, t := states[|states| - 1], more[|more| - 1]; Holding(t) && t.posted == s.posted[k..]
    ensures var s, t := states[|states| - 1], more[|more| - 1]; t.lost == s.lost
    decreases k
  {
    var s := states[|states| - 1];
    if k == 0 {
      more, all := states, labels;
    } else {
      var t := s.(posted := s.posted[1..]);
      PerformHeld(t, s.posted[0]);
      more, all := Append(states, labels, HELD);
      more, all := TakeHeld(more, all, k - 1);
    }
  }

  // --- How a second batch gets off the ground, and how it is lost ---

  ghost predicate NoneBetween(jobs: seq<Job>, i: nat, j: nat)
    requires j <= |jobs|
  {
    forall k {:trigger jobs[k]} :: i <= k < j ==> !jobs[k].CompleteImports?
  }

  /** A run job and the first completion after it. */
  lemma {:induction false} FindRun(jobs: seq<Job>) returns (x: nat, y: nat)
    requires !NoRunBefore(jobs)
    ensures x < y < |jobs| && jobs[x] == RunImports && jobs[y].CompleteImports?
    ensures NoneBetween(jobs, x + 1, y)
  {
    if jobs[0] == RunImports && Completions(jobs[1..]) > 0 {
      x := 0;
      var k := FirstCompletion(jobs[1..]);
      y := k + 1;
    } else {
      x, y := FindRun(jobs[1..]);
      x, y := x + 1, y + 1;
    }
  }

  lemma {:induction false} FirstCompletion(jobs: seq<Job>) returns (k: nat)
    requires Completions(jobs) > 0
    ensures k < |jobs| && jobs[k].CompleteImports? && NoneBetween(jobs, 0, k)
  {
    if jobs[0].CompleteImports? {
      k := 0;
    } else {
      k := FirstCompletion(jobs[1..]);
      k := k + 1;
    }
  }

  lemma {:induction false} SomeCompletion(jobs: seq<Job>, k: nat)
    requires k < |jobs| && jobs[k].CompleteImports?
    ensures Completions(jobs) > 0
  {
    if k > 0 {
      SomeCompletion(jobs[1..], k - 1);
    }
  }

  lemma {:induction false} NoRunTail(x: seq<Job>, y: seq<Job>)
    requires NoRunBefore(x + y)
    ensures NoRunBefore(y)
  {
    if x == [] {
      assert x + y == y;
    } else {
      assert (x + y)[1..] == x[1..] + y;
      NoRunTail(x[1..], y);
    }
  }

  lemma {:induction false} NoRunRest(table: seq<Job>)
    requires NoRunBefore(Rest(table))
    ensures NoRunBefore(table)
  {
    if table != [] {
      if table[0] != LoadFiles && table[0] != ShowWindow {
        assert Rest(table)[1..] == Rest(table[1..]);
      }
      NoRunRest(table[1..]);
      RestCompletions(table[1..]);
    }
  }

  /** Nothing is held back; a batch may be running. */
  ghost predicate Free(s: State) {
    !Defers(s) && s.deferred == [] && (s.running ==> s.batches != [])
  }

  /** The running batch, if any, comes to its end. */
  lemma Settle(s: State) returns (states: seq<State>, labels: seq<Label>)
    requires Free(s)
    ensures Onward(states, labels) && states[0] == s && CalmStep(s, states[|states| - 1], s.posted)
  {
    states, labels := [s], [];
    if s.running {
      var u := s.(batches := s.batches[..0] + s.batches[1..]);
      var v := Act(u, CompleteImports(s.batches[0]));
      ScheduleCalm(s, v.(delivered := u.delivered + s.batches[0], running := false), s.posted);
      states, labels := Append(states, labels, BatchDone(0));
    }
  }

  /** t is s with a new batch under way. */
  ghost predicate Flying(s: State, t: State, rest: seq<Job>) {
    && !Defers(t) && t.deferred == [] && t.batches != [] && t.batches[|t.batches| - 1] != []
    && t.lost == s.lost && t.failed == s.failed && |t.posted| >= |rest| && t.posted[..|rest|] == rest
  }

  /** A new argument comes. */
  lemma ArgumentComes(s: State)
    requires Calm(s)
    ensures CalmStep(s, Next(s, Arrive(1)), s.posted) && Next(s, Arrive(1)).pending == s.pending + [1]
  {
    ScheduleCalm(s, s.(pending := s.pending + [1], enqueued := s.enqueued + [1]), s.posted);
  }

  /** With an argument waiting, the run job takes off with it. */
  lemma RunTakesOff(u: State, rest: seq<Job>)
    requires Calm(u) && u.pending != [] && u.posted != [] && u.posted[0] == RunImports
    requires |u.posted| > |rest| && u.posted[1..][..|rest|] == rest
    ensures Flying(u, Next(u, Dispatch(Oracle(true, false, true))), rest)
  {
    var t := u.(posted := u.posted[1..]);
    assert Next(u, Dispatch(Oracle(true, false, true))) == Run(t, false);
    assert t.posted[..|rest|] == rest;
  }

  lemma TakeOff(states: seq<State>, labels: seq<Label>, rest: seq<Job>) returns (more: seq<State>, all: seq<Label>)
    requires Onward(states, labels) && Calm(states[|states| - 1])
    requires |states[|states| - 1].posted| > |rest| && states[|states| - 1].posted[..|rest| + 1] == [RunImports] + rest
    ensures Onward(more, all) && more[0] == states[0]
    ensures Flying(states[|states| - 1], more[|more| - 1], rest)
  {
    var s := states[|states| - 1];
    var u := Next(s, Arrive(1));
    ArgumentComes(s);
    assert s.posted[0] == ([RunImports] + rest)[0];
    assert u.posted[..|s.posted|] == s.posted;
    assert u.posted[0] == RunImports;
    assert s.posted[1..][..|rest|] == ([RunImports] + rest)[1..] == rest;
    assert u.posted[1..][..|rest|] == rest;
    RunTakesOff(u, rest);
    more, all := Append(states, labels, Arrive(1));
    more, all := Append(more, all, Dispatch(Oracle(true, false, true)));
  }

  /** The window is to be closed, the new batch comes to its end, and its completion is held. */
  lemma HoldNew(states: seq<State>, labels: seq<Label>, s: State, rest: seq<Job>)
    returns (more: seq<State>, all: seq<Label>)
    requires Onward(states, labels) && Flying(s, states[|states| - 1], rest) && !s.failed
    ensures Onward(more, all) && more[0] == states[0]
    ensures var t := more[|more| - 1]; Holding(t) && t.lost == s.lost && |t.posted| >= |rest|
    ensures var t := more[|more| - 1]; t.posted[..|rest|] == rest
  {
    var t := states[|states| - 1];
    var u := Next(t, UserClose(false));
    assert u.posted[..|rest|] == rest;
    more, all := Append(states, labels, UserClose(false));
    var i, b := |t.batches| - 1, t.batches[|t.batches| - 1];
    more, all := Append(more, all, BatchDone(i));
    var v := more[|more| - 1];
    assert v.deferred == [CompleteImports(b)];
    assert Completions(v.deferred) == 1 && CompleteImports(b) in v.deferred;
  }

  /** The next completion takes the place of the one held. */
  lemma Displace(states: seq<State>, labels: seq<Label>) returns (more: seq<State>, all: seq<Label>)
    requires Onward(states, labels) && Holding(states[|states| - 1])
    requires states[|states| - 1].posted != [] && states[|states| - 1].posted[0].CompleteImports?
    ensures Onward(more, all) && more[0] == states[0]
    ensures !Terminal(more[|more| - 1]) && more[|more| - 1].lost != states[|states| - 1].lost
  {
    var s := states[|states| - 1];
    more, all := Append(states, labels, HELD);
    DispatchLoss(s, Oracle(true, false, true));
  }

  /** From s, without giving up another shutdown, two batches can come to be under way at once. */
  ghost predicate CanCrowd(s: State) {
    exists states: seq<State>, labels: seq<Label> :: Onward(states, labels) && states[0] == s
      && Busy(states[|states| - 1]) > 1
  }

  /** From s, without giving up another shutdown, arguments can be lost before the end. */
  ghost predicate CanLose(s: State) {
    exists states: seq<State>, labels: seq<Label> ::
      Onward(states, labels) && states[0] == s && !Terminal(states[|states| - 1]) && states[|states| - 1].lost != s.lost
  }

  /** The run job at place x takes off while the completion at place y is still posted. */
  lemma TakesTheLead(s: State, x: nat, y: nat)
    returns (states: seq<State>, labels: seq<Label>, t: State, rest: seq<Job>)
    requires Free(s) && x < y < |s.posted| && s.posted[x] == RunImports && s.posted[y].CompleteImports?
    ensures Onward(states, labels) && states[0] == s && rest == s.posted[x + 1..] && t.lost == s.lost
    ensures t.failed == s.failed
    ensures Flying(t, states[|states| - 1], rest) && Busy(states[|states| - 1]) > 1
  {
    states, labels := Settle(s);
    var u := states[|states| - 1];
    states, labels := TakeQuietly(states, labels, x);
    t, rest := states[|states| - 1], s.posted[x + 1..];
    assert u.posted[x..][..|s.posted| - x] == s.posted[x..];
    assert t.posted[..|s.posted| - x] == s.posted[x..] == [RunImports] + rest;
    states, labels := TakeOff(states, labels, rest);
    var v := states[|states| - 1];
    assert v.posted[y - x - 1] == rest[y - x - 1] == s.posted[y];
    SomeCompletion(v.posted, y - x - 1);
  }

  lemma Crowds(s: State)
    requires Free(s) && !NoRunBefore(s.posted)
    ensures CanCrowd(s)
  {
    var x, y := FindRun(s.posted);
    var states, labels, t, rest := TakesTheLead(s, x, y);
  }

  lemma Loses(s: State)
    requires Free(s) && !NoRunBefore(s.posted) && !s.failed && BeginShutdown !in s.posted
    ensures CanLose(s)
  {
    var x, y := FindRun(s.posted);
    var states, labels, t, rest := TakesTheLead(s, x, y);
    states, labels := HoldNew(states, labels, t, rest);
    var u := states[|states| - 1];
    assert u.posted[..y - x - 1] == s.posted[x + 1..y];
    assert forall j :: j in s.posted[x + 1..y] ==> j in s.posted;
    assert u.posted[y - x - 1] == rest[y - x - 1] == s.posted[y];
    states, labels := TakeHeld(states, labels, y - x - 1);
    states, labels := Displace(states, labels);
  }

  // --- The other direction ---

  /** Without another shutdown given up, order is kept. */
  lemma {:induction false} OrderlyOnward(states: seq<State>, labels: seq<Label>, i: nat)
    requires Onward(states, labels) && Safe(states[0]) && Orderly(states[0]) && i < |states|
    ensures Safe(states[i]) && Orderly(states[i])
  {
    if i > 0 {
      OrderlyOnward(states, labels, i - 1);
      assert Follows(states[i - 1], labels[i - 1], states[i]);
      NextSafe(states[i - 1], labels[i - 1]);
      NextOrderly(states[i - 1], labels[i - 1]);
    }
  }

  lemma FailedStep(s: State, l: Label, t: State)
    requires Follows(s, l, t) && Safe(s) && s.failed
    ensures Safe(t) && t.failed && t.lost == s.lost
  {
    NextSafe(s, l);
    TerminalStep(s, l);
    LossStep(s, l);
  }

  /** A window whose shutdown failed at the last stage cannot be closed any more, and loses nothing. */
  lemma {:induction false} FailedOnward(states: seq<State>, labels: seq<Label>, i: nat)
    requires Onward(states, labels) && Safe(states[0]) && states[0].failed && i < |states|
    ensures Safe(states[i]) && states[i].failed && states[i].lost == states[0].lost
  {
    if i > 0 {
      FailedOnward(states, labels, i - 1);
      FailedStep(states[i - 1], labels[i - 1], states[i]);
    }
  }

  // --- The theorem ---

  lemma Resumed(s: State, l: Label)
    requires Safe(s) && Awake(s) && Enabled(s, l) && Resumes(s, l) && !Terminal(s)
    ensures var t := Next(s, l); Free(t) && Safe(t) && BeginShutdown !in t.posted && t.lost == s.lost
    ensures exists before :: Next(s, l).posted == before + ResumeOrder(s.deferred)
  {
    NextSafe(s, l);
  }

  /**
   * A shutdown is given up in an orderly state. From then on, until another one is given up, two
   * batches can come to be under way at once exactly when a run job was held ahead of a completion;
   * and arguments can be lost before the end exactly when, moreover, the shutdown has not failed at
   * its last stage, after which the window cannot be closed.
   */
  lemma AfterResume(s: State, l: Label)
    requires Safe(s) && Awake(s) && Orderly(s) && Enabled(s, l) && Resumes(s, l) && !Terminal(s)
    ensures CanCrowd(Next(s, l)) <==> !NoRunBefore(s.deferred)
    ensures CanLose(Next(s, l)) <==> !NoRunBefore(s.deferred) && !Next(s, l).failed
  {
    var t := Next(s, l);
    Resumed(s, l);
    if NoRunBefore(s.deferred) {
      NextOrderly(s, l);
      NoLossFrom(t);
    } else {
      var before :| t.posted == before + ResumeOrder(s.deferred);
      if NoRunBefore(t.posted) {
        NoRunTail(before, ResumeOrder(s.deferred));
        NoRunTail(Pick(s.deferred, LoadFiles) + Pick(s.deferred, ShowWindow), Rest(s.deferred));
        NoRunRest(s.deferred);
      }
      Crowds(t);
      if t.failed {
        NoLossAfterFailure(t);
      } else {
        Loses(t);
      }
    }
  }

  lemma NoLossFrom(t: State)
    requires Safe(t) && Orderly(t) && !Terminal(t)
    ensures !CanCrowd(t) && !CanLose(t)
  {
    forall states: seq<State>, labels: seq<Label> | Onward(states, labels) && states[0] == t
      ensures Busy(states[|states| - 1]) <= 1 && (Terminal(states[|states| - 1]) || states[|states| - 1].lost == t.lost)
    {
      OrderlyOnward(states, labels, |states| - 1);
    }
  }

  lemma NoLossAfterFailure(t: State)
    requires Safe(t) && t.failed
    ensures !CanLose(t)
  {
    forall states: seq<State>, labels: seq<Label> | Onward(states, labels) && states[0] == t
      ensures states[|states| - 1].lost == t.lost
    {
      FailedOnward(states, labels, |states| - 1);
    }
  }

  /** The same over runs: up to here, every shutdown that was given up held no run job ahead of a completion. */
  lemma RunDecides(states: seq<State>, labels: seq<Label>, l: Label)
    requires IsRun(states, labels) && Enabled(states[|labels|], l) && Resumes(states[|labels|], l)
    requires !Terminal(states[|labels|])
    requires forall k :: 0 <= k < |labels| && Resumes(states[k], labels[k]) ==> NoRunBefore(states[k].deferred)
    ensures CanCrowd(Next(states[|labels|], l)) <==> !NoRunBefore(states[|labels|].deferred)
    ensures CanLose(Next(states[|labels|], l)) <==>
      !NoRunBefore(states[|labels|].deferred) && !Next(states[|labels|], l).failed
  {
    RunSafe(states, labels, |labels|);
    RunAwake(states, labels, |labels|);
    OneBatchAtATime(states, labels, |labels|);
    AfterResume(states[|labels|], l);
  }

  // --- One completion in the table, over all runs ---

  /** The table stays, is emptied, or takes one entry. */
  ghost predicate TableMoves(s: State, t: State) {
    t.deferred == s.deferred || t.deferred == [] || exists job :: Entered(s, t, job)
  }

  ghost predicate Entered(s: State, t: State, job: Job) {
    t.deferred == Put(s.deferred, job)
  }

  lemma DeferTable(s: State, u: State, job: Job)
    requires u.deferred == s.deferred
    ensures TableMoves(s, Defer(u, job))
  {
    assert !Terminal(u) ==> Entered(s, Defer(u, job), job);
  }

  lemma ScheduleTable(s: State, u: State)
    requires u.deferred == s.deferred
    ensures TableMoves(s, Schedule(u))
  {
    DeferTable(s, u, ScheduleImports);
  }

  lemma RunTable(s: State, sync: bool)
    ensures TableMoves(s, Run(s, sync))
  {
    var u := s.(scheduled := false);
    DeferTable(s, u, RunImports);
    ScheduleTable(s, u);
    ScheduleTable(s, Act(u.(pending := []), RunImports).(delivered := s.delivered + s.pending, running := false));
  }

  lemma CompleteTable(s: State, u: State, batch: seq<Arg>)
    requires u.deferred == s.deferred
    ensures TableMoves(s, Complete(u, batch))
  {
    DeferTable(s, u, CompleteImports(batch));
    assert TableMoves(s, Defer(u, CompleteImports(batch)).(running := false)) by {
      assert !Terminal(u) ==> Entered(s, Defer(u, CompleteImports(batch)).(running := false), CompleteImports(batch));
    }
    ScheduleTable(s, Act(u, CompleteImports(batch)).(delivered := u.delivered + batch, running := false));
  }

  lemma LoadTable(s: State)
    ensures TableMoves(s, Load(s))
  {
    DeferTable(s, s, LoadFiles);
    ScheduleTable(s, Post(Act(s, LoadFiles), Other(RESTORE_WORKSPACE)).(startupLoaded := true));
  }

  lemma PerformTable(s: State, job: Job, o: Oracle)
    ensures TableMoves(s, Perform(s, job, o))
  {
    match job
    case LoadFiles => LoadTable(s);
    case ShowWindow => DeferTable(s, s, ShowWindow);
    case MarkReady => ScheduleTable(s, s.(windowReady := true));
    case ScheduleImports => ScheduleTable(s, s);
    case RunImports => RunTable(s, o.sync);
    case CompleteImports(batch) => CompleteTable(s, s, batch);
    case BeginShutdown =>
    case Close =>
    case Other(name) => DeferTable(s, s, Other(name));
  }

  lemma ArriveTable(s: State, arg: Arg)
    ensures TableMoves(s, Enqueue(s, arg))
  {
    ScheduleTable(s, s.(pending := s.pending + [arg], enqueued := s.enqueued + [arg]));
  }

  lemma BatchTable(s: State, i: nat)
    requires i < |s.batches|
    ensures TableMoves(s, Next(s, BatchDone(i)))
  {
    CompleteTable(s, s.(batches := s.batches[..i] + s.batches[i + 1..]), s.batches[i]);
  }

  lemma DispatchTable(s: State, o: Oracle)
    requires s.posted != []
    ensures TableMoves(s, Next(s, Dispatch(o)))
  {
    var t := s.(posted := s.posted[1..]);
    PerformTable(t, s.posted[0], o);
    if job :| Entered(t, Next(s, Dispatch(o)), job) {
      assert Entered(s, Next(s, Dispatch(o)), job);
    }
  }

  lemma DrainTable(s: State, ok: bool, already: bool)
    requires s.drains > 0
    ensures TableMoves(s, Next(s, DrainReport(ok, already)))
  {
  }

  lemma NextTable(s: State, l: Label)
    requires Enabled(s, l)
    ensures TableMoves(s, Next(s, l))
  {
    match l
    case Arrive(arg) => ArriveTable(s, arg);
    case UserClose(m) =>
    case DrainReport(ok, already) => DrainTable(s, ok, already);
    case ShutdownReport(ok) =>
    case BatchDone(i) => BatchTable(s, i);
    case PostOther(name) =>
    case Dispatch(o) => DispatchTable(s, o);
  }

  /** In every run the table holds one completion at most. */
  lemma {:induction false} RunHoldsOne(states: seq<State>, labels: seq<Label>, i: nat)
    requires IsRun(states, labels) && i < |states|
    ensures Completions(states[i].deferred) <= 1
  {
    if i > 0 {
      RunHoldsOne(states, labels, i - 1);
      NextTable(states[i - 1], labels[i - 1]);
      var s, t := states[i - 1], states[i];
      if job :| Entered(s, t, job) {
        PutOne(s.deferred, job);
      }
    }
  }

  /** In every run, short of the end, a step loses arguments exactly when it holds back a second completion. */
  lemma RunLossStep(states: seq<State>, labels: seq<Label>, i: nat)
    requires IsRun(states, labels) && i < |labels| && !Terminal(states[i + 1])
    ensures states[i + 1].lost != states[i].lost <==>
      HoldsCompletion(states[i], labels[i]) && HoldsBatch(states[i].deferred)
  {
    RunSafe(states, labels, i);
    RunHoldsOne(states, labels, i);
    LossStep(states[i], labels[i]);
  }
}
