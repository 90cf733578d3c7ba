/** The final close: when it is still to come, and a run in which it never does. */
module LifecycleClose {
  import opened Lifecycle
  import opened LifecycleSafety
  import opened LifecycleTrace

  /** The step takes the posted close, and maintenance turns it away. */
  predicate TurnsAway(s: State, l: Label) {
    l.Dispatch? && s.posted != [] && s.posted[0] == Close && l.oracle.maintenance
  }

  /** One of the first i steps of the run did. */
  ghost predicate TurnedAway(states: seq<State>, labels: seq<Label>, i: nat)
    requires i <= |labels| < |states|
  {
    exists k :: 0 <= k < i && TurnsAway(states[k], labels[k])
  }

  /** Completed, but not closed for good. */
  predicate Lingers(s: State) {
    s.complete && !s.finalized
  }

  // --- One step ---

  /**
   * The completion posts the close; from then on it stays posted until it is taken; and before it
   * no close is there to be turned away.
   */
  ghost predicate CloseStep(s: State, l: Label, t: State) {
    && (!t.complete ==> !s.complete && !TurnsAway(s, l))
    && (Lingers(t) && !s.complete ==> Close in t.posted && !TurnsAway(s, l))
    && (Lingers(t) && s.complete ==> Lingers(s))
    && (Lingers(t) && Lingers(s) ==> (Close in t.posted <==> Close in s.posted && !TurnsAway(s, l)))
  }

  lemma NoFinal(jobs: seq<Job>)
    ensures Close in jobs <==> Finals(jobs) > 0
  {
  }

  /** A step that the shutdown does not notice. */
  lemma QuietClose(s: State, l: Label, t: State)
    requires Safe(s) && Quiet(s, t) && !TurnsAway(s, l)
    ensures CloseStep(s, l, t)
  {
    NoFinal(s.posted);
    NoFinal(t.posted);
  }

  lemma ArriveClose(s: State, arg: Arg)
    requires Safe(s)
    ensures CloseStep(s, Arrive(arg), Next(s, Arrive(arg)))
  {
    var t := s.(pending := s.pending + [arg], enqueued := s.enqueued + [arg]);
    ScheduleQuiet(t);
    QuietTrans(s, t, Schedule(t));
    QuietClose(s, Arrive(arg), Schedule(t));
  }

  lemma BatchClose(s: State, i: nat)
    requires Safe(s) && i < |s.batches|
    ensures CloseStep(s, BatchDone(i), Next(s, BatchDone(i)))
  {
    var t := s.(batches := s.batches[..i] + s.batches[i + 1..]);
    CompleteQuiet(t, s.batches[i]);
    QuietTrans(s, t, Complete(t, s.batches[i]));
    QuietClose(s, BatchDone(i), Complete(t, s.batches[i]));
  }

  lemma OtherClose(s: State, name: nat)
    requires Safe(s)
    ensures CloseStep(s, PostOther(name), Next(s, PostOther(name)))
  {
    PostCounts(s.posted, Other(name));
    NoFinal(s.posted);
    NoFinal(s.posted + [Other(name)]);
  }

  lemma UserCloseStep(s: State, maintenance: bool)
    requires Safe(s)
    ensures CloseStep(s, UserClose(maintenance), Next(s, UserClose(maintenance)))
  {
    PostCounts(s.posted, BeginShutdown);
  }

  /** A report comes while the shutdown is pending, and either completes it or does not. */
  lemma DrainClose(s: State, ok: bool, already: bool)
    requires Safe(s) && s.drains > 0
    ensures CloseStep(s, DrainReport(ok, already), Next(s, DrainReport(ok, already)))
  {
    assert !s.complete;
  }

  lemma ReportClose(s: State, ok: bool)
    requires Safe(s) && s.closings > 0
    ensures CloseStep(s, ShutdownReport(ok), Next(s, ShutdownReport(ok)))
  {
    assert !s.complete;
  }

  /** The close itself is taken, and no other one is posted. */
  lemma TakenClose(s: State, o: Oracle)
    requires Safe(s) && s.posted != [] && s.posted[0] == Close
    ensures CloseStep(s, Dispatch(o), Next(s, Dispatch(o)))
  {
    var t := s.(posted := s.posted[1..]);
    TakenToken(s, t);
    NoFinal(t.posted);
  }

  lemma BeginClose(s: State, o: Oracle)
    requires Safe(s) && s.posted != [] && s.posted[0] == BeginShutdown
    ensures CloseStep(s, Dispatch(o), Next(s, Dispatch(o)))
  {
    TakenToken(s, s.(posted := s.posted[1..]));
  }

  lemma OrdinaryClose(s: State, o: Oracle)
    requires Safe(s) && s.posted != [] && s.posted[0] != Close && s.posted[0] != BeginShutdown
    ensures CloseStep(s, Dispatch(o), Next(s, Dispatch(o)))
  {
    var t := s.(posted := s.posted[1..]);
    TakeCounts(s.posted);
    TakenSafe(s, t);
    OrdinaryQuiet(t, s.posted[0], o);
    NoFinal(s.posted);
    NoFinal(t.posted);
    NoFinal(Perform(t, s.posted[0], o).posted);
  }

  lemma NextClose(s: State, l: Label)
    requires Safe(s) && Enabled(s, l)
    ensures CloseStep(s, l, Next(s, l))
  {
    match l
    case Arrive(arg) => ArriveClose(s, arg);
    case UserClose(m) => UserCloseStep(s, m);
    case DrainReport(ok, already) => DrainClose(s, ok, already);
    case ShutdownReport(ok) => ReportClose(s, ok);
    case BatchDone(i) => BatchClose(s, i);
    case PostOther(name) => OtherClose(s, name);
    case Dispatch(o) =>
      if s.posted[0] == Close {
        TakenClose(s, o);
      } else if s.posted[0] == BeginShutdown {
        BeginClose(s, o);
      } else {
        OrdinaryClose(s, o);
      }
  }

  // --- Runs ---

  /** Where the run has come to: the close is posted exactly if it was not turned away. */
  ghost predicate CloseKnown(states: seq<State>, labels: seq<Label>, i: nat)
    requires i <= |labels| < |states|
  {
    && (!states[i].complete ==> !TurnedAway(states, labels, i))
    && (Lingers(states[i]) ==> (Close in states[i].posted <==> !TurnedAway(states, labels, i)))
  }

  lemma TurnedOn(states: seq<State>, labels: seq<Label>, i: nat)
    requires i < |labels| < |states|
    ensures TurnedAway(states, labels, i + 1) <==> TurnedAway(states, labels, i) || TurnsAway(states[i], labels[i])
  {
  }

  lemma {:induction false} RunClose(states: seq<State>, labels: seq<Label>, i: nat)
    requires IsRun(states, labels) && i < |states|
    ensures CloseKnown(states, labels, i)
  {
    if i > 0 {
      RunClose(states, labels, i - 1);
      RunSafe(states, labels, i - 1);
      NextClose(states[i - 1], labels[i - 1]);
      TurnedOn(states, labels, i - 1);
    }
  }

  /**
   * A close is only finalised when, in the same attempt, deferred persistence was flushed, the
   * mutation drain succeeded and collaboration is closed; pending, complete and failed exclude each
   * other; and a completed shutdown still has its final close before it exactly if maintenance has
   * not turned it away.
   */
  lemma FinalisedOnlyAfterAll(states: seq<State>, labels: seq<Label>, i: nat)
    requires IsRun(states, labels) && i < |states|
    ensures states[i].finalized ==> states[i].complete && states[i].flushed && states[i].drained && states[i].closed
    ensures Exclusive(states[i])
    ensures states[i].complete && !states[i].finalized ==>
      (Close in states[i].posted <==> !exists k :: 0 <= k < i && TurnsAway(states[k], labels[k]))
  {
    RunSafe(states, labels, i);
    RunClose(states, labels, i);
  }

  // --- After the close was turned away ---

  /** Completed, and no close is posted. */
  predicate Stays(s: State) {
    Lingers(s) && Close !in s.posted
  }

  /** Such a window is closed for good by the next close of the user, and by nothing else. */
  lemma StaysStep(s: State, l: Label)
    requires Safe(s) && Enabled(s, l) && Stays(s)
    ensures if l == UserClose(false) then Next(s, l).finalized else Stays(Next(s, l))
  {
    NextClose(s, l);
    TerminalKept(s, l);
  }

  lemma TerminalKept(s: State, l: Label)
    requires Safe(s) && Enabled(s, l) && Stays(s)
    ensures Next(s, l).complete && (Next(s, l).finalized <==> l == UserClose(false))
  {
    match l
    case Arrive(arg) => ScheduleQuiet(s.(pending := s.pending + [arg], enqueued := s.enqueued + [arg]));
    case BatchDone(i) => CompleteQuiet(s.(batches := s.batches[..i] + s.batches[i + 1..]), s.batches[i]);
    case Dispatch(o) => DispatchKept(s, o);
    case _ =>
  }

  lemma DispatchKept(s: State, o: Oracle)
    requires Safe(s) && s.posted != [] && Stays(s)
    ensures Next(s, Dispatch(o)).complete && !Next(s, Dispatch(o)).finalized
  {
    if s.posted[0] != BeginShutdown {
      OrdinaryQuiet(s.(posted := s.posted[1..]), s.posted[0], o);
    }
  }

  /** Without another close by the user the window is never closed. */
  lemma {:induction false} StaysOpen(states: seq<State>, labels: seq<Label>, i: nat, j: nat)
    requires IsRun(states, labels) && i <= j < |states| && Stays(states[i])
    requires forall k :: i <= k < j ==> labels[k] != UserClose(false)
    ensures Stays(states[j])
    decreases j
  {
    if i < j {
      StaysOpen(states, labels, i, j - 1);
      RunSafe(states, labels, j - 1);
      StaysStep(states[j - 1], labels[j - 1]);
    }
  }

  // --- A run in which it happens ---

  const TAKE_UNDER_MAINTENANCE := Dispatch(Oracle(true, false, true))

  /** The user closes the window, and maintenance begins before the final close is taken. */
  function Steps(): seq<Label> {
    [UserClose(false), TAKE, TAKE, TAKE, DrainReport(true, true), TAKE_UNDER_MAINTENANCE]
  }

  ghost predicate Looks(s: State, pending: bool, complete: bool, posted: seq<Job>, drains: nat) {
    && !s.finalized && !s.failed && s.pending == [] && s.closings == 0
    && s.shutdownPending == pending && s.complete == complete && s.posted == posted && s.drains == drains
  }

  lemma Asked() returns (s: State, t: State)
    ensures s == Initial([]) && Enabled(s, UserClose(false)) && t == Next(s, UserClose(false))
    ensures Looks(t, true, false, [LoadFiles] + ([ShowWindow] + [BeginShutdown]), 0)
  {
    s := Initial([]);
    t := Next(s, UserClose(false));
    assert [LoadFiles] + ([ShowWindow] + [BeginShutdown]) == [LoadFiles, ShowWindow] + [BeginShutdown];
  }

  lemma Held(s: State, job: Job, rest: seq<Job>) returns (t: State)
    requires Looks(s, true, false, [job] + rest, 0) && (job == LoadFiles || job == ShowWindow)
    ensures Enabled(s, TAKE) && t == Next(s, TAKE) && Looks(t, true, false, rest, 0)
  {
    assert ([job] + rest)[1..] == rest;
    t := Next(s, TAKE);
  }

  lemma Begun(s: State) returns (t: State)
    requires Looks(s, true, false, [BeginShutdown], 0)
    ensures Enabled(s, TAKE) && t == Next(s, TAKE) && Looks(t, true, false, [], 1)
  {
    assert [BeginShutdown][1..] == [];
    t := Next(s, TAKE);
  }

  lemma Drained(s: State) returns (t: State)
    requires Looks(s, true, false, [], 1)
    ensures Enabled(s, DrainReport(true, true)) && t == Next(s, DrainReport(true, true))
    ensures Looks(t, false, true, [Close], 0)
  {
    t := Next(s, DrainReport(true, true));
  }

  lemma Refused(s: State) returns (t: State)
    requires Looks(s, false, true, [Close], 0)
    ensures Enabled(s, TAKE_UNDER_MAINTENANCE) && t == Next(s, TAKE_UNDER_MAINTENANCE) && Looks(t, false, true, [], 0)
    ensures TurnsAway(s, TAKE_UNDER_MAINTENANCE)
  {
    assert [Close][1..] == [];
    t := Next(s, TAKE_UNDER_MAINTENANCE);
  }

  /** The shutdown is asked for, and both callbacks are held back. */
  lemma FirstHalf() returns (states: seq<State>)
    ensures Leads(states, Steps()[..3]) && states[0] == Initial([])
    ensures Looks(states[3], true, false, [BeginShutdown], 0)
  {
    var s0, s1 := Asked();
    var s2 := Held(s1, LoadFiles, [ShowWindow] + [BeginShutdown]);
    var s3 := Held(s2, ShowWindow, [BeginShutdown]);
    states := [s0, s1, s2, s3];
  }

  /** It completes, and its close is turned away. */
  lemma SecondHalf(s3: State) returns (states: seq<State>)
    requires Looks(s3, true, false, [BeginShutdown], 0)
    ensures Leads(states, Steps()[3..]) && states[0] == s3
    ensures Looks(states[2], false, true, [Close], 0) && TurnsAway(states[2], TAKE_UNDER_MAINTENANCE)
    ensures Looks(states[3], false, true, [], 0)
  {
    var s4 := Begun(s3);
    var s5 := Drained(s4);
    var s6 := Refused(s5);
    states := [s3, s4, s5, s6];
  }

  /**
   * Six steps after the user has closed the window the shutdown is complete, nothing is posted and
   * nothing is due, and the window is still there.
   */
  lemma CloseIsTurnedAway() returns (states: seq<State>)
    ensures IsRun(states, Steps()) && states[0] == Initial([])
    ensures Close in states[5].posted && TurnsAway(states[5], Steps()[5])
    ensures Stays(states[6]) && states[6].posted == [] && states[6].drains == states[6].closings == 0
  {
    var first := FirstHalf();
    var second := SecondHalf(first[3]);
    LeadsOn(first, Steps()[..3], second, Steps()[3..]);
    assert Steps() == Steps()[..3] + Steps()[3..];
    states := first + second[1..];
    assert states[5] == second[2] && states[6] == second[3];
  }
}
