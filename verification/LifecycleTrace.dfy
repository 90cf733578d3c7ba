/** A run in which two import batches are in flight at once, and one of them is lost. */
module LifecycleTrace {
  import opened Lifecycle
  import opened LifecycleFlight

  /** The state of a started window whose shutdown has not completed. */
  ghost predicate Looks(s: State, scheduled: bool, running: bool, pending: seq<Arg>, deferred: seq<Job>,
                        shutdownPending: bool, posted: seq<Job>, drains: nat, batches: seq<seq<Arg>>, lost: seq<Arg>) {
    && s.startupLoaded && s.windowReady && !s.complete && !s.failed && !s.finalized && s.closings == 0
    && s.scheduled == scheduled && s.running == running && s.pending == pending && s.deferred == deferred
    && s.shutdownPending == shutdownPending && s.posted == posted && s.drains == drains && s.batches == batches
    && s.lost == lost
  }

  const TAKE := Dispatch(Oracle(true, false, false))
  const TAKE_BUT_FLUSH_FAILS := Dispatch(Oracle(false, false, false))

  /** The steps of the run. */
  function Steps(): seq<Label> {
    [TAKE, TAKE, TAKE, TAKE,
     Arrive(1), UserClose(false), TAKE, TAKE_BUT_FLUSH_FAILS, TAKE, TAKE,
     Arrive(2), UserClose(false), TAKE, TAKE, BatchDone(0), DrainReport(false, false), TAKE, TAKE,
     UserClose(false), BatchDone(0), TAKE]
  }

  /** The states that lie between the given steps, from s on. */
  ghost predicate Leads(states: seq<State>, labels: seq<Label>) {
    && |states| == |labels| + 1
    && forall i :: 0 <= i < |labels| ==> Enabled(states[i], labels[i]) && states[i + 1] == Next(states[i], labels[i])
  }

  lemma LeadsOn(states: seq<State>, labels: seq<Label>, more: seq<State>, rest: seq<Label>)
    requires Leads(states, labels) && Leads(more, rest) && states[|states| - 1] == more[0]
    ensures Leads(states + more[1..], labels + rest)
  {
    var all, steps := states + more[1..], labels + rest;
    forall i | 0 <= i < |steps|
      ensures Enabled(all[i], steps[i]) && all[i + 1] == Next(all[i], steps[i])
    {
      if i >= |labels| {
        assert all[i] == more[i - |labels|] && all[i + 1] == more[i - |labels| + 1];
      }
    }
  }

  /** Loading, showing and getting ready. */
  lemma StartUp() returns (states: seq<State>)
    ensures Leads(states, Steps()[..4]) && states[0] == Initial([])
    ensures Looks(states[4], false, false, [], [], false, [], 0, [], [])
  {
    var s0 := Initial([]);
    var s1 := Next(s0, TAKE);
    assert s1.posted == [ShowWindow, Other(RESTORE_WORKSPACE)];
    var s2 := Next(s1, TAKE);
    assert s2.posted == [Other(RESTORE_WORKSPACE), MarkReady];
    var s3 := Next(s2, TAKE);
    assert s3.posted == [MarkReady];
    var s4 := Next(s3, TAKE);
    assert Looks(s4, false, false, [], [], false, [], 0, [], []);
    states := [s0, s1, s2, s3, s4];
    FourTakes(states);
  }

  lemma FourTakes(states: seq<State>)
    requires |states| == 5
    requires forall k :: 0 <= k < 4 ==> Enabled(states[k], TAKE) && states[k + 1] == Next(states[k], TAKE)
    ensures Leads(states, Steps()[..4])
  {
    assert Steps()[..4] == [TAKE, TAKE, TAKE, TAKE];
  }

  lemma Step5(s: State) returns (t: State)
    requires Looks(s, false, false, [], [], false, [], 0, [], [])
    ensures Enabled(s, Arrive(1)) && t == Next(s, Arrive(1))
    ensures Looks(t, true, false, [1], [], false, [RunImports], 0, [], [])
  {
    t := Next(s, Arrive(1));
  }

  lemma Step6(s: State) returns (t: State)
    requires Looks(s, true, false, [1], [], false, [RunImports], 0, [], [])
    ensures Enabled(s, UserClose(false)) && t == Next(s, UserClose(false))
    ensures Looks(t, true, false, [1], [], true, [RunImports, BeginShutdown], 0, [], [])
  {
    t := Next(s, UserClose(false));
  }

  lemma Step7(s: State) returns (t: State)
    requires Looks(s, true, false, [1], [], true, [RunImports, BeginShutdown], 0, [], [])
    ensures Enabled(s, TAKE) && t == Next(s, TAKE)
    ensures Looks(t, false, false, [1], [RunImports], true, [BeginShutdown], 0, [], [])
  {
    assert [RunImports, BeginShutdown][1..] == [BeginShutdown];
    t := Next(s, TAKE);
  }

  lemma Step8(s: State) returns (t: State)
    requires Looks(s, false, false, [1], [RunImports], true, [BeginShutdown], 0, [], [])
    ensures Enabled(s, TAKE_BUT_FLUSH_FAILS) && t == Next(s, TAKE_BUT_FLUSH_FAILS)
    ensures Looks(t, false, false, [1], [], false, [MarkReady, RunImports], 0, [], [])
  {
    assert [BeginShutdown][1..] == [];
    t := Next(s, TAKE_BUT_FLUSH_FAILS);
  }

  lemma Step9(s: State) returns (t: State)
    requires Looks(s, false, false, [1], [], false, [MarkReady, RunImports], 0, [], [])
    ensures Enabled(s, TAKE) && t == Next(s, TAKE)
    ensures Looks(t, true, false, [1], [], false, [RunImports, RunImports], 0, [], [])
  {
    assert [MarkReady, RunImports][1..] == [RunImports];
    t := Next(s, TAKE);
  }

  lemma Step10(s: State) returns (t: State)
    requires Looks(s, true, false, [1], [], false, [RunImports, RunImports], 0, [], [])
    ensures Enabled(s, TAKE) && t == Next(s, TAKE) && Looks(t, false, true, [], [], false, [RunImports], 0, [[1]], [])
  {
    assert [RunImports, RunImports][1..] == [RunImports];
    t := Next(s, TAKE);
  }

  lemma Step11(s: State) returns (t: State)
    requires Looks(s, false, true, [], [], false, [RunImports], 0, [[1]], [])
    ensures Enabled(s, Arrive(2)) && t == Next(s, Arrive(2))
    ensures Looks(t, false, true, [2], [], false, [RunImports], 0, [[1]], [])
  {
    t := Next(s, Arrive(2));
  }

  lemma Step12(s: State) returns (t: State)
    requires Looks(s, false, true, [2], [], false, [RunImports], 0, [[1]], [])
    ensures Enabled(s, UserClose(false)) && t == Next(s, UserClose(false))
    ensures Looks(t, false, true, [2], [], true, [RunImports, BeginShutdown], 0, [[1]], [])
  {
    t := Next(s, UserClose(false));
  }

  lemma Step13(s: State) returns (t: State)
    requires Looks(s, false, true, [2], [], true, [RunImports, BeginShutdown], 0, [[1]], [])
    ensures Enabled(s, TAKE) && t == Next(s, TAKE)
    ensures Looks(t, false, true, [2], [RunImports], true, [BeginShutdown], 0, [[1]], [])
  {
    assert [RunImports, BeginShutdown][1..] == [BeginShutdown];
    t := Next(s, TAKE);
  }

  lemma Step14(s: State) returns (t: State)
    requires Looks(s, false, true, [2], [RunImports], true, [BeginShutdown], 0, [[1]], [])
    ensures Enabled(s, TAKE) && t == Next(s, TAKE) && Looks(t, false, true, [2], [RunImports], true, [], 1, [[1]], [])
  {
    assert [BeginShutdown][1..] == [];
    t := Next(s, TAKE);
  }

  lemma Step15(s: State) returns (t: State)
    requires Looks(s, false, true, [2], [RunImports], true, [], 1, [[1]], [])
    ensures Enabled(s, BatchDone(0)) && t == Next(s, BatchDone(0))
    ensures Looks(t, false, false, [2], [RunImports, CompleteImports([1])], true, [], 1, [], [])
  {
    t := Next(s, BatchDone(0));
  }

  lemma Step16(s: State) returns (t: State)
    requires Looks(s, false, false, [2], [RunImports, CompleteImports([1])], true, [], 1, [], [])
    ensures Enabled(s, DrainReport(false, false)) && t == Next(s, DrainReport(false, false))
    ensures Looks(t, false, false, [2], [], false, [MarkReady, RunImports, CompleteImports([1])], 0, [], [])
  {
    t := Next(s, DrainReport(false, false));
  }

  lemma Step17(s: State) returns (t: State)
    requires Looks(s, false, false, [2], [], false, [MarkReady, RunImports, CompleteImports([1])], 0, [], [])
    ensures Enabled(s, TAKE) && t == Next(s, TAKE)
    ensures Looks(t, true, false, [2], [], false, [RunImports, CompleteImports([1]), RunImports], 0, [], [])
  {
    assert [MarkReady, RunImports, CompleteImports([1])][1..] == [RunImports, CompleteImports([1])];
    t := Next(s, TAKE);
  }

  lemma Step18(s: State) returns (t: State)
    requires Looks(s, true, false, [2], [], false, [RunImports, CompleteImports([1]), RunImports], 0, [], [])
    ensures Enabled(s, TAKE) && t == Next(s, TAKE)
    ensures Looks(t, false, true, [], [], false, [CompleteImports([1]), RunImports], 0, [[2]], [])
  {
    assert [RunImports, CompleteImports([1]), RunImports][1..] == [CompleteImports([1]), RunImports];
    t := Next(s, TAKE);
  }

  lemma Step19(s: State) returns (t: State)
    requires Looks(s, false, true, [], [], false, [CompleteImports([1]), RunImports], 0, [[2]], [])
    ensures Enabled(s, UserClose(false)) && t == Next(s, UserClose(false))
    ensures Looks(t, false, true, [], [], true, [CompleteImports([1]), RunImports, BeginShutdown], 0, [[2]], [])
  {
    t := Next(s, UserClose(false));
  }

  lemma Step20(s: State) returns (t: State)
    requires Looks(s, false, true, [], [], true, [CompleteImports([1]), RunImports, BeginShutdown], 0, [[2]], [])
    ensures Enabled(s, BatchDone(0)) && t == Next(s, BatchDone(0))
    ensures Looks(t, false, false, [], [CompleteImports([2])], true, [CompleteImports([1]), RunImports, BeginShutdown],
                  0, [], [])
  {
    t := Next(s, BatchDone(0));
  }

  lemma Step21(s: State) returns (t: State)
    requires Looks(s, false, false, [], [CompleteImports([2])], true,
                   [CompleteImports([1]), RunImports, BeginShutdown], 0, [], [])
    ensures Enabled(s, TAKE) && t == Next(s, TAKE)
    ensures Looks(t, false, false, [], [CompleteImports([1])], true, [RunImports, BeginShutdown], 0, [], [2])
  {
    assert [CompleteImports([1]), RunImports, BeginShutdown][1..] == [RunImports, BeginShutdown];
    t := Next(s, TAKE);
  }

  /** A shutdown begins with a run job posted, which is deferred. */
  lemma FailedFlush(s4: State) returns (states: seq<State>)
    requires Looks(s4, false, false, [], [], false, [], 0, [], [])
    ensures Leads(states, Steps()[4..7]) && states[0] == s4
    ensures Looks(states[3], false, false, [1], [RunImports], true, [BeginShutdown], 0, [], [])
  {
    var s5 := Step5(s4);
    var s6 := Step6(s5);
    var s7 := Step7(s6);
    states := [s4, s5, s6, s7];
  }

  /** The flush fails, so two run jobs come to be posted; the first one starts a batch. */
  lemma FirstBatch(s7: State) returns (states: seq<State>)
    requires Looks(s7, false, false, [1], [RunImports], true, [BeginShutdown], 0, [], [])
    ensures Leads(states, Steps()[7..10]) && states[0] == s7
    ensures Looks(states[3], false, true, [], [], false, [RunImports], 0, [[1]], [])
  {
    var s8 := Step8(s7);
    var s9 := Step9(s8);
    var s10 := Step10(s9);
    states := [s7, s8, s9, s10];
  }

  /** A second shutdown defers the other run job while the batch is in flight. */
  lemma SecondShutdown(s10: State) returns (states: seq<State>)
    requires Looks(s10, false, true, [], [], false, [RunImports], 0, [[1]], [])
    ensures Leads(states, Steps()[10..13]) && states[0] == s10
    ensures Looks(states[3], false, true, [2], [RunImports], true, [BeginShutdown], 0, [[1]], [])
  {
    var s11 := Step11(s10);
    var s12 := Step12(s11);
    var s13 := Step13(s12);
    states := [s10, s11, s12, s13];
  }

  /** The completion is deferred behind it, and the drain fails. */
  lemma Overtaking(s13: State) returns (states: seq<State>)
    requires Looks(s13, false, true, [2], [RunImports], true, [BeginShutdown], 0, [[1]], [])
    ensures Leads(states, Steps()[13..16]) && states[0] == s13
    ensures Looks(states[3], false, false, [2], [], false, [MarkReady, RunImports, CompleteImports([1])], 0, [], [])
  {
    var s14 := Step14(s13);
    var s15 := Step15(s14);
    var s16 := Step16(s15);
    states := [s13, s14, s15, s16];
  }

  /** The resumed run job starts a second batch ahead of the completion. */
  lemma SecondBatch(s16: State) returns (states: seq<State>)
    requires Looks(s16, false, false, [2], [], false, [MarkReady, RunImports, CompleteImports([1])], 0, [], [])
    ensures Leads(states, Steps()[16..18]) && states[0] == s16
    ensures Looks(states[2], false, true, [], [], false, [CompleteImports([1]), RunImports], 0, [[2]], [])
    ensures Busy(states[2]) == 2
  {
    var s17 := Step17(s16);
    var s18 := Step18(s17);
    states := [s16, s17, s18];
    assert [CompleteImports([1]), RunImports][1..] == [RunImports] && [RunImports][1..] == [];
  }

  /** A third shutdown defers both completions under one key. */
  lemma Collision(s18: State) returns (states: seq<State>)
    requires Looks(s18, false, true, [], [], false, [CompleteImports([1]), RunImports], 0, [[2]], [])
    ensures Leads(states, Steps()[18..]) && states[0] == s18
    ensures Looks(states[3], false, false, [], [CompleteImports([1])], true, [RunImports, BeginShutdown], 0, [], [2])
  {
    var s19 := Step19(s18);
    var s20 := Step20(s19);
    var s21 := Step21(s20);
    states := [s18, s19, s20, s21];
  }

  lemma FirstThirteen() returns (states: seq<State>)
    ensures Leads(states, Steps()[..13]) && states[0] == Initial([])
    ensures Looks(states[13], false, true, [2], [RunImports], true, [BeginShutdown], 0, [[1]], [])
  {
    states := StartUp();
    var more := FailedFlush(states[4]);
    states := Chained(states, more, 4, 7);
    more := FirstBatch(states[7]);
    states := Chained(states, more, 7, 10);
    more := SecondShutdown(states[10]);
    states := Chained(states, more, 10, 13);
  }

  /**
   * Twenty-one steps from the start: after the eighteenth, two batches are under way, and at the end
   * the second one is lost although the window has not been closed.
   */
  lemma SecondBatchIsLost() returns (states: seq<State>)
    ensures IsRun(states, Steps())
    ensures Busy(states[18]) == 2
    ensures !Terminal(states[21]) && states[21].lost == [2]
  {
    states := FirstThirteen();
    var more := Overtaking(states[13]);
    states := Chained(states, more, 13, 16);
    more := SecondBatch(states[16]);
    states := Chained(states, more, 16, 18);
    more := Collision(states[18]);
    assert Steps()[18..] == Steps()[18..21];
    states := Chained(states, more, 18, 21);
    assert Steps()[..21] == Steps();
  }

  lemma Chained(states: seq<State>, more: seq<State>, i: nat, j: nat) returns (all: seq<State>)
    requires i <= j <= |Steps()| && Leads(states, Steps()[..i]) && Leads(more, Steps()[i..j]) && more[0] == states[i]
    ensures Leads(all, Steps()[..j]) && all == states + more[1..]
  {
    LeadsOn(states, Steps()[..i], more, Steps()[i..j]);
    assert Steps()[..i] + Steps()[i..j] == Steps()[..j];
    all := states + more[1..];
  }
}
