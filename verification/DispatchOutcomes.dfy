/** What the closing lines tell: which of the two results the final wait had. */
module DispatchOutcomes {
  import opened Dispatch
  import opened DispatchRuns
  import opened DispatchTheorems

  /** Only a wait that gives up on a group with entries prints that the time is over. */
  lemma OnlyTimeOutPrintsIt(t: Test, n: nat, s: State, a: Action)
    requires TimedOut in Step(t, n, s, a).trace && TimedOut !in s.trace
    ensures a == TimeOut && Enabled(n, s, TimeOut) && Step(t, n, s, a).trace == s.trace + [TimedOut]
  {
  }

  /** Unless the wait gives up, no schedule of either test prints that the time is over. */
  lemma {:induction false} TimedOutNeedsTimeOut(t: Test, n: nat, schedule: seq<Action>)
    ensures TimedOut in Run(t, n, Init(n), schedule).trace ==> TimeOut in schedule
  {
    hide Step;
    if schedule != [] {
      var before := schedule[..|schedule| - 1];
      TimedOutNeedsTimeOut(t, n, before);
      var s, a := Run(t, n, Init(n), before), schedule[|schedule| - 1];
      if TimedOut in Step(t, n, s, a).trace && TimedOut !in s.trace {
        OnlyTimeOutPrintsIt(t, n, s, a);
      }
    }
  }

  /** When it is printed, the main thread was at the final wait and some task had not left the group. */
  lemma {:induction false} TimedOutMeansBusy(t: Test, n: nat, schedule: seq<Action>) returns (q: nat, i: nat)
    requires TimedOut in Run(t, n, Init(n), schedule).trace
    ensures q < |schedule| && schedule[q] == TimeOut
    ensures var s := Run(t, n, Init(n), schedule[..q]);
            && s.main.Wait? && TimedOut !in s.trace
            && i < |s.tasks| == n && (s.tasks[i].Running? || s.tasks[i].Leaving?)
            && Run(t, n, Init(n), schedule[..q + 1]).trace == s.trace + [TimedOut]
  {
    hide Step, Weight, TotalWeight, Inv;
    var before := schedule[..|schedule| - 1];
    var s, a := Run(t, n, Init(n), before), schedule[|schedule| - 1];
    if TimedOut in s.trace {
      q, i := TimedOutMeansBusy(t, n, before);
      assert before[..q] == schedule[..q] && before[..q + 1] == schedule[..q + 1];
    } else {
      OnlyTimeOutPrintsIt(t, n, s, a);
      ReachableInv(t, n, before);
      q := |before|;
      i := BusyTask(t, n, s);
      assert schedule[..q + 1] == schedule;
    }
  }

  lemma BusyTask(t: Test, n: nat, s: State) returns (i: nat)
    requires Inv(t, n, s) && s.main.Wait? && s.count > 0
    ensures i < |s.tasks| == n && (s.tasks[i].Running? || s.tasks[i].Leaving?)
  {
    hide TraceOk, ClosingOk;
    WeightZero(t, s.tasks);
    i :| 0 <= i < n && Weight(t, s.tasks[i]) != 0;
  }

  /** The concurrent test can run out of time, whatever the number of queues, while the first one is still at work. */
  lemma TimeOutHappens(n: nat) returns (schedule: seq<Action>)
    requires n >= 1
    ensures TimedOut in Run(Concurrent, n, Init(n), schedule).trace
  {
    schedule := SubmitAll(n, n);
    var s := Run(Concurrent, n, Init(n), schedule);
    ReachableInv(Concurrent, n, schedule);
    BusyMeansCounted(Concurrent, n, s, 0);
    hide Inv, Init;
    var a, b := RunMain, TimeOut;
    OneMore(n, schedule, a);
    OneMore(n, schedule + [a], a);
    OneMore(n, schedule + [a, a], b);
    assert schedule + [a] + [a] == schedule + [a, a] && schedule + [a, a] + [b] == schedule + [a, a, b];
    schedule := schedule + [a, a, b];
  }

  lemma OneMore(n: nat, schedule: seq<Action>, a: Action)
    ensures Run(Concurrent, n, Init(n), schedule + [a])
            == Step(Concurrent, n, Run(Concurrent, n, Init(n), schedule), a)
  {
    hide Step;
    assert (schedule + [a])[..|schedule|] == schedule;
  }

  /** Submits the first `i` tasks before any of them prints. */
  lemma {:induction false} SubmitAll(n: nat, i: nat) returns (schedule: seq<Action>)
    requires i <= n
    ensures var s := Run(Concurrent, n, Init(n), schedule);
            && s.main == Loop(i) && |s.tasks| == n && TimedOut !in s.trace
            && forall j :: 0 <= j < n ==> s.tasks[j] == if j < i then Running(0) else NotSubmitted
  {
    schedule := [];
    if i > 0 {
      var sooner := SubmitAll(n, i - 1);
      OneMore(n, sooner, RunMain);
      OneMore(n, sooner + [RunMain], RunMain);
      hide Run, Init;
      schedule := sooner + [RunMain] + [RunMain];
    }
  }

  lemma {:induction false} ClosingPrintedOnce(trace: seq<Event>, e: Event)
    requires e in Closing(trace)
    ensures e in trace
  {
    if e !in Closing(trace[..|trace| - 1]) {
      assert e == trace[|trace| - 1];
    } else {
      ClosingPrintedOnce(trace[..|trace| - 1], e);
    }
  }

  /** A fair schedule in which the wait never gives up ends with the success line, in either test. */
  lemma FairRunsSucceed(t: Test, n: nat, rounds: seq<seq<Action>>)
    requires forall r :: 0 <= r < |rounds| ==> Round(n, rounds[r])
    requires |rounds| > Measure(n, Init(n)) && TimeOut !in Concat(rounds)
    ensures Closing(Run(t, n, Init(n), Concat(rounds)).trace) == [AllDone, MainBlock]
  {
    hide Run, Concat, Closing, Measure, Round, Init, Complete, Final;
    var trace := Run(t, n, Init(n), Concat(rounds)).trace;
    FairRunsFinish(t, n, rounds);
    TimedOutNeedsTimeOut(t, n, Concat(rounds));
    if TimedOut in Closing(trace) {
      ClosingPrintedOnce(trace, TimedOut);
    }
    assert [TimedOut, MainBlock][0] == TimedOut;
  }
}
