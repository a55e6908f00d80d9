/** What the two tests promise, over every schedule and every number of queues. */
module DispatchTheorems {
  import opened Dispatch
  import opened DispatchRuns

  // What is printed.

  /** Each queue's label and lines come out in order, whatever the schedule. */
  lemma TasksPrintInOrder(t: Test, n: nat, schedule: seq<Action>, i: nat)
    requires i < n
    ensures Project(n, i, Run(t, n, Init(n), schedule).trace) <= Script(n, i)
  {
    ReachableInv(t, n, schedule);
  }

  /** When the wait succeeds, or the main-queue block runs, every line has already been printed. */
  lemma ClosingMeansComplete(t: Test, n: nat, schedule: seq<Action>, p: nat)
    requires var trace := Run(t, n, Init(n), schedule).trace;
             p < |trace| && (trace[p] == AllDone || trace[p] == MainBlock)
    ensures Complete(n, Run(t, n, Init(n), schedule).trace[..p])
  {
    ReachableInv(t, n, schedule);
  }

  lemma {:induction false} ProjectPlace(n: nat, i: nat, trace: seq<Event>, p: nat)
    requires p < |trace| && Owns(n, i, trace[p])
    ensures |Project(n, i, trace[..p])| < |Project(n, i, trace)|
    ensures Project(n, i, trace)[|Project(n, i, trace[..p])|] == trace[p]
  {
    var m := |trace| - 1;
    if p < m {
      ProjectPlace(n, i, trace[..m], p);
      assert trace[..m][..p] == trace[..p];
    }
  }

  lemma ScriptDistinct(n: nat, i: nat, a: nat, b: nat)
    requires a < b < |Script(n, i)|
    ensures Script(n, i)[a] != Script(n, i)[b]
  {
  }

  /** No label and no line is ever printed twice. */
  lemma NothingPrintedTwice(t: Test, n: nat, schedule: seq<Action>, p: nat, q: nat)
    requires p < q < |Run(t, n, Init(n), schedule).trace|
    requires var e := Run(t, n, Init(n), schedule).trace[p]; e.Label? || e.Line?
    ensures Run(t, n, Init(n), schedule).trace[p] != Run(t, n, Init(n), schedule).trace[q]
  {
    ReachableInv(t, n, schedule);
    hide Run, LineNumber, MainOk, TasksOk, CountOk, ClosingOk, Script;
    var trace := Run(t, n, Init(n), schedule).trace;
    assert Owned(n, trace[p]);
    var i :| 0 <= i < n && Owns(n, i, trace[p]);
    TasksPrintInOrder(t, n, schedule, i);
    if trace[p] == trace[q] {
      ProjectPlace(n, i, trace, p);
      ProjectPlace(n, i, trace, q);
      ProjectPlace(n, i, trace[..q], p);
      assert trace[..q][..p] == trace[..p];
      ScriptDistinct(n, i, |Project(n, i, trace[..p])|, |Project(n, i, trace[..q])|);
    }
  }

  // Progress.

  function MainLeft(n: nat, m: Main): int {
    match m
    case Loop(i) => 4 * (n - i) + 3
    case Enter(i) => 4 * (n - i) + 2
    case Submit(i) => 4 * (n - i) + 1
    case WaitTask(i) => 4 * (n - i)
    case Notify => 2
    case Wait => 1
    case Returned => 0
  }

  function TaskLeft(n: nat, x: Task): int {
    match x
    case NotSubmitted => n + 3
    case Running(k) => n - k + 2
    case Leaving => 1
    case Finished => 0
  }

  function TasksLeft(n: nat, tasks: seq<Task>): int {
    if tasks == [] then 0 else TaskLeft(n, tasks[0]) + TasksLeft(n, tasks[1..])
  }

  /** An upper bound on the steps still to come. */
  function Measure(n: nat, s: State): int {
    MainLeft(n, s.main) + TasksLeft(n, s.tasks) + if s.block == Executed then 0 else 1
  }

  lemma {:induction false} TasksLeftUpdate(n: nat, tasks: seq<Task>, i: nat, x: Task)
    requires i < |tasks|
    ensures TasksLeft(n, tasks[i := x]) == TasksLeft(n, tasks) - TaskLeft(n, tasks[i]) + TaskLeft(n, x)
  {
    if i == 0 {
      assert tasks[0 := x][1..] == tasks[1..];
    } else {
      TasksLeftUpdate(n, tasks[1..], i - 1, x);
      assert tasks[i := x][1..] == tasks[1..][i - 1 := x];
    }
  }

  lemma {:induction false} TasksLeftNonnegative(n: nat, tasks: seq<Task>)
    requires forall j :: 0 <= j < |tasks| && tasks[j].Running? ==> tasks[j].printed <= n
    ensures TasksLeft(n, tasks) >= 0
  {
    if tasks != [] {
      TasksLeftNonnegative(n, tasks[1..]);
    }
  }

  lemma MeasureNonnegative(t: Test, n: nat, s: State)
    requires Inv(t, n, s)
    ensures Measure(n, s) >= 0
  {
    hide TraceOk, CountOk, ClosingOk;
    TasksLeftNonnegative(n, s.tasks);
  }

  lemma MainDecreases(t: Test, n: nat, s: State)
    requires TasksOk(t, n, s) && MainOk(t, n, s.main) && Enabled(n, s, RunMain) && s.block != Executed
    ensures Measure(n, StepMain(t, n, s)) < Measure(n, s)
  {
    if s.main.Submit? {
      TasksLeftUpdate(n, s.tasks, s.main.i, Running(0));
    }
  }

  lemma WorkDecreases(t: Test, n: nat, s: State, i: nat)
    requires TasksOk(t, n, s) && Enabled(n, s, Work(i))
    ensures Measure(n, StepWork(t, n, s, i)) < Measure(n, s)
  {
    TasksLeftUpdate(n, s.tasks, i, StepWork(t, n, s, i).tasks[i]);
  }

  /** Every step that happens brings the end closer. */
  lemma StepDecreases(t: Test, n: nat, s: State, a: Action)
    requires Inv(t, n, s) && Enabled(n, s, a)
    ensures Measure(n, Step(t, n, s, a)) < Measure(n, s)
  {
    hide TasksLeft, StepMain, StepWork, TraceOk, TasksOk, ClosingOk;
    match a
    case RunMain => MainDecreases(t, n, s);
    case TimeOut =>
    case Work(i) => WorkDecreases(t, n, s, i);
    case RunMainQueue =>
  }

  /** The test never gets stuck: until all is over, some step other than a timeout can happen. */
  lemma NeverStuck(t: Test, n: nat, s: State) returns (a: Action)
    requires Inv(t, n, s) && !Final(s)
    ensures Enabled(n, s, a) && !a.TimeOut? && (a.Work? ==> a.queue < n)
  {
    WeightZero(t, s.tasks);
    if s.count > 0 && (s.main.WaitTask? || s.main.Wait? || s.main.Returned?) {
      var j :| 0 <= j < n && Weight(t, s.tasks[j]) != 0;
      a := Work(j);
    } else if s.main.Returned? {
      a := RunMainQueue;
    } else {
      a := RunMain;
    }
  }

  /** A round gives the main thread, every queue and the main queue a turn. */
  ghost predicate Round(n: nat, schedule: seq<Action>) {
    RunMain in schedule && RunMainQueue in schedule && forall i :: 0 <= i < n ==> Work(i) in schedule
  }

  lemma {:induction false} TurnsDecrease(t: Test, n: nat, s: State, schedule: seq<Action>, a: Action)
    requires Inv(t, n, s)
    ensures Run(t, n, s, schedule) == s || Measure(n, Run(t, n, s, schedule)) < Measure(n, s)
    ensures Enabled(n, s, a) && a in schedule ==> Measure(n, Run(t, n, s, schedule)) < Measure(n, s)
  {
    if schedule != [] {
      var before, last := schedule[..|schedule| - 1], schedule[|schedule| - 1];
      var s' := Run(t, n, s, before);
      TurnsDecrease(t, n, s, before, a);
      RunKeepsInv(t, n, s, before);
      assert schedule == before + [last];
      if Enabled(n, s', last) {
        StepDecreases(t, n, s', last);
      }
    }
  }

  function Concat(rounds: seq<seq<Action>>): seq<Action> {
    if rounds == [] then [] else Concat(rounds[..|rounds| - 1]) + rounds[|rounds| - 1]
  }

  lemma {:induction false} RunAppend(t: Test, n: nat, s: State, a: seq<Action>, b: seq<Action>)
    ensures Run(t, n, s, a + b) == Run(t, n, Run(t, n, s, a), b)
  {
    if b == [] {
      assert a + b == a;
    } else {
      RunAppend(t, n, s, a, b[..|b| - 1]);
      assert (a + b)[..|a + b| - 1] == a + b[..|b| - 1];
    }
  }

  lemma RoundDecreases(t: Test, n: nat, s: State, round: seq<Action>)
    requires Inv(t, n, s) && Round(n, round)
    ensures Final(Run(t, n, s, round)) || Measure(n, Run(t, n, s, round)) < Measure(n, s)
  {
    hide Inv, Measure, Final, Run;
    if Final(s) {
      FinalStays(t, n, s, round);
    } else {
      var a := NeverStuck(t, n, s);
      TurnsDecrease(t, n, s, round, a);
    }
  }

  lemma {:induction false} RoundsDecrease(t: Test, n: nat, rounds: seq<seq<Action>>)
    requires forall r :: 0 <= r < |rounds| ==> Round(n, rounds[r])
    ensures var s := Run(t, n, Init(n), Concat(rounds));
            Final(s) || Measure(n, s) <= Measure(n, Init(n)) - |rounds|
  {
    hide Inv, Measure, Final, Round, Init;
    if rounds != [] {
      var before, last := rounds[..|rounds| - 1], rounds[|rounds| - 1];
      RoundsDecrease(t, n, before);
      var s := Run(t, n, Init(n), Concat(before));
      ReachableInv(t, n, Concat(before));
      RunAppend(t, n, Init(n), Concat(before), last);
      RoundDecreases(t, n, s, last);
      if Final(s) {
        FinalStays(t, n, s, last);
      }
    }
  }

  lemma {:induction false} FinalStays(t: Test, n: nat, s: State, schedule: seq<Action>)
    requires Final(s)
    ensures Run(t, n, s, schedule) == s
  {
    if schedule != [] {
      FinalStays(t, n, s, schedule[..|schedule| - 1]);
    }
  }

  /**
   Under any fair schedule, one that keeps giving everyone a turn, both tests come to their
   end: every `wait()` is released, and all lines and the closing lines have been printed.
   */
  lemma FairRunsFinish(t: Test, n: nat, rounds: seq<seq<Action>>)
    requires forall r :: 0 <= r < |rounds| ==> Round(n, rounds[r])
    requires |rounds| > Measure(n, Init(n))
    ensures var s := Run(t, n, Init(n), Concat(rounds));
            && Final(s) && Complete(n, s.trace)
            && (Closing(s.trace) == [AllDone, MainBlock] || Closing(s.trace) == [TimedOut, MainBlock])
  {
    var s := Run(t, n, Init(n), Concat(rounds));
    RoundsDecrease(t, n, rounds);
    ReachableInv(t, n, Concat(rounds));
    MeasureNonnegative(t, n, s);
  }
}
