/** What holds in every state of every run of either test. */
module DispatchRuns {
  import opened Dispatch

  // The invariant.

  /** How many queues have been given their task, or had their label printed. */
  function Submitted(n: nat, m: Main): nat {
    match m
    case Loop(i) => i
    case Enter(i) => i
    case Submit(i) => i
    case WaitTask(i) => i + 1
    case _ => n
  }

  function Labelled(n: nat, m: Main): nat {
    match m
    case Loop(i) => i
    case Enter(i) => i + 1
    case Submit(i) => i + 1
    case WaitTask(i) => i + 1
    case _ => n
  }

  /** What queue `i` has printed when its task has come to `x`. */
  function Written(n: nat, i: nat, labelled: bool, x: Task): seq<Event> {
    match x
    case NotSubmitted => if labelled then [Label(i)] else []
    case Running(k) => [Label(i)] + Lines(n, i, k)
    case _ => Script(n, i)
  }

  /** The group entries a task still holds: two in the serial test, one in the concurrent one. */
  function Weight(t: Test, x: Task): nat {
    match x
    case Running(_) => if t.Serial? then 2 else 1
    case Leaving => 1
    case _ => 0
  }

  function TotalWeight(t: Test, tasks: seq<Task>): nat {
    if tasks == [] then 0 else Weight(t, tasks[0]) + TotalWeight(t, tasks[1..])
  }

  ghost predicate MainOk(t: Test, n: nat, m: Main) {
    match m
    case Loop(i) => i <= n
    case Enter(i) => t.Serial? && i < n
    case Submit(i) => i < n
    case WaitTask(i) => t.Serial? && i < n
    case _ => true
  }

  ghost predicate TasksOk(t: Test, n: nat, s: State) {
    && |s.tasks| == n
    && forall j :: 0 <= j < n ==>
         && (s.tasks[j].NotSubmitted? <==> j >= Submitted(n, s.main))
         && (s.tasks[j].Running? ==> s.tasks[j].printed <= n)
         && (s.tasks[j].Leaving? ==> t.Serial?)
  }

  ghost predicate CountOk(t: Test, n: nat, s: State) {
    && s.count == TotalWeight(t, s.tasks) + (if t.Serial? && s.main.Submit? then 1 else 0)
    && (s.block == Unregistered <==> !(s.main.Wait? || s.main.Returned?))
    && (s.block == Registered ==> s.count > 0)
    && (s.block == Queued || s.block == Executed ==> s.count == 0)
    && (s.block == Executed ==> s.main.Returned?)
  }

  ghost predicate TraceOk(n: nat, s: State) {
    && |s.tasks| == n
    && (forall j :: 0 <= j < n ==>
          Project(n, j, s.trace) == Written(n, j, j < Labelled(n, s.main), s.tasks[j]))
    && ClosedComplete(n, s.trace)
    && AllOwned(n, s.trace)
  }

  /** At each line that says that all is done, all had been written. */
  ghost predicate ClosedComplete(n: nat, trace: seq<Event>) {
    forall p :: 0 <= p < |trace| && (trace[p] == AllDone || trace[p] == MainBlock) ==> Complete(n, trace[..p])
  }

  /** Every label and every number belongs to a queue. */
  ghost predicate AllOwned(n: nat, trace: seq<Event>) {
    forall p :: 0 <= p < |trace| && (trace[p].Label? || trace[p].Line?) ==> Owned(n, trace[p])
  }

  ghost predicate Owned(n: nat, e: Event) {
    exists j :: 0 <= j < n && Owns(n, j, e)
  }

  ghost predicate ClosingOk(s: State) {
    if !s.main.Returned? then Closing(s.trace) == []
    else if s.block == Executed then
      Closing(s.trace) == [AllDone, MainBlock] || Closing(s.trace) == [TimedOut, MainBlock]
    else Closing(s.trace) == [AllDone] || Closing(s.trace) == [TimedOut]
  }

  ghost predicate Inv(t: Test, n: nat, s: State) {
    MainOk(t, n, s.main) && TasksOk(t, n, s) && CountOk(t, n, s) && TraceOk(n, s) && ClosingOk(s)
  }

  // Weights.

  lemma {:induction false} WeightUpdate(t: Test, tasks: seq<Task>, i: nat, x: Task)
    requires i < |tasks|
    ensures TotalWeight(t, tasks[i := x]) == TotalWeight(t, tasks) - Weight(t, tasks[i]) + Weight(t, x)
  {
    if i == 0 {
      assert tasks[0 := x][1..] == tasks[1..];
    } else {
      WeightUpdate(t, tasks[1..], i - 1, x);
      assert tasks[i := x][1..] == tasks[1..][i - 1 := x];
    }
  }

  lemma {:induction false} WeightZero(t: Test, tasks: seq<Task>)
    ensures TotalWeight(t, tasks) == 0 <==> forall j :: 0 <= j < |tasks| ==> Weight(t, tasks[j]) == 0
  {
    if tasks != [] {
      WeightZero(t, tasks[1..]);
      assert forall j :: 0 < j < |tasks| ==> tasks[j] == tasks[1..][j - 1];
    }
  }

  // Printing.

  lemma {:induction false} StartsApart(n: nat, i: nat, j: nat)
    ensures i < j ==> i * n + n <= j * n
  {
    if i < j {
      assert j * n == (j - 1) * n + n;
      StartsApart(n, i, j - 1);
    }
  }

  /** The line ranges of two tasks do not meet. */
  lemma OwnersDiffer(n: nat, i: nat, j: nat, e: Event)
    requires Owns(n, i, e) && Owns(n, j, e)
    ensures i == j
  {
    StartsApart(n, i, j);
    StartsApart(n, j, i);
  }

  lemma OwnsLine(n: nat, i: nat, k: nat)
    requires k < n
    ensures Owns(n, i, Line(LineNumber(n, i, k)))
  {
  }

  lemma ProjectPrinted(n: nat, i: nat, trace: seq<Event>, e: Event)
    ensures Project(n, i, trace + [e]) == Project(n, i, trace) + if Owns(n, i, e) then [e] else []
  {
    assert (trace + [e])[..|trace|] == trace;
  }

  lemma ClosingPrinted(trace: seq<Event>, e: Event)
    ensures Closing(trace + [e]) == Closing(trace) + if e.Label? || e.Line? then [] else [e]
  {
    assert (trace + [e])[..|trace|] == trace;
  }

  lemma PrintedKeeps(n: nat, trace: seq<Event>, e: Event)
    requires ClosedComplete(n, trace) && AllOwned(n, trace)
    requires e == AllDone || e == MainBlock ==> Complete(n, trace)
    requires e.Label? || e.Line? ==> Owned(n, e)
    ensures ClosedComplete(n, trace + [e]) && AllOwned(n, trace + [e])
  {
    hide Complete, Owned;
    var t := trace + [e];
    forall p | 0 <= p < |t| && (t[p] == AllDone || t[p] == MainBlock) ensures Complete(n, t[..p]) {
      assert t[..p] == trace[..p];
      assert trace[..|trace|] == trace;
    }
  }

  /** A step that prints nothing and moves no task past a line keeps the trace invariant. */
  lemma PrintNothing(n: nat, s: State, s': State)
    requires TraceOk(n, s) && s'.trace == s.trace && |s'.tasks| == n
    requires forall j :: 0 <= j < n ==>
               Written(n, j, j < Labelled(n, s'.main), s'.tasks[j])
               == Written(n, j, j < Labelled(n, s.main), s.tasks[j])
    ensures TraceOk(n, s') && Closing(s'.trace) == Closing(s.trace)
  {
  }

  /** What a line of queue `i` adds to the trace invariant. */
  lemma PrintOwned(n: nat, s: State, e: Event, i: nat, s': State)
    requires TraceOk(n, s) && i < n && Owns(n, i, e) && (e.Label? || e.Line?)
    requires s'.trace == s.trace + [e] && |s'.tasks| == n
    requires forall j :: 0 <= j < n && j != i ==>
               Written(n, j, j < Labelled(n, s'.main), s'.tasks[j])
               == Written(n, j, j < Labelled(n, s.main), s.tasks[j])
    requires Written(n, i, i < Labelled(n, s'.main), s'.tasks[i])
             == Written(n, i, i < Labelled(n, s.main), s.tasks[i]) + [e]
    ensures TraceOk(n, s') && Closing(s'.trace) == Closing(s.trace)
  {
    hide ClosedComplete, AllOwned, Written, Labelled, Project, Closing, Owns;
    forall j | 0 <= j < n
      ensures Project(n, j, s'.trace) == Written(n, j, j < Labelled(n, s'.main), s'.tasks[j])
    {
      ProjectPrinted(n, j, s.trace, e);
      if Owns(n, j, e) {
        OwnersDiffer(n, i, j, e);
      }
    }
    assert Owned(n, e);
    ClosingPrinted(s.trace, e);
    PrintedKeeps(n, s.trace, e);
  }

  /** A closing line changes no projection; if it says that all is done, all must have been written. */
  lemma PrintClosing(n: nat, s: State, e: Event, s': State)
    requires TraceOk(n, s) && (e == AllDone || e == TimedOut || e == MainBlock)
    requires s'.trace == s.trace + [e] && s'.tasks == s.tasks && Labelled(n, s'.main) == Labelled(n, s.main)
    requires e == TimedOut || Complete(n, s.trace)
    ensures TraceOk(n, s') && Closing(s'.trace) == Closing(s.trace) + [e]
  {
    forall j | 0 <= j < n
      ensures Project(n, j, s'.trace) == Written(n, j, j < Labelled(n, s'.main), s'.tasks[j])
    {
      ProjectPrinted(n, j, s.trace, e);
    }
    ClosingPrinted(s.trace, e);
    PrintedKeeps(n, s.trace, e);
  }

  /** Once every task is submitted and the group is empty, everything has been printed. */
  lemma EmptyMeansComplete(t: Test, n: nat, s: State)
    requires Inv(t, n, s) && Submitted(n, s.main) == n && s.count == 0
    ensures Complete(n, s.trace)
  {
    WeightZero(t, s.tasks);
  }

  /** A task that is not over holds an entry of the group. */
  lemma BusyMeansCounted(t: Test, n: nat, s: State, i: nat)
    requires Inv(t, n, s) && Enabled(n, s, Work(i))
    ensures s.count > 0
  {
    WeightZero(t, s.tasks);
  }

  // The invariant is kept.

  lemma InitInv(t: Test, n: nat)
    ensures Inv(t, n, Init(n))
  {
    WeightZero(t, Init(n).tasks);
  }

  lemma MainKeepsInv(t: Test, n: nat, s: State)
    requires Inv(t, n, s) && Enabled(n, s, RunMain)
    ensures Inv(t, n, StepMain(t, n, s))
  {
    hide LineNumber, TraceOk, TotalWeight, Closing;
    var s' := StepMain(t, n, s);
    match s.main
    case Loop(i) => LoopKeepsInv(t, n, s, i);
    case Enter(i) => PrintNothing(n, s, s');
    case Submit(i) => SubmitKeepsInv(t, n, s, i);
    case WaitTask(i) => PrintNothing(n, s, s');
    case Notify => PrintNothing(n, s, s');
    case Wait =>
      EmptyMeansComplete(t, n, s);
      PrintClosing(n, s, AllDone, s');
  }

  lemma LoopKeepsInv(t: Test, n: nat, s: State, i: nat)
    requires Inv(t, n, s) && s.main == Loop(i)
    ensures Inv(t, n, StepMain(t, n, s))
  {
    hide LineNumber, TraceOk, TotalWeight, Closing;
    var s' := StepMain(t, n, s);
    if i < n {
      PrintOwned(n, s, Label(i), i, s');
    } else {
      PrintNothing(n, s, s');
    }
  }

  lemma SubmitKeepsInv(t: Test, n: nat, s: State, i: nat)
    requires Inv(t, n, s) && s.main == Submit(i)
    ensures Inv(t, n, StepMain(t, n, s))
  {
    hide LineNumber, TraceOk, TotalWeight, Closing;
    WeightUpdate(t, s.tasks, i, Running(0));
    assert Lines(n, i, 0) == [];
    PrintNothing(n, s, StepMain(t, n, s));
  }

  lemma WorkKeepsInv(t: Test, n: nat, s: State, i: nat)
    requires Inv(t, n, s) && Enabled(n, s, Work(i))
    ensures Inv(t, n, StepWork(t, n, s, i))
  {
    match s.tasks[i]
    case Running(k) =>
      if k < n {
        LineKeepsInv(t, n, s, i, k);
      } else {
        LeaveKeepsInv(t, n, s, i, if t.Serial? then Leaving else Finished);
      }
    case Leaving => LeaveKeepsInv(t, n, s, i, Finished);
  }

  lemma LineKeepsInv(t: Test, n: nat, s: State, i: nat, k: nat)
    requires Inv(t, n, s) && i < n && k < n && s.tasks[i] == Running(k)
    ensures Inv(t, n, StepWork(t, n, s, i))
  {
    hide LineNumber, TraceOk, TotalWeight, Closing;
    LineKeepsTrace(n, s, i, k, StepWork(t, n, s, i));
    WeightUpdate(t, s.tasks, i, Running(k + 1));
    TaskUpdated(t, n, s, i, Running(k + 1));
  }

  lemma TaskUpdated(t: Test, n: nat, s: State, i: nat, x: Task)
    requires TasksOk(t, n, s) && i < n && !s.tasks[i].NotSubmitted?
    requires !x.NotSubmitted? && (x.Running? ==> x.printed <= n) && (x.Leaving? ==> t.Serial?)
    ensures TasksOk(t, n, s.(tasks := s.tasks[i := x]))
  {
  }

  lemma LeaveCount(t: Test, n: nat, s: State, i: nat, x: Task)
    requires CountOk(t, n, s) && i < |s.tasks| && Weight(t, x) == Weight(t, s.tasks[i]) - 1
    ensures CountOk(t, n, Leave(s.(tasks := s.tasks[i := x])))
  {
    WeightUpdate(t, s.tasks, i, x);
    hide TotalWeight;
  }

  /** A task that has printed all its lines gives up one of its group entries. */
  lemma LeaveKeepsInv(t: Test, n: nat, s: State, i: nat, x: Task)
    requires Inv(t, n, s) && i < n && (s.tasks[i] == Running(n) || s.tasks[i].Leaving?)
    requires x.Finished? || (t.Serial? && x.Leaving?)
    requires Weight(t, x) == Weight(t, s.tasks[i]) - 1
    ensures Inv(t, n, Leave(s.(tasks := s.tasks[i := x])))
  {
    TaskUpdated(t, n, s, i, x);
    LeaveCount(t, n, s, i, x);
    PrintNothing(n, s, Leave(s.(tasks := s.tasks[i := x])));
    hide CountOk, TraceOk;
  }

  lemma LineKeepsTrace(n: nat, s: State, i: nat, k: nat, s': State)
    requires TraceOk(n, s) && i < n && k < n && s.tasks[i] == Running(k)
    requires s' == Print(s, Line(LineNumber(n, i, k))).(tasks := s.tasks[i := Running(k + 1)])
    ensures TraceOk(n, s') && Closing(s'.trace) == Closing(s.trace)
  {
    OwnsLine(n, i, k);
    assert Lines(n, i, k + 1) == Lines(n, i, k) + [Line(LineNumber(n, i, k))];
    PrintOwned(n, s, Line(LineNumber(n, i, k)), i, s');
  }

  lemma TimeOutKeepsInv(t: Test, n: nat, s: State)
    requires Inv(t, n, s) && Enabled(n, s, TimeOut)
    ensures Inv(t, n, Print(s, TimedOut).(main := Returned))
  {
    PrintClosing(n, s, TimedOut, Print(s, TimedOut).(main := Returned));
    hide TraceOk, TotalWeight;
  }

  lemma BlockKeepsInv(t: Test, n: nat, s: State)
    requires Inv(t, n, s) && Enabled(n, s, RunMainQueue)
    ensures Inv(t, n, Print(s, MainBlock).(block := Executed))
  {
    EmptyMeansComplete(t, n, s);
    PrintClosing(n, s, MainBlock, Print(s, MainBlock).(block := Executed));
    hide TraceOk, TotalWeight, Complete;
  }

  lemma StepKeepsInv(t: Test, n: nat, s: State, a: Action)
    requires Inv(t, n, s)
    ensures Inv(t, n, Step(t, n, s, a))
  {
    hide Inv, StepMain, StepWork;
    if Enabled(n, s, a) {
      match a
      case RunMain => MainKeepsInv(t, n, s);
      case TimeOut => TimeOutKeepsInv(t, n, s);
      case Work(i) => WorkKeepsInv(t, n, s, i);
      case RunMainQueue => BlockKeepsInv(t, n, s);
    }
  }

  lemma {:induction false} RunKeepsInv(t: Test, n: nat, s: State, schedule: seq<Action>)
    requires Inv(t, n, s)
    ensures Inv(t, n, Run(t, n, s, schedule))
  {
    if schedule != [] {
      var before := schedule[..|schedule| - 1];
      RunKeepsInv(t, n, s, before);
      StepKeepsInv(t, n, Run(t, n, s, before), schedule[|schedule| - 1]);
    }
  }

  /** The invariant holds in every reachable state. */
  lemma ReachableInv(t: Test, n: nat, schedule: seq<Action>)
    ensures Inv(t, n, Run(t, n, Init(n), schedule))
  {
    InitInv(t, n);
    RunKeepsInv(t, n, Init(n), schedule);
  }
}
