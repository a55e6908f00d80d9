/**
 The two dispatch-group tests as one step machine: a main thread, `n` serial queues
 with one task each, the group's counter, the block handed to `notify`, and the lines
 printed so far.  A schedule is any sequence of actions; one that is not enabled leaves
 the state as it is, so the schedules cover every interleaving.
 */
module Dispatch {

  datatype Test = Concurrent | Serial

  /** What is printed. */
  datatype Event = Label(queue: nat) | Line(number: nat) | MainBlock | AllDone | TimedOut

  /** Where the main thread is; `i` is the loop variable. */
  datatype Main = Loop(i: nat) | Enter(i: nat) | Submit(i: nat) | WaitTask(i: nat) | Notify | Wait | Returned

  datatype Task = NotSubmitted | Running(printed: nat) | Leaving | Finished

  /** The block for the main queue. */
  datatype Block = Unregistered | Registered | Queued | Executed

  datatype State = State(main: Main, tasks: seq<Task>, count: int, block: Block, trace: seq<Event>)

  datatype Action = RunMain | TimeOut | Work(queue: nat) | RunMainQueue

  function Init(n: nat): State {
    State(Loop(0), seq(n, _ => NotSubmitted), 0, Unregistered, [])
  }

  /** The `k`-th number task `i` prints: its loop runs from `start` and prints `start + i` each time. */
  function LineNumber(n: nat, i: nat, k: nat): (v: nat)
    ensures v == 2 * i * n + k
  {
    var start := i * n;
    start + (start + k)
  }

  function Print(s: State, e: Event): State {
    s.(trace := s.trace + [e])
  }

  /** Leaving the group; the block goes to the main queue once the group is empty. */
  function Leave(s: State): State {
    s.(count := s.count - 1, block := if s.count == 1 && s.block == Registered then Queued else s.block)
  }

  predicate Enabled(n: nat, s: State, a: Action) {
    match a
    case RunMain => !s.main.Returned? && ((s.main.WaitTask? || s.main.Wait?) ==> s.count == 0)
    case TimeOut => s.main.Wait? && s.count > 0
    case Work(i) => i < |s.tasks| && (s.tasks[i].Running? || s.tasks[i].Leaving?)
    case RunMainQueue => s.main.Returned? && s.block == Queued
  }

  function StepMain(t: Test, n: nat, s: State): State {
    match s.main
    case Loop(i) =>
      if i >= n then s.(main := Notify)
      else Print(s, Label(i)).(main := if t.Serial? then Enter(i) else Submit(i))
    case Enter(i) => s.(count := s.count + 1, main := Submit(i))
    case Submit(i) =>
      if i >= |s.tasks| then s
      else s.(count := s.count + 1, tasks := s.tasks[i := Running(0)],
              main := if t.Serial? then WaitTask(i) else Loop(i + 1))
    case WaitTask(i) => s.(main := Loop(i + 1))
    case Notify => s.(block := if s.count == 0 then Queued else Registered, main := Wait)
    case Wait => Print(s, AllDone).(main := Returned)
    case Returned => s
  }

  function StepWork(t: Test, n: nat, s: State, i: nat): State
    requires i < |s.tasks|
  {
    match s.tasks[i]
    case Running(k) =>
      if k < n then Print(s, Line(LineNumber(n, i, k))).(tasks := s.tasks[i := Running(k + 1)])
      else Leave(s.(tasks := s.tasks[i := if t.Serial? then Leaving else Finished]))
    case Leaving => Leave(s.(tasks := s.tasks[i := Finished]))
    case _ => s
  }

  function Step(t: Test, n: nat, s: State, a: Action): State {
    if !Enabled(n, s, a) then s
    else
      match a
      case RunMain => StepMain(t, n, s)
      case TimeOut => Print(s, TimedOut).(main := Returned)
      case Work(i) => StepWork(t, n, s, i)
      case RunMainQueue => Print(s, MainBlock).(block := Executed)
  }

  function Run(t: Test, n: nat, s: State, schedule: seq<Action>): State {
    if schedule == [] then s
    else Step(t, n, Run(t, n, s, schedule[..|schedule| - 1]), schedule[|schedule| - 1])
  }

  /** Nothing is left to do: the test has returned, its tasks are over, and the block has run. */
  ghost predicate Final(s: State) {
    s.main.Returned? && s.block == Executed && forall i :: 0 <= i < |s.tasks| ==> s.tasks[i].Finished?
  }

  // Reading the printed lines.

  /** `e` is the label of queue `i` or one of the lines of its task. */
  predicate Owns(n: nat, i: nat, e: Event) {
    match e
    case Label(j) => j == i
    case Line(v) => LineNumber(n, i, 0) <= v < LineNumber(n, i, n)
    case _ => false
  }

  function Project(n: nat, i: nat, trace: seq<Event>): seq<Event> {
    if trace == [] then []
    else
      var e := trace[|trace| - 1];
      Project(n, i, trace[..|trace| - 1]) + if Owns(n, i, e) then [e] else []
  }

  function Lines(n: nat, i: nat, k: nat): (r: seq<Event>)
    ensures |r| == k
  {
    seq(k, j requires 0 <= j < k => Line(LineNumber(n, i, j)))
  }

  /** All that queue `i` and its task ever print, in order. */
  function Script(n: nat, i: nat): seq<Event> {
    [Label(i)] + Lines(n, i, n)
  }

  /** Every line of every task has been printed, in its task's order. */
  ghost predicate Complete(n: nat, trace: seq<Event>) {
    forall i :: 0 <= i < n ==> Project(n, i, trace) == Script(n, i)
  }

  /** The lines printed by the test itself rather than for a queue. */
  function Closing(trace: seq<Event>): seq<Event> {
    if trace == [] then []
    else
      var e := trace[|trace| - 1];
      Closing(trace[..|trace| - 1]) + if e.Label? || e.Line? then [] else [e]
  }
}
