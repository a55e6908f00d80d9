/** The serial test prints one sequence of lines, the same under every schedule. */
module DispatchSerial {
  import opened Dispatch
  import opened DispatchRuns
  import opened DispatchTheorems

  /** What the first `i` rounds of the loop print. */
  function Story(n: nat, i: nat): seq<Event> {
    if i == 0 then [] else Story(n, i - 1) + Script(n, i - 1)
  }

  /** What has been printed, told from where the main thread and its current task are. */
  function Tell(n: nat, s: State): seq<Event> {
    match s.main
    case Loop(i) => Story(n, i)
    case Enter(i) => Story(n, i) + [Label(i)]
    case Submit(i) => Story(n, i) + [Label(i)]
    case WaitTask(i) => Story(n, i) + if i < |s.tasks| then Written(n, i, true, s.tasks[i]) else []
    case Notify => Story(n, n)
    case Wait => Story(n, n)
    case Returned => Story(n, n) + if s.block == Executed then [AllDone, MainBlock] else [AllDone]
  }

  /** Only the queue that the main thread waits for holds entries of the group. */
  ghost predicate OneAtATime(s: State) {
    forall j :: 0 <= j < |s.tasks| && Weight(Serial, s.tasks[j]) != 0 ==> s.main == WaitTask(j)
  }

  ghost predicate SerialInv(n: nat, s: State) {
    Inv(Serial, n, s) && OneAtATime(s) && s.trace == Tell(n, s)
  }

  lemma {:induction false} OnlyWeight(tasks: seq<Task>, i: nat)
    requires i < |tasks| && forall j :: 0 <= j < |tasks| && j != i ==> Weight(Serial, tasks[j]) == 0
    ensures TotalWeight(Serial, tasks) == Weight(Serial, tasks[i])
  {
    if i == 0 {
      WeightZero(Serial, tasks[1..]);
    } else {
      OnlyWeight(tasks[1..], i - 1);
    }
  }

  /**
   The doubled accounting: two entries while a queue works, one between the two leaves,
   and none again before the next queue is entered.
   */
  lemma CounterBalanced(n: nat, s: State)
    requires SerialInv(n, s)
    ensures s.main.WaitTask? ==> s.count == Weight(Serial, s.tasks[s.main.i])
    ensures s.main.WaitTask? ==>
              var x := s.tasks[s.main.i];
              s.count == if x.Running? then 2 else if x.Leaving? then 1 else 0
    ensures s.main.Submit? ==> s.count == 1
    ensures !s.main.WaitTask? && !s.main.Submit? ==> s.count == 0
  {
    if s.main.WaitTask? {
      OnlyWeight(s.tasks, s.main.i);
    } else {
      WeightZero(Serial, s.tasks);
    }
  }

  lemma SerialMain(n: nat, s: State)
    requires SerialInv(n, s) && Enabled(n, s, RunMain)
    ensures OneAtATime(StepMain(Serial, n, s)) && StepMain(Serial, n, s).trace == Tell(n, StepMain(Serial, n, s))
  {
    if s.main.Submit? {
      SerialSubmit(n, s, s.main.i);
    } else if s.main.WaitTask? {
      SerialReleased(n, s, s.main.i);
    } else {
      hide TraceOk, ClosingOk, TotalWeight, Lines, Weight;
      CounterBalanced(n, s);
    }
  }

  /** Submitting a task makes its queue the one that the main thread waits for. */
  lemma SerialSubmit(n: nat, s: State, i: nat)
    requires SerialInv(n, s) && s.main == Submit(i)
    ensures OneAtATime(StepMain(Serial, n, s)) && StepMain(Serial, n, s).trace == Tell(n, StepMain(Serial, n, s))
  {
    hide TraceOk, ClosingOk, CountOk, TotalWeight, Story;
    assert Lines(n, i, 0) == [];
  }

  /** The main thread goes on once the queue it waited for has printed its whole script. */
  lemma SerialReleased(n: nat, s: State, i: nat)
    requires SerialInv(n, s) && s.main == WaitTask(i) && Enabled(n, s, RunMain)
    ensures OneAtATime(StepMain(Serial, n, s)) && StepMain(Serial, n, s).trace == Tell(n, StepMain(Serial, n, s))
  {
    CounterBalanced(n, s);
    assert s.tasks[i] == Finished;
    hide Inv, TotalWeight, Lines, Script;
  }

  lemma SerialWork(n: nat, s: State, j: nat)
    requires SerialInv(n, s) && Enabled(n, s, Work(j))
    ensures OneAtATime(StepWork(Serial, n, s, j))
            && StepWork(Serial, n, s, j).trace == Tell(n, StepWork(Serial, n, s, j))
  {
    hide TraceOk, ClosingOk, CountOk, OneAtATime, StepWork, Tell;
    BusyIsAwaited(s, j);
    match s.tasks[j]
    case Running(k) =>
      if k < n {
        SerialLine(n, s, j, k);
      } else {
        SerialLeave(n, s, j);
      }
    case Leaving => SerialLeave(n, s, j);
  }

  lemma BusyIsAwaited(s: State, j: nat)
    requires OneAtATime(s) && j < |s.tasks| && (s.tasks[j].Running? || s.tasks[j].Leaving?)
    ensures s.main == WaitTask(j)
  {
    assert Weight(Serial, s.tasks[j]) != 0;
  }

  /** A task that has printed its whole script leaves the group, and leaves it again. */
  lemma SerialLeave(n: nat, s: State, j: nat)
    requires SerialInv(n, s) && s.main == WaitTask(j) && j < n && (s.tasks[j] == Running(n) || s.tasks[j] == Leaving)
    ensures OneAtATime(StepWork(Serial, n, s, j))
            && StepWork(Serial, n, s, j).trace == Tell(n, StepWork(Serial, n, s, j))
  {
    hide TraceOk, ClosingOk, CountOk, TotalWeight, Story, Lines;
  }

  /** The task the main thread waits for prints its next line. */
  lemma SerialLine(n: nat, s: State, j: nat, k: nat)
    requires SerialInv(n, s) && s.main == WaitTask(j) && s.tasks[j] == Running(k) && k < n
    ensures OneAtATime(StepWork(Serial, n, s, j))
            && StepWork(Serial, n, s, j).trace == Tell(n, StepWork(Serial, n, s, j))
  {
    hide TraceOk, ClosingOk, CountOk, TotalWeight, Story;
    assert Lines(n, j, k + 1) == Lines(n, j, k) + [Line(LineNumber(n, j, k))];
    hide Lines;
  }

  lemma SerialStep(n: nat, s: State, a: Action)
    requires SerialInv(n, s)
    ensures SerialInv(n, Step(Serial, n, s, a))
  {
    StepKeepsInv(Serial, n, s, a);
    hide TraceOk, TasksOk, ClosingOk, CountOk, Tell, OneAtATime, StepMain, StepWork;
    CounterBalanced(n, s);
    if Enabled(n, s, a) {
      match a
      case RunMain => SerialMain(n, s);
      case TimeOut =>
      case Work(j) => SerialWork(n, s, j);
      case RunMainQueue => SerialBlock(n, s);
    }
  }

  lemma SerialBlock(n: nat, s: State)
    requires SerialInv(n, s) && Enabled(n, s, RunMainQueue)
    ensures OneAtATime(Step(Serial, n, s, RunMainQueue))
    ensures Step(Serial, n, s, RunMainQueue).trace == Tell(n, Step(Serial, n, s, RunMainQueue))
  {
    hide TraceOk, ClosingOk, TotalWeight, TasksOk;
  }

  lemma {:induction false} SerialReachable(n: nat, schedule: seq<Action>)
    ensures SerialInv(n, Run(Serial, n, Init(n), schedule))
  {
    if schedule == [] {
      InitInv(Serial, n);
    } else {
      var before := schedule[..|schedule| - 1];
      SerialReachable(n, before);
      SerialStep(n, Run(Serial, n, Init(n), before), schedule[|schedule| - 1]);
    }
  }

  lemma {:induction false} StoryPrefix(n: nat, i: nat, j: nat)
    requires i <= j
    ensures Story(n, i) <= Story(n, j)
    ensures i < j ==> Story(n, i) + Script(n, i) <= Story(n, j)
  {
    if i < j {
      StoryPrefix(n, i, j - 1);
    }
  }

  lemma TellPrefix(n: nat, s: State)
    requires MainOk(Serial, n, s.main) && |s.tasks| == n
    requires s.main.WaitTask? && s.tasks[s.main.i].Running? ==> s.tasks[s.main.i].printed <= n
    ensures Tell(n, s) <= Story(n, n) + [AllDone, MainBlock]
  {
    if s.main.Loop? || s.main.Enter? || s.main.Submit? || s.main.WaitTask? {
      var i := s.main.i;
      StoryPrefix(n, i, n);
      assert i < n ==> Tell(n, s) <= Story(n, i) + Script(n, i);
    }
  }

  /** In every state of every schedule, what has been printed is the beginning of the one full text. */
  lemma OneOrderOnly(n: nat, schedule: seq<Action>)
    ensures Run(Serial, n, Init(n), schedule).trace <= Story(n, n) + [AllDone, MainBlock]
  {
    hide Tell, Run, TraceOk, CountOk, ClosingOk;
    SerialReachable(n, schedule);
    TellPrefix(n, Run(Serial, n, Init(n), schedule));
  }

  /** A fair schedule prints all of it; in particular the final wait never times out. */
  lemma FairRunsTellAll(n: nat, rounds: seq<seq<Action>>)
    requires forall r :: 0 <= r < |rounds| ==> Round(n, rounds[r])
    requires |rounds| > Measure(n, Init(n))
    ensures Run(Serial, n, Init(n), Concat(rounds)).trace == Story(n, n) + [AllDone, MainBlock]
  {
    FairRunsFinish(Serial, n, rounds);
    SerialReachable(n, Concat(rounds));
  }

  /** The numbers in that text rise strictly. */
  lemma {:induction false} NumbersRise(n: nat, i: nat)
    ensures forall p :: 0 <= p < |Story(n, i)| && Story(n, i)[p].Line? ==> Story(n, i)[p].number < LineNumber(n, i, 0)
    ensures forall p, q :: 0 <= p < q < |Story(n, i)| && Story(n, i)[p].Line? && Story(n, i)[q].Line? ==>
              Story(n, i)[p].number < Story(n, i)[q].number
  {
    if i > 0 {
      NumbersRise(n, i - 1);
      StartsApart(n, i - 1, i);
      var before, script := Story(n, i - 1), Script(n, i - 1);
      forall p | 0 <= p < |script| && script[p].Line?
        ensures LineNumber(n, i - 1, 0) <= script[p].number < LineNumber(n, i, 0)
        ensures script[p].number == LineNumber(n, i - 1, p - 1)
      {
      }
      forall p, q | 0 <= p < q < |Story(n, i)| && Story(n, i)[p].Line? && Story(n, i)[q].Line?
        ensures Story(n, i)[p].number < Story(n, i)[q].number
      {
        if p >= |before| {
          assert Story(n, i)[p] == script[p - |before|] && Story(n, i)[q] == script[q - |before|];
        } else if q >= |before| {
          assert Story(n, i)[q] == script[q - |before|];
        }
      }
    }
  }
}
