/**
 The two tests as objects that change in place: a group with its counter, and a run that
 drives it.  Each step is proved to do what the step machine does, so every schedule of the
 objects has the properties proved of the machine.
 */
module DispatchTest {
  import opened Dispatch
  import opened DispatchRuns

  class DispatchGroup {
    var count: int
    var block: Block

    constructor ()
      ensures count == 0 && block == Unregistered
    {
      count, block := 0, Unregistered;
    }

    method Enter()
      modifies this
      ensures count == old(count) + 1 && block == old(block)
    {
      count := count + 1;
    }

    /** Leaving an empty group stops the program. */
    method Leave()
      requires count > 0
      modifies this
      ensures count == old(count) - 1
      ensures block == if count == 0 && old(block) == Registered then Queued else old(block)
    {
      count := count - 1;
      if count == 0 && block == Registered {
        block := Queued;
      }
    }

    /** Registers the block for the main queue; on an empty group it is queued at once. */
    method Notify()
      modifies this
      ensures count == old(count) && block == if count == 0 then Queued else Registered
    {
      block := if count == 0 then Queued else Registered;
    }
  }

  class TestRun {
    const test: Test
    const maxNum: nat
    const group: DispatchGroup
    var main: Main
    var tasks: seq<Task>
    var output: seq<Event>

    ghost function Now(): State
      reads this, group
    {
      State(main, tasks, group.count, group.block, output)
    }

    ghost predicate Valid()
      reads this, group
    {
      Inv(test, maxNum, Now())
    }

    constructor (test: Test, maxNum: nat)
      ensures Valid() && Now() == Init(maxNum) && this.test == test && this.maxNum == maxNum
      ensures fresh(group)
    {
      this.test, this.maxNum := test, maxNum;
      group := new DispatchGroup();
      main, tasks, output := Loop(0), seq(maxNum, _ => NotSubmitted), [];
      new;
      InitInv(test, maxNum);
    }

    method Print(e: Event)
      modifies this`output
      ensures output == old(output) + [e]
    {
      output := output + [e];
    }

    /** The next step of the main thread, which is not waiting for a group that has entries. */
    method RunMain()
      requires Valid() && Enabled(maxNum, Now(), Action.RunMain)
      modifies this, group
      ensures Valid() && Now() == StepMain(test, maxNum, old(Now()))
    {
      MainKeepsInv(test, maxNum, Now());
      hide Inv;
      match main {
        case Loop(i) =>
          if i < maxNum {
            Print(Label(i));
            main := if test.Serial? then Enter(i) else Submit(i);
          } else {
            main := Notify;
          }
        case Enter(i) =>
          group.Enter();
          main := Submit(i);
        case Submit(i) =>
          if i < |tasks| {
            group.Enter();
            tasks := tasks[i := Running(0)];
            main := if test.Serial? then WaitTask(i) else Loop(i + 1);
          }
        case WaitTask(i) => main := Loop(i + 1);
        case Notify =>
          group.Notify();
          main := Wait;
        case Wait =>
          Print(AllDone);
          main := Returned;
        case Returned =>
      }
    }

    /** The final wait gives up on a group that still has entries. */
    method TimeOut()
      requires Valid() && Enabled(maxNum, Now(), Action.TimeOut)
      modifies this
      ensures Valid() && Now() == Step(test, maxNum, old(Now()), Action.TimeOut)
    {
      StepKeepsInv(test, maxNum, Now(), Action.TimeOut);
      Print(TimedOut);
      main := Returned;
    }

    /** The next step of queue `i`: a line, or leaving the group. */
    method Work(i: nat)
      requires Valid() && Enabled(maxNum, Now(), Action.Work(i))
      modifies this, group
      ensures Valid() && Now() == StepWork(test, maxNum, old(Now()), i)
    {
      hide Inv;
      WorkKeepsInv(test, maxNum, Now(), i);
      BusyMeansCounted(test, maxNum, Now(), i);
      match tasks[i] {
        case Running(k) =>
          if k < maxNum {
            var start := i * maxNum;
            Print(Line(start + (start + k)));
            tasks := tasks[i := Running(k + 1)];
          } else {
            group.Leave();
            tasks := tasks[i := if test.Serial? then Leaving else Finished];
          }
        case Leaving =>
          group.Leave();
          tasks := tasks[i := Finished];
      }
    }

    /** The main queue runs the block once the main thread is free. */
    method RunMainQueue()
      requires Valid() && Enabled(maxNum, Now(), Action.RunMainQueue)
      modifies this, group
      ensures Valid() && Now() == Step(test, maxNum, old(Now()), Action.RunMainQueue)
    {
      StepKeepsInv(test, maxNum, Now(), Action.RunMainQueue);
      Print(MainBlock);
      group.block := Executed;
    }

    /** Any schedule, action by action. */
    method Execute(schedule: seq<Action>)
      requires Valid()
      modifies this, group
      ensures Valid() && Now() == Run(test, maxNum, old(Now()), schedule)
    {
      hide Inv, StepMain, StepWork;
      for p := 0 to |schedule|
        invariant Valid() && Now() == Run(test, maxNum, old(Now()), schedule[..p])
      {
        assert schedule[..p + 1][..p] == schedule[..p];
        if Enabled(maxNum, State(main, tasks, group.count, group.block, output), schedule[p]) {
          match schedule[p] {
            case RunMain => RunMain();
            case TimeOut => TimeOut();
            case Work(i) => Work(i);
            case RunMainQueue => RunMainQueue();
          }
        }
      }
      assert schedule[..|schedule|] == schedule;
    }
  }
}
