/** How freely the concurrent test interleaves: its texts are exactly the merges of the queues' scripts. */
module DispatchInterleaving {
  import opened Dispatch
  import opened DispatchRuns
  import opened DispatchTheorems

  /**
   Each queue contributes a beginning of its own script, and a queue's label comes after the
   label of the queue before it; nothing else is asked.
   */
  ghost predicate Merged(n: nat, text: seq<Event>) {
    && (forall p :: 0 <= p < |text| ==> (text[p].Label? || text[p].Line?) && Owned(n, text[p]))
    && (forall i :: 0 <= i < n ==> Project(n, i, text) <= Script(n, i))
    && LabelsInOrder(text)
  }

  ghost predicate LabelsInOrder(text: seq<Event>) {
    forall p :: 0 <= p < |text| && text[p].Label? && text[p].queue > 0 ==> Label(text[p].queue - 1) in text[..p]
  }

  // Every merge is printed.

  /** The main thread is in its loop, and no task has left the group. */
  ghost predicate NoneLeft(n: nat, s: State) {
    s.main.Loop? && |s.tasks| == n && forall j :: 0 <= j < n ==> s.tasks[j].NotSubmitted? || s.tasks[j].Running?
  }

  lemma MergedBefore(n: nat, text: seq<Event>, e: Event)
    requires Merged(n, text + [e])
    ensures Merged(n, text)
    ensures (e.Label? || e.Line?) && Owned(n, e)
    ensures e.Label? && e.queue > 0 ==> Label(e.queue - 1) in text
  {
    hide Owned, Script, Project;
    var longer := text + [e];
    assert longer[|text|] == e && longer[..|text|] == text;
    forall p | 0 <= p < |text| ensures longer[p] == text[p] && longer[..p] == text[..p] {
    }
    forall i | 0 <= i < n ensures Project(n, i, text) <= Script(n, i) {
      ProjectPrinted(n, i, text, e);
    }
  }

  lemma {:induction false} ProjectMember(n: nat, i: nat, trace: seq<Event>, e: Event)
    ensures e in Project(n, i, trace) <==> e in trace && Owns(n, i, e)
  {
    hide Owns;
    if trace != [] {
      ProjectMember(n, i, trace[..|trace| - 1], e);
      assert trace == trace[..|trace| - 1] + [trace[|trace| - 1]];
    }
  }

  /** The next label of a merge is the one that the main thread comes to. */
  lemma NextLabel(n: nat, s: State, i: nat)
    requires Inv(Concurrent, n, s) && s.main.Loop? && Merged(n, s.trace + [Label(i)])
    ensures s.main == Loop(i) && i < n
  {
    hide *;
    MergedBefore(n, s.trace, Label(i));
    OwnerOfLabel(n, i);
    OwnPartGrows(n, s.trace, i, Label(i));
    LabelReached(n, s, i);
    if i > 0 {
      LabelReached(n, s, i - 1);
    }
  }

  lemma OwnerOfLabel(n: nat, i: nat)
    requires Owned(n, Label(i))
    ensures i < n && Owns(n, i, Label(i))
  {
  }

  /** The labels printed so far are those of the queues before the loop variable. */
  lemma LabelReached(n: nat, s: State, i: nat)
    requires Inv(Concurrent, n, s) && s.main.Loop? && i < n
    ensures i < s.main.i <==> Label(i) in s.trace
    ensures i < s.main.i <==> Project(n, i, s.trace) != []
  {
    ProjectMember(n, i, s.trace, Label(i));
    hide CountOk, ClosingOk, ClosedComplete, AllOwned, Project;
    var part := Written(n, i, i < s.main.i, s.tasks[i]);
    assert Project(n, i, s.trace) == part;
    assert part != [] ==> part[0] == Label(i) && part[0] in part;
  }

  /** What comes next in a merge continues its queue's script. */
  lemma OwnPartGrows(n: nat, text: seq<Event>, i: nat, e: Event)
    requires i < n && Owns(n, i, e) && Merged(n, text + [e])
    ensures |Project(n, i, text)| <= n && e == Script(n, i)[|Project(n, i, text)|]
    ensures e.Label? <==> Project(n, i, text) == []
  {
    hide Owned, LabelsInOrder;
    ProjectPrinted(n, i, text, e);
    var part := Project(n, i, text);
    assert (part + [e])[|part|] == e;
  }

  /** The next line of a merge is the one that its queue comes to. */
  lemma NextLine(n: nat, s: State, v: nat) returns (i: nat, k: nat)
    requires Inv(Concurrent, n, s) && NoneLeft(n, s) && Merged(n, s.trace + [Line(v)])
    ensures i < n && k < n && s.tasks[i] == Running(k) && v == LineNumber(n, i, k)
  {
    hide CountOk, ClosingOk, ClosedComplete, AllOwned;
    MergedBefore(n, s.trace, Line(v));
    i :| 0 <= i < n && Owns(n, i, Line(v));
    OwnPartGrows(n, s.trace, i, Line(v));
    assert s.tasks[i].Running?;
    k := s.tasks[i].printed;
    assert |Project(n, i, s.trace)| == k + 1;
  }

  /** Any merge, of whole scripts or of beginnings, is what some schedule prints. */
  lemma {:induction false} EveryMergeIsPrinted(n: nat, text: seq<Event>) returns (schedule: seq<Action>)
    requires Merged(n, text)
    ensures Run(Concurrent, n, Init(n), schedule).trace == text && NoneLeft(n, Run(Concurrent, n, Init(n), schedule))
  {
    hide Merged;
    if text == [] {
      schedule := [];
    } else {
      var before, e := text[..|text| - 1], text[|text| - 1];
      assert text == before + [e];
      MergedBefore(n, before, e);
      var sooner := EveryMergeIsPrinted(n, before);
      ReachableInv(Concurrent, n, sooner);
      var next := PrintNext(n, Run(Concurrent, n, Init(n), sooner), e);
      RunAppend(Concurrent, n, Init(n), sooner, next);
      schedule := sooner + next;
    }
  }

  /** One more line of a merge takes one step of its queue, and one more label two of the main thread. */
  lemma PrintNext(n: nat, s: State, e: Event) returns (actions: seq<Action>)
    requires Inv(Concurrent, n, s) && NoneLeft(n, s) && Merged(n, s.trace + [e])
    ensures Run(Concurrent, n, s, actions).trace == s.trace + [e] && NoneLeft(n, Run(Concurrent, n, s, actions))
  {
    MergedBefore(n, s.trace, e);
    if e.Label? {
      NextLabel(n, s, e.queue);
      actions := [RunMain, RunMain];
      RunOfTwo(Concurrent, n, s, RunMain, RunMain);
      hide *;
      StepLabel(n, s, e.queue);
    } else {
      var i, k := NextLine(n, s, e.number);
      actions := [Work(i)];
      RunOfOne(Concurrent, n, s, Work(i));
      hide *;
      StepLine(n, s, i, k);
    }
  }

  lemma StepLabel(n: nat, s: State, i: nat)
    requires NoneLeft(n, s) && s.main == Loop(i) && i < n
    ensures var r := Step(Concurrent, n, Step(Concurrent, n, s, RunMain), RunMain);
            r.trace == s.trace + [Label(i)] && NoneLeft(n, r)
  {
  }

  lemma StepLine(n: nat, s: State, i: nat, k: nat)
    requires NoneLeft(n, s) && i < n && k < n && s.tasks[i] == Running(k)
    ensures var r := Step(Concurrent, n, s, Work(i));
            r.trace == s.trace + [Line(LineNumber(n, i, k))] && NoneLeft(n, r)
  {
  }

  lemma RunOfOne(t: Test, n: nat, s: State, a: Action)
    ensures Run(t, n, s, [a]) == Step(t, n, s, a)
  {
    hide Step;
    assert [a][..0] == [];
  }

  lemma RunOfTwo(t: Test, n: nat, s: State, a: Action, b: Action)
    ensures Run(t, n, s, [a, b]) == Step(t, n, Step(t, n, s, a), b)
  {
    hide Step;
    RunOfOne(t, n, s, a);
    assert [a, b][..1] == [a];
  }

  // Nothing else is printed.

  lemma {:induction false} OnlyQueueLines(trace: seq<Event>)
    requires Closing(trace) == []
    ensures forall p :: 0 <= p < |trace| ==> trace[p].Label? || trace[p].Line?
  {
    if trace != [] {
      OnlyQueueLines(trace[..|trace| - 1]);
      assert forall p :: 0 <= p < |trace| - 1 ==> trace[p] == trace[..|trace| - 1][p];
    }
  }

  lemma {:induction false} LabelsComeInOrder(n: nat, schedule: seq<Action>)
    ensures LabelsInOrder(Run(Concurrent, n, Init(n), schedule).trace)
  {
    hide Step;
    if schedule != [] {
      var before := schedule[..|schedule| - 1];
      LabelsComeInOrder(n, before);
      ReachableInv(Concurrent, n, before);
      LabelStep(n, Run(Concurrent, n, Init(n), before), schedule[|schedule| - 1]);
    }
  }

  lemma LabelStep(n: nat, s: State, a: Action)
    requires Inv(Concurrent, n, s) && LabelsInOrder(s.trace)
    ensures LabelsInOrder(Step(Concurrent, n, s, a).trace)
  {
    var s' := Step(Concurrent, n, s, a);
    if a == RunMain && Enabled(n, s, a) && s.main.Loop? && 0 < s.main.i < n {
      var i := s.main.i;
      assert Label(i - 1) in Written(n, i - 1, true, s.tasks[i - 1]);
      ProjectMember(n, i - 1, s.trace, Label(i - 1));
    }
    hide Inv;
    if s'.trace != s.trace {
      LabelsThenOneMore(s.trace, s'.trace[|s.trace|]);
    }
  }

  lemma LabelsThenOneMore(text: seq<Event>, e: Event)
    requires LabelsInOrder(text) && (e.Label? && e.queue > 0 ==> Label(e.queue - 1) in text)
    ensures LabelsInOrder(text + [e])
  {
    var longer := text + [e];
    assert longer[..|text|] == text;
    forall p | 0 <= p < |text| ensures longer[..p] == text[..p] {
    }
  }

  /** A text without closing lines is printed by some schedule exactly when it is a merge. */
  lemma PrintedIffMerged(n: nat, text: seq<Event>)
    ensures Merged(n, text)
            <==> exists schedule :: Run(Concurrent, n, Init(n), schedule).trace == text && Closing(text) == []
  {
    hide Run, Init, LabelsInOrder;
    if Merged(n, text) {
      var schedule := EveryMergeIsPrinted(n, text);
      NoClosing(text);
      assert Run(Concurrent, n, Init(n), schedule).trace == text;
    }
    if schedule :| Run(Concurrent, n, Init(n), schedule).trace == text && Closing(text) == [] {
      ReachableInv(Concurrent, n, schedule);
      OnlyQueueLines(text);
      LabelsComeInOrder(n, schedule);
      forall i | 0 <= i < n ensures Project(n, i, text) <= Script(n, i) {
        TasksPrintInOrder(Concurrent, n, schedule, i);
      }
    }
  }

  lemma {:induction false} NoClosing(text: seq<Event>)
    requires forall p :: 0 <= p < |text| ==> text[p].Label? || text[p].Line?
    ensures Closing(text) == []
  {
    if text != [] {
      NoClosing(text[..|text| - 1]);
    }
  }
}
