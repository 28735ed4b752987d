/**
 The counter and the ring buffer over interleaved publishes, and when event ids ascend.
 */
module SseOrder {
  import opened Options
  import opened SseManager
  import opened SseRuns

  function LastOf(es: seq<Event>, n: nat): seq<Event> {
    if |es| > n then es[|es| - n..] else es
  }

  predicate IdsAscend(es: seq<Event>) {
    forall i, j :: 0 <= i < j < |es| ==> es[i].id < es[j].id
  }

  // ------------------------------------------- what a step does to the log

  /** The step finishes a publish. */
  predicate Publishes(s: System, step: Step) {
    Enabled(s, step) && (step.Finish? || step.Counted?)
  }

  /** The event it numbers: the ledger's sequence if there is one, else the next count. */
  function EventOf(s: System, step: Step): Event
    requires Publishes(s, step)
  {
    match step
    case Finish(p, _) =>
      Numbered(s.pending[p].0, if s.pending[p].1.Some? then s.pending[p].1.value else s.m.sequence + 1)
    case Counted(d, _) => Numbered(d, s.m.sequence + 1)
  }

  /** The part of a step that concerns numbering, without the clients. */
  ghost predicate LogEffect(s: System, step: Step, t: System) {
    && t.m.bufferSize == s.m.bufferSize && t.m.capacity == s.m.capacity
    && t.floor == s.floor && t.attached == s.attached && t.clock >= s.clock
    && t.nextSequence == s.nextSequence + (if Enabled(s, step) && step.Begin? then step.skipped + 1 else 0)
    && t.pending == (if !Enabled(s, step) then s.pending
                     else if step.Begin? then
                       s.pending[step.publish := (step.draft,
                           if step.written then Some(s.nextSequence + step.skipped) else None)]
                     else if step.Finish? then s.pending - {step.publish} else s.pending)
    && if Publishes(s, step) then
         var e := EventOf(s, step);
         && t.published == s.published + [e]
         && t.m.sequence == Max(e.id, s.m.sequence)
         && t.m.ring == PushRing(s.m.ring, e, s.m.bufferSize)
       else
         t.published == s.published && t.m.sequence == s.m.sequence && t.m.ring == s.m.ring
  }

  lemma StepLogEffect(s: System, step: Step)
    requires Consistent(s.m)
    ensures LogEffect(s, step, Next(s, step))
  {
  }

  // ---------------------------------------------------- counter and ring

  ghost predicate CounterInv(s: System) {
    && s.m.ring == LastOf(s.published, s.m.bufferSize)
    && s.floor <= s.m.sequence && s.floor < s.nextSequence
    && (forall i :: 0 <= i < |s.published| ==> s.floor < s.published[i].id <= s.m.sequence)
    && (forall p :: p in s.pending && s.pending[p].1.Some? ==> s.floor < s.pending[p].1.value < s.nextSequence)
    && (s.published == [] ==> s.m.sequence == s.floor)
    && (s.published != [] ==> exists i :: 0 <= i < |s.published| && s.published[i].id == s.m.sequence)
  }

  lemma PushKeepsTheLast(es: seq<Event>, e: Event, n: nat)
    ensures PushRing(LastOf(es, n), e, n) == LastOf(es + [e], n)
  {
  }

  lemma CounterInvStep(s: System, step: Step, t: System)
    requires CounterInv(s) && LogEffect(s, step, t)
    ensures CounterInv(t)
  {
    if Publishes(s, step) {
      var e := EventOf(s, step);
      PushKeepsTheLast(s.published, e, s.m.bufferSize);
      if e.id >= s.m.sequence {
        assert t.published[|s.published|].id == t.m.sequence;
      } else {
        var i :| 0 <= i < |s.published| && s.published[i].id == s.m.sequence;
        assert t.published[i] == s.published[i];
      }
    }
  }

  lemma {:induction false} CounterInvRun(bufferSize: nat, capacity: nat, attached: bool, top: nat, steps: seq<Step>)
    ensures CounterInv(Run(Started(bufferSize, capacity, attached, top), steps))
  {
    if steps != [] {
      var n, start := |steps| - 1, Started(bufferSize, capacity, attached, top);
      CounterInvRun(bufferSize, capacity, attached, top, steps[..n]);
      StepLogEffect(Run(start, steps[..n]), steps[n]);
      CounterInvStep(Run(start, steps[..n]), steps[n], Run(start, steps));
    }
  }

  /** In every run: the counter covers every id ever given out, and the ring holds the last
      events in the order their publishes finished. */
  lemma CounterCoversAndRingIsTail(bufferSize: nat, capacity: nat, attached: bool, top: nat, steps: seq<Step>)
    ensures var s := Run(Started(bufferSize, capacity, attached, top), steps);
      && s.m.ring == LastOf(s.published, bufferSize)
      && forall i :: 0 <= i < |s.published| ==> top < s.published[i].id <= s.m.sequence
  {
    CounterInvRun(bufferSize, capacity, attached, top, steps);
    ParametersStay(Started(bufferSize, capacity, attached, top), steps);
  }

  lemma {:induction false} ParametersStay(start: System, steps: seq<Step>)
    requires Consistent(start.m)
    ensures var s := Run(start, steps);
      && s.m.bufferSize == start.m.bufferSize && s.m.capacity == start.m.capacity
      && s.floor == start.floor && s.attached == start.attached
      && start.m.sequence <= s.m.sequence && start.published <= s.published && start.clock <= s.clock
  {
    if steps != [] {
      ParametersStay(start, steps[..|steps| - 1]);
      StepLogEffect(Run(start, steps[..|steps| - 1]), steps[|steps| - 1]);
      assert forall es: seq<Event>, e: Event :: es <= es + [e];
    }
  }

  /** The counter never goes back, whatever happens between two points of a run. */
  lemma {:induction false} CounterNeverDecreases(start: System, steps: seq<Step>, i: nat, j: nat)
    requires Consistent(start.m) && i <= j <= |steps|
    ensures Run(start, steps[..i]).m.sequence <= Run(start, steps[..j]).m.sequence
    decreases j - i
  {
    if i < j {
      CounterNeverDecreases(start, steps, i, j - 1);
      assert steps[..j] == steps[..j - 1] + [steps[j - 1]];
      RunOneMore(start, steps[..j - 1], steps[j - 1]);
      StepLogEffect(Run(start, steps[..j - 1]), steps[j - 1]);
    }
  }

  // ------------------------------------------------------- when ids ascend

  /** The test `ledger_seq > self._sequence` holds for this step, if it makes that test. */
  predicate GuardHolds(s: System, step: Step) {
    Enabled(s, step) && step.Finish? && s.pending[step.publish].1.Some? ==>
      s.pending[step.publish].1.value > s.m.sequence
  }

  ghost predicate GuardsHold(start: System, steps: seq<Step>)
    requires Consistent(start.m)
  {
    forall i :: 0 <= i < |steps| ==> GuardHolds(Run(start, steps[..i]), steps[i])
  }

  lemma AscendStep(s: System, step: Step, t: System)
    requires CounterInv(s) && LogEffect(s, step, t)
    ensures IdsAscend(t.published) <==> IdsAscend(s.published) && GuardHolds(s, step)
  {
    if Publishes(s, step) {
      var n := |s.published|;
      if IdsAscend(t.published) {
        assert forall i :: 0 <= i < n ==> t.published[i] == s.published[i];
        if s.published != [] {
          var i :| 0 <= i < n && s.published[i].id == s.m.sequence;
          assert t.published[i].id < t.published[n].id;
        }
      }
    }
  }

  lemma GuardsHoldSplit(start: System, steps: seq<Step>)
    requires Consistent(start.m) && steps != []
    ensures var n := |steps| - 1;
      GuardsHold(start, steps) <==> GuardsHold(start, steps[..n]) && GuardHolds(Run(start, steps[..n]), steps[n])
  {
    var n := |steps| - 1;
    forall i | 0 <= i < n
      ensures GuardHolds(Run(start, steps[..n][..i]), steps[..n][i]) <==> GuardHolds(Run(start, steps[..i]), steps[i])
    {
      assert steps[..n][..i] == steps[..i];
    }
    if GuardsHold(start, steps) {
      forall i | 0 <= i < n ensures GuardHolds(Run(start, steps[..n][..i]), steps[..n][i]) {
        assert GuardHolds(Run(start, steps[..i]), steps[i]);
      }
    }
    if GuardsHold(start, steps[..n]) && GuardHolds(Run(start, steps[..n]), steps[n]) {
      forall i | 0 <= i < |steps| ensures GuardHolds(Run(start, steps[..i]), steps[i]) {
        if i < n { assert GuardHolds(Run(start, steps[..n][..i]), steps[..n][i]); }
      }
    }
  }

  /** Ids ascend strictly over a run exactly when every finished ledger write brought a
      sequence above the counter. */
  lemma {:induction false} IdsAscendExactly(bufferSize: nat, capacity: nat, attached: bool, top: nat, steps: seq<Step>)
    ensures var start := Started(bufferSize, capacity, attached, top);
      IdsAscend(Run(start, steps).published) <==> GuardsHold(start, steps)
  {
    var start := Started(bufferSize, capacity, attached, top);
    if steps != [] {
      var n := |steps| - 1;
      IdsAscendExactly(bufferSize, capacity, attached, top, steps[..n]);
      CounterInvRun(bufferSize, capacity, attached, top, steps[..n]);
      StepLogEffect(Run(start, steps[..n]), steps[n]);
      AscendStep(Run(start, steps[..n]), steps[n], Run(start, steps));
      GuardsHoldSplit(start, steps);
    }
  }

  /** Runs without a ledger: always in order. */
  lemma NoLedgerAscends(bufferSize: nat, capacity: nat, top: nat, steps: seq<Step>)
    ensures IdsAscend(Run(Started(bufferSize, capacity, false, top), steps).published)
  {
    var start := Started(bufferSize, capacity, false, top);
    forall i | 0 <= i < |steps| ensures GuardHolds(Run(start, steps[..i]), steps[i]) {
      NothingPends(start, steps[..i]);
    }
    IdsAscendExactly(bufferSize, capacity, false, top, steps);
  }

  lemma {:induction false} NothingPends(start: System, steps: seq<Step>)
    requires Consistent(start.m) && !start.attached && start.pending == map[]
    ensures Run(start, steps).pending == map[]
  {
    if steps != [] {
      NothingPends(start, steps[..|steps| - 1]);
      ParametersStay(start, steps[..|steps| - 1]);
      StepLogEffect(Run(start, steps[..|steps| - 1]), steps[|steps| - 1]);
    }
  }

  /** Every publish of the run goes to the ledger and its write succeeds. */
  predicate AllLedgered(steps: seq<Step>) {
    forall i :: 0 <= i < |steps| ==> !steps[i].Counted? && (steps[i].Begin? ==> steps[i].written)
  }

  /** A publish only finishes when none with a smaller sequence is still suspended. */
  predicate InOrder(s: System, step: Step) {
    Enabled(s, step) && step.Finish? ==>
      forall p :: p in s.pending && p != step.publish && s.pending[p].1.Some? && s.pending[step.publish].1.Some? ==>
        s.pending[step.publish].1.value < s.pending[p].1.value
  }

  ghost predicate FinishInOrder(start: System, steps: seq<Step>)
    requires Consistent(start.m)
  {
    forall i :: 0 <= i < |steps| ==> InOrder(Run(start, steps[..i]), steps[i])
  }

  /** With all writes succeeding and finishing in order, every suspended sequence is above
      the counter. */
  ghost predicate PendingAbove(s: System) {
    && s.m.sequence < s.nextSequence
    && (forall p :: p in s.pending ==> s.pending[p].1.Some? && s.m.sequence < s.pending[p].1.value < s.nextSequence)
    && (forall p, p' :: p in s.pending && p' in s.pending && p != p' ==> s.pending[p].1 != s.pending[p'].1)
  }

  lemma PendingAboveStep(s: System, step: Step, t: System)
    requires PendingAbove(s) && InOrder(s, step) && LogEffect(s, step, t)
    requires !step.Counted? && (step.Begin? ==> step.written)
    ensures PendingAbove(t)
  {
  }

  lemma InOrderSoFar(start: System, steps: seq<Step>, n: nat)
    requires Consistent(start.m) && n <= |steps| && AllLedgered(steps) && FinishInOrder(start, steps)
    ensures AllLedgered(steps[..n]) && FinishInOrder(start, steps[..n])
  {
    forall i | 0 <= i < n ensures InOrder(Run(start, steps[..n][..i]), steps[..n][i]) {
      assert steps[..n][..i] == steps[..i] && steps[..n][i] == steps[i];
      assert InOrder(Run(start, steps[..i]), steps[i]);
    }
  }

  lemma {:induction false} PendingStaysAbove(start: System, steps: seq<Step>)
    requires Consistent(start.m) && PendingAbove(start)
    requires AllLedgered(steps) && FinishInOrder(start, steps)
    ensures PendingAbove(Run(start, steps))
  {
    if steps != [] {
      var n := |steps| - 1;
      InOrderSoFar(start, steps, n);
      PendingStaysAbove(start, steps[..n]);
      StepLogEffect(Run(start, steps[..n]), steps[n]);
      PendingAboveStep(Run(start, steps[..n]), steps[n], Run(start, steps));
    }
  }

  /** Runs that only use the ledger and finish in sequence order: ids ascend. */
  lemma AllLedgeredInOrderAscends(bufferSize: nat, capacity: nat, top: nat, steps: seq<Step>)
    requires AllLedgered(steps)
    requires FinishInOrder(Started(bufferSize, capacity, true, top), steps)
    ensures IdsAscend(Run(Started(bufferSize, capacity, true, top), steps).published)
  {
    var start := Started(bufferSize, capacity, true, top);
    forall i | 0 <= i < |steps| ensures GuardHolds(Run(start, steps[..i]), steps[i]) {
      InOrderSoFar(start, steps, i);
      PendingStaysAbove(start, steps[..i]);
    }
    IdsAscendExactly(bufferSize, capacity, true, top, steps);
  }

  /** Mixing the two branches breaks the order: a system event published while a ledger
      write is suspended takes the very id the ledger has already given out. */
  lemma MixedBranchesCollide()
    ensures var tenant, system := Draft("a", "", None, Some("t")), Draft("b", "", None, None);
      Run(Started(10, 0, true, 0), [Begin(0, tenant, 0, true), Counted(system, 0.0), Finish(0, 0.0)]).published
        == [Numbered(system, 1), Numbered(tenant, 1)]
  {
    var tenant, system := Draft("a", "", None, Some("t")), Draft("b", "", None, None);
    var s0 := Started(10, 0, true, 0);
    var steps := [Begin(0, tenant, 0, true), Counted(system, 0.0), Finish(0, 0.0)];
    assert steps == [] + [steps[0]] + [steps[1]] + [steps[2]];
    RunOneMore(s0, [], steps[0]);
    RunOneMore(s0, [] + [steps[0]], steps[1]);
    RunOneMore(s0, [] + [steps[0]] + [steps[1]], steps[2]);
    var s1 := Next(s0, steps[0]);
    var s2 := Next(s1, steps[1]);
    assert s2.published == [Numbered(system, 1)];
    assert s2.pending[0] == (tenant, Some(1));
    assert Next(s2, steps[2]).published == [Numbered(system, 1)] + [Numbered(tenant, 1)];
  }
}
