/** What every run of a plugin's event stream keeps, whatever the delivering goroutine does
    between an emitter's moves. */
module EventStreamRuns {
  import opened EventStream

  predicate IsRun(states: seq<State>, steps: seq<Step>) {
    && |states| == |steps| + 1
    && states[0] == INITIAL
    && forall i :: 0 <= i < |steps| ==> Enabled(states[i], steps[i]) && states[i + 1] == Next(states[i], steps[i])
  }

  lemma {:induction false} RunKeeps(states: seq<State>, steps: seq<Step>, i: nat)
    requires IsRun(states, steps) && i < |states|
    ensures Inv(states[i])
  {
    if i > 0 {
      RunKeeps(states, steps, i - 1);
      StepKeeps(states[i - 1], steps[i - 1]);
    }
  }

  /** Conservation: between operations on a stream that is neither stopped nor exhausted, what
      was emitted, or refused for want of an attribution or a current generation, is accepted,
      counted lost, queued, or the one in flight. */
  lemma EventsAreConserved(states: seq<State>, steps: seq<Step>, i: nat)
    requires IsRun(states, steps) && i < |states|
    requires !states[i].sub.exhausted && !states[i].sub.stopped && states[i].hand.Idle?
    ensures var s := states[i];
      s.sub.emitted + s.tally.unattributed + s.tally.stale
      == s.tally.accepted + s.sub.loss + |Waiting(s)| + Flying(s)
  {
    RunKeeps(states, steps, i);
  }

  /** A reader that is shown everything settled and nothing lost knows every event of the
      generation was accepted: nothing is queued, in flight, unattributed or stale. */
  lemma AllSettledNoLossMeansAllAccepted(states: seq<State>, steps: seq<Step>, i: nat,
                                         g: nat, newStream: StreamName, sessionId: string, refused: string)
    requires IsRun(states, steps) && i < |states| && states[i].hand.Idle?
    requires var view := Look(states[i].sub, g, newStream, sessionId, refused).1;
      view.Available? && view.settled == view.emitted && view.loss == 0
    ensures var s := Next(states[i], Snapshot(g, newStream));
      && s.tally.accepted == s.sub.emitted
      && Waiting(s) == [] && Flying(s) == 0
      && s.tally.unattributed == 0 && s.tally.stale == 0
  {
    RunKeeps(states, steps, i);
    NewGenerationKeeps(states[i], g, newStream);
  }

  predicate Uncounted(s: State) {
    && s.sub.stopped && !s.sub.exhausted && s.sub.emitted == 1
    && OnTheWay(s) == 0 && s.tally.accepted + s.sub.loss == 0
  }

  /** Once stopped, a delivery that comes back is counted by nobody: here one event was emitted,
      and it is neither accepted, nor lost, nor on the way. */
  lemma AStopBreaksConservation()
    ensures exists states, steps :: IsRun(states, steps) && Uncounted(states[|states| - 1])
  {
    var steps := [EmitToolCall(1, false, 1), Put, Take, Stop, Finish(true)];
    var s0 := INITIAL;
    var s1 := Next(s0, steps[0]);
    var s2 := Next(s1, steps[1]);
    var s3 := Next(s2, steps[2]);
    var s4 := Next(s3, steps[3]);
    var s5 := Next(s4, steps[4]);
    var states := [s0, s1, s2, s3, s4, s5];
    assert s5.sub.queue == [];
    assert IsRun(states, steps) && Uncounted(states[|states| - 1]);
  }

  // The law, wherever the emitter and the consumer stand.
  predicate Balanced(s: State) {
    s.sub.emitted + s.tally.unattributed + s.tally.stale == s.tally.accepted + s.sub.loss + OnTheWay(s)
  }

  // A delivery of the current generation comes back to a subscriber already stopped.
  predicate ComesBackStopped(s: State, step: Step) {
    step.Finish? && s.sub.stopped && Flying(s) == 1
  }

  // Only that step goes uncounted, and a new generation starts with nothing uncounted.
  lemma OneStepAbandons(s: State, step: Step)
    requires Enabled(s, step)
    ensures var s' := Next(s, step);
      if s'.sub.generation == s.sub.generation
      then s'.tally.abandoned == s.tally.abandoned + if ComesBackStopped(s, step) then 1 else 0
      else s.sub.generation < s'.sub.generation && s'.tally.abandoned == 0
  {
  }

  /** One step breaks the law exactly when it brings a delivery back to a stopped subscriber. */
  lemma OneStepBalancedIff(s: State, step: Step)
    requires Inv(s) && Enabled(s, step) && Balanced(s) && !s.sub.exhausted && !Next(s, step).sub.exhausted
    requires Next(s, step).sub.generation == s.sub.generation
    ensures Balanced(Next(s, step)) <==> !ComesBackStopped(s, step)
  {
    StepKeeps(s, step);
    OneStepAbandons(s, step);
  }

  ghost predicate CameBackStopped(states: seq<State>, steps: seq<Step>, i: nat)
    requires |states| == |steps| + 1 && i < |states|
  {
    exists k :: (
      && 0 <= k < i && states[k].sub.generation == states[i].sub.generation
      && ComesBackStopped(states[k], steps[k]))
  }

  lemma {:induction false} AbandonedIff(states: seq<State>, steps: seq<Step>, i: nat)
    requires IsRun(states, steps) && i < |states|
    ensures states[i].tally.abandoned > 0 <==> CameBackStopped(states, steps, i)
    ensures forall k :: 0 <= k < i ==> states[k].sub.generation <= states[i].sub.generation
  {
    if i > 0 {
      AbandonedIff(states, steps, i - 1);
      OneStepAbandons(states[i - 1], steps[i - 1]);
      if states[i].sub.generation == states[i - 1].sub.generation && states[i].tally.abandoned > 0 {
        if ComesBackStopped(states[i - 1], steps[i - 1]) {
          assert CameBackStopped(states, steps, i);
        }
      }
    }
  }

  /** While the stream is not exhausted the law holds exactly when no delivery of this generation
      came back after the stop. */
  lemma ConservedIffNoneCameBackStopped(states: seq<State>, steps: seq<Step>, i: nat)
    requires IsRun(states, steps) && i < |states| && !states[i].sub.exhausted
    ensures Balanced(states[i]) <==> !CameBackStopped(states, steps, i)
  {
    RunKeeps(states, steps, i);
    AbandonedIff(states, steps, i);
  }

  /** The current generation's queued events are the last ones emitted, one after another, all on
      the current stream, and everything already settled lies before them. */
  lemma QueueIsTheLatestRun(states: seq<State>, steps: seq<Step>, i: nat)
    requires IsRun(states, steps) && i < |states| && states[i].hand.Idle?
    ensures var s := states[i];
      && Waiting(s) == seq(|Waiting(s)|, k => s.sub.emitted - |Waiting(s)| + 1 + k)
      && s.sub.settled <= s.sub.emitted - |Waiting(s)|
      && |s.sub.queue| <= QUEUE_ROOM
      && forall k :: 0 <= k < |s.sub.queue| && s.sub.queue[k].Counts(s.sub.generation) ==>
           s.sub.queue[k].stream == s.sub.stream
  {
    RunKeeps(states, steps, i);
    var s := states[i];
    assert forall k :: 0 <= k < |s.sub.queue| ==> Known(s.sub, s.sub.queue[k]);
  }

  /** The guards against the impossible never fire: after a drop there is room, and a delivery
      that comes back is the next one to settle.  So a stream is exhausted only by a full counter. */
  lemma GuardsNeverFire(states: seq<State>, steps: seq<Step>, i: nat)
    requires IsRun(states, steps) && i < |states|
    ensures states[i].hand.Emptied? ==> |states[i].sub.queue| < QUEUE_ROOM
    ensures Flying(states[i]) == 1 ==>
      states[i].sub.settled < states[i].inFlight.value.sequence <= states[i].sub.emitted
    ensures states[i].sub.exhausted ==>
      states[i].sub.emitted == MAX_COUNTER || states[i].sub.loss == MAX_COUNTER
  {
    RunKeeps(states, steps, i);
  }

  // Generations only rise, and within one the counters only rise.
  predicate Onward(s: Subscriber, s': Subscriber) {
    && s.generation <= s'.generation
    && (s.generation == s'.generation ==>
          s.emitted <= s'.emitted && s.settled <= s'.settled && s.loss <= s'.loss && (s.exhausted ==> s'.exhausted))
  }

  lemma {:induction false} RunOnward(states: seq<State>, steps: seq<Step>, i: nat, j: nat)
    requires IsRun(states, steps) && i <= j < |states|
    ensures Onward(states[i].sub, states[j].sub)
    decreases j
  {
    if i < j {
      RunOnward(states, steps, i, j - 1);
      RunKeeps(states, steps, j - 1);
      StepOnward(states[j - 1], steps[j - 1]);
    }
  }

  lemma StepOnward(s: State, step: Step)
    requires Inv(s) && Enabled(s, step)
    ensures Onward(s.sub, Next(s, step).sub)
  {
  }

  // Step i settles a delivery of the generation current at that step.
  predicate Settles(states: seq<State>, steps: seq<Step>, i: nat)
    requires i < |steps| && i < |states|
  {
    steps[i].Finish? && !states[i].sub.stopped && Flying(states[i]) == 1
  }

  /** Deliveries settle in the order they were emitted: within a generation the settled
      sequences strictly rise. */
  lemma SettledSequencesRise(states: seq<State>, steps: seq<Step>, i: nat, j: nat)
    requires IsRun(states, steps) && i < j < |steps|
    requires Settles(states, steps, i) && Settles(states, steps, j)
    requires states[i].sub.generation == states[j].sub.generation
    ensures states[i + 1].sub.settled == states[i].inFlight.value.sequence
    ensures states[i].inFlight.value.sequence < states[j].inFlight.value.sequence
  {
    RunKeeps(states, steps, i);
    RunKeeps(states, steps, j);
    RunOnward(states, steps, i, i + 1);
    RunOnward(states, steps, i + 1, j);
  }
}
