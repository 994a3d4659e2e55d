/** What every run of the outbox keeps, through crashes, failed writes and boots. */
module OutboxRuns {
  import opened Outbox

  predicate IsRun(states: seq<State>, steps: seq<Step>) {
    && |states| == |steps| + 1
    && states[0] == INITIAL
    && forall i :: 0 <= i < |steps| ==> Enabled(states[i], steps[i]) && states[i + 1] == Next(states[i], steps[i])
  }

  lemma {:induction false} RunKeeps(states: seq<State>, steps: seq<Step>, i: nat)
    requires IsRun(states, steps) && i < |states|
    ensures Inv(states[i])
  {
    if i > 0 {
      RunKeeps(states, steps, i - 1);
      StepKeeps(states[i - 1], steps[i - 1]);
    }
  }

  /** A message has at most one send, or showing, that may have reached somebody. */
  lemma AtMostOneMayHaveLeft(states: seq<State>, steps: seq<Step>, i: nat, m: nat)
    requires IsRun(states, steps) && i < |states| && m in states[i].messages
    ensures states[i].messages[m].left <= 1
  {
    RunKeeps(states, steps, i);
  }

  // A message is never lost, what may have left stays counted, and what is settled stays settled.
  predicate Onward(s: State, s': State, m: nat)
    requires m in s.messages
  {
    && m in s'.messages
    && s.messages[m].left <= s'.messages[m].left
    && (s.messages[m].row.delivered ==> s'.messages[m].row.delivered)
    && (s.messages[m].row.effect == Unknown ==> s'.messages[m].row.effect == Unknown)
    && (s.messages[m].row.parked ==> s'.messages[m].row.parked)
  }

  lemma StepOnward(s: State, step: Step, m: nat)
    requires Inv(s) && Enabled(s, step) && m in s.messages
    ensures Onward(s, Next(s, step), m)
  {
    forall w | w in s.workers && s.workers[w] != Idle
      ensures HolderFits(s.messages[s.workers[w].claim.message], s.workers[w])
    {
    }
  }

  lemma {:induction false} RunOnward(states: seq<State>, steps: seq<Step>, i: nat, j: nat, m: nat)
    requires IsRun(states, steps) && i <= j < |states| && m in states[i].messages
    ensures Onward(states[i], states[j], m)
    decreases j
  {
    if i < j {
      RunOnward(states, steps, i, j - 1, m);
      RunKeeps(states, steps, j - 1);
      StepOnward(states[j - 1], steps[j - 1], m);
    }
  }

  // Step i begins a send of the message, or shows it on the page.
  predicate Tries(states: seq<State>, steps: seq<Step>, i: nat, m: nat)
    requires i < |steps| && i < |states|
  {
    (steps[i].BeginSend? || steps[i].Shown?) && steps[i].w in states[i].workers && states[i].Works(steps[i].w, m)
  }

  /** Once a send may have reached somebody, no other channel and no later pass tries again. */
  lemma NothingTriedAfter(states: seq<State>, steps: seq<Step>, i: nat, j: nat, m: nat)
    requires IsRun(states, steps) && i <= j < |steps|
    requires m in states[i].messages && states[i].messages[m].left > 0
    ensures !Tries(states, steps, j, m)
  {
    RunOnward(states, steps, i, j, m);
    RunKeeps(states, steps, j);
    assert Tries(states, steps, j, m) ==> HolderFits(states[j].messages[m], states[j].workers[steps[j].w]);
  }

  /** After a crash in the middle of a send, the message may have left, and nothing sends it again
      whether or not a boot gets to park it. */
  lemma CrashInASendIsTheLast(states: seq<State>, steps: seq<Step>, i: nat, j: nat, w: nat)
    requires IsRun(states, steps) && i < j < |steps|
    requires steps[i] == Crash && w in states[i].workers && states[i].workers[w].Sending?
    ensures !Tries(states, steps, j, states[i].workers[w].claim.message)
  {
    var m := states[i].workers[w].claim.message;
    RunKeeps(states, steps, i);
    assert m in CutShort(states[i]);
    NothingTriedAfter(states, steps, i + 1, j, m);
  }

  // Nobody holds the message, and it is in flight or parked with its effect unknown.
  ghost predicate Orphaned(s: State, m: nat) {
    && m in s.messages && !s.messages[m].row.delivered
    && (s.messages[m].row.InFlight() || s.messages[m].row.effect == Unknown)
    && forall w :: !s.Works(w, m)
  }

  // Only a boot that writes takes such a message out of flight, and it leaves it unknown.
  lemma OrphanStep(s: State, step: Step, m: nat)
    requires Inv(s) && Enabled(s, step) && Orphaned(s, m)
    ensures var s' := Next(s, step);
      && Orphaned(s', m)
      && (s.messages[m].row.InFlight() && !s'.messages[m].row.InFlight() ==>
            step.Boot? && !step.writeFails && s'.messages[m].row.effect == Unknown)
  {
    var s' := Next(s, step);
    assert RowFits(s.messages[m].row);
    forall w | w in s.workers && s.workers[w] != Idle
      ensures s.workers[w].claim.message != m
    {
      assert !s.Works(w, m);
    }
    assert forall w :: !s'.Works(w, m);
  }

  lemma {:induction false} OrphanedOn(states: seq<State>, steps: seq<Step>, i: nat, j: nat, m: nat)
    requires IsRun(states, steps) && i <= j < |states| && Orphaned(states[i], m)
    ensures Orphaned(states[j], m)
    decreases j
  {
    if i < j {
      OrphanedOn(states, steps, i, j - 1, m);
      RunKeeps(states, steps, j - 1);
      OrphanStep(states[j - 1], steps[j - 1], m);
    }
  }

  // Step i ends a worker's claim on the message without its outcome being written.
  predicate Unwritten(states: seq<State>, steps: seq<Step>, i: nat, m: nat)
    requires i < |steps| && i < |states|
  {
    && (steps[i].WriteOutcome? || steps[i].WalkEnds? || steps[i].NotShown?) && steps[i].writeFails
    && states[i].Works(steps[i].w, m)
  }

  /** An outcome that could not be written leaves the message in flight with nobody holding it.  In
      every later state it is not delivered and is in flight or unknown, and the step that takes it
      out of flight is a boot, which leaves its effect unknown. */
  lemma UnwrittenStaysInFlight(states: seq<State>, steps: seq<Step>, i: nat, j: nat, m: nat)
    requires IsRun(states, steps) && i < j < |states| && Unwritten(states, steps, i, m)
    ensures Orphaned(states[j], m)
    ensures steps[i].WriteOutcome? ==> states[j].messages[m].left == 1
    ensures j < |steps| && states[j].messages[m].row.InFlight() && !states[j + 1].messages[m].row.InFlight() ==>
      steps[j].Boot? && !steps[j].writeFails && states[j + 1].messages[m].row.effect == Unknown
  {
    RunKeeps(states, steps, i);
    assert HolderFits(states[i].messages[m], states[i].workers[steps[i].w]);
    var s, s' := states[i], states[i + 1];
    assert forall w :: s.Works(w, m) ==> w == steps[i].w;
    assert forall w :: !s'.Works(w, m);
    OrphanedOn(states, steps, i + 1, j, m);
    RunKeeps(states, steps, j);
    RunOnward(states, steps, i, j, m);
    if j < |steps| {
      OrphanStep(states[j], steps[j], m);
    }
  }

  /** A refused walk gives the message back to the queue, unparked, until its attempts run out: the
      claim is settled and the next one is granted at a later time than this one. */
  lemma RefusedWalkRequeues(r: Row, d: Dispatch, now: int, later: int)
    requires Holds(r, d) && !r.delivered && !r.parked && r.attempts + 1 < MAX_ATTEMPTS
    ensures var r' := SettledBy(r, d, now, MarkRefused(false));
      r'.Walkable() && r'.attempts == r.attempts + 1 && d.at < ClaimTime(r', later) && !Holds(Claimed(r', later), d)
  {
  }

  /** A claim taken and given back unshown leaves a row that may be claimed just as before. */
  lemma ReleaseUndoesAClaim(r: Row, now: int, m: nat)
    requires !r.InFlight()
    ensures Released(Claimed(r, now), Dispatch(m, ClaimTime(r, now), r.dispatched)) == r
  {
  }
}
