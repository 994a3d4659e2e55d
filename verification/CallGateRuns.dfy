/** What every run of the call gate keeps: one token, no stranded waiter, and who may pass whom. */
module CallGateRuns {
  import opened CallGate

  predicate IsRun(states: seq<State>, steps: seq<Step>) {
    && |states| == |steps| + 1
    && states[0] == INITIAL
    && forall i :: 0 <= i < |steps| ==> Enabled(states[i], steps[i]) && states[i + 1] == Next(states[i], steps[i])
  }

  lemma {:induction false} RunKeeps(states: seq<State>, steps: seq<Step>, i: nat)
    requires IsRun(states, steps) && i < |states|
    ensures Inv(states[i])
  {
    if i > 0 {
      RunKeeps(states, steps, i - 1);
      StepKeeps(states[i - 1], steps[i - 1]);
    }
  }

  function Owners(s: State): set<nat> {
    set id | id in s.calls && s.calls[id].Owns()
  }

  /** There is one token: the gate is held exactly when one call owns it, a free gate strands
      nobody, and the queues hold exactly the waiting calls. */
  lemma OneToken(states: seq<State>, steps: seq<Step>, i: nat)
    requires IsRun(states, steps) && i < |states|
    ensures |Owners(states[i])| == if states[i].gate.held then 1 else 0
    ensures !states[i].gate.held ==> forall id :: id in states[i].calls ==> states[i].calls[id].phase.Done?
    ensures forall id :: id in states[i].calls ==>
      (states[i].calls[id].phase.Waiting? <==> Queued(states[i].gate.QueueOf(states[i].calls[id].cue), id))
  {
    var s := states[i];
    RunKeeps(states, steps, i);
    if s.gate.held {
      var owner: nat :| SoleOwner(s, owner);
      assert Owners(s) == {owner};
    } else {
      assert Owners(s) == {};
    }
    forall id | id in s.calls && Queued(s.gate.QueueOf(s.calls[id].cue), id)
      ensures s.calls[id].phase.Waiting?
    {
      assert QueueMatches(s, s.calls[id].cue);
    }
  }

  // ------------------------------------------------------- a call's own course

  function Rank(s: State, id: nat): nat {
    if id !in s.calls then 0
    else match s.calls[id].phase
      case Waiting(_) => 1
      case Handed(_) => 2
      case Holding(_) => 3
      case Done(_) => 4
  }

  // A call keeps its class and deadline, and goes only forward; once it is
  // done its outcome stands, and one that owned the gate is not left behind.
  predicate Onward(s: State, s': State, id: nat) {
    && Rank(s, id) <= Rank(s', id)
    && (id in s.calls ==>
          && s'.calls[id].cue == s.calls[id].cue
          && s'.calls[id].deadline == s.calls[id].deadline
          && (s.calls[id].phase.Done? ==> s'.calls[id].phase == s.calls[id].phase)
          && (Rank(s, id) >= 2 && s.calls[id].phase != Done(LeftBehind) ==> s'.calls[id].phase != Done(LeftBehind)))
  }

  lemma StepOnward(s: State, step: Step, id: nat)
    requires Inv(s) && Enabled(s, step)
    ensures Onward(s, Next(s, step), id)
    ensures Rank(s, id) == 2 && Rank(Next(s, step), id) == 2 ==> s.calls[id].phase == Next(s, step).calls[id].phase
  {
    assert QueueMatches(s, true) && QueueMatches(s, false);
    if Heir(s.gate).Some? {
      assert s.calls[Heir(s.gate).value].phase.Waiting?;
    }
  }

  lemma {:induction false} RunOnward(states: seq<State>, steps: seq<Step>, i: nat, j: nat, id: nat)
    requires IsRun(states, steps) && i <= j < |states|
    ensures Onward(states[i], states[j], id)
    decreases j
  {
    if i < j {
      RunOnward(states, steps, i, j - 1, id);
      RunStepOnward(states, steps, j - 1, id);
    }
  }

  lemma RunStepOnward(states: seq<State>, steps: seq<Step>, i: nat, id: nat)
    requires IsRun(states, steps) && i < |steps|
    ensures Onward(states[i], states[i + 1], id)
  {
    RunKeeps(states, steps, i);
    StepOnward(states[i], steps[i], id);
  }

  // Step i of the run hands the gate to a waiting call.
  predicate Hands(states: seq<State>, i: nat, id: nat)
    requires i + 1 < |states|
  {
    Rank(states[i], id) != 2 && Rank(states[i + 1], id) == 2
  }

  /** No waiter is handed the gate twice: its channel is closed at most once. */
  lemma HandedOnce(states: seq<State>, steps: seq<Step>, i: nat, j: nat, id: nat)
    requires IsRun(states, steps) && i <= j < |steps|
    requires Hands(states, i, id) && Hands(states, j, id)
    ensures i == j
  {
    if i < j {
      RunOnward(states, steps, i + 1, j, id);
      RunOnward(states, steps, j, j + 1, id);
    }
  }

  /** A call that is done stays done: it is never queued, handed or holding again, and a call
      left behind never owned the gate at any time of the run. */
  lemma GoneForGood(states: seq<State>, steps: seq<Step>, i: nat, j: nat, id: nat)
    requires IsRun(states, steps) && i < |states| && j < |states|
    requires id in states[i].calls && states[i].calls[id].phase.Done?
    ensures i <= j ==> id in states[j].calls && states[j].calls[id].phase == states[i].calls[id].phase
    ensures i <= j ==> !Queued(states[j].gate.cues, id) && !Queued(states[j].gate.memories, id)
    ensures states[i].calls[id].phase == Done(LeftBehind) ==> id !in Owners(states[j])
  {
    if i <= j {
      RunOnward(states, steps, i, j, id);
      RunKeeps(states, steps, j);
      assert QueueMatches(states[j], true) && QueueMatches(states[j], false);
    } else {
      RunOnward(states, steps, j, i, id);
    }
  }

  /** A call that was handed the gate and gave up before using it passes it straight on. */
  lemma GivenUpPassesOn(states: seq<State>, steps: seq<Step>, i: nat, id: nat)
    requires IsRun(states, steps) && i < |steps| && steps[i] == Wake(id)
    requires states[i].calls[id].phase.Handed? && states[i].calls[id].cancelled
    ensures states[i + 1].calls[id].phase == Done(GivenUp)
    ensures Owners(states[i + 1]) ==
      match Heir(states[i].gate) case Some(heir) => {heir} case None => {}
  {
    var s, s' := states[i], states[i + 1];
    RunKeeps(states, steps, i);
    RunKeeps(states, steps, i + 1);
    assert QueueMatches(s, true) && QueueMatches(s, false);
    var owner :| SoleOwner(s, owner);
    assert owner == id;
  }

  // --------------------------------------------------------------- turned away

  // The call has had the gate, since it came to it or last sent, past its own deadline and the margin.
  predicate Overdue(s: State, owner: nat)
    requires owner in s.calls && s.calls[owner].Owns()
  {
    s.calls[owner].phase.since + s.calls[owner].deadline + GATE_MARGIN <= s.now
  }

  /** A waiter is turned away only while another call owns the gate and is overdue, and only if
      it was neither handed the gate nor cancelled. */
  lemma TurnedAwayOnlyBehind(states: seq<State>, steps: seq<Step>, i: nat, id: nat)
    requires IsRun(states, steps) && i < |steps|
    requires !(id in states[i].calls && states[i].calls[id].phase == Done(LeftBehind))
    requires id in states[i + 1].calls && states[i + 1].calls[id].phase == Done(LeftBehind)
    ensures id in states[i].calls && states[i].calls[id].phase.Waiting? && !states[i].calls[id].cancelled
    ensures exists owner :: SoleOwner(states[i], owner) && owner != id && Overdue(states[i], owner)
  {
    RunKeeps(states, steps, i);
    StepOnward(states[i], steps[i], id);
    assert QueueMatches(states[i], true) && QueueMatches(states[i], false);
    var owner :| SoleOwner(states[i], owner) && ClockIsOwners(states[i], owner);
  }

  // ---------------------------------------------------------------- overtaking

  predicate Waits(s: State, id: nat) {
    id in s.calls && s.calls[id].phase.Waiting?
  }

  function AheadIn(q: seq<Ticket>, id: nat): seq<nat> {
    if q == [] || q[0].id == id then [] else [q[0].id] + AheadIn(q[1..], id)
  }

  // The calls of its own class that joined before a waiting call and still wait.
  function Ahead(s: State, id: nat): seq<nat>
    requires id in s.calls
  {
    AheadIn(s.gate.QueueOf(s.calls[id].cue), id)
  }

  lemma AheadAfterJoin(q: seq<Ticket>, t: Ticket, id: nat)
    requires Queued(q, id)
    ensures AheadIn(q + [t], id) == AheadIn(q, id)
  {
    if q[0].id != id {
      assert (q + [t])[1..] == q[1..] + [t];
      var i :| 0 <= i < |q| && q[i].id == id;
      assert q[1..][i - 1].id == id;
      AheadAfterJoin(q[1..], t, id);
    }
  }

  lemma AheadAfterLeave(q: seq<Ticket>, gone: nat, id: nat)
    requires gone != id
    ensures |AheadIn(Without(q, gone), id)| <= |AheadIn(q, id)|
    ensures forall x :: x in AheadIn(Without(q, gone), id) ==> x in AheadIn(q, id)
  {
    if q != [] && q[0].id != gone && q[0].id != id {
      AheadAfterLeave(q[1..], gone, id);
      assert Without(q, gone)[1..] == Without(q[1..], gone);
    }
  }

  lemma AheadIsQueuedBefore(q: seq<Ticket>, id: nat, k: nat)
    requires Distinct(q) && k < |q| && q[k].id == id
    ensures AheadIn(q, id) == seq(k, i requires 0 <= i < k => q[i].id)
  {
    if k > 0 {
      assert q[0].id != id;
      AheadIsQueuedBefore(q[1..], id, k - 1);
    }
  }

  predicate Gains(s: State, s': State, id: nat) {
    id in s'.calls && s'.calls[id].Owns() && !(id in s.calls && s.calls[id].Owns())
  }

  // What a step can do to the queue a call stays in: nothing, another joins it at the back, another
  // leaves it, or its first, another call, is given the gate.
  predicate QueueMoved(q: seq<Ticket>, q': seq<Ticket>, step: Step, id: nat) {
    || q' == q
    || (step.Arrive? && q' == q + [Ticket(step.id, step.deadline)])
    || (step.Wake? && step.id != id && q' == Without(q, step.id))
    || FirstTaken(q, q', id)
  }

  predicate FirstTaken(q: seq<Ticket>, q': seq<Ticket>, id: nat) {
    q != [] && q[0].id != id && q' == q[1..]
  }

  lemma OneStepQueue(s: State, step: Step, id: nat, other: nat)
    requires Inv(s) && Enabled(s, step)
    requires Waits(s, id) && Waits(Next(s, step), id)
    ensures s.calls[id].cue == Next(s, step).calls[id].cue
    ensures var s', cue := Next(s, step), s.calls[id].cue;
      var q, q' := s.gate.QueueOf(cue), s'.gate.QueueOf(cue);
      && Queued(q, id) && QueueMoved(q, q', step, id)
      && (Gains(s, s', other) && s'.calls[other].cue == cue ==> FirstTaken(q, q', id) && q[0].id == other)
  {
    StepOnward(s, step, id);
    assert QueueMatches(s, true) && QueueMatches(s, false);
    assert Queued(s.gate.QueueOf(s.calls[id].cue), id);
  }

  lemma AheadAfterMove(q: seq<Ticket>, q': seq<Ticket>, step: Step, id: nat)
    requires Queued(q, id) && QueueMoved(q, q', step, id)
    ensures forall x :: x in AheadIn(q', id) ==> x in AheadIn(q, id)
    ensures |AheadIn(q', id)| <= |AheadIn(q, id)|
    ensures FirstTaken(q, q', id) ==> q[0].id in AheadIn(q, id) && |AheadIn(q', id)| < |AheadIn(q, id)|
  {
    if FirstTaken(q, q', id) {
      HeirWasAhead(q, id);
    } else if step.Arrive? && q' != q {
      AheadAfterJoin(q, Ticket(step.id, step.deadline), id);
    } else if q' != q {
      AheadAfterLeave(q, step.id, id);
    }
  }

  // One step seen by a call that waits before it and after it: nobody new gets ahead, and
  // whoever of its class gains the gate was ahead.
  lemma OneStepAhead(s: State, step: Step, id: nat, other: nat)
    requires Inv(s) && Enabled(s, step)
    requires Waits(s, id) && Waits(Next(s, step), id)
    ensures var s' := Next(s, step);
      && (forall x :: x in Ahead(s', id) ==> x in Ahead(s, id))
      && |Ahead(s', id)| <= |Ahead(s, id)|
      && (Gains(s, s', other) && s'.calls[other].cue == s.calls[id].cue ==>
            other in Ahead(s, id) && |Ahead(s', id)| < |Ahead(s, id)|)
  {
    OneStepQueue(s, step, id, other);
    var cue := s.calls[id].cue;
    AheadAfterMove(s.gate.QueueOf(cue), Next(s, step).gate.QueueOf(cue), step, id);
  }

  // No memory call gains the gate while a cue waits.
  lemma CuesGoFirst(s: State, step: Step, id: nat, other: nat)
    requires Inv(s) && Enabled(s, step)
    requires Waits(s, id) && Waits(Next(s, step), id) && Gains(s, Next(s, step), other)
    ensures Next(s, step).calls[other].cue || !s.calls[id].cue
  {
    assert QueueMatches(s, true) && QueueMatches(s, false);
    assert Queued(s.gate.QueueOf(s.calls[id].cue), id);
  }

  lemma HeirWasAhead(q: seq<Ticket>, id: nat)
    requires q != [] && q[0].id != id
    ensures AheadIn(q, id) == [q[0].id] + AheadIn(q[1..], id)
  {
  }

  // The call waits from state i to state j, both included.
  predicate WaitsThrough(states: seq<State>, i: nat, j: nat, id: nat)
    requires i <= j < |states|
  {
    forall k :: i <= k <= j ==> Waits(states[k], id)
  }

  ghost predicate Granted(s: State, s': State, cue: bool) {
    exists x :: Gains(s, s', x) && s'.calls[x].cue == cue
  }

  lemma OneStepShrinks(s: State, step: Step, s': State, id: nat)
    requires Inv(s) && Enabled(s, step) && s' == Next(s, step) && Waits(s, id) && Waits(s', id)
    ensures
      && s.calls[id].cue == s'.calls[id].cue
      && (forall x :: x in Ahead(s', id) ==> x in Ahead(s, id))
      && |Ahead(s', id)| + (if Granted(s, s', s.calls[id].cue) then 1 else 0) <= |Ahead(s, id)|
  {
    StepOnward(s, step, id);
    if x :| Gains(s, s', x) && s'.calls[x].cue == s.calls[id].cue {
      OneStepAhead(s, step, id, x);
    } else {
      OneStepAhead(s, step, id, id);
    }
  }

  // How many of the steps i..j gave the gate to a call of the given class.
  ghost function Grants(states: seq<State>, i: nat, j: nat, cue: bool): nat
    requires i <= j < |states|
    decreases j
  {
    if i == j then 0
    else
      Grants(states, i, j - 1, cue) + if Granted(states[j - 1], states[j], cue) then 1 else 0
  }

  lemma RunShrinks(states: seq<State>, steps: seq<Step>, i: nat, id: nat)
    requires IsRun(states, steps) && i < |steps| && Waits(states[i], id) && Waits(states[i + 1], id)
    ensures var s, s' := states[i], states[i + 1];
      && s.calls[id].cue == s'.calls[id].cue
      && (forall x :: x in Ahead(s', id) ==> x in Ahead(s, id))
      && |Ahead(s', id)| + (if Granted(s, s', s.calls[id].cue) then 1 else 0) <= |Ahead(s, id)|
  {
    RunKeeps(states, steps, i);
    OneStepShrinks(states[i], steps[i], states[i + 1], id);
  }

  lemma {:induction false} AheadOnlyShrinks(states: seq<State>, steps: seq<Step>, i: nat, j: nat, id: nat)
    requires IsRun(states, steps) && i <= j < |states| && WaitsThrough(states, i, j, id)
    ensures states[i].calls[id].cue == states[j].calls[id].cue
    ensures forall x :: x in Ahead(states[j], id) ==> x in Ahead(states[i], id)
    ensures |Ahead(states[j], id)| + Grants(states, i, j, states[i].calls[id].cue) <= |Ahead(states[i], id)|
    decreases j
  {
    if i < j {
      AheadOnlyShrinks(states, steps, i, j - 1, id);
      assert Waits(states[j - 1], id) && Waits(states[j], id);
      RunShrinks(states, steps, j - 1, id);
    }
  }

  /** Whoever gains the gate while a call waits was queued before it in its class, or is a cue
      passing a memory: a waiting cue is never passed by a memory call. */
  lemma OvertakenOnlyByElders(states: seq<State>, steps: seq<Step>, i: nat, j: nat, id: nat, other: nat)
    requires IsRun(states, steps) && i < j < |states| && WaitsThrough(states, i, j, id)
    requires Gains(states[j - 1], states[j], other)
    ensures other in Ahead(states[i], id) || (states[j].calls[other].cue && !states[i].calls[id].cue)
  {
    AheadOnlyShrinks(states, steps, i, j - 1, id);
    RunKeeps(states, steps, j - 1);
    OneStepAhead(states[j - 1], steps[j - 1], id, other);
    RunCuesFirst(states, steps, j - 1, id, other);
  }

  /** A waiting cue sees the gate given to others at most as often as calls stood ahead of it. */
  lemma CueWaitsItsTurn(states: seq<State>, steps: seq<Step>, i: nat, j: nat, id: nat)
    requires IsRun(states, steps) && i <= j < |states| && WaitsThrough(states, i, j, id)
    requires states[i].calls[id].cue
    ensures Grants(states, i, j, true) <= |Ahead(states[i], id)|
    ensures Grants(states, i, j, false) == 0
  {
    AheadOnlyShrinks(states, steps, i, j, id);
    NoMemoryPasses(states, steps, i, j, id);
  }

  lemma RunCuesFirst(states: seq<State>, steps: seq<Step>, i: nat, id: nat, other: nat)
    requires IsRun(states, steps) && i < |steps| && Waits(states[i], id) && Waits(states[i + 1], id)
    requires Gains(states[i], states[i + 1], other)
    ensures states[i + 1].calls[other].cue || !states[i].calls[id].cue
  {
    RunKeeps(states, steps, i);
    CuesGoFirst(states[i], steps[i], id, other);
  }

  lemma NoMemoryNow(states: seq<State>, steps: seq<Step>, i: nat, id: nat)
    requires IsRun(states, steps) && i < |steps| && Waits(states[i], id) && Waits(states[i + 1], id)
    requires states[i].calls[id].cue
    ensures !Granted(states[i], states[i + 1], false)
  {
    var s, s' := states[i], states[i + 1];
    if x :| Gains(s, s', x) && !s'.calls[x].cue {
      RunCuesFirst(states, steps, i, id, x);
    }
  }

  lemma {:induction false} NoMemoryPasses(states: seq<State>, steps: seq<Step>, i: nat, j: nat, id: nat)
    requires IsRun(states, steps) && i <= j < |states| && WaitsThrough(states, i, j, id)
    requires states[i].calls[id].cue
    ensures Grants(states, i, j, false) == 0
    decreases j
  {
    if i < j {
      NoMemoryPasses(states, steps, i, j - 1, id);
      AheadOnlyShrinks(states, steps, i, j - 1, id);
      NoMemoryNow(states, steps, j - 1, id);
    }
  }

  /** Each class is served first in, first out: of two calls in one queue the later one gains
      nothing while the earlier one waits. */
  lemma FirstInFirstOut(states: seq<State>, steps: seq<Step>, i: nat, j: nat, cue: bool, a: nat, b: nat)
    requires IsRun(states, steps) && i < j < |states|
    requires a < b < |states[i].gate.QueueOf(cue)|
    requires WaitsThrough(states, i, j, states[i].gate.QueueOf(cue)[a].id)
    ensures !Gains(states[j - 1], states[j], states[i].gate.QueueOf(cue)[b].id)
  {
    var q := states[i].gate.QueueOf(cue);
    RunKeeps(states, steps, i);
    assert QueueMatches(states[i], cue);
    assert states[i].calls[q[a].id].cue == cue;
    if Gains(states[j - 1], states[j], q[b].id) {
      OvertakenOnlyByElders(states, steps, i, j, q[a].id, q[b].id);
      RunOnward(states, steps, i, j, q[b].id);
      AheadIsQueuedBefore(q, q[a].id, a);
    }
  }

  // -------------------------------------------------------------- the owner's clock

  predicate OwnsAt(s: State, id: nat) { id in s.calls && s.calls[id].Owns() }

  lemma OneStepSince(s: State, step: Step, id: nat)
    requires Inv(s) && Enabled(s, step) && OwnsAt(s, id) && OwnsAt(Next(s, step), id)
    ensures s.calls[id].phase.since <= Next(s, step).calls[id].phase.since
    ensures Next(s, step).calls[id].deadline == s.calls[id].deadline
  {
    StepOnward(s, step, id);
    assert QueueMatches(s, true) && QueueMatches(s, false);
    var owner :| SoleOwner(s, owner) && ClockIsOwners(s, owner);
  }

  lemma {:induction false} SinceRises(states: seq<State>, steps: seq<Step>, i: nat, j: nat, id: nat)
    requires IsRun(states, steps) && i <= j < |states| && OwnsAt(states[i], id) && OwnsAt(states[j], id)
    ensures states[i].calls[id].phase.since <= states[j].calls[id].phase.since
    ensures states[j].calls[id].deadline == states[i].calls[id].deadline
    decreases j
  {
    if i < j {
      StillOwned(states, steps, i, j, id);
      SinceRises(states, steps, i, j - 1, id);
      RunSince(states, steps, j - 1, id);
    }
  }

  lemma RunSince(states: seq<State>, steps: seq<Step>, i: nat, id: nat)
    requires IsRun(states, steps) && i < |steps| && OwnsAt(states[i], id) && OwnsAt(states[i + 1], id)
    ensures states[i].calls[id].phase.since <= states[i + 1].calls[id].phase.since
    ensures states[i + 1].calls[id].deadline == states[i].calls[id].deadline
  {
    RunKeeps(states, steps, i);
    OneStepSince(states[i], steps[i], id);
  }

  // A call that owns the gate now and later owned it in between.
  lemma StillOwned(states: seq<State>, steps: seq<Step>, i: nat, j: nat, id: nat)
    requires IsRun(states, steps) && i < j < |states| && OwnsAt(states[i], id) && OwnsAt(states[j], id)
    ensures OwnsAt(states[j - 1], id)
  {
    RunOnward(states, steps, i, j - 1, id);
    RunStepOnward(states, steps, j - 1, id);
  }

  /** Gaining the gate, and each request the owner sends, start its time anew: nobody is turned away
      behind it before its whole deadline and the margin have passed since. */
  lemma TimeStartsAnew(states: seq<State>, steps: seq<Step>, i: nat, j: nat, owner: nat, other: nat)
    requires IsRun(states, steps) && i < j < |steps|
    requires steps[i] == Sent(owner) || Gains(states[i], states[i + 1], owner)
    requires OwnsAt(states[j], owner)
    requires steps[j] == Wake(other) && states[j + 1].calls[other].phase == Done(LeftBehind)
    ensures states[i].now + states[j].calls[owner].deadline + GATE_MARGIN <= states[j].now
  {
    RunKeeps(states, steps, i);
    RunKeeps(states, steps, i + 1);
    RunKeeps(states, steps, j);
    StartsNow(states[i], steps[i], owner);
    SinceRises(states, steps, i + 1, j, owner);
    assert QueueMatches(states[j], true) && QueueMatches(states[j], false);
    var o :| SoleOwner(states[j], o) && ClockIsOwners(states[j], o);
  }

  lemma StartsNow(s: State, step: Step, owner: nat)
    requires Inv(s) && Enabled(s, step) && (step == Sent(owner) || Gains(s, Next(s, step), owner))
    ensures OwnsAt(Next(s, step), owner) && Next(s, step).calls[owner].phase.since == s.now
  {
    assert QueueMatches(s, true) && QueueMatches(s, false);
  }

  /** What a wake comes to: a call handed the gate holds it, unless it was cancelled; a waiting one that
      was cancelled has given up; one whose owner is overdue is left behind; any other waits on. */
  lemma WakeComesTo(s: State, id: nat)
    requires Inv(s) && Enabled(s, Wake(id))
    ensures var c, p := s.calls[id], Next(s, Wake(id)).calls[id].phase;
      && (p.Holding? <==> c.phase.Handed? && !c.cancelled)
      && (p == Done(GivenUp) <==> c.cancelled)
      && (p == Done(LeftBehind) <==> c.phase.Waiting? && !c.cancelled && s.gate.ends + 2000 <= s.now)
      && (p.Waiting? <==> c.phase.Waiting? && !c.cancelled && s.now < s.gate.ends + 2000)
      && (p.Waiting? ==> p.armed == s.gate.ends + 2000)
  {
    assert QueueMatches(s, true) && QueueMatches(s, false);
  }

  /** An arrival takes a free gate at once and otherwise goes last in the queue of its class. */
  lemma ArrivalSays(s: State, id: nat, cue: bool, deadline: int, cancelled: bool)
    requires id !in s.calls
    ensures var s' := Next(s, Arrive(id, cue, deadline, cancelled));
      && (s'.calls[id].phase.Holding? <==> !s.gate.held) && (s'.calls[id].phase.Waiting? <==> s.gate.held)
      && (s.gate.held ==> s'.calls[id].phase.armed == s.gate.ends + 2000)
      && s'.calls[id].cue == cue && s'.calls[id].deadline == deadline && s'.calls[id].cancelled == cancelled
      && (s.gate.held ==>
            && s'.gate.QueueOf(cue) == s.gate.QueueOf(cue) + [Ticket(id, deadline)]
            && s'.gate.QueueOf(!cue) == s.gate.QueueOf(!cue))
      && s'.gate.held
  {
  }

  /** A release goes to the first waiting cue, else the first waiting memory, and with none waiting
      leaves the gate free. */
  lemma ReleaseSays(s: State, id: nat)
    requires Inv(s) && Enabled(s, Release(id))
    ensures var s' := Next(s, Release(id));
      && s'.calls[id].phase == Done(Released)
      && (s.gate.cues != [] ==> OwnsAt(s', s.gate.cues[0].id) && s'.gate.cues == s.gate.cues[1..] && s'.gate.memories == s.gate.memories)
      && (s.gate.cues == [] && s.gate.memories != [] ==>
            OwnsAt(s', s.gate.memories[0].id) && s'.gate.memories == s.gate.memories[1..] && s'.gate.cues == [])
      && (s.gate.cues == [] && s.gate.memories == [] ==> !s'.gate.held)
  {
    assert QueueMatches(s, true) && QueueMatches(s, false);
  }

  function Times(steps: seq<Step>): int {
    if steps == [] then 0
    else
      var last := steps[|steps| - 1];
      Times(steps[..|steps| - 1]) + if last.Tick? then last.elapsed else 0
  }

  predicate CallsOff(step: Step, id: nat) {
    step == Cancel(id) || (step.Arrive? && step.id == id && step.cancelled)
  }

  lemma StepCancels(s: State, step: Step, id: nat)
    requires Inv(s) && Enabled(s, step)
    ensures id in Next(s, step).calls <==> id in s.calls || (step.Arrive? && step.id == id)
    ensures id in Next(s, step).calls ==>
      (Next(s, step).calls[id].cancelled <==> (id in s.calls && s.calls[id].cancelled) || CallsOff(step, id))
  {
  }

  lemma RunCancels(states: seq<State>, steps: seq<Step>, i: nat, id: nat)
    requires IsRun(states, steps) && i < |steps|
    ensures id in states[i + 1].calls <==> id in states[i].calls || (steps[i].Arrive? && steps[i].id == id)
    ensures id in states[i + 1].calls ==>
      (states[i + 1].calls[id].cancelled <==> (id in states[i].calls && states[i].calls[id].cancelled) || CallsOff(steps[i], id))
    ensures CallsOff(steps[i], id) ==> id in states[i + 1].calls
    ensures states[i + 1].now == states[i].now + if steps[i].Tick? then steps[i].elapsed else 0
  {
    RunKeeps(states, steps, i);
    StepCancels(states[i], steps[i], id);
  }

  /** A call counts as cancelled exactly when it arrived so or was cancelled since, and the clock shows
      the time that passed. */
  lemma {:induction false} CancelledIff(states: seq<State>, steps: seq<Step>, i: nat, id: nat)
    requires IsRun(states, steps) && i < |states|
    ensures id in states[i].calls && states[i].calls[id].cancelled <==> exists k :: 0 <= k < i && CallsOff(steps[k], id)
    ensures states[i].now == Times(steps[..i])
  {
    if i > 0 {
      CancelledIff(states, steps, i - 1, id);
      RunCancels(states, steps, i - 1, id);
      assert steps[..i][..i - 1] == steps[..i - 1];
    }
  }
}
