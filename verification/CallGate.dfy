/**
  The gate that lets one call at a time reach a plugin that makes vectors
  (internal/app/meaning_source.go).  Calls come in two classes, cues and
  memories; a call that finds the gate held waits in its class's queue, and a
  call that lets go hands the gate straight to the next waiter.

  A call is one run of `take`, so its identity is used once.  Every step below
  is one critical section of the gate's mutex, or one thing the outside world
  does between them: time passing, a context being cancelled.
 */
module CallGate {
  import opened Basics

  // Two seconds, in the clock's milliseconds.
  const GATE_MARGIN: int := 2000

  // What the gate keeps about a waiting call.
  datatype Ticket = Ticket(id: nat, deadline: int)

  datatype Gate = Gate(held: bool, ends: int, cues: seq<Ticket>, memories: seq<Ticket>) {
    function QueueOf(cue: bool): seq<Ticket> {
      if cue then cues else memories
    }
  }

  const FREE := Gate(false, 0, [], [])

  /** The call the gate goes to next, if any waits: the first cue, else the first memory. */
  function Heir(g: Gate): Option<nat> {
    if g.cues != [] then Some(g.cues[0].id)
    else if g.memories != [] then Some(g.memories[0].id)
    else None
  }

  function HandOn(g: Gate, now: int): Gate {
    if g.cues != [] then
      g.(ends := now + g.cues[0].deadline, cues := g.cues[1..])
    else if g.memories != [] then
      g.(ends := now + g.memories[0].deadline, memories := g.memories[1..])
    else
      FREE
  }

  function Join(g: Gate, cue: bool, t: Ticket): Gate {
    if cue then g.(cues := g.cues + [t]) else g.(memories := g.memories + [t])
  }

  function Without(q: seq<Ticket>, id: nat): seq<Ticket> {
    if q == [] then []
    else if q[0].id == id then q[1..]
    else [q[0]] + Without(q[1..], id)
  }

  function Leave(g: Gate, cue: bool, id: nat): Gate {
    if cue then g.(cues := Without(g.cues, id)) else g.(memories := Without(g.memories, id))
  }

  datatype Outcome = Released | GivenUp | LeftBehind

  // `armed` is when a waiter's timer fires; `since` is when the gate came to
  // its owner, or when the owner last sent a request.
  datatype Phase =
    | Waiting(armed: int)
    | Handed(since: int)
    | Holding(since: int)
    | Done(outcome: Outcome)

  datatype Call = Call(cue: bool, deadline: int, cancelled: bool, phase: Phase) {
    predicate Owns() { phase.Handed? || phase.Holding? }
  }

  datatype State = State(now: int, gate: Gate, calls: map<nat, Call>)

  const INITIAL := State(0, FREE, map[])

  datatype Step =
    | Tick(elapsed: nat)
    | Cancel(id: nat)
    | Arrive(id: nat, cue: bool, deadline: int, cancelled: bool)
    | Wake(id: nat)
    | Sent(id: nat)
    | Release(id: nat)

  function Moved(calls: map<nat, Call>, id: nat, p: Phase): map<nat, Call>
    requires id in calls
  {
    calls[id := calls[id].(phase := p)]
  }

  // The gate is handed on: its heir, if it has one, owns it from now on.
  function Passed(s: State): State {
    var heir := Heir(s.gate);
    State(s.now, HandOn(s.gate, s.now),
      if heir.Some? && heir.value in s.calls then Moved(s.calls, heir.value, Handed(s.now)) else s.calls)
  }

  function Finished(s: State, id: nat, outcome: Outcome): State
    requires id in s.calls
  {
    s.(calls := Moved(s.calls, id, Done(outcome)))
  }

  function Left(s: State, id: nat, outcome: Outcome): State
    requires id in s.calls
  {
    Finished(s.(gate := Leave(s.gate, s.calls[id].cue, id)), id, outcome)
  }

  predicate Enabled(s: State, step: Step) {
    match step
    case Tick(_) => true
    case Cancel(id) => id in s.calls
    case Arrive(id, _, _, _) => id !in s.calls
    case Wake(id) =>
      && id in s.calls
      && var c := s.calls[id];
        c.phase.Handed? || (c.phase.Waiting? && (c.cancelled || c.phase.armed <= s.now))
    case Sent(id) => id in s.calls && s.calls[id].phase.Holding?
    case Release(id) => id in s.calls && s.calls[id].phase.Holding?
  }

  function Next(s: State, step: Step): State
    requires Enabled(s, step)
  {
    match step
    case Tick(elapsed) => s.(now := s.now + elapsed)
    case Cancel(id) => s.(calls := s.calls[id := s.calls[id].(cancelled := true)])
    case Arrive(id, cue, deadline, cancelled) =>
      if !s.gate.held then
        s.(gate := s.gate.(held := true, ends := s.now + deadline),
           calls := s.calls[id := Call(cue, deadline, cancelled, Holding(s.now))])
      else
        s.(gate := Join(s.gate, cue, Ticket(id, deadline)),
           calls := s.calls[id := Call(cue, deadline, cancelled, Waiting(s.gate.ends + GATE_MARGIN))])
    case Wake(id) =>
      var c := s.calls[id];
      if c.phase.Handed? then
        if c.cancelled then Passed(Finished(s, id, GivenUp))
        else s.(calls := Moved(s.calls, id, Holding(c.phase.since)))
      else if c.cancelled then Left(s, id, GivenUp)
      else if s.gate.ends + GATE_MARGIN <= s.now then Left(s, id, LeftBehind)
      else s.(calls := Moved(s.calls, id, Waiting(s.gate.ends + GATE_MARGIN)))
    case Sent(id) =>
      s.(gate := s.gate.(ends := s.now + s.calls[id].deadline),
         calls := Moved(s.calls, id, Holding(s.now)))
    case Release(id) => Passed(Finished(s, id, Released))
  }

  // ---------------------------------------------------------------- invariant

  predicate Queued(q: seq<Ticket>, id: nat) {
    exists i :: 0 <= i < |q| && q[i].id == id
  }

  predicate Distinct(q: seq<Ticket>) {
    forall i, j :: 0 <= i < j < |q| ==> q[i].id != q[j].id
  }

  // One class's queue holds exactly the waiting calls of that class.
  predicate QueueMatches(s: State, cue: bool) {
    var q := s.gate.QueueOf(cue);
    && Distinct(q)
    && (forall i :: 0 <= i < |q| ==>
          && q[i].id in s.calls
          && s.calls[q[i].id].phase.Waiting?
          && s.calls[q[i].id].cue == cue
          && s.calls[q[i].id].deadline == q[i].deadline)
    && (forall id :: id in s.calls && s.calls[id].phase.Waiting? && s.calls[id].cue == cue ==> Queued(q, id))
  }

  predicate NoOwner(s: State) {
    forall id :: id in s.calls ==> !s.calls[id].Owns()
  }

  predicate SoleOwner(s: State, owner: nat) {
    && owner in s.calls
    && s.calls[owner].Owns()
    && (forall id :: id in s.calls && s.calls[id].Owns() ==> id == owner)
  }

  // The clock the gate keeps is the owner's own.
  predicate ClockIsOwners(s: State, owner: nat)
    requires owner in s.calls && s.calls[owner].Owns()
  {
    && s.calls[owner].phase.since <= s.now
    && s.gate.ends == s.calls[owner].phase.since + s.calls[owner].deadline
  }

  ghost predicate Inv(s: State) {
    && QueueMatches(s, true)
    && QueueMatches(s, false)
    && (s.gate.held ==> exists owner :: SoleOwner(s, owner) && ClockIsOwners(s, owner))
    && (!s.gate.held ==> NoOwner(s) && s.gate.cues == [] && s.gate.memories == [])
  }

  lemma WithoutKeepsOthers(q: seq<Ticket>, id: nat)
    requires Distinct(q)
    ensures Distinct(Without(q, id)) && !Queued(Without(q, id), id)
    ensures forall t :: t in Without(q, id) <==> t in q && t.id != id
  {
    if q != [] && q[0].id != id {
      WithoutKeepsOthers(q[1..], id);
      var rest := Without(q[1..], id);
      assert forall i :: 0 <= i < |rest| ==> rest[i] in q[1..];
      assert Without(q, id) == [q[0]] + rest;
      assert forall t :: t in q <==> t == q[0] || t in q[1..];
    } else if q != [] {
      assert forall t :: t in q <==> t == q[0] || t in q[1..];
    }
  }

  lemma QueuedByTicket(q: seq<Ticket>, id: nat)
    ensures Queued(q, id) <==> exists t :: t in q && t.id == id
  {
    if Queued(q, id) {
      var i :| 0 <= i < |q| && q[i].id == id;
      assert q[i] in q;
    }
  }

  // A held gate without an owner, about to be handed on.
  predicate Ownerless(s: State) {
    QueueMatches(s, true) && QueueMatches(s, false) && s.gate.held && NoOwner(s)
  }

  lemma PassedKeeps(s: State)
    requires Ownerless(s)
    ensures Inv(Passed(s))
  {
    var s' := Passed(s);
    if Heir(s.gate).Some? {
      var heir := Heir(s.gate).value;
      assert heir in s.calls;
      assert SoleOwner(s', heir) && ClockIsOwners(s', heir);
      var served := s.gate.cues != [];
      var q := s.gate.QueueOf(served);
      assert s'.gate.QueueOf(served) == q[1..];
      forall id | id in s'.calls && s'.calls[id].phase.Waiting? && s'.calls[id].cue == served
        ensures Queued(q[1..], id)
      {
        var i :| 0 <= i < |q| && q[i].id == id;
        assert q[1..][i - 1].id == id;
      }
      assert QueueMatches(s', served);
      assert QueueMatches(s', !served);
    }
  }

  lemma {:induction false} WithoutCuts(q: seq<Ticket>, id: nat) returns (k: nat)
    requires Queued(q, id)
    ensures k < |q| && q[k].id == id && Without(q, id) == q[..k] + q[k + 1..]
  {
    if q[0].id == id {
      k := 0;
    } else {
      assert exists i :: 0 <= i < |q[1..]| && q[1..][i].id == id by {
        var i :| 0 <= i < |q| && q[i].id == id;
        assert q[1..][i - 1].id == id;
      }
      var n := WithoutCuts(q[1..], id);
      k := n + 1;
      assert q[..k] == [q[0]] + q[1..][..n] && q[1..][n + 1..] == q[k + 1..];
    }
  }

  /** A waiter that leaves takes its own place out of its queue; the others keep theirs, and the other
      queue, the other calls, the owner and its clock are as they were. */
  lemma LeaverLeavesTheRest(s: State, id: nat, outcome: Outcome) returns (k: nat)
    requires Inv(s) && id in s.calls && s.calls[id].phase.Waiting?
    ensures var s', cue := Left(s, id, outcome), s.calls[id].cue;
      var q := s.gate.QueueOf(cue);
      && k < |q| && q[k].id == id && s'.gate.QueueOf(cue) == q[..k] + q[k + 1..]
      && s'.gate.QueueOf(!cue) == s.gate.QueueOf(!cue)
      && s'.gate.held == s.gate.held && s'.gate.ends == s.gate.ends
      && s'.calls.Keys == s.calls.Keys && (forall x :: x in s.calls && x != id ==> s'.calls[x] == s.calls[x])
  {
    assert QueueMatches(s, s.calls[id].cue);
    k := WithoutCuts(s.gate.QueueOf(s.calls[id].cue), id);
  }

  lemma LeftKeeps(s: State, id: nat, outcome: Outcome)
    requires Inv(s) && id in s.calls && s.calls[id].phase.Waiting?
    ensures Inv(Left(s, id, outcome))
  {
    var s' := Left(s, id, outcome);
    var cue := s.calls[id].cue;
    var q, q' := s.gate.QueueOf(cue), s'.gate.QueueOf(cue);
    WithoutKeepsOthers(q, id);
    assert forall i :: 0 <= i < |q'| ==> q'[i] in q;
    forall other | other in s'.calls && s'.calls[other].phase.Waiting? && s'.calls[other].cue == cue
      ensures Queued(q', other)
    {
      QueuedByTicket(q, other);
      QueuedByTicket(q', other);
    }
    assert QueueMatches(s', cue);
    assert QueueMatches(s', !cue);
    assert s.gate.held;
    var owner :| SoleOwner(s, owner) && ClockIsOwners(s, owner);
    assert SoleOwner(s', owner) && ClockIsOwners(s', owner);
  }

  lemma JoinedKeeps(s: State, id: nat, cue: bool, deadline: int, cancelled: bool)
    requires Inv(s) && id !in s.calls && s.gate.held
    ensures Inv(Next(s, Arrive(id, cue, deadline, cancelled)))
  {
    var s' := Next(s, Arrive(id, cue, deadline, cancelled));
    var q, q' := s.gate.QueueOf(cue), s'.gate.QueueOf(cue);
    forall other | other in s'.calls && s'.calls[other].phase.Waiting? && s'.calls[other].cue == cue
      ensures Queued(q', other)
    {
      if other == id {
        assert q'[|q|].id == id;
      } else {
        var i :| 0 <= i < |q| && q[i].id == other;
        assert q'[i].id == other;
      }
    }
    assert QueueMatches(s', cue);
    assert QueueMatches(s', !cue);
    var owner :| SoleOwner(s, owner) && ClockIsOwners(s, owner);
    assert SoleOwner(s', owner) && ClockIsOwners(s', owner);
  }

  // A free gate taken at once.
  lemma TakenKeeps(s: State, id: nat, cue: bool, deadline: int, cancelled: bool)
    requires Inv(s) && Enabled(s, Arrive(id, cue, deadline, cancelled)) && !s.gate.held
    ensures Inv(Next(s, Arrive(id, cue, deadline, cancelled)))
  {
    var s' := Next(s, Arrive(id, cue, deadline, cancelled));
    assert SoleOwner(s', id) && ClockIsOwners(s', id);
    assert QueueMatches(s', true) && QueueMatches(s', false);
  }

  lemma WokenKeeps(s: State, id: nat)
    requires Inv(s) && Enabled(s, Wake(id))
    ensures Inv(Next(s, Wake(id)))
  {
    var c := s.calls[id];
    if c.phase.Handed? && c.cancelled {
      PassedKeeps(Finished(s, id, GivenUp));
    } else if c.phase.Waiting? && (c.cancelled || s.gate.ends + GATE_MARGIN <= s.now) {
      LeftKeeps(s, id, if c.cancelled then GivenUp else LeftBehind);
    } else {
      SameQueuesKeeps(s, Next(s, Wake(id)));
    }
  }

  /** Every step keeps the invariant. */
  lemma StepKeeps(s: State, step: Step)
    requires Inv(s) && Enabled(s, step)
    ensures Inv(Next(s, step))
  {
    var s' := Next(s, step);
    match step
    case Arrive(id, cue, deadline, cancelled) =>
      if s.gate.held {
        JoinedKeeps(s, id, cue, deadline, cancelled);
      } else {
        TakenKeeps(s, id, cue, deadline, cancelled);
      }
    case Wake(id) => WokenKeeps(s, id);
    case Release(id) =>
      PassedKeeps(Finished(s, id, Released));
    case Tick(_) => SameQueuesKeeps(s, s');
    case Cancel(_) => SameQueuesKeeps(s, s');
    case Sent(_) => SameQueuesKeeps(s, s');
  }

  // Steps that leave both queues, and who waits and who owns, as they were.
  lemma SameQueuesKeeps(s: State, s': State)
    requires Inv(s) && s'.calls.Keys == s.calls.Keys && s.now <= s'.now
    requires s'.gate.held == s.gate.held && s'.gate.cues == s.gate.cues && s'.gate.memories == s.gate.memories
    requires forall id :: id in s.calls ==>
      && s'.calls[id].cue == s.calls[id].cue
      && s'.calls[id].deadline == s.calls[id].deadline
      && s'.calls[id].phase.Waiting? == s.calls[id].phase.Waiting?
      && s'.calls[id].Owns() == s.calls[id].Owns()
      && (s.calls[id].Owns() ==>
            || (s'.calls[id].phase.since == s.calls[id].phase.since && s'.gate.ends == s.gate.ends)
            || (s'.calls[id].phase.since == s'.now && s'.gate.ends == s'.now + s'.calls[id].deadline))
    ensures Inv(s')
  {
    assert QueueMatches(s', true) && QueueMatches(s', false);
    if s.gate.held {
      var owner :| SoleOwner(s, owner) && ClockIsOwners(s, owner);
      assert SoleOwner(s', owner) && ClockIsOwners(s', owner);
    }
  }
}
