/** The gate as the object the source keeps: its critical sections, each proved to make the move
    the protocol of module CallGate makes. */
module CallGateLock {
  import opened Basics
  import opened CallGate

  // A waiting call's side of the gate; `handed` stands for its closed channel.
  class Waiter {
    const ticket: Ticket
    var handed: bool

    constructor (ticket: Ticket)
      ensures this.ticket == ticket && !handed
    {
      this.ticket := ticket;
      handed := false;
    }
  }

  function Tickets(q: seq<Waiter>): seq<Ticket> {
    seq(|q|, i requires 0 <= i < |q| => q[i].ticket)
  }

  // What a waiter finds when it looks again.
  datatype Found = Got | Gone(outcome: Outcome) | Again(bound: int)

  // It tells the call what it has come to.
  predicate FoundAs(found: Found, p: Phase) {
    match found
    case Got => p.Holding?
    case Gone(outcome) => p == Done(outcome)
    case Again(bound) => p == Waiting(bound)
  }

  method Removed(q: seq<Waiter>, w: Waiter) returns (rest: seq<Waiter>)
    requires Distinct(Tickets(q)) && w in q
    ensures Tickets(rest) == Without(Tickets(q), w.ticket.id)
    ensures forall x :: x in rest ==> x in q && x != w
  {
    for i := 0 to |q|
      invariant w in q[i..]
      invariant forall j :: 0 <= j < i ==> q[j] != w && Tickets(q)[j].id != w.ticket.id
    {
      if q[i] == w {
        rest := q[..i] + q[i + 1..];
        WithoutAt(Tickets(q), w.ticket.id, i);
        assert Tickets(rest) == Tickets(q)[..i] + Tickets(q)[i + 1..];
        forall x | x in rest
          ensures x in q && x != w
        {
          var k :| 0 <= k < |rest| && rest[k] == x;
          if k >= i {
            assert rest[k] == q[k + 1] && Tickets(q)[k + 1].id != Tickets(q)[i].id;
          }
        }
        return;
      }
      var at :| i <= at < |q| && q[at] == w;
      assert at != i && Tickets(q)[at].id != Tickets(q)[i].id;
    }
  }

  lemma WithoutAt(q: seq<Ticket>, id: nat, i: nat)
    requires i < |q| && q[i].id == id && forall j :: 0 <= j < i ==> q[j].id != id
    ensures Without(q, id) == q[..i] + q[i + 1..]
  {
    if i > 0 {
      WithoutAt(q[1..], id, i - 1);
      assert [q[0]] + (q[1..][..i - 1] + q[1..][i..]) == q[..i] + q[i + 1..];
    }
  }

  class Lock {
    var held: bool
    var ends: int
    var cues: seq<Waiter>
    var memories: seq<Waiter>

    // Nobody queued has been handed the gate, no call is queued twice, and a free gate has no queue.
    ghost predicate Valid()
      reads this, cues, memories
    {
      && (forall w :: w in cues ==> !w.handed)
      && (forall w :: w in memories ==> !w.handed)
      && Distinct(Tickets(cues)) && Distinct(Tickets(memories))
      && (forall a, b :: a in cues && b in memories ==> a.ticket.id != b.ticket.id)
      && (!held ==> cues == [] && memories == [] && ends == 0)
    }

    ghost function Model(): Gate
      reads this
    {
      Gate(held, ends, Tickets(cues), Tickets(memories))
    }

    constructor ()
      ensures Valid() && Model() == FREE
    {
      held, ends, cues, memories := false, 0, [], [];
    }

    // The first critical section of `take`: the gate at once, or a place in a queue.
    method Enter(now: int, cue: bool, id: nat, deadline: int, ghost s: State, ghost cancelled: bool)
      returns (w: Waiter?, bound: int)
      requires Valid() && s.gate == Model() && s.now == now && id !in s.calls
      requires forall x :: x in cues ==> x.ticket.id != id
      requires forall x :: x in memories ==> x.ticket.id != id
      modifies this
      ensures Valid()
      ensures w == null <==> !old(held)
      ensures w == null ==> Model() == old(Model()).(held := true, ends := now + deadline)
      ensures w != null ==> fresh(w) && w.ticket == Ticket(id, deadline) && !w.handed
      ensures w != null ==> Model() == Join(old(Model()), cue, w.ticket) && bound == ends + GATE_MARGIN
      ensures var s' := Next(s, Arrive(id, cue, deadline, cancelled));
        && Model() == s'.gate
        && s'.calls[id].phase == if w == null then Holding(now) else Waiting(bound)
    {
      if !held {
        held, ends := true, now + deadline;
        return null, 0;
      }
      w := new Waiter(Ticket(id, deadline));
      assert forall i :: 0 <= i < |cues| ==> cues[i] in cues && Tickets(cues)[i].id != id;
      assert forall i :: 0 <= i < |memories| ==> memories[i] in memories && Tickets(memories)[i].id != id;
      if cue {
        cues := cues + [w];
      } else {
        memories := memories + [w];
      }
      assert Tickets(cues + [w]) == Tickets(cues) + [w.ticket];
      assert Tickets(memories + [w]) == Tickets(memories) + [w.ticket];
      bound := ends + GATE_MARGIN;
    }

    // A later critical section of `take`, after the waiter woke.
    method Recheck(w: Waiter, cue: bool, now: int, cancelled: bool, ghost s: State) returns (found: Found)
      requires Valid() && held && Inv(s) && s.gate == Model() && s.now == now && Enabled(s, Wake(w.ticket.id))
      requires var c := s.calls[w.ticket.id]; c.cue == cue && c.cancelled == cancelled && (c.phase.Handed? <==> w.handed)
      requires w.handed || w in (if cue then cues else memories)
      modifies this, cues, memories
      ensures Valid()
      ensures old(w.handed) && cancelled ==>
        found == Gone(GivenUp) && Model() == HandOn(old(Model()), now)
      ensures old(w.handed) && !cancelled ==> found == Got && Model() == old(Model())
      ensures !old(w.handed) ==> !w.handed
      ensures !old(w.handed) && cancelled ==>
        found == Gone(GivenUp) && Model() == Leave(old(Model()), cue, w.ticket.id)
      ensures !old(w.handed) && !cancelled && old(ends) + GATE_MARGIN <= now ==>
        found == Gone(LeftBehind) && Model() == Leave(old(Model()), cue, w.ticket.id)
      ensures !old(w.handed) && !cancelled && now < old(ends) + GATE_MARGIN ==>
        found == Again(ends + GATE_MARGIN) && Model() == old(Model())
      ensures Model() == Next(s, Wake(w.ticket.id)).gate
      ensures FoundAs(found, Next(s, Wake(w.ticket.id)).calls[w.ticket.id].phase)
    {
      if w.handed {
        if cancelled {
          assert QueueMatches(s, true) && QueueMatches(s, false);
          PassOn(now);
          return Gone(GivenUp);
        }
        return Got;
      }
      if !cancelled && now < ends + GATE_MARGIN {
        return Again(ends + GATE_MARGIN);
      }
      WithoutKeepsOthers(Tickets(if cue then cues else memories), w.ticket.id);
      if cue {
        cues := Removed(cues, w);
      } else {
        memories := Removed(memories, w);
      }
      found := Gone(if cancelled then GivenUp else LeftBehind);
    }

    method Sent(now: int, deadline: int, ghost s: State, ghost id: nat)
      requires Valid() && held && s.gate == Model() && s.now == now
      requires Enabled(s, Step.Sent(id)) && s.calls[id].deadline == deadline
      modifies this
      ensures Valid() && Model() == old(Model()).(ends := now + deadline) == Next(s, Step.Sent(id)).gate
    {
      ends := now + deadline;
    }

    method Release(now: int, ghost s: State, ghost id: nat)
      requires Valid() && held && s.gate == Model() && s.now == now && Enabled(s, Step.Release(id))
      modifies this, cues, memories
      ensures Valid() && Model() == HandOn(old(Model()), now) == Next(s, Step.Release(id)).gate
      ensures forall w: Waiter :: w in old(cues) || w in old(memories) ==>
        (w.handed <==> Heir(old(Model())) == Some(w.ticket.id))
    {
      PassOn(now);
    }

    // Closing the heir's channel: it was open, so this never closes one twice.
    method PassOn(now: int)
      requires Valid() && held
      modifies this, cues, memories
      ensures Valid() && Model() == HandOn(old(Model()), now)
      ensures forall w: Waiter :: w in old(cues) || w in old(memories) ==>
        (w.handed <==> Heir(old(Model())) == Some(w.ticket.id))
    {
      var w: Waiter;
      if |cues| > 0 {
        w, cues := cues[0], cues[1..];
        assert Tickets(cues) == Tickets(old(cues))[1..];
      } else if |memories| > 0 {
        w, memories := memories[0], memories[1..];
        assert Tickets(memories) == Tickets(old(memories))[1..];
      } else {
        held, ends := false, 0;
        return;
      }
      ends := now + w.ticket.deadline;
      assert !w.handed;
      IdsTellApart(old(cues));
      IdsTellApart(old(memories));
      assert w !in cues && w !in memories;
      w.handed := true;
    }
  }

  // In a queue without repeated ids, equal ids mean the same waiter.
  lemma IdsTellApart(q: seq<Waiter>)
    requires Distinct(Tickets(q))
    ensures forall i, j :: 0 <= i < |q| && 0 <= j < |q| && q[i].ticket.id == q[j].ticket.id ==> i == j
  {
    forall i, j | 0 <= i < |q| && 0 <= j < |q| && q[i].ticket.id == q[j].ticket.id
      ensures i == j
    {
      assert Tickets(q)[i].id == Tickets(q)[j].id;
    }
  }
}
