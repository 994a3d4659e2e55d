/** The subscriber as the object the source keeps, its methods proved against module EventStream. */
module EventSubscriber {
  import opened Basics
  import opened EventStream

  class PluginSubscriber {
    var generation: nat
    var emitted: nat
    var settled: nat
    var loss: nat
    var stream: nat
    var exhausted: bool
    var stopped: bool
    var queue: seq<Item>

    function Model(): Subscriber
      reads this
    {
      Subscriber(generation, emitted, settled, loss, stream, exhausted, stopped, queue)
    }

    constructor ()
      ensures Model() == INITIAL.sub
    {
      generation, emitted, settled, loss, stream := 0, 0, 0, 0, 0;
      exhausted, stopped, queue := false, false, [];
    }

    method GenerationLocked(g: nat, newStream: StreamName) returns (current: bool)
      modifies this
      ensures current == Current(old(Model()), g)
      ensures Model() == AtGeneration(old(Model()), g, newStream)
    {
      if g == 0 || g < generation {
        return false;
      }
      if g != generation {
        generation, stream := g, newStream;
        emitted, settled, loss, exhausted := 0, 0, 0, false;
      }
      if stream == 0 {
        stream := newStream;
      }
      return true;
    }

    method LoseLocked()
      modifies this
      ensures Model() == Lose(old(Model()))
    {
      if loss == MAX_COUNTER {
        exhausted := true;
      } else {
        loss := loss + 1;
      }
    }

    // One event offered to this subscriber while its consumer stands still: the protocol's
    // moves one after another.
    method Emit(toolCall: bool, g: nat, attributionLost: bool, newStream: StreamName)
      requires |queue| <= QUEUE_ROOM
      modifies this
      ensures Model() == EmitAlone(old(Model()), toolCall, g, attributionLost, newStream)
      ensures |queue| <= QUEUE_ROOM
    {
      if stopped {
        return;
      }
      var item := PLAIN;
      if toolCall {
        var current := GenerationLocked(g, newStream);
        if !current {
          LoseLocked();
          return;
        }
        if attributionLost {
          LoseLocked();
        }
        if emitted == MAX_COUNTER {
          exhausted := true;
          return;
        }
        emitted := emitted + 1;
        item := Item(generation, emitted, stream);
      }
      Enqueue(item);
    }

    // The queue's part of it: room for the newest is made of the oldest.
    method Enqueue(item: Item)
      modifies this
      ensures Model() == EnqueueAlone(old(Model()), item)
      ensures old(|queue|) <= QUEUE_ROOM ==> |queue| <= QUEUE_ROOM
    {
      if |queue| < QUEUE_ROOM {
        queue := queue + [item];
        return;
      }
      if queue != [] {
        var oldest := queue[0];
        queue := queue[1..];
        if oldest.sequence != 0 && oldest.generation == generation {
          LoseLocked();
        }
      }
      if |queue| < QUEUE_ROOM {
        queue := queue + [item];
      } else if item.sequence != 0 {
        LoseLocked();
        exhausted := true;
      }
    }

    method Snapshot(g: nat, newStream: StreamName, sessionId: string, refused: string) returns (view: View)
      modifies this
      ensures (Model(), view) == Look(old(Model()), g, newStream, sessionId, refused)
    {
      var current := GenerationLocked(g, newStream);
      var reason := refused;
      if reason == "" && sessionId == "" {
        reason := "no_session";
      }
      if reason == "" {
        if stopped {
          reason := "not_ready";
        } else if !current {
          reason := "generation_changed";
        } else if exhausted {
          reason := "counter_exhausted";
        }
      }
      if reason != "" {
        return Unavailable(reason);
      }
      return Available(stream, emitted, settled, loss);
    }

    method Finish(g: nat, sequence: nat, accepted: bool)
      modifies this
      ensures Model() == Finished(old(Model()), g, sequence, accepted)
    {
      if stopped || g != generation {
        return;
      }
      if sequence <= settled || sequence > emitted {
        exhausted := true;
        return;
      }
      settled := sequence;
      if !accepted {
        LoseLocked();
      }
    }
  }

  // The protocol's run of one emission that no take interrupts.
  function EmitAlone(sub: Subscriber, toolCall: bool, g: nat, attributionLost: bool,
                     newStream: StreamName): Subscriber {
    var s0 := State(sub, Idle, None, NOTHING);
    var s1 := if toolCall then Next(s0, EmitToolCall(g, attributionLost, newStream)) else Next(s0, EmitPlain);
    if s1.hand.Idle? then s1.sub else EnqueueAlone(s1.sub, s1.hand.item)
  }

  function EnqueueAlone(sub: Subscriber, item: Item): Subscriber {
    var s1 := Next(State(sub, Offered(item), None, NOTHING), Put);
    if s1.hand.Idle? then s1.sub else Next(Next(s1, DropOldest), PutAgain).sub
  }

  /** An uninterrupted emission to a full queue keeps the newest: the oldest item goes, the new
      event is last, and a current event that went is counted lost. */
  lemma FullQueueKeepsTheNewest(sub: Subscriber, g: nat, newStream: StreamName)
    requires |sub.queue| == QUEUE_ROOM && !sub.stopped && g != 0 && g == sub.generation && sub.stream != 0
    requires sub.emitted < MAX_COUNTER && sub.loss < MAX_COUNTER
    ensures var s' := EmitAlone(sub, true, g, false, newStream);
      && s'.queue == sub.queue[1..] + [Item(g, sub.emitted + 1, sub.stream)]
      && s'.loss == sub.loss + (if sub.queue[0].Counts(g) then 1 else 0)
      && !(s'.exhausted && !sub.exhausted)
  {
    var s1 := Next(State(sub, Idle, None, NOTHING), EmitToolCall(g, false, newStream));
    var s2 := Next(State(s1.sub, s1.hand, None, NOTHING), Put);
    assert |Next(s2, DropOldest).sub.queue| == QUEUE_ROOM - 1;
  }
}
