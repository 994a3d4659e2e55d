/** Which answers mean that a message may have left, which ways a walk sends on, and what each ending
    leaves in the row (internal/app/channels.go and internal/store/outbox.go). */
module OutboxSends {
  import opened Outbox
  import opened OutboxRuns
  import opened OutboxWalk

  // A refusal that says nothing left.
  predicate Refusal(rs: Reasons, r: Response) {
    r == UnknownTool ||
    (r.Answered? && r.error != "" && (r.reason in rs.neverHere || r.reason in rs.notSent || rs.noEffect(r.reason)))
  }

  /** A send may have left exactly when it was not such a refusal: the call itself failed, or it
      answered without an error, or with a reason nobody knows to be harmless. */
  lemma MayHaveLeftIff(rs: Reasons, r: Response)
    ensures MayHaveLeft(Classify(rs, r)) <==>
      || r == CallFailed
      || (r.Answered? && r.error == "")
      || (r.Answered? && r.error != "" && r.reason !in rs.neverHere && r.reason !in rs.notSent && !rs.noEffect(r.reason))
    ensures MayHaveLeft(Classify(rs, r)) <==> !Refusal(rs, r)
    ensures Classify(rs, r) == SendDelivered <==> r.Answered? && r.error == ""
    ensures Classify(rs, r) == SendNeverHere <==> r.Answered? && r.error != "" && r.reason in rs.neverHere
  {
  }

  // The ways a walk may send on: those of the channel asked for, if one was, with an adapter.
  function OpenWays(ways: seq<Way>, env: Env): seq<Way> {
    if ways == [] then []
    else
      var w := ways[0];
      (if (env.requested != "" && w.channel != env.requested) || w.channel !in env.routes then [] else [w])
      + OpenWays(ways[1..], env)
  }

  lemma {:induction false} AnyOpenIff(ways: seq<Way>, env: Env)
    ensures AnyOpen(ways, env) <==> OpenWays(ways, env) != []
  {
    if ways != [] {
      AnyOpenIff(ways[1..], env);
      assert forall i :: 1 <= i < |ways| ==> ways[i] == ways[1..][i - 1];
    }
  }

  // The first of these ways whose send may have left, or past the last.
  function FirstLeft(open: seq<Way>, env: Env): nat {
    if open == [] then 0
    else if !Refusal(env.reasons, env.respond(open[0])) then 0
    else 1 + FirstLeft(open[1..], env)
  }

  lemma {:induction false} FirstLeftIs(open: seq<Way>, env: Env)
    ensures FirstLeft(open, env) <= |open|
    ensures forall i :: 0 <= i < FirstLeft(open, env) ==> Refusal(env.reasons, env.respond(open[i]))
    ensures FirstLeft(open, env) < |open| ==> !Refusal(env.reasons, env.respond(open[FirstLeft(open, env)]))
  {
    if open != [] {
      FirstLeftIs(open[1..], env);
    }
  }

  function Upto(open: seq<Way>, env: Env): seq<Way> {
    FirstLeftIs(open, env);
    if FirstLeft(open, env) < |open| then open[..FirstLeft(open, env) + 1] else open
  }

  lemma UptoMore(open: seq<Way>, env: Env)
    requires open != []
    ensures Upto(open, env) ==
            [open[0]] + if Refusal(env.reasons, env.respond(open[0])) then Upto(open[1..], env) else []
  {
    FirstLeftIs(open, env);
    FirstLeftIs(open[1..], env);
  }

  /** A walk sends on the open ways in their order, each while the one before it was refused without
      effect, and so up to the first send that may have left and no further. */
  lemma {:induction false} SendsInOrder(ways: seq<Way>, env: Env, k: Walk)
    ensures Walked(ways, env, k).sent == k.sent + Upto(OpenWays(ways, env), env)
  {
    var open := OpenWays(ways, env);
    if ways == [] {
      assert open == [] && Upto(open, env) == [];
    } else if !env.Open(ways[0]) {
      SendsInOrder(ways[1..], env, k);
      assert open == OpenWays(ways[1..], env);
    } else {
      var rest, k1 := OpenWays(ways[1..], env), Stepped(k, env, ways[0]);
      assert open == [ways[0]] + rest && open[1..] == rest;
      UptoMore(open, env);
      MayHaveLeftIff(env.reasons, env.respond(ways[0]));
      if Refusal(env.reasons, env.respond(ways[0])) {
        SendsInOrder(ways[1..], env, k1);
        assert k.sent + ([ways[0]] + Upto(rest, env)) == k.sent + [ways[0]] + Upto(rest, env);
      }
    }
  }

  /** A way whose call failed is the last one sent on, and the walk ends unclear unless its outcome
      could not be written; one that answered without an error likewise, and ends delivered. */
  lemma UnclearIsTheLast(ways: seq<Way>, env: Env, i: nat, writeFails: bool)
    requires i < |Walked(ways, env, UNSTARTED).sent|
    ensures var k := Walked(ways, env, UNSTARTED);
      var r := env.respond(k.sent[i]);
      && (r == CallFailed ==> i == |k.sent| - 1 && EndingOf(k, writeFails) == if writeFails then Unwritten else Unclear)
      && (r.Answered? && r.error == "" ==>
            i == |k.sent| - 1 && EndingOf(k, writeFails) == if writeFails then Unwritten else Delivered)
      && (EndingOf(k, writeFails) == Refused <==> !writeFails && forall j :: 0 <= j < |k.sent| ==> Refusal(env.reasons, env.respond(k.sent[j])))
  {
    var k := Walked(ways, env, UNSTARTED);
    WalkedFrom(ways, env, UNSTARTED);
    forall j | 0 <= j < |k.sent|
      ensures MayHaveLeft(env.VerdictOf(k.sent[j])) <==> !Refusal(env.reasons, env.respond(k.sent[j]))
    {
      MayHaveLeftIff(env.reasons, env.respond(k.sent[j]));
    }
    MayHaveLeftIff(env.reasons, env.respond(k.sent[i]));
  }

  // ------------------------------------------------------------------------- the row

  /** What a walk that was granted its claim leaves in the row: one attempt more and the claim settled;
      delivered and performed, or parked with its effect unknown, or parked for good or for having
      been tried too often, or only tried; or, the outcome unwritten, the claim still in force. */
  lemma RowSays(m: nat, r: Row, k: Walk, claimedAt: int, settledAt: int, writeFails: bool)
    requires r.Walkable()
    ensures var r' := RowAfter(m, r, k, claimedAt, settledAt, writeFails);
      && r'.toOperator == r.toOperator
      && (writeFails ==> r'.InFlight() && r' == r.(dispatched := r'.dispatched))
      && (!writeFails ==>
            && !r'.InFlight() && r'.attempts == r.attempts + 1 && r'.lastAttempt >= settledAt
            && (r'.delivered <==> k.last == SendDelivered)
            && r'.effect == (if k.last == SendDelivered then Performed else if k.last == SendUnknown then Unknown else r.effect)
            && (r'.parked <==>
                  k.last == SendUnknown || (k.last != SendDelivered && (k.permanent || r.attempts + 1 >= 8))))
  {
    assert Holds(Claimed(r, claimedAt), ClaimOf(m, r, claimedAt));
  }

  /** A claim is written as a time after the last settled attempt, whatever the clock says, and changes
      nothing else. */
  lemma ClaimSays(r: Row, now: int)
    ensures var r' := Claimed(r, now);
      r'.InFlight() && r'.dispatched.Some? && r'.dispatched.value >= now && r' == r.(dispatched := r'.dispatched)
  {
  }

  /** A boot parks what it finds in flight and not delivered, its effect unknown and one attempt more,
      and touches nothing else. */
  lemma BootSays(r: Row, now: int)
    ensures var r' := Interrupted(r, now);
      if r.InFlight() && !r.delivered
      then && r'.parked && r'.effect == Unknown && !r'.InFlight() && !r'.delivered && r'.attempts == r.attempts + 1
           && r'.toOperator == r.toOperator && r'.lastAttempt >= now
      else r' == r
  {
  }

  // No claim on the row is unsettled.
  predicate Quiet(r: Row) {
    r.dispatched.None? || r.dispatched.value <= r.lastAttempt
  }

  /** A worker is granted a message to send exactly when it is not delivered, not parked and has no
      unsettled claim, and has been refused nowhere yet; and to show exactly when it is the operator's,
      not delivered, not of unknown effect and has no unsettled claim. */
  lemma GrantedIff(s: State, w: nat, m: nat, now: int)
    requires m in s.messages && Free(s, w)
    ensures var r := s.messages[m].row;
      var sends, shows := Next(s, ClaimToSend(w, m, now)), Next(s, ClaimForPage(w, m, now));
      && (sends.Works(w, m) <==> !r.delivered && !r.parked && Quiet(r))
      && (sends.Works(w, m) ==> sends.workers[w].Walking? && !sends.workers[w].permanent && Holds(sends.messages[m].row, sends.workers[w].claim))
      && (shows.Works(w, m) <==> r.toOperator && !r.delivered && r.effect != Unknown && Quiet(r))
      && (shows.Works(w, m) ==> shows.workers[w].Showing? && Holds(shows.messages[m].row, shows.workers[w].claim))
  {
  }

  /** A message just queued may be sent, and shown if it is the operator's. */
  lemma QueuedSays(s: State, m: nat, toOperator: bool)
    requires m !in s.messages
    ensures var s' := Next(s, Queue(m, toOperator));
      && m in s'.messages && s'.messages[m].left == 0
      && var r := s'.messages[m].row;
      && !r.delivered && !r.parked && Quiet(r) && r.effect != Unknown && r.attempts == 0 && r.toOperator == toOperator
  {
  }

  // ------------------------------------------------------------- the row in every run

  // The step writes this outcome of a send to the message's row, which still holds the claim.
  predicate Settles(s: State, step: Step, m: nat, v: Verdict) {
    && step.WriteOutcome? && !step.writeFails && m in s.messages && s.Works(step.w, m)
    && s.workers[step.w].Reporting? && s.workers[step.w].verdict == v
    && Holds(s.messages[m].row, s.workers[step.w].claim)
  }

  // The step finds the message in flight after a crash.
  predicate CutOff(s: State, step: Step, m: nat) {
    step.Boot? && !step.writeFails && m in s.messages && s.messages[m].row.InFlight() && !s.messages[m].row.delivered
  }

  // The step writes that no way took the message.
  predicate GivesUp(s: State, step: Step, m: nat) {
    && step.WalkEnds? && !step.writeFails && m in s.messages && s.Works(step.w, m)
    && s.workers[step.w].Walking? && Holds(s.messages[m].row, s.workers[step.w].claim)
  }

  lemma StepMarks(s: State, step: Step, m: nat)
    requires Enabled(s, step) && m in s.messages
    ensures m in Next(s, step).messages
    ensures var r, r' := s.messages[m].row, Next(s, step).messages[m].row;
      && (r'.delivered <==> r.delivered || Settles(s, step, m, SendDelivered))
      && (r'.effect == Unknown <==>
            || (r.effect == Unknown && !Settles(s, step, m, SendDelivered))
            || Settles(s, step, m, SendUnknown) || CutOff(s, step, m))
      && (r'.parked <==>
            || r.parked || Settles(s, step, m, SendUnknown) || CutOff(s, step, m)
            || (GivesUp(s, step, m) && (s.workers[step.w].permanent || r.attempts + 1 >= 8)))
  {
  }

  lemma RunMarks(states: seq<State>, steps: seq<Step>, i: nat, m: nat)
    requires IsRun(states, steps) && i < |steps| && m in states[i].messages
    ensures m in states[i + 1].messages
    ensures var r, r' := states[i].messages[m].row, states[i + 1].messages[m].row;
      && (r'.delivered <==> r.delivered || Settles(states[i], steps[i], m, SendDelivered))
  {
    StepMarks(states[i], steps[i], m);
  }

  lemma RunQueues(states: seq<State>, steps: seq<Step>, i: nat, m: nat)
    requires IsRun(states, steps) && i < |steps| && m !in states[i].messages && m in states[i + 1].messages
    ensures !states[i + 1].messages[m].row.delivered
  {
  }

  /** A message stands delivered exactly when some step so far wrote, for a claim still in force, that
      its send or its showing was delivered. */
  lemma {:induction false} DeliveredIff(states: seq<State>, steps: seq<Step>, i: nat, m: nat)
    requires IsRun(states, steps) && i < |states| && m in states[i].messages
    ensures states[i].messages[m].row.delivered <==>
      exists k :: 0 <= k < i && Settles(states[k], steps[k], m, SendDelivered)
  {
    if i > 0 {
      if m in states[i - 1].messages {
        DeliveredIff(states, steps, i - 1, m);
        RunMarks(states, steps, i - 1, m);
      } else {
        RunQueues(states, steps, i - 1, m);
        forall k | 0 <= k < i
          ensures m !in states[k].messages
        {
          if m in states[k].messages {
            RunOnward(states, steps, k, i - 1, m);
          }
        }
      }
    }
  }

  // --------------------------------------------------------------------------- routes

  function Naming(replies: seq<Reply>, channel: string): set<nat> {
    set i | 0 <= i < |replies| && replies[i] == Names(channel)
  }

  /** The claimants of a channel are the plugins that name it, if it is a channel the operator named. */
  lemma {:induction false} ClaimantsAre(replies: seq<Reply>, named: string -> bool, channel: string)
    ensures Claimants(replies, named, channel) == if channel != "" && named(channel) then |Naming(replies, channel)| else 0
  {
    if replies != [] {
      var n := |replies| - 1;
      ClaimantsAre(replies[..n], named, channel);
      var last := if replies[n] == Names(channel) then {n} else {};
      assert Naming(replies, channel) == Naming(replies[..n], channel) + last;
    } else {
      assert Naming(replies, channel) == {};
    }
  }
}
