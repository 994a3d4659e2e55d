/** One walk over a message's channels, and which plugin carries which channel
    (internal/app/channels.go). */
module OutboxWalk {
  import opened Basics
  import opened Outbox

  // What the plugin's send answered: an error of the call itself, or a result.
  datatype Response =
    | UnknownTool
    | CallFailed
    | Answered(error: string, reason: string)

  // The refusals that say nothing left, by reason code.
  datatype Reasons = Reasons(neverHere: set<string>, notSent: set<string>, noEffect: string -> bool)

  function Classify(reasons: Reasons, r: Response): Verdict {
    match r
    case UnknownTool => SendNotSent
    case CallFailed => SendUnknown
    case Answered(error, reason) =>
      if error == "" then SendDelivered
      else if reason in reasons.neverHere then SendNeverHere
      else if reason in reasons.notSent || reasons.noEffect(reason) then SendNotSent
      else SendUnknown
  }

  datatype Way = Way(channel: string, address: string)

  // What a walk is given: the channel asked for, if one was, the channels with an adapter, and
  // what each send would answer.
  datatype Env = Env(requested: string, routes: set<string>, respond: Way -> Response, reasons: Reasons) {
    predicate Open(w: Way) {
      (requested == "" || w.channel == requested) && w.channel in routes
    }

    function VerdictOf(w: Way): Verdict { Classify(reasons, respond(w)) }
  }

  // How far a walk has come: what it sent, whether a refusal was for good, and the last verdict.
  datatype Walk = Walk(sent: seq<Way>, permanent: bool, last: Verdict)

  const UNSTARTED := Walk([], false, SendNotSent)

  function Stepped(k: Walk, env: Env, w: Way): Walk {
    var v := env.VerdictOf(w);
    Walk(k.sent + [w], k.permanent || v == SendNeverHere, v)
  }

  function Walked(ways: seq<Way>, env: Env, k: Walk): Walk {
    if ways == [] then k
    else if !env.Open(ways[0]) then Walked(ways[1..], env, k)
    else if MayHaveLeft(env.VerdictOf(ways[0])) then Stepped(k, env, ways[0])
    else Walked(ways[1..], env, Stepped(k, env, ways[0]))
  }

  datatype Ending = NoAdapter | LeftForPage | NotClaimed | Delivered | Unclear | Refused | Unwritten

  function EndingOf(k: Walk, writeFails: bool): Ending {
    if writeFails then Unwritten
    else if k.last == SendDelivered then Delivered
    else if k.last == SendUnknown then Unclear
    else Refused
  }

  function MarkFor(k: Walk): Row -> Row {
    if k.last == SendDelivered then MarkDelivered
    else if k.last == SendUnknown then MarkUnknown
    else MarkRefused(k.permanent)
  }

  function ClaimOf(m: nat, r: Row, now: int): Dispatch {
    Dispatch(m, ClaimTime(r, now), r.dispatched)
  }

  // The row after a walk that was granted its claim.
  function RowAfter(m: nat, r: Row, k: Walk, claimedAt: int, settledAt: int, writeFails: bool): Row {
    if writeFails then Claimed(r, claimedAt)
    else SettledBy(Claimed(r, claimedAt), ClaimOf(m, r, claimedAt), settledAt, MarkFor(k))
  }

  // The table of messages; each operation may fail to write.
  class OutboxStore {
    var rows: map<nat, Row>

    method ClaimDispatch(m: nat, now: int, writeFails: bool) returns (d: Option<Dispatch>)
      modifies this
      ensures d.None? ==> rows == old(rows)
      ensures d.Some? <==> m in old(rows) && old(rows)[m].Walkable() && !writeFails
      ensures d.Some? ==> d.value == ClaimOf(m, old(rows)[m], now) && rows == old(rows)[m := Claimed(old(rows)[m], now)]
    {
      if m !in rows || !rows[m].Walkable() || writeFails {
        return None;
      }
      d := Some(ClaimOf(m, rows[m], now));
      rows := rows[m := Claimed(rows[m], now)];
    }

    method Settle(d: Dispatch, now: int, mark: Row -> Row, writeFails: bool) returns (written: bool)
      requires d.message in rows
      modifies this
      ensures written <==> Holds(old(rows)[d.message], d) && !writeFails
      ensures written ==> rows == old(rows)[d.message := SettledBy(old(rows)[d.message], d, now, mark)]
      ensures !written ==> rows == old(rows)
    {
      if writeFails || !Holds(rows[d.message], d) {
        return false;
      }
      rows := rows[d.message := SettledBy(rows[d.message], d, now, mark)];
      return true;
    }
  }

  // The walk got past finding a way and being granted its claim.
  predicate Began(ending: Ending) {
    !ending.NoAdapter? && !ending.LeftForPage? && !ending.NotClaimed?
  }

  predicate AnyOpen(ways: seq<Way>, env: Env) {
    exists i :: 0 <= i < |ways| && env.Open(ways[i])
  }

  /** One walk: nothing is sent without a granted claim, or while an open page will show the message
      (`onPage`); otherwise the open ways are tried in order, up to the first send that may have
      reached somebody, and one outcome is written. */
  method DeliverOne(store: OutboxStore, m: nat, ways: seq<Way>, env: Env, onPage: bool, claimedAt: int, settledAt: int,
                    claimFails: bool, writeFails: bool)
      returns (ending: Ending, sent: seq<Way>)
    modifies store
    ensures ending == NoAdapter <==> !AnyOpen(ways, env)
    ensures ending == LeftForPage <==> AnyOpen(ways, env) && onPage
    ensures ending == NotClaimed <==>
            AnyOpen(ways, env) && !onPage && !(m in old(store.rows) && old(store.rows)[m].Walkable() && !claimFails)
    ensures !Began(ending) ==> sent == [] && store.rows == old(store.rows)
    ensures Began(ending) ==> (
      && m in old(store.rows) && old(store.rows)[m].Walkable() && !claimFails
      && var k := Walked(ways, env, UNSTARTED);
      && sent == k.sent
      && ending == EndingOf(k, writeFails)
      && store.rows == old(store.rows)[m := RowAfter(m, old(store.rows)[m], k, claimedAt, settledAt, writeFails)])
  {
    ghost var before := store.rows;
    var k := UNSTARTED;
    var claim: Option<Dispatch> := None;
    for i := 0 to |ways|
      invariant claim.None? ==> store.rows == before && k == UNSTARTED
      invariant claim.None? ==> forall j :: 0 <= j < i ==> !env.Open(ways[j])
      invariant claim.Some? ==> !onPage && AnyOpen(ways, env)
      invariant claim.Some? ==> (
        && m in before && before[m].Walkable() && !claimFails
        && store.rows == before[m := Claimed(before[m], claimedAt)]
        && claim.value == ClaimOf(m, before[m], claimedAt))
      invariant Walked(ways[i..], env, k) == Walked(ways, env, UNSTARTED)
      invariant !MayHaveLeft(k.last)
    {
      var w := ways[i];
      assert ways[i..][1..] == ways[i + 1..];
      if (env.requested != "" && w.channel != env.requested) || w.channel !in env.routes {
        continue;
      }
      assert env.Open(w);
      if claim.None? {
        if onPage {
          return LeftForPage, [];
        }
        claim := store.ClaimDispatch(m, claimedAt, claimFails);
        if claim.None? {
          return NotClaimed, [];
        }
      }
      k := Stepped(k, env, w);
      if k.last == SendDelivered || k.last == SendUnknown {
        ending := WriteEnding(store, m, before, k, claim.value, claimedAt, settledAt, writeFails);
        return ending, k.sent;
      }
    }
    if claim.None? {
      return NoAdapter, [];
    }
    ending := WriteEnding(store, m, before, k, claim.value, claimedAt, settledAt, writeFails);
    return ending, k.sent;
  }

  method WriteEnding(store: OutboxStore, m: nat, ghost before: map<nat, Row>, k: Walk, claim: Dispatch,
                     ghost claimedAt: int, settledAt: int, writeFails: bool)
      returns (ending: Ending)
    requires m in before && before[m].Walkable() && claim == ClaimOf(m, before[m], claimedAt)
    requires store.rows == before[m := Claimed(before[m], claimedAt)]
    modifies store
    ensures ending == EndingOf(k, writeFails)
    ensures store.rows == before[m := RowAfter(m, before[m], k, claimedAt, settledAt, writeFails)]
  {
    var written := store.Settle(claim, settledAt, MarkFor(k), writeFails);
    if !written {
      return Unwritten;
    }
    return if k.last == SendDelivered then Delivered else if k.last == SendUnknown then Unclear else Refused;
  }

  // What is sent after k, and how it ends, of a walk that had come as far as k.
  lemma {:induction false} WalkedFrom(ways: seq<Way>, env: Env, k: Walk)
    requires !MayHaveLeft(k.last)
    ensures var k' := Walked(ways, env, k);
      && k.sent <= k'.sent
      && (forall i :: |k.sent| <= i < |k'.sent| - 1 ==> !MayHaveLeft(env.VerdictOf(k'.sent[i])))
      && (|k.sent| < |k'.sent| ==> k'.last == env.VerdictOf(k'.sent[|k'.sent| - 1]))
      && (|k.sent| == |k'.sent| ==> k' == k)
      && (k'.permanent <==> k.permanent || exists i :: |k.sent| <= i < |k'.sent| && env.VerdictOf(k'.sent[i]) == SendNeverHere)
      && (forall i :: |k.sent| <= i < |k'.sent| ==> env.Open(k'.sent[i]) && k'.sent[i] in ways)
  {
    if ways != [] {
      if !env.Open(ways[0]) {
        WalkedFrom(ways[1..], env, k);
      } else {
        var k1 := Stepped(k, env, ways[0]);
        assert k1.sent[|k.sent|] == ways[0];
        if !MayHaveLeft(k1.last) {
          WalkedFrom(ways[1..], env, k1);
        }
      }
    }
  }

  /** A walk makes at most one send that may have reached somebody: the last one, and then it tries
      no other channel; and it ends refused for good exactly when some channel said so. */
  lemma OnlyTheLastMayHaveLeft(ways: seq<Way>, env: Env, i: nat)
    requires i < |Walked(ways, env, UNSTARTED).sent|
    ensures var k := Walked(ways, env, UNSTARTED);
      && (MayHaveLeft(env.VerdictOf(k.sent[i])) ==> i == |k.sent| - 1)
      && (MayHaveLeft(k.last) <==> MayHaveLeft(env.VerdictOf(k.sent[|k.sent| - 1])))
      && (k.permanent <==> exists j :: 0 <= j < |k.sent| && env.VerdictOf(k.sent[j]) == SendNeverHere)
  {
    WalkedFrom(ways, env, UNSTARTED);
  }

  /** After a walk the row can be claimed again exactly when every send was refused, none for good,
      the attempts are not used up, and the outcome was written. */
  lemma ClaimableAgainIff(m: nat, r: Row, ways: seq<Way>, env: Env, claimedAt: int, settledAt: int, writeFails: bool)
    requires r.Walkable()
    ensures var k := Walked(ways, env, UNSTARTED);
      var r' := RowAfter(m, r, k, claimedAt, settledAt, writeFails);
      r'.Walkable() <==> !writeFails && !MayHaveLeft(k.last) && !k.permanent && r.attempts + 1 < MAX_ATTEMPTS
  {
    assert Holds(Claimed(r, claimedAt), ClaimOf(m, r, claimedAt));
  }

  // ------------------------------------------------------------------- routes

  // What a plugin's describe came to: a failure, or the channel it names.
  datatype Reply = Mute | Names(channel: string)

  predicate Claims(r: Reply, named: string -> bool, channel: string) {
    r == Names(channel) && channel != "" && named(channel)
  }

  function Claimants(replies: seq<Reply>, named: string -> bool, channel: string): nat {
    if replies == [] then 0
    else
      var last := replies[|replies| - 1];
      Claimants(replies[..|replies| - 1], named, channel) + if Claims(last, named, channel) then 1 else 0
  }

  /** A channel is carried by the one plugin that names it; a channel two plugins name is carried
      by none, and nothing is guessed. */
  method DescribeRoutes(replies: seq<Reply>, named: string -> bool) returns (routes: map<string, nat>, complete: bool)
    ensures forall c :: c in routes <==> Claimants(replies, named, c) == 1
    ensures forall c :: c in routes ==> routes[c] < |replies| && Claims(replies[routes[c]], named, c)
    ensures complete <==> forall i :: 0 <= i < |replies| ==> replies[i].Names? && replies[i].channel != ""
  {
    routes, complete := map[], true;
    var contested: set<string> := {};
    for i := 0 to |replies|
      invariant forall c :: c in routes <==> Claimants(replies[..i], named, c) == 1
      invariant forall c :: c in contested <==> Claimants(replies[..i], named, c) > 1
      invariant forall c :: c in routes ==> routes[c] < i && Claims(replies[routes[c]], named, c)
      invariant complete <==> forall k :: 0 <= k < i ==> replies[k].Names? && replies[k].channel != ""
    {
      var r := replies[i];
      assert replies[..i + 1][..i] == replies[..i] && replies[..i + 1][i] == r;
      if r.Mute? || r.channel == "" {
        complete := false;
        continue;
      }
      if !named(r.channel) {
        continue;
      }
      if r.channel in contested {
        continue;
      }
      if r.channel in routes {
        routes := routes - {r.channel};
        contested := contested + {r.channel};
        continue;
      }
      routes := routes[r.channel := i];
    }
    assert replies[..|replies|] == replies;
  }
}
