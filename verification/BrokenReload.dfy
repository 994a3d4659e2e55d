/** What the next load reads after a broken entry was repaired or removed
    (internal/app/providers_broken.go). */
module BrokenReload {
  import opened BrokenEntries

  function RepairedSlots(bs: seq<Slot>, j: nat): seq<Slot>
    requires j < |bs|
  {
    bs[..j] + Shifted(bs[j + 1..], 1)
  }

  lemma OneSlotMore(bs: seq<Slot>, j: nat, s: Slot)
    requires j < |bs|
    ensures RepairedSlots(bs + [s], j) == RepairedSlots(bs, j) + [s.(after := s.after + 1)]
  {
    assert (bs + [s])[j + 1..] == bs[j + 1..] + [s];
  }

  lemma SplitMore(ok: seq<Raw> -> bool, before: seq<Raw>, last: Raw)
    ensures var k := Kept(ok, before);
      if ok(k + [last])
      then Kept(ok, before + [last]) == k + [last] && Rejected(ok, before + [last]) == Rejected(ok, before)
      else Kept(ok, before + [last]) == k && Rejected(ok, before + [last]) == Rejected(ok, before) + [Slot(last, |before|, |k|)]
  {
    assert (before + [last])[..|before|] == before;
  }

  lemma InsertMore(k: seq<Raw>, at: nat, e: Raw, last: Raw)
    requires at <= |k|
    ensures Insert(k + [last], at, e) == Insert(k, at, e) + [last]
  {
  }

  // A file whose entry x, after `front`, is broken, and the same file with x repaired to e.
  predicate Repairable(ok: seq<Raw> -> bool, front: seq<Raw>, x: Raw, e: Raw, back: seq<Raw>) {
    && !ok(Kept(ok, front) + [x])
    && |Kept(ok, front)| <= |Kept(ok, front + [x] + back)|
    && ok(Insert(Kept(ok, front + [x] + back), |Kept(ok, front)|, e))
  }

  lemma FrontKept(ok: seq<Raw> -> bool, front: seq<Raw>, x: Raw, back: seq<Raw>)
    requires !ok(Kept(ok, front) + [x])
    ensures Kept(ok, front) <= Kept(ok, front + [x] + back)
    ensures Rejected(ok, front) + [Slot(x, |front|, |Kept(ok, front)|)] <= Rejected(ok, front + [x] + back)
  {
    var es := front + [x] + back;
    SplitMore(ok, front, x);
    assert es[..|front| + 1] == front + [x];
    KeptBefore(ok, es, |front| + 1);
  }

  // With the last entry of the file off, it is still such a file.
  lemma StillRepairable(ok: seq<Raw> -> bool, front: seq<Raw>, x: Raw, e: Raw, rest: seq<Raw>, y: Raw)
    requires Hereditary(ok) && Repairable(ok, front, x, e, rest + [y])
    ensures Repairable(ok, front, x, e, rest)
  {
    var a, k := |Kept(ok, front)|, Kept(ok, front + [x] + rest);
    FrontKept(ok, front, x, rest);
    assert front + [x] + (rest + [y]) == front + [x] + rest + [y];
    SplitMore(ok, front + [x] + rest, y);
    InsertMore(k, a, e, y);
    if ok(k + [y]) {
      var s := Insert(k, a, e);
      assert s + [y] == Insert(s, |s|, y);
    }
  }

  // One entry more is admitted after the repair exactly when it was before.
  lemma SameTurn(ok: seq<Raw> -> bool, k: seq<Raw>, at: nat, e: Raw, y: Raw)
    requires Hereditary(ok) && at <= |k|
    requires ok(k + [y]) ==> ok(Insert(k + [y], at, e))
    ensures ok(Insert(k, at, e) + [y]) <==> ok(k + [y])
  {
    InsertMore(k, at, e, y);
  }

  // The file as it was split, and as it is once x is repaired.
  predicate RepairedAs(ok: seq<Raw> -> bool, front: seq<Raw>, es: seq<Raw>, es': seq<Raw>, e: Raw) {
    && |Kept(ok, front)| <= |Kept(ok, es)| && |Rejected(ok, front)| < |Rejected(ok, es)|
    && Kept(ok, es') == Insert(Kept(ok, es), |Kept(ok, front)|, e)
    && Rejected(ok, es') == RepairedSlots(Rejected(ok, es), |Rejected(ok, front)|)
  }

  lemma RepairedFirst(ok: seq<Raw> -> bool, front: seq<Raw>, x: Raw, e: Raw)
    requires !ok(Kept(ok, front) + [x]) && ok(Kept(ok, front) + [e])
    ensures RepairedAs(ok, front, front + [x], front + [e], e)
  {
    SplitMore(ok, front, x);
    SplitMore(ok, front, e);
    var k := Kept(ok, front);
    assert Insert(k, |k|, e) == k + [e];
  }

  lemma RepairedNext(ok: seq<Raw> -> bool, front: seq<Raw>, es: seq<Raw>, es': seq<Raw>, e: Raw, y: Raw)
    requires Hereditary(ok) && RepairedAs(ok, front, es, es', e) && |es| == |es'|
    requires ok(Kept(ok, es) + [y]) ==> ok(Insert(Kept(ok, es) + [y], |Kept(ok, front)|, e))
    ensures RepairedAs(ok, front, es + [y], es' + [y], e)
  {
    var a, k := |Kept(ok, front)|, Kept(ok, es);
    SplitMore(ok, es, y);
    SplitMore(ok, es', y);
    SameTurn(ok, k, a, e, y);
    InsertMore(k, a, e, y);
    OneSlotMore(Rejected(ok, es), |Rejected(ok, front)|, Slot(y, |es|, |k|));
  }

  lemma {:induction false} RepairedSplit(ok: seq<Raw> -> bool, front: seq<Raw>, x: Raw, e: Raw, back: seq<Raw>)
    requires Hereditary(ok) && Repairable(ok, front, x, e, back)
    ensures RepairedAs(ok, front, front + [x] + back, front + [e] + back, e)
    decreases |back|
  {
    if back == [] {
      assert front + [x] + back == front + [x] && front + [e] + back == front + [e];
      SplitMore(ok, front, x);
      var k := Kept(ok, front);
      assert Insert(k, |k|, e) == k + [e];
      RepairedFirst(ok, front, x, e);
    } else {
      var rest, y := back[..|back| - 1], back[|back| - 1];
      assert back == rest + [y];
      StillRepairable(ok, front, x, e, rest, y);
      RepairedSplit(ok, front, x, e, rest);
      assert front + [x] + back == front + [x] + rest + [y] && front + [e] + back == front + [e] + rest + [y];
      SplitMore(ok, front + [x] + rest, y);
      RepairedNext(ok, front, front + [x] + rest, front + [e] + rest, e, y);
    }
  }

  lemma CutAt(es: seq<Raw>, p: nat, entry: Raw)
    requires p < |es|
    ensures es == es[..p] + [es[p]] + es[p + 1..]
    ensures es[p := entry] == es[..p] + [entry] + es[p + 1..]
    ensures Without(es, p) == es[..p] + es[p + 1..]
  {
  }

  // Where a broken entry stood, and what was kept and broken before it.
  lemma BrokenAt(ok: seq<Raw> -> bool, es: seq<Raw>, j: nat)
    requires j < |Rejected(ok, es)|
    ensures var b := Rejected(ok, es)[j];
      && b.position < |es| && es[b.position] == b.raw
      && |Kept(ok, es[..b.position])| == b.after <= |Kept(ok, es)|
      && |Rejected(ok, es[..b.position])| == j
      && !ok(Kept(ok, es[..b.position]) + [b.raw])
  {
    var b := Rejected(ok, es)[j];
    RejectedInOrder(ok, es);
    KeptUpTo(ok, es, j);
    RejectedAtItsTurn(ok, es, j);
    RejectedInOrder(ok, es[..b.position]);
  }

  /** The repaired registry is what the next load reads: the file with the repaired entry in place
      of the broken one splits into the same providers with it among them, and the same broken
      entries without it. */
  lemma RepairIsTheNextLoad(ok: seq<Raw> -> bool, es: seq<Raw>, j: nat, entry: Raw)
    requires Hereditary(ok) && ok([]) && j < |Rejected(ok, es)|
    requires Rejected(ok, es)[j].after <= |Kept(ok, es)|
    requires ok(Insert(Kept(ok, es), Rejected(ok, es)[j].after, entry))
    ensures var reg, p := Split(ok, es), Rejected(ok, es)[j].position;
      && reg == Registry(Kept(ok, es), Rejected(ok, es)) && p < |es|
      && Split(ok, es[p := entry]) == Repaired(reg, j, entry)
  {
    var b := Rejected(ok, es)[j];
    var p := b.position;
    HereditaryIsPrefixClosed(ok);
    BrokenAt(ok, es, j);
    CutAt(es, p, entry);
    RepairedSplit(ok, es[..p], b.raw, entry, es[p + 1..]);
    SplitIsTheLoop(ok, es);
    SplitIsTheLoop(ok, es[p := entry]);
  }

  // ----------------------------------------------------------------------- removal

  // One place earlier; only an entry after another is moved.
  function Earlier(s: Slot): Slot {
    s.(position := if s.position > 0 then s.position - 1 else 0)
  }

  // The broken entries of a file that lost its broken entry j, as the next load numbers them.
  function Moved(bs: seq<Slot>, j: nat): seq<Slot>
    requires j < |bs|
  {
    bs[..j] + seq(|bs| - j - 1, i requires 0 <= i < |bs| - j - 1 => Earlier(bs[j + 1 + i]))
  }

  lemma OneMovedMore(bs: seq<Slot>, j: nat, s: Slot)
    requires j < |bs|
    ensures Moved(bs + [s], j) == Moved(bs, j) + [Earlier(s)]
  {
  }

  predicate RemovedAs(ok: seq<Raw> -> bool, front: seq<Raw>, es: seq<Raw>, es': seq<Raw>) {
    && Kept(ok, es') == Kept(ok, es)
    && |Rejected(ok, front)| < |Rejected(ok, es)|
    && Rejected(ok, es') == Moved(Rejected(ok, es), |Rejected(ok, front)|)
  }

  lemma RemovedNext(ok: seq<Raw> -> bool, front: seq<Raw>, es: seq<Raw>, es': seq<Raw>, y: Raw)
    requires RemovedAs(ok, front, es, es') && |es| == |es'| + 1
    ensures RemovedAs(ok, front, es + [y], es' + [y])
  {
    SplitMore(ok, es, y);
    SplitMore(ok, es', y);
    OneMovedMore(Rejected(ok, es), |Rejected(ok, front)|, Slot(y, |es|, |Kept(ok, es)|));
  }

  lemma {:induction false} RemovedSplit(ok: seq<Raw> -> bool, front: seq<Raw>, x: Raw, back: seq<Raw>)
    requires !ok(Kept(ok, front) + [x])
    ensures RemovedAs(ok, front, front + [x] + back, front + back)
    decreases |back|
  {
    if back == [] {
      assert front + [x] + back == front + [x] && front + back == front;
      SplitMore(ok, front, x);
    } else {
      var rest, y := back[..|back| - 1], back[|back| - 1];
      RemovedSplit(ok, front, x, rest);
      assert front + [x] + back == front + [x] + rest + [y] && front + back == front + rest + [y];
      RemovedNext(ok, front, front + [x] + rest, front + rest, y);
    }
  }

  /** The registry without a broken entry is what the next load reads, the entries after it each
      standing one place earlier in the file. */
  lemma RemovalIsTheNextLoad(ok: seq<Raw> -> bool, es: seq<Raw>, j: nat)
    requires PrefixClosed(ok) && ok([]) && j < |Rejected(ok, es)|
    ensures var bs := Rejected(ok, es);
      var p := bs[j].position;
      && p < |es|
      && Split(ok, Without(es, p)) == Registry(Split(ok, es).providers, Moved(bs, j))
  {
    var b := Rejected(ok, es)[j];
    var p := b.position;
    BrokenAt(ok, es, j);
    CutAt(es, p, b.raw);
    RemovedSplit(ok, es[..p], b.raw, es[p + 1..]);
    SplitIsTheLoop(ok, es);
    SplitIsTheLoop(ok, Without(es, p));
  }
}
