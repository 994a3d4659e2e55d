/**
  Provider entries that do not fit the registry (internal/app/providers_broken.go).  Loading
  splits the file's entries into those admitted and those broken, saving weaves them back, and a
  repair or a removal acts on one broken entry.  Whether a list of entries makes a registry is
  the predicate `ok`, given by the caller.
 */
module BrokenEntries {
  import opened Basics

  // An entry as compacted JSON text.
  type Raw = string

  // A broken entry: its text, its index in the file, and how many admitted entries precede it.
  datatype Slot = Slot(raw: Raw, position: nat, after: nat)

  datatype Registry = Registry(providers: seq<Raw>, broken: seq<Slot>)

  // --------------------------------------------------------------------- split

  // The entries greedily admitted, in file order.
  function Kept(ok: seq<Raw> -> bool, es: seq<Raw>): seq<Raw> {
    if es == [] then []
    else
      var k := Kept(ok, es[..|es| - 1]);
      var trial := k + [es[|es| - 1]];
      if ok(trial) then trial else k
  }

  function Rejected(ok: seq<Raw> -> bool, es: seq<Raw>): seq<Slot> {
    if es == [] then []
    else
      var before := es[..|es| - 1];
      var k := Kept(ok, before);
      if ok(k + [es[|es| - 1]]) then Rejected(ok, before)
      else Rejected(ok, before) + [Slot(es[|es| - 1], |before|, |k|)]
  }

  function Split(ok: seq<Raw> -> bool, es: seq<Raw>): Registry {
    if ok(es) then Registry(es, []) else Registry(Kept(ok, es), Rejected(ok, es))
  }

  /** Loading: all at once when the whole list is fit, one by one when it is not. */
  method AdmitEntries(ok: seq<Raw> -> bool, es: seq<Raw>) returns (r: Option<Registry>)
    ensures r.Some? ==> r.value == Split(ok, es)
    ensures r.None? <==> !ok(es) && Kept(ok, es) == [] && !ok([])
  {
    if ok(es) {
      return Some(Registry(es, []));
    }
    var admitted: seq<Raw>, broken: seq<Slot> := [], [];
    for i := 0 to |es|
      invariant admitted == Kept(ok, es[..i]) && broken == Rejected(ok, es[..i])
    {
      assert es[..i + 1][..i] == es[..i];
      var trial := admitted + [es[i]];
      if !ok(trial) {
        broken := broken + [Slot(es[i], i, |admitted|)];
      } else {
        admitted := trial;
      }
    }
    assert es[..|es|] == es;
    KeptIsFit(ok, es);
    if !ok(admitted) {
      return None;
    }
    return Some(Registry(admitted, broken));
  }

  /** Greedy admission is sound: whatever it admits is fit. */
  lemma {:induction false} KeptIsFit(ok: seq<Raw> -> bool, es: seq<Raw>)
    ensures Kept(ok, es) == [] || ok(Kept(ok, es))
  {
    if es != [] {
      KeptIsFit(ok, es[..|es| - 1]);
    }
  }

  // -------------------------------------------------------------------- weave

  // The loop that writes broken entries back among the admitted ones, from provider i on.
  function Weave(ps: seq<Raw>, bs: seq<Slot>, i: nat): seq<Raw>
    requires i <= |ps|
    decreases |bs| + |ps| - i
  {
    if bs != [] && (bs[0].after <= i || i == |ps|) then [bs[0].raw] + Weave(ps, bs[1..], i)
    else if i < |ps| then [ps[i]] + Weave(ps, bs, i + 1)
    else []
  }

  function Merged(reg: Registry): seq<Raw> {
    Weave(reg.providers, reg.broken, 0)
  }

  /** Saving: every broken entry goes back where it stood. */
  method WithBrokenEntries(reg: Registry) returns (out: seq<Raw>)
    ensures out == Merged(reg)
  {
    var ps, bs := reg.providers, reg.broken;
    if |bs| == 0 {
      WeaveNothing(ps, 0);
      return ps;
    }
    out := [];
    var next, i := 0, 0;
    while i <= |ps|
      invariant i <= |ps| + 1 && next <= |bs|
      invariant i <= |ps| ==> out + Weave(ps, bs[next..], i) == Merged(reg)
      invariant i > |ps| ==> out == Merged(reg)
    {
      out, next := PutBack(ps, bs, i, next, out);
      if i < |ps| {
        out := out + [ps[i]];
      }
      i := i + 1;
    }
  }

  // The broken entries that stand before provider i, or at the end all that are left.
  method PutBack(ps: seq<Raw>, bs: seq<Slot>, i: nat, from: nat, was: seq<Raw>) returns (out: seq<Raw>, next: nat)
    requires i <= |ps| && from <= |bs|
    ensures from <= next <= |bs| && out + Weave(ps, bs[next..], i) == was + Weave(ps, bs[from..], i)
    ensures next == |bs| || (bs[next].after > i && i < |ps|)
  {
    out, next := was, from;
    while next < |bs| && (bs[next].after <= i || i == |ps|)
      invariant from <= next <= |bs| && out + Weave(ps, bs[next..], i) == was + Weave(ps, bs[from..], i)
    {
      assert bs[next..][1..] == bs[next + 1..];
      out := out + [bs[next].raw];
      next := next + 1;
    }
  }

  lemma WeaveNothing(ps: seq<Raw>, i: nat)
    requires i <= |ps|
    ensures Weave(ps, [], i) == ps[i..]
    decreases |ps| - i
  {
    if i < |ps| {
      WeaveNothing(ps, i + 1);
    }
  }

  // Broken entries in file order, none past the end of the admitted ones.
  predicate Orderly(bs: seq<Slot>, n: nat) {
    && (forall i, j :: 0 <= i < j < |bs| ==> bs[i].after <= bs[j].after)
    && (forall i :: 0 <= i < |bs| ==> bs[i].after <= n)
  }

  lemma {:induction false} WeaveLength(ps: seq<Raw>, bs: seq<Slot>, i: nat)
    requires i <= |ps|
    ensures |Weave(ps, bs, i)| == |ps| - i + |bs|
    decreases |bs| + |ps| - i
  {
    if bs != [] && (bs[0].after <= i || i == |ps|) {
      WeaveLength(ps, bs[1..], i);
    } else if i < |ps| {
      WeaveLength(ps, bs, i + 1);
    }
  }

  // Everything before provider a is written before everything from it on.
  lemma {:induction false} WeaveCut(ps: seq<Raw>, front: seq<Slot>, back: seq<Slot>, i: nat, a: nat)
    requires i <= a <= |ps|
    requires forall j :: 0 <= j < |front| ==> front[j].after <= a
    requires forall j :: 0 <= j < |back| ==> a <= back[j].after
    ensures Weave(ps, front + back, i) == Weave(ps[..a], front, i) + Weave(ps, back, a)
    decreases |front| + a - i
  {
    var bs := front + back;
    if front != [] && (front[0].after <= i || i == |ps|) {
      assert bs[1..] == front[1..] + back;
      WeaveCut(ps, front[1..], back, i, a);
      assert Weave(ps[..a], front, i) == [front[0].raw] + Weave(ps[..a], front[1..], i);
    } else if i < a {
      if front == [] && back != [] {
        assert bs[0] == back[0] && i < back[0].after;
      }
      WeaveCut(ps, front, back, i + 1, a);
      assert Weave(ps, bs, i) == [ps[i]] + Weave(ps, bs, i + 1);
      assert Weave(ps[..a], front, i) == [ps[..a][i]] + Weave(ps[..a], front, i + 1);
    } else {
      assert front == [] && bs == back;
      assert Weave(ps[..a], front, i) == [];
    }
  }

  function Shifted(bs: seq<Slot>, step: int): seq<Slot>
    requires forall j :: 0 <= j < |bs| ==> 0 <= bs[j].after + step
  {
    seq(|bs|, j requires 0 <= j < |bs| => bs[j].(after := bs[j].after + step))
  }

  // Weaving looks only at the providers still to come.
  lemma {:induction false} WeaveShift(ps: seq<Raw>, bs: seq<Slot>, i: nat, ps': seq<Raw>, i': nat)
    requires i <= |ps| && i' <= |ps'| && ps[i..] == ps'[i'..]
    requires forall j :: 0 <= j < |bs| ==> 0 <= bs[j].after + (i' - i)
    ensures Weave(ps, bs, i) == Weave(ps', Shifted(bs, i' - i), i')
    decreases |bs| + |ps| - i
  {
    var bs' := Shifted(bs, i' - i);
    assert |ps| - i == |ps'| - i';
    if bs != [] && (bs[0].after <= i || i == |ps|) {
      assert bs'[1..] == Shifted(bs[1..], i' - i);
      WeaveShift(ps, bs[1..], i, ps', i');
    } else if i < |ps| {
      assert ps[i] == ps[i..][0] && ps'[i'] == ps'[i'..][0];
      assert ps[i + 1..] == ps[i..][1..] && ps'[i' + 1..] == ps'[i'..][1..];
      WeaveShift(ps, bs, i + 1, ps', i' + 1);
    }
  }

  lemma {:induction false} WeaveEnd(ps: seq<Raw>, bs: seq<Slot>, i: nat, e: Raw, position: nat)
    requires i <= |ps| && forall j :: 0 <= j < |bs| ==> bs[j].after <= |ps|
    ensures Weave(ps + [e], bs, i) == Weave(ps, bs, i) + [e]
    ensures Weave(ps, bs + [Slot(e, position, |ps|)], i) == Weave(ps, bs, i) + [e]
  {
    var last := Slot(e, position, |ps|);
    WeaveCut(ps + [e], bs, [], i, |ps|);
    WeaveNothing(ps + [e], |ps|);
    assert (ps + [e])[..|ps|] == ps && bs + [] == bs;
    WeaveCut(ps, bs, [last], i, |ps|);
    assert ps[..|ps|] == ps;
    assert Weave(ps, [last], |ps|) == [e] + Weave(ps, [last][1..], |ps|);
  }

  // --------------------------------------------------- split and merge undo each other

  /** The broken entries a load leaves stand in file order, each at the index it had. */
  lemma {:induction false} RejectedInOrder(ok: seq<Raw> -> bool, es: seq<Raw>)
    ensures Orderly(Rejected(ok, es), |Kept(ok, es)|)
    ensures |Kept(ok, es)| + |Rejected(ok, es)| == |es|
    ensures forall j :: 0 <= j < |Rejected(ok, es)| ==>
      var b := Rejected(ok, es)[j];
      b.position == b.after + j && b.position < |es| && es[b.position] == b.raw
  {
    if es != [] {
      RejectedInOrder(ok, es[..|es| - 1]);
    }
  }

  lemma {:induction false} SplitUndone(ok: seq<Raw> -> bool, es: seq<Raw>)
    ensures Weave(Kept(ok, es), Rejected(ok, es), 0) == es
  {
    if es != [] {
      var before := es[..|es| - 1];
      SplitUndone(ok, before);
      RejectedInOrder(ok, before);
      WeaveEnd(Kept(ok, before), Rejected(ok, before), 0, es[|es| - 1], |before|);
      assert es == before + [es[|es| - 1]];
    }
  }

  /** What a load splits, a save puts back: the same entries in the same order. */
  lemma SaveAfterLoad(ok: seq<Raw> -> bool, es: seq<Raw>)
    ensures Merged(Split(ok, es)) == es
  {
    if ok(es) {
      WeaveNothing(es, 0);
    } else {
      SplitUndone(ok, es);
    }
  }

  // -------------------------------------------------- repair, removal, deletion

  ghost predicate Sound(reg: Registry) {
    Orderly(reg.broken, |reg.providers|)
  }

  // Where broken entry k stands in the merged list.
  function Place(reg: Registry, k: nat): nat
    requires k < |reg.broken|
  {
    reg.broken[k].after + k
  }

  function Repaired(reg: Registry, k: nat, entry: Raw): Registry
    requires k < |reg.broken|
  {
    var at := Min(reg.broken[k].after, |reg.providers|);
    Registry(reg.providers[..at] + [entry] + reg.providers[at..],
             reg.broken[..k] + Shifted(reg.broken[k + 1..], 1))
  }

  function Removed(reg: Registry, k: nat): Registry
    requires k < |reg.broken|
  {
    reg.(broken := reg.broken[..k] + reg.broken[k + 1..])
  }

  function Without<T>(s: seq<T>, i: nat): seq<T>
    requires i < |s|
  {
    s[..i] + s[i + 1..]
  }

  function Deleted(reg: Registry, i: nat): Registry
    requires i < |reg.providers|
  {
    Registry(Without(reg.providers, i),
             seq(|reg.broken|, j requires 0 <= j < |reg.broken| =>
               var b := reg.broken[j]; if b.after > i then b.(after := b.after - 1) else b))
  }

  lemma MergedAround(reg: Registry, k: nat)
    requires Sound(reg) && k < |reg.broken|
    ensures var b := reg.broken[k];
      var front := Weave(reg.providers[..b.after], reg.broken[..k], 0);
      var back := Weave(reg.providers, reg.broken[k + 1..], b.after);
      Merged(reg) == front + [b.raw] + back && |front| == Place(reg, k)
  {
    var b := reg.broken[k];
    var ps := reg.providers;
    assert reg.broken == reg.broken[..k] + ([b] + reg.broken[k + 1..]);
    WeaveCut(ps, reg.broken[..k], [b] + reg.broken[k + 1..], 0, b.after);
    WeaveLength(ps[..b.after], reg.broken[..k], 0);
    assert ([b] + reg.broken[k + 1..])[1..] == reg.broken[k + 1..];
  }

  lemma OneReplaced(front: seq<Raw>, was: Raw, back: seq<Raw>, now: Raw)
    ensures (front + [was] + back)[|front|] == was
    ensures (front + [was] + back)[|front| := now] == front + [now] + back
    ensures Without(front + [was] + back, |front|) == front + back
  {
  }

  lemma RepairedSound(reg: Registry, k: nat, entry: Raw)
    requires Sound(reg) && k < |reg.broken|
    ensures Sound(Repaired(reg, k, entry))
  {
  }

  // The merged list of a repaired registry, around the repair.
  lemma RepairedAround(reg: Registry, k: nat, entry: Raw)
    requires Sound(reg) && k < |reg.broken|
    ensures var a := reg.broken[k].after;
      Merged(Repaired(reg, k, entry)) ==
      Weave(reg.providers[..a], reg.broken[..k], 0) + [entry] + Weave(reg.providers, reg.broken[k + 1..], a)
  {
    var ps, a := reg.providers, reg.broken[k].after;
    var front, back := reg.broken[..k], reg.broken[k + 1..];
    var ps', back' := Repaired(reg, k, entry).providers, Shifted(back, 1);
    WeaveCut(ps', front, back', 0, a);
    assert ps'[..a] == ps[..a] && ps'[a + 1..] == ps[a..];
    assert Weave(ps', back', a) == [entry] + Weave(ps', back', a + 1);
    WeaveShift(ps, back, a, ps', a + 1);
  }

  /** Saving after a repair gives the file with that one entry replaced. */
  lemma RepairReplacesOne(reg: Registry, k: nat, entry: Raw)
    requires Sound(reg) && k < |reg.broken|
    ensures Sound(Repaired(reg, k, entry))
    ensures Place(reg, k) < |Merged(reg)| && Merged(reg)[Place(reg, k)] == reg.broken[k].raw
    ensures Merged(Repaired(reg, k, entry)) == Merged(reg)[Place(reg, k) := entry]
  {
    RepairedSound(reg, k, entry);
    MergedAround(reg, k);
    RepairedAround(reg, k, entry);
    var b := reg.broken[k];
    OneReplaced(Weave(reg.providers[..b.after], reg.broken[..k], 0), b.raw, Weave(reg.providers, reg.broken[k + 1..], b.after), entry);
  }

  /** Saving after a removal gives the file without that one entry. */
  lemma RemovalDropsOne(reg: Registry, k: nat)
    requires Sound(reg) && k < |reg.broken|
    ensures Sound(Removed(reg, k))
    ensures Place(reg, k) < |Merged(reg)| && Merged(reg)[Place(reg, k)] == reg.broken[k].raw
    ensures Merged(Removed(reg, k)) == Without(Merged(reg), Place(reg, k))
  {
    MergedAround(reg, k);
    WeaveCut(reg.providers, reg.broken[..k], reg.broken[k + 1..], 0, reg.broken[k].after);
  }

  // How many broken entries stand before provider i.
  function StandingBefore(bs: seq<Slot>, i: nat): nat {
    if bs == [] || i < bs[0].after then 0 else 1 + StandingBefore(bs[1..], i)
  }

  lemma {:induction false} StandingBeforeCuts(bs: seq<Slot>, i: nat, n: nat)
    requires Orderly(bs, n)
    ensures StandingBefore(bs, i) <= |bs|
    ensures forall j :: 0 <= j < StandingBefore(bs, i) ==> bs[j].after <= i
    ensures forall j :: StandingBefore(bs, i) <= j < |bs| ==> i < bs[j].after
  {
    if bs != [] && bs[0].after <= i {
      StandingBeforeCuts(bs[1..], i, n);
    }
  }

  lemma WeaveAroundProvider(ps: seq<Raw>, front: seq<Slot>, back: seq<Slot>, i: nat)
    requires i < |ps|
    requires forall j :: 0 <= j < |front| ==> front[j].after <= i
    requires forall j :: 0 <= j < |back| ==> i < back[j].after
    ensures Weave(ps, front + back, 0) == Weave(ps[..i], front, 0) + [ps[i]] + Weave(ps, back, i + 1)
    ensures |Weave(ps[..i], front, 0)| == i + |front|
    ensures Weave(Without(ps, i), front + Shifted(back, -1), 0) == Weave(ps[..i], front, 0) + Weave(ps, back, i + 1)
  {
    WeaveCut(ps, front, back, 0, i);
    WeaveLength(ps[..i], front, 0);
    assert Weave(ps, back, i) == [ps[i]] + Weave(ps, back, i + 1);
    var ps' := Without(ps, i);
    assert ps'[..i] == ps[..i] && ps'[i..] == ps[i + 1..];
    WeaveCut(ps', front, Shifted(back, -1), 0, i);
    WeaveShift(ps, back, i + 1, ps', i);
  }

  lemma DeletedCut(reg: Registry, i: nat)
    requires Sound(reg) && i < |reg.providers|
    ensures var k := StandingBefore(reg.broken, i);
      && k <= |reg.broken|
      && (forall j :: 0 <= j < k ==> reg.broken[..k][j].after <= i)
      && (forall j :: 0 <= j < |reg.broken| - k ==> i < reg.broken[k..][j].after)
      && Deleted(reg, i).broken == reg.broken[..k] + Shifted(reg.broken[k..], -1)
      && Sound(Deleted(reg, i))
  {
    StandingBeforeCuts(reg.broken, i, |reg.providers|);
  }

  // The merged list around an admitted entry, and what its deletion leaves.
  lemma DeletedAround(reg: Registry, i: nat) returns (front: seq<Raw>, back: seq<Raw>)
    requires Sound(reg) && i < |reg.providers|
    ensures Merged(reg) == front + [reg.providers[i]] + back && |front| == i + StandingBefore(reg.broken, i)
    ensures Merged(Deleted(reg, i)) == front + back
  {
    var k := StandingBefore(reg.broken, i);
    DeletedCut(reg, i);
    assert reg.broken == reg.broken[..k] + reg.broken[k..];
    WeaveAroundProvider(reg.providers, reg.broken[..k], reg.broken[k..], i);
    front, back := Weave(reg.providers[..i], reg.broken[..k], 0), Weave(reg.providers, reg.broken[k..], i + 1);
  }

  /** Saving after an admitted entry is deleted gives the file without that one entry: no broken
      entry moves past a neighbour. */
  lemma DeletionDropsOne(reg: Registry, i: nat)
    requires Sound(reg) && i < |reg.providers|
    ensures Sound(Deleted(reg, i))
    ensures var place := i + StandingBefore(reg.broken, i);
      && place < |Merged(reg)| && Merged(reg)[place] == reg.providers[i]
      && Merged(Deleted(reg, i)) == Without(Merged(reg), place)
  {
    DeletedCut(reg, i);
    var front, back := DeletedAround(reg, i);
    OneReplaced(front, reg.providers[i], back, reg.providers[i]);
  }

  /** From load to save: repairing or removing the broken entry shown at a position changes that
      position of the file and no other. */
  lemma EditOfALoadedFile(ok: seq<Raw> -> bool, es: seq<Raw>, k: nat, entry: Raw)
    requires k < |Split(ok, es).broken|
    ensures var reg := Split(ok, es);
      var position := reg.broken[k].position;
      && position < |es| && es[position] == reg.broken[k].raw
      && Merged(Repaired(reg, k, entry)) == es[position := entry]
      && Merged(Removed(reg, k)) == Without(es, position)
  {
    SaveAfterLoad(ok, es);
    RejectedInOrder(ok, es);
    RepairReplacesOne(Split(ok, es), k, entry);
    RemovalDropsOne(Split(ok, es), k);
  }

  // ------------------------------------------------- when taking an entry out leaves a list fit

  function Insert(s: seq<Raw>, at: nat, e: Raw): seq<Raw>
    requires at <= |s|
  {
    s[..at] + [e] + s[at..]
  }

  ghost predicate PrefixClosed(ok: seq<Raw> -> bool) {
    forall s: seq<Raw>, k: nat :: k <= |s| && ok(s) ==> ok(s[..k])
  }

  ghost predicate Hereditary(ok: seq<Raw> -> bool) {
    forall s: seq<Raw>, at: nat, e: Raw :: at <= |s| && ok(Insert(s, at, e)) ==> ok(s)
  }

  lemma HereditaryIsPrefixClosed(ok: seq<Raw> -> bool)
    requires Hereditary(ok)
    ensures PrefixClosed(ok)
  {
    forall s: seq<Raw>, k: nat | k <= |s| && ok(s)
      ensures ok(s[..k])
    {
      FitPrefix(ok, s, k);
    }
  }

  lemma {:induction false} FitPrefix(ok: seq<Raw> -> bool, s: seq<Raw>, k: nat)
    requires Hereditary(ok) && k <= |s| && ok(s)
    ensures ok(s[..k])
    decreases |s|
  {
    if k == |s| {
      assert s[..k] == s;
    } else {
      var n := |s| - 1;
      assert s == Insert(s[..n], n, s[n]);
      FitPrefix(ok, s[..n], k);
      assert s[..n][..k] == s[..k];
    }
  }

  /** Where prefixes of fit lists are fit, the all-at-once path is only a short cut: the loop alone
      gives the same split of every file, and a load never fails. */
  lemma SplitIsTheLoop(ok: seq<Raw> -> bool, es: seq<Raw>)
    requires PrefixClosed(ok) && ok([])
    ensures Split(ok, es) == Registry(Kept(ok, es), Rejected(ok, es))
    ensures ok(Kept(ok, es))
  {
    KeptIsFit(ok, es);
    if ok(es) {
      assert forall k: nat :: k <= |es| ==> ok(es[..k]);
      LoopAdmitsAllIff(ok, es);
    }
  }

  lemma NoneRejectedIff(ok: seq<Raw> -> bool, es: seq<Raw>)
    ensures Kept(ok, es) == es <==> Rejected(ok, es) == []
  {
    RejectedInOrder(ok, es);
    if Rejected(ok, es) == [] {
      SplitUndone(ok, es);
      WeaveNothing(Kept(ok, es), 0);
    }
  }

  lemma SameButLast(a: seq<Raw>, b: seq<Raw>, last: Raw)
    requires |a| <= |b|
    ensures a + [last] == b + [last] <==> a == b
    ensures a != b + [last]
  {
    if a + [last] == b + [last] {
      assert (a + [last])[..|a|] == a && (b + [last])[..|b|] == b;
    }
  }

  lemma TriedAllIff(ok: seq<Raw> -> bool, kept: seq<Raw>, before: seq<Raw>, last: Raw)
    requires |kept| <= |before|
    ensures (if ok(kept + [last]) then kept + [last] else kept) == before + [last] <==> kept == before && ok(before + [last])
  {
    SameButLast(kept, before, last);
  }

  lemma KeptMore(ok: seq<Raw> -> bool, before: seq<Raw>, last: Raw)
    ensures Kept(ok, before + [last]) == if ok(Kept(ok, before) + [last]) then Kept(ok, before) + [last] else Kept(ok, before)
  {
    assert (before + [last])[..|before|] == before;
  }

  lemma KeptAllOfMore(ok: seq<Raw> -> bool, before: seq<Raw>, last: Raw)
    ensures Kept(ok, before + [last]) == before + [last] <==> Kept(ok, before) == before && ok(before + [last])
  {
    KeptMore(ok, before, last);
    KeptNoLonger(ok, before);
    TriedAllIff(ok, Kept(ok, before), before, last);
  }

  lemma {:induction false} KeptNoLonger(ok: seq<Raw> -> bool, es: seq<Raw>)
    ensures |Kept(ok, es)| <= |es|
  {
    if es != [] {
      KeptNoLonger(ok, es[..|es| - 1]);
    }
  }

  /** The loop agrees with the all-at-once path exactly on the lists whose every prefix is fit. */
  lemma {:induction false} LoopAdmitsAllIff(ok: seq<Raw> -> bool, es: seq<Raw>)
    ensures Kept(ok, es) == es <==> forall k :: 1 <= k <= |es| ==> ok(es[..k])
    ensures Kept(ok, es) == es <==> Rejected(ok, es) == []
  {
    NoneRejectedIff(ok, es);
    if es != [] {
      var before := es[..|es| - 1];
      LoopAdmitsAllIff(ok, before);
      KeptAllOfMore(ok, before, es[|es| - 1]);
      assert es == before + [es[|es| - 1]];
      assert forall k :: 0 <= k <= |before| ==> before[..k] == es[..k];
      assert es[..|es|] == es;
    }
  }

  // Of arbitrary rules, one that a list satisfies and a prefix of it does not makes the two paths
  // differ; the registry's own rule (module BrokenRepair) is not of this kind.
  lemma PathsCanDiffer()
    ensures exists ok: seq<Raw> -> bool, es: seq<Raw> :: ok(es) && Kept(ok, es) != es
  {
    var ok := (s: seq<Raw>) => |s| != 1;
    var es := ["a", "b"];
    assert es[..1] == ["a"];
    assert Kept(ok, []) == [] && Kept(ok, ["a"]) == [];
    assert Kept(ok, es) == [];
    assert ok(es) && Kept(ok, es) != es;
  }

  lemma {:induction false} RejectedAtItsTurn(ok: seq<Raw> -> bool, es: seq<Raw>, j: nat)
    requires j < |Rejected(ok, es)|
    ensures var b := Rejected(ok, es)[j];
      b.after <= |Kept(ok, es)| && !ok(Kept(ok, es)[..b.after] + [b.raw])
  {
    var before := es[..|es| - 1];
    RejectedInOrder(ok, es);
    if j < |Rejected(ok, before)| {
      RejectedAtItsTurn(ok, before, j);
      var b := Rejected(ok, es)[j];
      assert Kept(ok, es)[..b.after] == Kept(ok, before)[..b.after];
    } else {
      assert Kept(ok, es)[..|Kept(ok, es)|] == Kept(ok, es);
    }
  }

  /** Where prefixes of fit lists are fit, no broken entry could go back unrepaired at its place. */
  lemma NoneCouldGoBack(ok: seq<Raw> -> bool, es: seq<Raw>, j: nat)
    requires PrefixClosed(ok) && j < |Rejected(ok, es)|
    ensures var b := Rejected(ok, es)[j];
      b.after <= |Kept(ok, es)| && !ok(Insert(Kept(ok, es), b.after, b.raw))
  {
    RejectedAtItsTurn(ok, es, j);
    var b := Rejected(ok, es)[j];
    var back := Insert(Kept(ok, es), b.after, b.raw);
    assert back[..b.after + 1] == Kept(ok, es)[..b.after] + [b.raw];
  }

  lemma {:induction false} KeptBefore(ok: seq<Raw> -> bool, es: seq<Raw>, n: nat)
    requires n <= |es|
    ensures Kept(ok, es[..n]) <= Kept(ok, es)
    ensures Rejected(ok, es[..n]) <= Rejected(ok, es)
    decreases |es|
  {
    if n < |es| {
      KeptBefore(ok, es[..|es| - 1], n);
      assert es[..|es| - 1][..n] == es[..n];
    } else {
      assert es[..n] == es;
    }
  }

  // The entries admitted before a broken one are the first `after` of those admitted in all.
  lemma {:induction false} KeptUpTo(ok: seq<Raw> -> bool, es: seq<Raw>, j: nat)
    requires j < |Rejected(ok, es)|
    ensures var b := Rejected(ok, es)[j];
      && b.position < |es| && |Kept(ok, es[..b.position])| == b.after
      && b.after <= |Kept(ok, es)|
      && Kept(ok, es[..b.position]) == Kept(ok, es)[..b.after]
  {
    RejectedInOrder(ok, es);
    var before := es[..|es| - 1];
    var b := Rejected(ok, es)[j];
    if j < |Rejected(ok, before)| {
      KeptUpTo(ok, before, j);
      assert es[..b.position] == before[..b.position];
    } else {
      assert es[..b.position] == before;
    }
    KeptBefore(ok, es, b.position);
  }
}
