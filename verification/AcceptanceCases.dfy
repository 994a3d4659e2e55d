/** What the cases of a set are: each with an id of its own, and as many of a job as it has variants. */
module AcceptanceCases {
  import opened AcceptanceManifest

  function SlotIds(slots: seq<Slot>): seq<string> {
    seq(|slots|, k requires 0 <= k < |slots| => slots[k].Id())
  }

  predicate Within(a: seq<string>, b: seq<string>) {
    forall i :: 0 <= i < |a| ==> a[i] in b
  }

  lemma DistinctParts(a: seq<string>, b: seq<string>)
    requires Distinct(a + b)
    ensures Distinct(a) && Distinct(b) && forall i, j :: 0 <= i < |a| && 0 <= j < |b| ==> a[i] != b[j]
  {
    assert forall i :: 0 <= i < |a| ==> (a + b)[i] == a[i];
    assert forall j :: 0 <= j < |b| ==> (a + b)[|a| + j] == b[j];
  }

  // Parts taken from distinct parts are distinct together.
  lemma DistinctTaken(a: seq<string>, b: seq<string>, from: seq<string>, others: seq<string>)
    requires Distinct(from + others) && Distinct(a) && Distinct(b) && Within(a, from) && Within(b, others)
    ensures Distinct(a + b) && Within(a + b, from + others)
  {
    DistinctParts(from, others);
    forall i, j | 0 <= i < |a| && 0 <= j < |b|
      ensures a[i] != b[j]
    {
      assert a[i] in from && b[j] in others;
    }
  }

  predicate OfJob(s: Slot, jobs: seq<Job>, group: string) {
    s.ForVariant? && s.job < |jobs| && s.variant in jobs[s.job].variants && s.variant.group == group
  }

  lemma {:induction false} VariantSlotsFacts(i: nat, vs: seq<Variant>, group: string)
    requires Distinct(VariantIds(vs))
    ensures var ss := VariantSlots(i, vs, group);
      && Distinct(SlotIds(ss)) && Within(SlotIds(ss), VariantIds(vs))
      && forall k :: 0 <= k < |ss| ==> ss[k].ForVariant? && ss[k].job == i && ss[k].variant in vs && ss[k].variant.group == group
  {
    if vs != [] {
      var v, rest := vs[|vs| - 1], vs[..|vs| - 1];
      assert VariantIds(vs) == VariantIds(rest) + [v.id];
      DistinctParts(VariantIds(rest), [v.id]);
      VariantSlotsFacts(i, rest, group);
      var more := if v.group == group then [ForVariant(i, v)] else [];
      assert SlotIds(VariantSlots(i, vs, group)) == SlotIds(VariantSlots(i, rest, group)) + SlotIds(more);
      DistinctTaken(SlotIds(VariantSlots(i, rest, group)), SlotIds(more), VariantIds(rest), [v.id]);
    }
  }

  lemma {:induction false} JobSlotsFacts(jobs: seq<Job>, group: string)
    requires Distinct(JobIds(jobs))
    ensures var ss := JobSlots(jobs, group);
      && Distinct(SlotIds(ss)) && Within(SlotIds(ss), JobIds(jobs))
      && forall k :: 0 <= k < |ss| ==> OfJob(ss[k], jobs, group)
  {
    if jobs != [] {
      var n := |jobs| - 1;
      var j, rest := jobs[n], jobs[..n];
      DistinctParts(JobIds(rest) + [j.id], VariantIds(j.variants));
      DistinctParts(JobIds(rest), [j.id]);
      JobSlotsFacts(rest, group);
      VariantSlotsFacts(n, j.variants, group);
      var a, b := JobSlots(rest, group), VariantSlots(n, j.variants, group);
      assert SlotIds(JobSlots(jobs, group)) == SlotIds(a) + SlotIds(b);
      DistinctTaken(SlotIds(a), SlotIds(b), JobIds(rest) + [j.id], VariantIds(j.variants));
      forall k | 0 <= k < |a| + |b|
        ensures OfJob((a + b)[k], jobs, group)
      {
        assert k < |a| ==> OfJob(a[k], rest, group) && jobs[a[k].job] == rest[a[k].job];
        assert k >= |a| ==> (a + b)[k] == b[k - |a|];
      }
    }
  }

  /** No two cases share an id, no id is empty, and every case is a variant of the set or a negative
      case of the manifest. */
  lemma SlotsFacts(m: Manifest, group: string)
    requires Valid(m)
    ensures var ss := Slots(m, group);
      && Distinct(SlotIds(ss))
      && (forall k :: 0 <= k < |ss| ==> ss[k].Id() != "")
      && (forall k :: 0 <= k < |ss| ==> OfJob(ss[k], m.jobs, group) || (ss[k].ForNegative? && ss[k].negative in m.negatives))
  {
    DistinctParts(JobIds(m.jobs), NegativeIds(m.negatives));
    JobSlotsFacts(m.jobs, group);
    var a, b := JobSlots(m.jobs, group), NegativeSlots(m.negatives);
    assert SlotIds(b) == NegativeIds(m.negatives);
    assert SlotIds(Slots(m, group)) == SlotIds(a) + SlotIds(b);
    DistinctTaken(SlotIds(a), SlotIds(b), JobIds(m.jobs), NegativeIds(m.negatives));
    forall k | 0 <= k < |a| + |b|
      ensures (a + b)[k].Id() != ""
    {
      if k < |a| {
        assert OfJob(a[k], m.jobs, group) && FineJob(m.jobs[a[k].job]);
        assert FineVariant(a[k].variant);
      } else {
        assert FineNegative(m.negatives[k - |a|], m.jobs);
      }
    }
  }

  lemma DistinctSlots(slots: seq<Slot>, i: nat, j: nat)
    requires Distinct(SlotIds(slots)) && i < |slots| && j < |slots| && slots[i].Id() == slots[j].Id()
    ensures i == j
  {
    assert SlotIds(slots)[i] == SlotIds(slots)[j];
  }

  lemma {:induction false} JobIdsHold(jobs: seq<Job>, i: nat)
    requires i < |jobs|
    ensures jobs[i].id in JobIds(jobs)
  {
    if i < |jobs| - 1 {
      JobIdsHold(jobs[..|jobs| - 1], i);
    }
  }

  lemma {:induction false} JobsDiffer(jobs: seq<Job>, i: nat, j: nat)
    requires Distinct(JobIds(jobs)) && i < j < |jobs|
    ensures jobs[i].id != jobs[j].id
  {
    var n := |jobs| - 1;
    var before := JobIds(jobs[..n]);
    DistinctParts(before + [jobs[n].id], VariantIds(jobs[n].variants));
    DistinctParts(before, [jobs[n].id]);
    if j < n {
      JobsDiffer(jobs[..n], i, j);
    } else {
      JobIdsHold(jobs[..n], i);
      assert forall x :: x in before ==> x != [jobs[n].id][0];
    }
  }

  // ------------------------------------------------------------------- how many of a job

  function Shots(slots: seq<Slot>, i: nat): nat {
    if slots == [] then 0
    else
      var s := slots[|slots| - 1];
      Shots(slots[..|slots| - 1], i) + if s.ForVariant? && s.job == i then 1 else 0
  }

  lemma {:induction false} ShotsJoined(a: seq<Slot>, b: seq<Slot>, i: nat)
    ensures Shots(a + b, i) == Shots(a, i) + Shots(b, i)
    decreases |b|
  {
    if b == [] {
      assert a + b == a;
    } else {
      assert (a + b)[..|a + b| - 1] == a + b[..|b| - 1];
      ShotsJoined(a, b[..|b| - 1], i);
    }
  }

  lemma {:induction false} ShotsOfVariants(j: nat, vs: seq<Variant>, group: string, i: nat)
    ensures Shots(VariantSlots(j, vs, group), i) == if i == j then CountIn(vs, group) else 0
  {
    if vs != [] {
      ShotsOfVariants(j, vs[..|vs| - 1], group, i);
      var v := vs[|vs| - 1];
      ShotsJoined(VariantSlots(j, vs[..|vs| - 1], group), if v.group == group then [ForVariant(j, v)] else [], i);
      assert Shots([ForVariant(j, v)], i) == Shots([], i) + if j == i then 1 else 0;
    }
  }

  lemma {:induction false} ShotsOfJobs(jobs: seq<Job>, group: string, i: nat)
    ensures Shots(JobSlots(jobs, group), i) == if i < |jobs| then CountIn(jobs[i].variants, group) else 0
  {
    if jobs != [] {
      var n := |jobs| - 1;
      ShotsOfJobs(jobs[..n], group, i);
      ShotsOfVariants(n, jobs[n].variants, group, i);
      ShotsJoined(JobSlots(jobs[..n], group), VariantSlots(n, jobs[n].variants, group), i);
    }
  }

  lemma {:induction false} ShotsOfNegatives(cs: seq<NegativeCase>, i: nat)
    ensures Shots(NegativeSlots(cs), i) == 0
  {
    if cs != [] {
      assert NegativeSlots(cs)[..|cs| - 1] == NegativeSlots(cs[..|cs| - 1]);
      ShotsOfNegatives(cs[..|cs| - 1], i);
    }
  }

  /** A job has as many cases as it has variants in the set. */
  lemma ShotsAreVariants(m: Manifest, group: string, i: nat)
    requires i < |m.jobs|
    ensures Shots(Slots(m, group), i) == CountIn(m.jobs[i].variants, group)
  {
    ShotsOfJobs(m.jobs, group, i);
    ShotsOfNegatives(m.negatives, i);
    ShotsJoined(JobSlots(m.jobs, group), NegativeSlots(m.negatives), i);
  }

  // ----------------------------------------------------------------------- enough of them

  lemma {:induction false} NoneCounted(vs: seq<Variant>, group: string)
    ensures CountIn(vs, group) == 0 <==> forall i :: 0 <= i < |vs| ==> vs[i].group != group
  {
    if vs != [] {
      NoneCounted(vs[..|vs| - 1], group);
      assert forall i :: 0 <= i < |vs| - 1 ==> vs[..|vs| - 1][i] == vs[i];
    }
  }

  /** In a valid manifest a job is short of variants in a set exactly when it has none there. */
  lemma ShortIffNone(m: Manifest, group: string, i: nat)
    requires Valid(m) && i < |m.jobs|
    ensures CountIn(m.jobs[i].variants, group) < m.jobs[i].threshold <==> CountIn(m.jobs[i].variants, group) == 0
  {
    assert FineJob(m.jobs[i]);
    NoneCounted(m.jobs[i].variants, group);
  }

  // ---------------------------------------------------------------- a valid manifest

  // Some character of the text is no white space.
  predicate Says(s: string) {
    exists c :: c in s && !IsSpace(c)
  }

  /** A case can be judged exactly when its texts say something, and it is of one of the two sets with
      only the four kinds of help allowed, or tied to no job or to one there is. */
  lemma JudgeableIff(v: Variant, c: NegativeCase, jobs: seq<Job>)
    ensures FineVariant(v) <==>
      && Says(v.id) && Says(v.input) && Says(v.expected) && (v.group == "development" || v.group == "heldout")
      && (forall a :: a in v.allowed ==> a in {"approval", "clarification", "mfa", "repair"})
    ensures FineNegative(c, jobs) <==>
      && Says(c.id) && Says(c.description) && Says(c.input)
      && (c.job != "" ==> exists j :: j in jobs && j.id == c.job)
  {
    SaysIff(v.id);
    SaysIff(v.input);
    SaysIff(v.expected);
    SaysIff(c.id);
    SaysIff(c.description);
    SaysIff(c.input);
    assert forall i :: 0 <= i < |v.allowed| ==> v.allowed[i] in v.allowed;
    if i :| 0 <= i < |jobs| && jobs[i].id == c.job {
      assert jobs[i] in jobs;
    }
  }

  lemma SaysIff(s: string)
    ensures Says(s) <==> !Blank(s)
  {
    if !Blank(s) {
      var i :| 0 <= i < |s| && !IsSpace(s[i]);
      assert s[i] in s;
    }
  }

  lemma {:induction false} TwoSets(vs: seq<Variant>)
    requires FineVariants(vs)
    ensures CountIn(vs, "development") + CountIn(vs, "heldout") == |vs|
  {
    assert "development"[0] != "heldout"[0];
    if vs != [] {
      TwoSets(vs[..|vs| - 1]);
    }
  }

  lemma {:induction false} CountedIffSome(vs: seq<Variant>, group: string)
    ensures CountIn(vs, group) > 0 <==> exists i :: 0 <= i < |vs| && vs[i].group == group
  {
    if vs != [] {
      CountedIffSome(vs[..|vs| - 1], group);
    }
  }

  predicate TheJob(jobs: seq<Job>, i: int, id: string) {
    0 <= i < |jobs| && jobs[i].id == id && forall k :: 0 <= k < |jobs| && k != i ==> jobs[k].id != id
  }

  lemma OnlyJob(jobs: seq<Job>, id: string)
    requires Distinct(JobIds(jobs)) && HasJob(jobs, id)
    ensures exists i :: TheJob(jobs, i, id)
  {
    var i :| 0 <= i < |jobs| && jobs[i].id == id;
    forall k | 0 <= k < |jobs| && k != i
      ensures jobs[k].id != id
    {
      JobsDiffer(jobs, if k < i then k else i, if k < i then i else k);
    }
    assert TheJob(jobs, i, id);
  }

  lemma BarInReach(j: Job)
    requires FineJob(j)
    ensures forall g :: CountIn(j.variants, g) == 0 || 1 <= j.threshold <= CountIn(j.variants, g)
  {
    forall g
      ensures CountIn(j.variants, g) == 0 || j.threshold <= CountIn(j.variants, g)
    {
      CountedIffSome(j.variants, g);
    }
  }

  /** In a valid manifest every variant is of one of the two sets and names only the four kinds of help,
      a job's bar is within reach in each set that has variants of it, and a negative case is tied
      to no job or to exactly one. */
  lemma ValidMeans(m: Manifest)
    requires Valid(m)
    ensures forall i :: 0 <= i < |m.jobs| ==> (
      var j := m.jobs[i];
      && CountIn(j.variants, "development") + CountIn(j.variants, "heldout") == |j.variants| > 0
      && (forall g :: CountIn(j.variants, g) == 0 || 1 <= j.threshold <= CountIn(j.variants, g))
      && (forall v, a :: v in j.variants && a in v.allowed ==> a in {"approval", "clarification", "mfa", "repair"}))
    ensures forall c :: c in m.negatives && c.job != "" ==> exists i :: TheJob(m.jobs, i, c.job)
  {
    forall i | 0 <= i < |m.jobs|
      ensures CountIn(m.jobs[i].variants, "development") + CountIn(m.jobs[i].variants, "heldout") == |m.jobs[i].variants| > 0
      ensures forall g :: CountIn(m.jobs[i].variants, g) == 0 || 1 <= m.jobs[i].threshold <= CountIn(m.jobs[i].variants, g)
    {
      TwoSets(m.jobs[i].variants);
      BarInReach(m.jobs[i]);
    }
    DistinctParts(JobIds(m.jobs), NegativeIds(m.negatives));
    forall c | c in m.negatives && c.job != ""
      ensures exists i :: TheJob(m.jobs, i, c.job)
    {
      var n :| 0 <= n < |m.negatives| && m.negatives[n] == c;
      assert FineNegative(m.negatives[n], m.jobs);
      OnlyJob(m.jobs, c.job);
    }
  }
}
