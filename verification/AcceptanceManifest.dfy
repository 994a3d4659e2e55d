/**
  The acceptance manifest (internal/acceptance/manifest.go): jobs with their variants, the
  negative cases, and the cases a set is made of.
 */
module AcceptanceManifest {
  import opened Basics

  const VERSION := 1
  const SETS: set<string> := {"development", "heldout"}
  const INTERVENTIONS: set<string> := {"approval", "clarification", "mfa", "repair"}

  datatype Variant = Variant(id: string, group: string, input: string, expected: string, allowed: seq<string>)

  datatype Job = Job(id: string, title: string, threshold: int, variants: seq<Variant>)

  // `job` is empty for a case tied to no job.
  datatype NegativeCase = NegativeCase(id: string, job: string, description: string, input: string)

  datatype Manifest = Manifest(version: int, timeout: int, jobs: seq<Job>, negatives: seq<NegativeCase>)

  predicate IsSpace(c: char) { c as int in WHITE_SPACE }

  predicate Blank(s: string) {
    forall i :: 0 <= i < |s| ==> IsSpace(s[i])
  }

  // ---------------------------------------------------------------------------- ids

  predicate Distinct(s: seq<string>) {
    forall i, j :: 0 <= i < j < |s| ==> s[i] != s[j]
  }

  function VariantIds(vs: seq<Variant>): seq<string> {
    seq(|vs|, i requires 0 <= i < |vs| => vs[i].id)
  }

  function NegativeIds(cs: seq<NegativeCase>): seq<string> {
    seq(|cs|, i requires 0 <= i < |cs| => cs[i].id)
  }

  function JobIds(jobs: seq<Job>): seq<string> {
    if jobs == [] then []
    else
      var j := jobs[|jobs| - 1];
      JobIds(jobs[..|jobs| - 1]) + [j.id] + VariantIds(j.variants)
  }

  function Ids(m: Manifest): seq<string> {
    JobIds(m.jobs) + NegativeIds(m.negatives)
  }

  lemma {:induction false} JobIdsBegin(jobs: seq<Job>, i: nat)
    requires i <= |jobs|
    ensures JobIds(jobs[..i]) <= JobIds(jobs)
  {
    if i < |jobs| {
      assert jobs[..|jobs| - 1][..i] == jobs[..i];
      JobIdsBegin(jobs[..|jobs| - 1], i);
    } else {
      assert jobs[..i] == jobs;
    }
  }

  // An id met again among the ids is met twice.
  lemma MetAgain(s: seq<string>, id: string, all: seq<string>)
    requires s + [id] <= all && id in s
    ensures !Distinct(all)
  {
    var i :| 0 <= i < |s| && s[i] == id;
    assert all[i] == (s + [id])[i] && all[|s|] == (s + [id])[|s|];
  }

  // ----------------------------------------------------------------------- validity

  predicate FineVariant(v: Variant) {
    && !Blank(v.id) && v.group in SETS && !Blank(v.input) && !Blank(v.expected)
    && (forall i :: 0 <= i < |v.allowed| ==> v.allowed[i] in INTERVENTIONS)
  }

  function CountIn(vs: seq<Variant>, group: string): nat {
    if vs == [] then 0
    else CountIn(vs[..|vs| - 1], group) + (if vs[|vs| - 1].group == group then 1 else 0)
  }

  predicate FineVariants(vs: seq<Variant>) {
    forall i :: 0 <= i < |vs| ==> FineVariant(vs[i])
  }

  // The bar can be met in every set the job has variants in.
  predicate FineJob(j: Job) {
    && !Blank(j.id) && !Blank(j.title) && j.variants != [] && FineVariants(j.variants)
    && 1 <= j.threshold
    && (forall i :: 0 <= i < |j.variants| ==> j.threshold <= CountIn(j.variants, j.variants[i].group))
  }

  predicate HasJob(jobs: seq<Job>, id: string) {
    exists i :: 0 <= i < |jobs| && jobs[i].id == id
  }

  predicate FineNegative(c: NegativeCase, jobs: seq<Job>) {
    !Blank(c.id) && (c.job == "" || HasJob(jobs, c.job)) && !Blank(c.description) && !Blank(c.input)
  }

  predicate Valid(m: Manifest) {
    && m.version == VERSION && m.timeout > 0 && m.jobs != []
    && Distinct(Ids(m))
    && (forall i :: 0 <= i < |m.jobs| ==> FineJob(m.jobs[i]))
    && (forall i :: 0 <= i < |m.negatives| ==> FineNegative(m.negatives[i], m.jobs))
  }

  // The ids claimed so far, as the checks keep them.
  ghost predicate Claimed(ids: set<string>, s: seq<string>) {
    Distinct(s) && forall x :: x in ids <==> x in s
  }

  lemma ClaimMore(ids: set<string>, s: seq<string>, id: string)
    requires Claimed(ids, s) && id !in ids
    ensures Claimed(ids + {id}, s + [id])
  {
  }

  method HasJobNamed(jobs: seq<Job>, id: string) returns (found: bool)
    ensures found <==> HasJob(jobs, id)
  {
    for i := 0 to |jobs|
      invariant forall k :: 0 <= k < i ==> jobs[k].id != id
    {
      if jobs[i].id == id {
        return true;
      }
    }
    return false;
  }

  method AllowsKnown(v: Variant) returns (ok: bool)
    ensures ok <==> forall i :: 0 <= i < |v.allowed| ==> v.allowed[i] in INTERVENTIONS
  {
    for i := 0 to |v.allowed|
      invariant forall k :: 0 <= k < i ==> v.allowed[k] in INTERVENTIONS
    {
      if v.allowed[i] !in INTERVENTIONS {
        return false;
      }
    }
    return true;
  }

  function Tallied(counts: map<string, nat>, group: string): nat {
    if group in counts then counts[group] else 0
  }

  method CheckVariant(v: Variant) returns (ok: bool)
    ensures ok <==> FineVariant(v)
  {
    if Blank(v.id) || v.group !in SETS || Blank(v.input) || Blank(v.expected) {
      return false;
    }
    ok := AllowsKnown(v);
  }

  lemma OneVariantMore(vs: seq<Variant>, k: nat, before: seq<string>)
    requires k < |vs|
    ensures before + VariantIds(vs[..k + 1]) == before + VariantIds(vs[..k]) + [vs[k].id] <= before + VariantIds(vs)
    ensures FineVariants(vs[..k + 1]) <==> FineVariants(vs[..k]) && FineVariant(vs[k])
    ensures FineVariants(vs) ==> FineVariant(vs[k])
  {
    assert vs[..k + 1] == vs[..k] + [vs[k]];
    assert forall i :: 0 <= i < k ==> vs[..k + 1][i] == vs[..k][i];
    assert vs[..k + 1][k] == vs[k];
  }

  // How many variants each set has.
  function PerSet(vs: seq<Variant>): map<string, nat> {
    if vs == [] then map[]
    else
      var group, before := vs[|vs| - 1].group, PerSet(vs[..|vs| - 1]);
      before[group := Tallied(before, group) + 1]
  }

  lemma {:induction false} PerSetCounts(vs: seq<Variant>, g: string)
    ensures Tallied(PerSet(vs), g) == CountIn(vs, g)
    ensures g in PerSet(vs) <==> exists i :: 0 <= i < |vs| && vs[i].group == g
  {
    if vs != [] {
      var rest := vs[..|vs| - 1];
      PerSetCounts(rest, g);
      PerSetCounts(rest, vs[|vs| - 1].group);
      assert forall i :: 0 <= i < |rest| ==> rest[i] == vs[i];
    }
  }

  // The variants of one job, their ids claimed after `before`.
  method CheckVariants(vs: seq<Variant>, ids: set<string>, ghost before: seq<string>)
    returns (ok: bool, ids': set<string>, counts: map<string, nat>)
    requires Claimed(ids, before)
    ensures ok <==> FineVariants(vs) && Distinct(before + VariantIds(vs))
    ensures ok ==> Claimed(ids', before + VariantIds(vs))
    ensures ok ==> counts == PerSet(vs)
  {
    ids', counts := ids, map[];
    assert before + VariantIds(vs[..0]) == before;
    for k := 0 to |vs|
      invariant FineVariants(vs[..k])
      invariant Claimed(ids', before + VariantIds(vs[..k]))
      invariant counts == PerSet(vs[..k])
    {
      var v := vs[k];
      ghost var s := before + VariantIds(vs[..k]);
      OneVariantMore(vs, k, before);
      assert vs[..k + 1][..k] == vs[..k];
      var ok' := CheckVariant(v);
      if !ok' {
        return false, ids', counts;
      }
      if v.id in ids' {
        MetAgain(s, v.id, before + VariantIds(vs));
        return false, ids', counts;
      }
      ClaimMore(ids', s, v.id);
      ids' := ids' + {v.id};
      counts := counts[v.group := Tallied(counts, v.group) + 1];
    }
    assert vs[..|vs|] == vs;
    return true, ids', counts;
  }

  method BarCanBeMet(j: Job, counts: map<string, nat>) returns (ok: bool)
    requires counts == PerSet(j.variants)
    ensures ok <==> forall i :: 0 <= i < |j.variants| ==> j.threshold <= CountIn(j.variants, j.variants[i].group)
  {
    var left := counts.Keys;
    while left != {}
      invariant left <= counts.Keys
      invariant forall g :: g in counts && g !in left ==> j.threshold <= CountIn(j.variants, g)
    {
      var g :| g in left;
      PerSetCounts(j.variants, g);
      if j.threshold > counts[g] {
        return false;
      }
      left := left - {g};
    }
    forall i | 0 <= i < |j.variants|
      ensures j.threshold <= CountIn(j.variants, j.variants[i].group)
    {
      PerSetCounts(j.variants, j.variants[i].group);
    }
    return true;
  }

  method CheckJob(j: Job, ids: set<string>, ghost before: seq<string>) returns (ok: bool, ids': set<string>)
    requires Claimed(ids, before)
    ensures ok <==> FineJob(j) && Distinct(before + [j.id] + VariantIds(j.variants))
    ensures ok ==> Claimed(ids', before + [j.id] + VariantIds(j.variants))
  {
    if Blank(j.id) {
      return false, ids;
    }
    if j.id in ids {
      MetAgain(before, j.id, before + [j.id] + VariantIds(j.variants));
      return false, ids;
    }
    ids' := ids + {j.id};
    if Blank(j.title) || j.variants == [] {
      return false, ids';
    }
    var counts;
    ok, ids', counts := CheckVariants(j.variants, ids', before + [j.id]);
    if !ok || j.threshold < 1 {
      return false, ids';
    }
    ok := BarCanBeMet(j, counts);
  }

  method CheckNegatives(m: Manifest, ids: set<string>) returns (ok: bool)
    requires Claimed(ids, JobIds(m.jobs))
    ensures ok <==> Distinct(Ids(m)) && forall i :: 0 <= i < |m.negatives| ==> FineNegative(m.negatives[i], m.jobs)
  {
    var ids' := ids;
    assert JobIds(m.jobs) + NegativeIds(m.negatives[..0]) == JobIds(m.jobs);
    for k := 0 to |m.negatives|
      invariant Claimed(ids', JobIds(m.jobs) + NegativeIds(m.negatives[..k]))
      invariant forall i :: 0 <= i < k ==> FineNegative(m.negatives[i], m.jobs)
    {
      var c := m.negatives[k];
      ghost var s := JobIds(m.jobs) + NegativeIds(m.negatives[..k]);
      assert JobIds(m.jobs) + NegativeIds(m.negatives[..k + 1]) == s + [c.id];
      assert s + [c.id] <= Ids(m);
      if Blank(c.id) {
        return false;
      }
      if c.id in ids' {
        MetAgain(s, c.id, Ids(m));
        return false;
      }
      ids' := ids' + {c.id};
      var known := HasJobNamed(m.jobs, c.job);
      if (c.job != "" && !known) || Blank(c.description) || Blank(c.input) {
        assert !FineNegative(m.negatives[k], m.jobs);
        return false;
      }
    }
    assert m.negatives[..|m.negatives|] == m.negatives;
    return true;
  }

  // The ids of one job more, which are distinct if all are.
  lemma OneJobMore(jobs: seq<Job>, k: nat)
    requires k < |jobs|
    ensures JobIds(jobs[..k + 1]) == JobIds(jobs[..k]) + [jobs[k].id] + VariantIds(jobs[k].variants)
    ensures Distinct(JobIds(jobs)) ==> Distinct(JobIds(jobs[..k + 1]))
  {
    assert jobs[..k + 1][..k] == jobs[..k];
    JobIdsBegin(jobs, k + 1);
  }

  method CheckJobs(jobs: seq<Job>) returns (ok: bool, ids: set<string>)
    ensures ok <==> Distinct(JobIds(jobs)) && forall i :: 0 <= i < |jobs| ==> FineJob(jobs[i])
    ensures ok ==> Claimed(ids, JobIds(jobs))
  {
    ids := {};
    for k := 0 to |jobs|
      invariant Claimed(ids, JobIds(jobs[..k]))
      invariant forall i :: 0 <= i < k ==> FineJob(jobs[i])
    {
      OneJobMore(jobs, k);
      ok, ids := CheckJob(jobs[k], ids, JobIds(jobs[..k]));
      if !ok {
        return false, ids;
      }
    }
    assert jobs[..|jobs|] == jobs;
    return true, ids;
  }

  /** A manifest is accepted exactly when it is valid: every id its own, every variant judgeable,
      every bar within reach in each set its job appears in. */
  method Validate(m: Manifest) returns (ok: bool)
    ensures ok <==> Valid(m)
  {
    if m.version != VERSION || m.timeout <= 0 || |m.jobs| == 0 {
      return false;
    }
    var ids;
    ok, ids := CheckJobs(m.jobs);
    if !ok {
      assert forall i :: 0 <= i < |JobIds(m.jobs)| ==> JobIds(m.jobs)[i] == Ids(m)[i];
      return false;
    }
    ok := CheckNegatives(m, ids);
  }

  // -------------------------------------------------------------------------- cases

  // A case of a set, with the place it is scored at.
  datatype Slot = ForVariant(job: nat, variant: Variant) | ForNegative(negative: NegativeCase) {
    function VariantId(): string { if ForVariant? then variant.id else "" }

    function NegativeId(): string { if ForVariant? then "" else negative.id }

    function Id(): string { if ForVariant? then variant.id else negative.id }
  }

  function VariantSlots(i: nat, vs: seq<Variant>, group: string): seq<Slot> {
    if vs == [] then []
    else
      var v := vs[|vs| - 1];
      VariantSlots(i, vs[..|vs| - 1], group) + if v.group == group then [ForVariant(i, v)] else []
  }

  function JobSlots(jobs: seq<Job>, group: string): seq<Slot> {
    if jobs == [] then []
    else
      var n := |jobs| - 1;
      JobSlots(jobs[..n], group) + VariantSlots(n, jobs[n].variants, group)
  }

  function NegativeSlots(cs: seq<NegativeCase>): seq<Slot> {
    seq(|cs|, i requires 0 <= i < |cs| => ForNegative(cs[i]))
  }

  function Slots(m: Manifest, group: string): seq<Slot> {
    JobSlots(m.jobs, group) + NegativeSlots(m.negatives)
  }

  /** The cases of a set: every variant of the set and every negative case. */
  method Cases(m: Manifest, group: string) returns (r: Option<seq<Slot>>)
    ensures r == if group in SETS then Some(Slots(m, group)) else None
  {
    if group !in SETS {
      return None;
    }
    var out := [];
    for i := 0 to |m.jobs|
      invariant out == JobSlots(m.jobs[..i], group)
    {
      var vs := m.jobs[i].variants;
      for k := 0 to |vs|
        invariant out == JobSlots(m.jobs[..i], group) + VariantSlots(i, vs[..k], group)
      {
        assert vs[..k + 1][..k] == vs[..k];
        if vs[k].group == group {
          out := out + [ForVariant(i, vs[k])];
        }
      }
      assert vs[..|vs|] == vs;
      assert m.jobs[..i + 1][..i] == m.jobs[..i];
    }
    assert m.jobs[..|m.jobs|] == m.jobs;
    for i := 0 to |m.negatives|
      invariant out == JobSlots(m.jobs, group) + NegativeSlots(m.negatives[..i])
    {
      out := out + [ForNegative(m.negatives[i])];
      assert NegativeSlots(m.negatives[..i + 1]) == NegativeSlots(m.negatives[..i]) + [ForNegative(m.negatives[i])];
    }
    assert m.negatives[..|m.negatives|] == m.negatives;
    return Some(out);
  }
}
