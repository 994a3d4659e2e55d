/**
  Score as the code computes it (internal/acceptance/report.go): maps filled in loops, some of them
  walked in whatever order they come, and reports counted up in place.  It computes the score.
 */
module AcceptanceScoring {
  import opened Basics
  import opened AcceptanceManifest
  import opened AcceptanceUsage
  import opened AcceptanceCases
  import opened AcceptanceScore

  // ------------------------------------------------------------------ where cases belong

  // The variants of the set and their jobs, by id.
  predicate Indexed(variantOf: map<string, Variant>, jobOf: map<string, nat>, slots: seq<Slot>) {
    && variantOf.Keys == jobOf.Keys
    && (forall id :: id in variantOf ==> id in SlotIds(slots))
    && (forall k :: 0 <= k < |slots| ==> IndexedOne(variantOf, jobOf, slots[k]))
  }

  predicate IndexedOne(variantOf: map<string, Variant>, jobOf: map<string, nat>, s: Slot) {
    s.ForVariant? && s.Id() in variantOf && s.Id() in jobOf && variantOf[s.Id()] == s.variant && jobOf[s.Id()] == s.job
  }

  lemma IndexMore(variantOf: map<string, Variant>, jobOf: map<string, nat>, slots: seq<Slot>, s: Slot)
    requires Indexed(variantOf, jobOf, slots) && s.ForVariant? && Distinct(SlotIds(slots + [s]))
    ensures Indexed(variantOf[s.Id() := s.variant], jobOf[s.Id() := s.job], slots + [s])
  {
    assert SlotIds(slots + [s]) == SlotIds(slots) + [s.Id()];
    DistinctParts(SlotIds(slots), [s.Id()]);
    forall k | 0 <= k < |slots|
      ensures slots[k].Id() != s.Id()
    {
      assert SlotIds(slots)[k] != [s.Id()][0];
    }
  }

  lemma {:induction false} JobSlotsBegin(jobs: seq<Job>, group: string, i: nat)
    requires i <= |jobs|
    ensures JobSlots(jobs[..i], group) <= JobSlots(jobs, group)
  {
    if i < |jobs| {
      assert jobs[..|jobs| - 1][..i] == jobs[..i];
      JobSlotsBegin(jobs[..|jobs| - 1], group, i);
    } else {
      assert jobs[..i] == jobs;
    }
  }

  lemma {:induction false} VariantSlotsBegin(i: nat, vs: seq<Variant>, group: string, k: nat)
    requires k <= |vs|
    ensures VariantSlots(i, vs[..k], group) <= VariantSlots(i, vs, group)
  {
    if k < |vs| {
      assert vs[..|vs| - 1][..k] == vs[..k];
      VariantSlotsBegin(i, vs[..|vs| - 1], group, k);
    } else {
      assert vs[..k] == vs;
    }
  }

  // Any beginning of the cases has ids of its own.
  lemma BegunDistinct(m: Manifest, group: string, i: nat, k: nat)
    requires Distinct(JobIds(m.jobs)) && i < |m.jobs| && k <= |m.jobs[i].variants|
    ensures Distinct(SlotIds(JobSlots(m.jobs[..i], group) + VariantSlots(i, m.jobs[i].variants[..k], group)))
  {
    var vs := m.jobs[i].variants;
    JobSlotsFacts(m.jobs, group);
    JobSlotsBegin(m.jobs, group, i + 1);
    VariantSlotsBegin(i, vs, group, k);
    var all, part := JobSlots(m.jobs, group), JobSlots(m.jobs[..i], group) + VariantSlots(i, vs[..k], group);
    assert m.jobs[..i + 1][..i] == m.jobs[..i];
    assert part <= JobSlots(m.jobs[..i + 1], group) <= all;
    assert forall n :: 0 <= n < |part| ==> SlotIds(part)[n] == SlotIds(all)[n];
  }

  lemma JobSlotsMore(jobs: seq<Job>, group: string, i: nat)
    requires i < |jobs|
    ensures JobSlots(jobs[..i + 1], group) == JobSlots(jobs[..i], group) + VariantSlots(i, jobs[i].variants, group)
  {
    assert jobs[..i + 1][..i] == jobs[..i];
  }

  method Index(m: Manifest, group: string)
    returns (short: Option<nat>, variantOf: map<string, Variant>, jobOf: map<string, nat>)
    requires Distinct(JobIds(m.jobs))
    ensures short == FirstShort(m.jobs, group, |m.jobs|)
    ensures short.None? ==> Indexed(variantOf, jobOf, JobSlots(m.jobs, group))
  {
    variantOf, jobOf := map[], map[];
    ghost var done: seq<Slot> := [];
    for i := 0 to |m.jobs|
      invariant Indexed(variantOf, jobOf, done) && done == JobSlots(m.jobs[..i], group)
      invariant FirstShort(m.jobs, group, i) == None
    {
      var n;
      n, variantOf, jobOf := IndexJob(m, group, i, variantOf, jobOf);
      JobSlotsMore(m.jobs, group, i);
      done := JobSlots(m.jobs[..i + 1], group);
      if n < m.jobs[i].threshold {
        ShortStays(m.jobs, group, i + 1);
        return Some(i), variantOf, jobOf;
      }
    }
    assert m.jobs[..|m.jobs|] == m.jobs;
    return None, variantOf, jobOf;
  }

  lemma {:induction false} ShortStays(jobs: seq<Job>, group: string, n: nat)
    requires n <= |jobs| && FirstShort(jobs, group, n).Some?
    ensures FirstShort(jobs, group, |jobs|) == FirstShort(jobs, group, n)
    decreases |jobs| - n
  {
    if n < |jobs| {
      ShortStays(jobs, group, n + 1);
    }
  }

  method IndexJob(m: Manifest, group: string, i: nat, variantOf0: map<string, Variant>, jobOf0: map<string, nat>)
    returns (n: nat, variantOf: map<string, Variant>, jobOf: map<string, nat>)
    requires Distinct(JobIds(m.jobs)) && i < |m.jobs|
    requires Indexed(variantOf0, jobOf0, JobSlots(m.jobs[..i], group))
    ensures n == CountIn(m.jobs[i].variants, group)
    ensures Indexed(variantOf, jobOf, JobSlots(m.jobs[..i], group) + VariantSlots(i, m.jobs[i].variants, group))
  {
    n, variantOf, jobOf := 0, variantOf0, jobOf0;
    var vs := m.jobs[i].variants;
    ghost var before := JobSlots(m.jobs[..i], group);
    ghost var done := before;
    for k := 0 to |vs|
      invariant n == CountIn(vs[..k], group)
      invariant Indexed(variantOf, jobOf, done) && done == before + VariantSlots(i, vs[..k], group)
    {
      assert vs[..k + 1][..k] == vs[..k];
      if vs[k].group == group {
        ghost var s := ForVariant(i, vs[k]);
        assert before + VariantSlots(i, vs[..k + 1], group) == done + [s];
        BegunDistinct(m, group, i, k + 1);
        IndexMore(variantOf, jobOf, done, s);
        variantOf := variantOf[vs[k].id := vs[k]];
        jobOf := jobOf[vs[k].id := i];
        n := n + 1;
        done := done + [s];
      }
    }
    assert vs[..|vs|] == vs;
  }

  method IndexNegatives(cs: seq<NegativeCase>) returns (negativeOf: map<string, NegativeCase>)
    requires Distinct(NegativeIds(cs))
    ensures forall k :: 0 <= k < |cs| ==> cs[k].id in negativeOf && negativeOf[cs[k].id] == cs[k]
    ensures forall id :: id in negativeOf ==> id in NegativeIds(cs)
  {
    negativeOf := map[];
    for i := 0 to |cs|
      invariant forall k :: 0 <= k < i ==> cs[k].id in negativeOf && negativeOf[cs[k].id] == cs[k]
      invariant forall id :: id in negativeOf ==> id in NegativeIds(cs)
    {
      forall k | 0 <= k < i
        ensures cs[k].id != cs[i].id
      {
        assert NegativeIds(cs)[k] != NegativeIds(cs)[i];
      }
      assert NegativeIds(cs)[i] == cs[i].id;
      negativeOf := negativeOf[cs[i].id := cs[i]];
    }
  }

  // ------------------------------------------------------------------------ grouping

  function Listed<T>(lists: map<string, seq<T>>, id: string): seq<T> {
    if id in lists then lists[id] else []
  }

  method GroupBy<T>(xs: seq<T>, attempt: T -> string) returns (lists: map<string, seq<T>>)
    ensures forall id :: Listed(lists, id) == Of(xs, attempt, id)
    ensures forall id :: id in lists ==> lists[id] != []
  {
    lists := map[];
    for i := 0 to |xs|
      invariant forall id :: Listed(lists, id) == Of(xs[..i], attempt, id)
      invariant forall id :: id in lists ==> lists[id] != []
    {
      var id := attempt(xs[i]);
      assert xs[..i + 1][..i] == xs[..i];
      lists := lists[id := Listed(lists, id) + [xs[i]]];
    }
    assert xs[..|xs|] == xs;
  }

  // The two maps of lists hold the groups.
  ghost predicate Hold(byVerdict: map<string, seq<Verdict>>, byObservation: map<string, seq<Observation>>,
                       groups: map<string, Group>) {
    && groups.Keys == byVerdict.Keys + byObservation.Keys
    && (forall id :: id in byVerdict ==> byVerdict[id] != [])
    && (forall id :: id in byObservation ==> byObservation[id] != [])
    && (forall id :: id in groups ==> HeldOne(Listed(byVerdict, id), Listed(byObservation, id), groups[id]))
  }

  predicate HeldOne(vs: seq<Verdict>, os: seq<Observation>, g: Group) {
    g == Group(|vs|, |os|, Only(vs), Only(os))
  }

  lemma {:induction false} OfInIds<T>(xs: seq<T>, attempt: T -> string, id: string)
    ensures Of(xs, attempt, id) != [] <==> exists i :: 0 <= i < |xs| && attempt(xs[i]) == id
  {
    if xs != [] {
      OfInIds(xs[..|xs| - 1], attempt, id);
      assert forall i :: 0 <= i < |xs| - 1 ==> xs[..|xs| - 1][i] == xs[i];
    }
  }

  lemma VerdictsHeld(vs: seq<Verdict>, id: string)
    ensures Of(vs, VerdictAttempt, id) != [] <==> id in VerdictIds(vs)
  {
    OfInIds(vs, VerdictAttempt, id);
    assert id in VerdictIds(vs) <==> exists i :: 0 <= i < |vs| && VerdictAttempt(vs[i]) == id;
  }

  lemma ObservationsHeld(os: seq<Observation>, id: string)
    ensures Of(os, ObservationAttempt, id) != [] <==> id in ObservationIds(os)
  {
    OfInIds(os, ObservationAttempt, id);
    assert id in ObservationIds(os) <==> exists i :: 0 <= i < |os| && ObservationAttempt(os[i]) == id;
  }

  lemma GroupsHeld(byVerdict: map<string, seq<Verdict>>, byObservation: map<string, seq<Observation>>,
                   vs: seq<Verdict>, os: seq<Observation>)
    requires forall id :: Listed(byVerdict, id) == Of(vs, VerdictAttempt, id)
    requires forall id :: Listed(byObservation, id) == Of(os, ObservationAttempt, id)
    requires forall id :: id in byVerdict ==> byVerdict[id] != []
    requires forall id :: id in byObservation ==> byObservation[id] != []
    ensures Hold(byVerdict, byObservation, Grouped(vs, os))
  {
    forall id
      ensures id in byVerdict <==> id in VerdictIds(vs)
      ensures id in byObservation <==> id in ObservationIds(os)
    {
      VerdictsHeld(vs, id);
      ObservationsHeld(os, id);
      assert id in byVerdict <==> Listed(byVerdict, id) != [];
      assert id in byObservation <==> Listed(byObservation, id) != [];
    }
  }

  // ------------------------------------------------------------------------- pairing

  // The ids the two maps of cases hold.
  ghost predicate Tells(variants: set<string>, negatives: set<string>, slots: seq<Slot>) {
    && (forall k :: 0 <= k < |slots| ==> slots[k].Id() in if slots[k].ForVariant? then variants else negatives)
    && (forall id :: id in variants ==> exists k :: 0 <= k < |slots| && slots[k].ForVariant? && slots[k].Id() == id)
    && (forall id :: id in negatives ==> exists k :: 0 <= k < |slots| && slots[k].ForNegative? && slots[k].Id() == id)
  }

  lemma KnownWhenTold(variants: set<string>, negatives: set<string>, slots: seq<Slot>, v: Verdict)
    requires Tells(variants, negatives, slots)
    ensures Known(v, slots) <==> v.variant in variants || v.negative in negatives
  {
  }

  // What is wrong with an attempt that has a verdict.
  method Judge(id: string, vs: seq<Verdict>, os: seq<Observation>, variants: set<string>, negatives: set<string>,
               ghost slots: seq<Slot>)
    returns (found: set<Finding>)
    requires vs != [] && Tells(variants, negatives, slots)
    ensures var g := Group(|vs|, |os|, Only(vs), Only(os));
      found == FindingsOf(id, g, slots) && (found == {} <==> Scores(g, slots))
  {
    if |vs| > 1 {
      return {ManyVerdicts(id, |vs|)};
    } else if |os| > 1 {
      return {ManyObservations(id, |os|)};
    } else if |os| == 0 {
      return {NoObservation(id)};
    }
    var v, o := vs[0], os[0];
    KnownWhenTold(variants, negatives, slots, v);
    if v.variant != o.variant || v.negative != o.negative {
      return {DifferentCases(id)};
    } else if v.variant !in variants && v.negative !in negatives {
      return {NotInSet(id, v.variant + v.negative)};
    }
    return {};
  }

  type Attempts = map<string, seq<(Verdict, Observation)>>

  ghost predicate CollectedOne(list: seq<(Verdict, Observation)>, ids: set<string>, groups: map<string, Group>) {
    && |list| == |ids|
    && forall n :: 0 <= n < |list| ==> ComesFrom(list[n], ids, groups)
  }

  ghost predicate ComesFrom(a: (Verdict, Observation), ids: set<string>, groups: map<string, Group>) {
    exists id :: id in ids && id in groups && groups[id].verdict == Some(a.0) && groups[id].observation == Some(a.1)
  }

  // The attempts on every case, of those looked at so far.
  ghost predicate Collected(attempts: Attempts, ids: set<string>, groups: map<string, Group>, slots: seq<Slot>) {
    forall name :: CollectedOne(Listed(attempts, name), AttemptsOn(ids, groups, slots, name), groups)
  }

  lemma FoundMore(ids: set<string>, id: string, groups: map<string, Group>, slots: seq<Slot>)
    requires id in groups
    ensures FoundIn(ids + {id}, groups, slots) == FoundIn(ids, groups, slots) + FindingsOf(id, groups[id], slots)
  {
    forall f | f in FoundIn(ids, groups, slots) + FindingsOf(id, groups[id], slots)
      ensures f in FoundIn(ids + {id}, groups, slots)
    {
      if f in FoundIn(ids, groups, slots) {
        var x :| x in ids && x in groups && f in FindingsOf(x, groups[x], slots);
        assert x in ids + {id};
      }
    }
  }

  lemma CollectNone(attempts: Attempts, ids: set<string>, id: string, groups: map<string, Group>, slots: seq<Slot>)
    requires Collected(attempts, ids, groups, slots) && id in groups && !Scores(groups[id], slots)
    ensures Collected(attempts, ids + {id}, groups, slots)
  {
    forall name
      ensures CollectedOne(Listed(attempts, name), AttemptsOn(ids + {id}, groups, slots, name), groups)
    {
      assert AttemptsOn(ids + {id}, groups, slots, name) == AttemptsOn(ids, groups, slots, name);
      assert CollectedOne(Listed(attempts, name), AttemptsOn(ids, groups, slots, name), groups);
    }
  }

  lemma OneAttemptMore(ids: set<string>, id: string, groups: map<string, Group>, slots: seq<Slot>, name: string)
    requires id in groups && Scores(groups[id], slots)
    ensures AttemptsOn(ids + {id}, groups, slots, name) ==
            AttemptsOn(ids, groups, slots, name) + if name == Name(groups[id].verdict.value) then {id} else {}
  {
  }

  lemma CollectMore(attempts: Attempts, ids: set<string>, id: string, groups: map<string, Group>, slots: seq<Slot>)
    requires Collected(attempts, ids, groups, slots) && id in groups && id !in ids && Scores(groups[id], slots)
    ensures var v, o := groups[id].verdict.value, groups[id].observation.value;
      Collected(attempts[Name(v) := Listed(attempts, Name(v)) + [(v, o)]], ids + {id}, groups, slots)
  {
    var v, o := groups[id].verdict.value, groups[id].observation.value;
    var more := attempts[Name(v) := Listed(attempts, Name(v)) + [(v, o)]];
    forall name
      ensures CollectedOne(Listed(more, name), AttemptsOn(ids + {id}, groups, slots, name), groups)
    {
      assert CollectedOne(Listed(attempts, name), AttemptsOn(ids, groups, slots, name), groups);
      OneAttemptMore(ids, id, groups, slots, name);
      if name == Name(v) {
        CollectPush(Listed(attempts, name), AttemptsOn(ids, groups, slots, name), id, groups);
      }
    }
  }

  lemma CollectPush(list: seq<(Verdict, Observation)>, ids: set<string>, id: string, groups: map<string, Group>)
    requires CollectedOne(list, ids, groups) && id !in ids && id in groups && groups[id].verdict.Some? && groups[id].observation.Some?
    ensures CollectedOne(list + [(groups[id].verdict.value, groups[id].observation.value)], ids + {id}, groups)
  {
    var a := (groups[id].verdict.value, groups[id].observation.value);
    forall n | 0 <= n < |list| + 1
      ensures ComesFrom((list + [a])[n], ids + {id}, groups)
    {
      if n < |list| {
        assert ComesFrom(list[n], ids, groups);
      } else {
        assert id in ids + {id};
      }
    }
  }

  lemma CollectedAtFirst(groups: map<string, Group>, slots: seq<Slot>)
    ensures Collected(map[], {}, groups, slots) && FoundIn({}, groups, slots) == {}
  {
    forall name
      ensures CollectedOne(Listed(map[], name), AttemptsOn({}, groups, slots, name), groups)
    {
      assert AttemptsOn({}, groups, slots, name) == {};
    }
  }

  // The attempts with a verdict, in whatever order they come.
  method PairUp(byVerdict: map<string, seq<Verdict>>, byObservation: map<string, seq<Observation>>,
                variants: set<string>, negatives: set<string>, ghost groups: map<string, Group>, ghost slots: seq<Slot>)
    returns (findings: set<Finding>, attempts: Attempts)
    requires Hold(byVerdict, byObservation, groups) && Tells(variants, negatives, slots)
    ensures findings == FoundIn(byVerdict.Keys, groups, slots)
    ensures Collected(attempts, byVerdict.Keys, groups, slots)
  {
    findings, attempts := {}, map[];
    var left := byVerdict.Keys;
    ghost var done: set<string> := {};
    CollectedAtFirst(groups, slots);
    while left != {}
      invariant left <= byVerdict.Keys && done == byVerdict.Keys - left
      invariant findings == FoundIn(done, groups, slots)
      invariant Collected(attempts, done, groups, slots)
    {
      var id :| id in left;
      left := left - {id};
      var vs, os := byVerdict[id], Listed(byObservation, id);
      assert HeldOne(Listed(byVerdict, id), Listed(byObservation, id), groups[id]);
      var found := Judge(id, vs, os, variants, negatives, slots);
      FoundMore(done, id, groups, slots);
      findings := findings + found;
      if found == {} {
        CollectMore(attempts, done, id, groups, slots);
        var key := vs[0].variant + vs[0].negative;
        attempts := attempts[key := Listed(attempts, key) + [(vs[0], os[0])]];
      } else {
        CollectNone(attempts, done, id, groups, slots);
      }
      done := done + {id};
    }
    assert done == byVerdict.Keys;
  }

  method JudgeUnjudged(id: string, os: seq<Observation>, ghost slots: seq<Slot>) returns (found: set<Finding>)
    ensures found == FindingsOf(id, Group(0, |os|, None, Only(os)), slots)
  {
    found := {NoVerdict(id)};
    if |os| > 1 {
      found := found + {ManyObservations(id, |os|)};
    }
  }

  // The observations of attempts with no verdict, in whatever order they come.
  method FindUnjudged(byVerdict: map<string, seq<Verdict>>, byObservation: map<string, seq<Observation>>,
                      was: set<Finding>, ghost groups: map<string, Group>, ghost slots: seq<Slot>)
    returns (findings: set<Finding>)
    requires Hold(byVerdict, byObservation, groups) && was == FoundIn(byVerdict.Keys, groups, slots)
    ensures findings == FoundIn(groups.Keys, groups, slots)
  {
    findings := was;
    var left := byObservation.Keys;
    ghost var done := byVerdict.Keys;
    while left != {}
      invariant left <= byObservation.Keys && done == byVerdict.Keys + (byObservation.Keys - left)
      invariant findings == FoundIn(done, groups, slots)
    {
      var id :| id in left;
      left := left - {id};
      assert HeldOne(Listed(byVerdict, id), Listed(byObservation, id), groups[id]);
      FoundMore(done, id, groups, slots);
      if id !in byVerdict {
        var found := JudgeUnjudged(id, byObservation[id], slots);
        findings := findings + found;
      } else {
        assert done + {id} == done;
      }
      done := done + {id};
    }
    assert done == groups.Keys;
  }

  lemma NothingLeft(attempts: Attempts, byVerdict: map<string, seq<Verdict>>,
                    byObservation: map<string, seq<Observation>>, groups: map<string, Group>, slots: seq<Slot>)
    requires Hold(byVerdict, byObservation, groups) && Collected(attempts, byVerdict.Keys, groups, slots)
    ensures Collected(attempts, groups.Keys, groups, slots)
  {
    forall name
      ensures CollectedOne(Listed(attempts, name), AttemptsOn(groups.Keys, groups, slots, name), groups)
    {
      assert forall id :: id in groups && Scores(groups[id], slots) ==> id in byVerdict by {
        assert forall id :: id in groups ==> HeldOne(Listed(byVerdict, id), Listed(byObservation, id), groups[id]);
      }
      assert AttemptsOn(groups.Keys, groups, slots, name) == AttemptsOn(byVerdict.Keys, groups, slots, name);
      assert CollectedOne(Listed(attempts, name), AttemptsOn(byVerdict.Keys, groups, slots, name), groups);
    }
  }

  lemma TriesCounted(attempts: Attempts, groups: map<string, Group>, slots: seq<Slot>)
    requires Collected(attempts, groups.Keys, groups, slots)
    ensures forall k :: 0 <= k < |slots| ==> |Listed(attempts, slots[k].Id())| == Tries(groups, slots)[k]
  {
    forall k | 0 <= k < |slots|
      ensures |Listed(attempts, slots[k].Id())| == Tries(groups, slots)[k]
    {
      assert CollectedOne(Listed(attempts, slots[k].Id()), AttemptsOn(groups.Keys, groups, slots, slots[k].Id()), groups);
    }
  }

  // The cases attempted never or more than once.
  method FindMissing(cases: seq<Slot>, attempts: Attempts, was: set<Finding>, ghost tries: seq<nat>)
    returns (findings: set<Finding>)
    requires |tries| == |cases| && forall k :: 0 <= k < |cases| ==> |Listed(attempts, cases[k].Id())| == tries[k]
    ensures findings == was + CasesFound(cases, tries, |cases|)
  {
    findings := was;
    for k := 0 to |cases|
      invariant findings == was + CasesFound(cases, tries, k)
    {
      var id := cases[k].Id();
      var n := |Listed(attempts, id)|;
      if n == 0 {
        findings := findings + {NeverAttempted(id)};
      } else if n > 1 {
        findings := findings + {CaseRepeated(id, n)};
      }
    }
  }
}
