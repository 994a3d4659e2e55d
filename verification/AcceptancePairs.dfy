/** When a run can be scored: exactly when its verdicts and observations pair up and cover the set. */
module AcceptancePairs {
  import opened Basics
  import opened AcceptanceManifest
  import opened AcceptanceUsage
  import opened AcceptanceCases
  import opened AcceptanceScore

  // Every attempt has one verdict and one observation, and they name the same case.
  predicate Pair(vs: seq<Verdict>, os: seq<Observation>) {
    && (forall i, j :: 0 <= i < j < |vs| ==> vs[i].attempt != vs[j].attempt)
    && (forall i, j :: 0 <= i < j < |os| ==> os[i].attempt != os[j].attempt)
    && VerdictIds(vs) == ObservationIds(os)
    && (forall i, j :: 0 <= i < |vs| && 0 <= j < |os| && vs[i].attempt == os[j].attempt ==> SameCase(vs[i], os[j]))
  }

  predicate Names(v: Verdict, s: Slot) {
    v.variant == s.VariantId() && v.negative == s.NegativeId()
  }

  predicate NamedBy(vs: seq<Verdict>, s: Slot) {
    exists i :: 0 <= i < |vs| && Names(vs[i], s)
  }

  predicate NamedOnce(vs: seq<Verdict>, s: Slot) {
    NamedBy(vs, s) && forall i, j :: 0 <= i < |vs| && 0 <= j < |vs| && Names(vs[i], s) && Names(vs[j], s) ==> i == j
  }

  predicate NamesOneOf(v: Verdict, slots: seq<Slot>) {
    exists k :: 0 <= k < |slots| && Names(v, slots[k])
  }

  // Every case of the set is named once, and nothing else is.
  predicate Cover(vs: seq<Verdict>, slots: seq<Slot>) {
    NoneElse(vs, slots) && EachOnce(vs, slots)
  }

  predicate NoneElse(vs: seq<Verdict>, slots: seq<Slot>) {
    forall i :: 0 <= i < |vs| ==> NamesOneOf(vs[i], slots)
  }

  predicate EachOnce(vs: seq<Verdict>, slots: seq<Slot>) {
    forall k :: 0 <= k < |slots| ==> NamedOnce(vs, slots[k])
  }

  predicate ValidRun(vs: seq<Verdict>, os: seq<Observation>) {
    && (forall i :: 0 <= i < |vs| ==> ValidVerdict(vs[i]))
    && (forall j :: 0 <= j < |os| ==> ValidObservation(os[j]))
  }

  predicate ProperSlots(slots: seq<Slot>) {
    Distinct(SlotIds(slots)) && forall k :: 0 <= k < |slots| ==> slots[k].Id() != ""
  }

  // ------------------------------------------------------------------------- groups

  lemma {:induction false} OfFacts<T>(xs: seq<T>, attempt: T -> string, id: string)
    ensures |Of(xs, attempt, id)| == 0 <==> forall i :: 0 <= i < |xs| ==> attempt(xs[i]) != id
    ensures |Of(xs, attempt, id)| <= 1 <==> forall i, j :: 0 <= i < j < |xs| ==> attempt(xs[i]) != id || attempt(xs[j]) != id
    ensures forall x :: x in Of(xs, attempt, id) ==> x in xs && attempt(x) == id
  {
    if xs != [] {
      var rest := xs[..|xs| - 1];
      OfFacts(rest, attempt, id);
      assert forall i :: 0 <= i < |rest| ==> rest[i] == xs[i];
    }
  }

  // What the groups hold: one verdict each, and its observation, exactly when the lists pair.
  lemma OneVerdict(vs: seq<Verdict>, os: seq<Observation>, i: nat)
    requires i < |vs| && GroupOf(vs, os, vs[i].attempt).verdicts == 1
    ensures GroupOf(vs, os, vs[i].attempt).verdict == Some(vs[i])
  {
    var id := vs[i].attempt;
    OfFacts(vs, VerdictAttempt, id);
    var v := Of(vs, VerdictAttempt, id)[0];
    assert v in Of(vs, VerdictAttempt, id);
    var k :| 0 <= k < |vs| && vs[k] == v;
    assert VerdictAttempt(vs[k]) == id == VerdictAttempt(vs[i]);
  }

  lemma OneObservation(vs: seq<Verdict>, os: seq<Observation>, j: nat)
    requires j < |os| && GroupOf(vs, os, os[j].attempt).observations == 1
    ensures GroupOf(vs, os, os[j].attempt).observation == Some(os[j])
  {
    var id := os[j].attempt;
    OfFacts(os, ObservationAttempt, id);
    var o := Of(os, ObservationAttempt, id)[0];
    assert o in Of(os, ObservationAttempt, id);
    var k :| 0 <= k < |os| && os[k] == o;
    assert ObservationAttempt(os[k]) == id == ObservationAttempt(os[j]);
  }

  predicate AllScore(groups: map<string, Group>, slots: seq<Slot>) {
    forall id :: id in groups ==> Scores(groups[id], slots)
  }

  lemma NothingFoundIff(vs: seq<Verdict>, os: seq<Observation>, slots: seq<Slot>)
    ensures var groups := Grouped(vs, os); FoundIn(groups.Keys, groups, slots) == {} <==> AllScore(groups, slots)
  {
    var groups := Grouped(vs, os);
    forall id | id in groups
      ensures FindingsOf(id, groups[id], slots) == {} <==> Scores(groups[id], slots)
    {
    }
    if AllScore(groups, slots) {
      assert FoundIn(groups.Keys, groups, slots) == {};
    } else {
      var id :| id in groups && !Scores(groups[id], slots);
      var f :| f in FindingsOf(id, groups[id], slots);
      assert f in FoundIn(groups.Keys, groups, slots);
    }
  }

  lemma InGroups(vs: seq<Verdict>, os: seq<Observation>)
    ensures forall i :: 0 <= i < |vs| ==> vs[i].attempt in VerdictIds(vs) && vs[i].attempt in Grouped(vs, os)
    ensures forall j :: 0 <= j < |os| ==> os[j].attempt in ObservationIds(os) && os[j].attempt in Grouped(vs, os)
  {
  }

  lemma IdsMeet(vs: seq<Verdict>, os: seq<Observation>, slots: seq<Slot>)
    requires AllScore(Grouped(vs, os), slots)
    ensures VerdictIds(vs) == ObservationIds(os)
  {
    forall id | id in Grouped(vs, os)
      ensures id in VerdictIds(vs) && id in ObservationIds(os)
    {
      assert Scores(GroupOf(vs, os, id), slots);
      OfFacts(vs, VerdictAttempt, id);
      OfFacts(os, ObservationAttempt, id);
      assert Of(vs, VerdictAttempt, id)[0] in Of(vs, VerdictAttempt, id);
      assert Of(os, ObservationAttempt, id)[0] in Of(os, ObservationAttempt, id);
    }
  }

  lemma AllScorePairs(vs: seq<Verdict>, os: seq<Observation>, slots: seq<Slot>)
    requires AllScore(Grouped(vs, os), slots)
    ensures Pair(vs, os) && forall i :: 0 <= i < |vs| ==> Known(vs[i], slots)
  {
    InGroups(vs, os);
    IdsMeet(vs, os, slots);
    forall i | 0 <= i < |vs|
      ensures Scores(GroupOf(vs, os, vs[i].attempt), slots) && GroupOf(vs, os, vs[i].attempt).verdict == Some(vs[i])
    {
      OneVerdict(vs, os, i);
    }
    forall j | 0 <= j < |os|
      ensures Scores(GroupOf(vs, os, os[j].attempt), slots) && GroupOf(vs, os, os[j].attempt).observation == Some(os[j])
    {
      OneObservation(vs, os, j);
    }
    forall i, j | 0 <= i < j < |vs|
      ensures vs[i].attempt != vs[j].attempt
    {
      OfFacts(vs, VerdictAttempt, vs[i].attempt);
    }
    forall i, j | 0 <= i < j < |os|
      ensures os[i].attempt != os[j].attempt
    {
      OfFacts(os, ObservationAttempt, os[i].attempt);
    }
  }

  lemma PairsScore(vs: seq<Verdict>, os: seq<Observation>, slots: seq<Slot>, id: string)
    requires Pair(vs, os) && id in Grouped(vs, os)
    requires forall i :: 0 <= i < |vs| ==> Known(vs[i], slots)
    ensures Scores(Grouped(vs, os)[id], slots)
  {
    var i, j := AttemptInBoth(vs, os, id);
    OfFacts(vs, VerdictAttempt, id);
    OfFacts(os, ObservationAttempt, id);
    assert VerdictAttempt(vs[i]) == id && ObservationAttempt(os[j]) == id;
    OneVerdict(vs, os, i);
    OneObservation(vs, os, j);
  }

  lemma AttemptInBoth(vs: seq<Verdict>, os: seq<Observation>, id: string) returns (i: nat, j: nat)
    requires VerdictIds(vs) == ObservationIds(os) && id in Grouped(vs, os)
    ensures i < |vs| && j < |os| && vs[i].attempt == id == os[j].attempt
  {
    var v :| v in vs && v.attempt == id;
    i :| 0 <= i < |vs| && vs[i] == v;
    var o :| o in os && o.attempt == id;
    j :| 0 <= j < |os| && os[j] == o;
  }

  /** Nothing is found wrong with any attempt exactly when the lists pair and name known cases. */
  lemma AttemptsFineIff(vs: seq<Verdict>, os: seq<Observation>, slots: seq<Slot>)
    ensures AllScore(Grouped(vs, os), slots) <==> Pair(vs, os) && forall i :: 0 <= i < |vs| ==> Known(vs[i], slots)
  {
    if AllScore(Grouped(vs, os), slots) {
      AllScorePairs(vs, os, slots);
    } else if Pair(vs, os) && forall i :: 0 <= i < |vs| ==> Known(vs[i], slots) {
      forall id | id in Grouped(vs, os)
        ensures Scores(Grouped(vs, os)[id], slots)
      {
        PairsScore(vs, os, slots, id);
      }
      assert false;
    }
  }

  // -------------------------------------------------------------------------- cases

  lemma NameIs(v: Verdict)
    requires CaseId(v.variant, v.negative).Some?
    ensures Name(v) == if v.negative == "" then v.variant else v.negative
  {
  }

  // A valid verdict names the case its name is the id of.
  lemma NamesIff(v: Verdict, slots: seq<Slot>, k: nat)
    requires CaseId(v.variant, v.negative).Some? && ProperSlots(slots) && k < |slots|
    ensures Known(v, slots) <==> NamesOneOf(v, slots)
    ensures Known(v, slots) ==> (Name(v) == slots[k].Id() <==> Names(v, slots[k]))
  {
    NameIs(v);
    forall n | 0 <= n < |slots|
      ensures (slots[n].Id() == if slots[n].ForVariant? then v.variant else v.negative) <==> Names(v, slots[n])
      ensures Names(v, slots[n]) ==> Name(v) == slots[n].Id()
    {
      assert slots[n].Id() != "";
    }
    if n :| 0 <= n < |slots| && Names(v, slots[n]) && slots[k].Id() == slots[n].Id() {
      DistinctSlots(slots, k, n);
    }
  }

  lemma OneIff(s: set<string>)
    ensures |s| == 1 <==> exists x :: x in s && forall y :: y in s ==> y == x
  {
    if |s| == 1 {
      var x :| x in s;
      assert |s - {x}| == 0;
      assert forall y :: y in s ==> y == x;
    }
    forall x | x in s && forall y :: y in s ==> y == x
      ensures |s| == 1
    {
      assert s == {x};
    }
  }

  // Where every attempt counts, the attempts on a case are those of the verdicts that name it.
  lemma AttemptsOnIs(vs: seq<Verdict>, os: seq<Observation>, slots: seq<Slot>, k: nat, id: string)
    requires ValidRun(vs, os) && ProperSlots(slots) && AllScore(Grouped(vs, os), slots) && k < |slots|
    ensures var groups := Grouped(vs, os);
      id in AttemptsOn(groups.Keys, groups, slots, slots[k].Id()) <==>
      exists i :: 0 <= i < |vs| && vs[i].attempt == id && Names(vs[i], slots[k])
  {
    var groups := Grouped(vs, os);
    AttemptsFineIff(vs, os, slots);
    forall i | 0 <= i < |vs|
      ensures vs[i].attempt in groups && groups[vs[i].attempt].verdict == Some(vs[i])
      ensures Name(vs[i]) == slots[k].Id() <==> Names(vs[i], slots[k])
    {
      assert vs[i].attempt in groups && Scores(groups[vs[i].attempt], slots);
      OneVerdict(vs, os, i);
      NamesIff(vs[i], slots, k);
    }
    if id in groups {
      var i, j := AttemptInBoth(vs, os, id);
    }
  }

  lemma OnceIff(vs: seq<Verdict>, slot: Slot, s: set<string>)
    requires forall i, j :: 0 <= i < j < |vs| ==> vs[i].attempt != vs[j].attempt
    requires forall id :: id in s <==> exists i :: 0 <= i < |vs| && vs[i].attempt == id && Names(vs[i], slot)
    ensures |s| == 1 <==> NamedOnce(vs, slot)
  {
    OneIff(s);
    assert forall i :: 0 <= i < |vs| && Names(vs[i], slot) ==> vs[i].attempt in s;
    if NamedOnce(vs, slot) {
      var i :| 0 <= i < |vs| && Names(vs[i], slot);
      assert vs[i].attempt in s && forall y :: y in s ==> y == vs[i].attempt;
    }
  }

  lemma TriedOnceIff(vs: seq<Verdict>, os: seq<Observation>, slots: seq<Slot>, k: nat)
    requires ValidRun(vs, os) && ProperSlots(slots) && AllScore(Grouped(vs, os), slots) && k < |slots|
    ensures Tries(Grouped(vs, os), slots)[k] == 1 <==> NamedOnce(vs, slots[k])
  {
    var groups := Grouped(vs, os);
    AllScorePairs(vs, os, slots);
    forall id
      ensures id in AttemptsOn(groups.Keys, groups, slots, slots[k].Id()) <==>
              exists i :: 0 <= i < |vs| && vs[i].attempt == id && Names(vs[i], slots[k])
    {
      AttemptsOnIs(vs, os, slots, k, id);
    }
    OnceIff(vs, slots[k], AttemptsOn(groups.Keys, groups, slots, slots[k].Id()));
  }

  lemma AllOnceIff(vs: seq<Verdict>, slots: seq<Slot>, tries: seq<nat>)
    requires |tries| == |slots| && forall k :: 0 <= k < |slots| ==> (tries[k] == 1 <==> NamedOnce(vs, slots[k]))
    ensures CasesFound(slots, tries, |slots|) == {} <==> EachOnce(vs, slots)
  {
    NoCaseFound(slots, tries, |slots|);
  }

  lemma CasesOnceIff(vs: seq<Verdict>, os: seq<Observation>, slots: seq<Slot>)
    requires ValidRun(vs, os) && ProperSlots(slots) && AllScore(Grouped(vs, os), slots)
    ensures CasesFound(slots, Tries(Grouped(vs, os), slots), |slots|) == {} <==> EachOnce(vs, slots)
  {
    var tries := Tries(Grouped(vs, os), slots);
    forall k | 0 <= k < |slots|
      ensures tries[k] == 1 <==> NamedOnce(vs, slots[k])
    {
      TriedOnceIff(vs, os, slots, k);
    }
    AllOnceIff(vs, slots, tries);
  }

  lemma AllScoreIff(vs: seq<Verdict>, os: seq<Observation>, slots: seq<Slot>)
    requires ValidRun(vs, os) && ProperSlots(slots)
    ensures AllScore(Grouped(vs, os), slots) <==> Pair(vs, os) && NoneElse(vs, slots)
  {
    AttemptsFineIff(vs, os, slots);
    forall i | 0 <= i < |vs|
      ensures Known(vs[i], slots) <==> NamesOneOf(vs[i], slots)
    {
      if slots != [] {
        NamesIff(vs[i], slots, 0);
      }
    }
  }

  lemma NothingWrongIff(vs: seq<Verdict>, os: seq<Observation>, slots: seq<Slot>)
    requires ValidRun(vs, os) && ProperSlots(slots)
    ensures Findings(Grouped(vs, os), slots) == {} <==> Pair(vs, os) && Cover(vs, slots)
  {
    var groups := Grouped(vs, os);
    var attempts, cases := FoundIn(groups.Keys, groups, slots), CasesFound(slots, Tries(groups, slots), |slots|);
    assert attempts + cases == {} <==> attempts == {} && cases == {};
    NothingFoundIff(vs, os, slots);
    AllScoreIff(vs, os, slots);
    if AllScore(groups, slots) {
      CasesOnceIff(vs, os, slots);
    }
  }

  lemma {:induction false} NoneShortIff(jobs: seq<Job>, group: string, n: nat)
    requires n <= |jobs|
    ensures FirstShort(jobs, group, n).None? <==> forall i :: 0 <= i < n ==> jobs[i].threshold <= CountIn(jobs[i].variants, group)
    ensures FirstShort(jobs, group, n).Some? ==> FirstShort(jobs, group, n).value < n
  {
    if n > 0 {
      NoneShortIff(jobs, group, n - 1);
    }
  }

  lemma NoJobShortIff(m: Manifest, group: string)
    requires Valid(m)
    ensures FirstShort(m.jobs, group, |m.jobs|).None? <==>
            forall i :: 0 <= i < |m.jobs| ==> CountIn(m.jobs[i].variants, group) > 0
  {
    NoneShortIff(m.jobs, group, |m.jobs|);
    forall i | 0 <= i < |m.jobs|
      ensures m.jobs[i].threshold <= CountIn(m.jobs[i].variants, group) <==> CountIn(m.jobs[i].variants, group) > 0
    {
      ShortIffNone(m, group, i);
    }
  }

  /** A run is scored exactly when its set is known, every job has a variant in it, the verdicts and
      observations pair one to one and agree, and together they cover each case once and nothing
      else. */
  lemma ScoredIff(m: Manifest, group: string, vs: seq<Verdict>, os: seq<Observation>)
    requires Valid(m) && ValidRun(vs, os)
    ensures Scored(m, group, vs, os).Ok? <==>
            && group in SETS
            && (forall i :: 0 <= i < |m.jobs| ==> CountIn(m.jobs[i].variants, group) > 0)
            && Pair(vs, os)
            && Cover(vs, Slots(m, group))
  {
    SlotsFacts(m, group);
    NoJobShortIff(m, group);
    NothingWrongIff(vs, os, Slots(m, group));
  }

  const ONLY_VARIANT := Variant("v", "heldout", "in", "out", [])
  const ONLY_JOB := Job("j", "title", 1, [ONLY_VARIANT])
  const SMALLEST := Manifest(VERSION, 1, [ONLY_JOB], [])

  lemma SmallestSlots()
    ensures Slots(SMALLEST, "heldout") == [ForVariant(0, ONLY_VARIANT)] && CountIn([ONLY_VARIANT], "heldout") == 1
  {
    assert [ONLY_JOB][..0] == [] && [ONLY_VARIANT][..0] == [];
    assert VariantSlots(0, [ONLY_VARIANT], "heldout") == [ForVariant(0, ONLY_VARIANT)];
    assert JobSlots([ONLY_JOB], "heldout") == VariantSlots(0, [ONLY_VARIANT], "heldout");
  }

  lemma LettersShow(s: string)
    requires s != "" && 'a' <= s[0] <= 'z'
    ensures !Blank(s)
  {
    assert !IsSpace(s[0]);
  }

  lemma SmallestIsValid()
    ensures Valid(SMALLEST)
  {
    LettersShow("v");
    LettersShow("in");
    LettersShow("out");
    LettersShow("j");
    LettersShow("title");
    assert [ONLY_JOB][..0] == [];
    assert VariantIds([ONLY_VARIANT]) == ["v"] && JobIds([ONLY_JOB]) == ["j", "v"];
    assert Ids(SMALLEST) == ["j", "v"];
    assert FineVariant(ONLY_VARIANT);
    SmallestSlots();
    assert FineJob(ONLY_JOB);
  }

  lemma OneAttemptCovers(v: Verdict, o: Observation, s: Slot)
    requires Names(v, s) && v.attempt == o.attempt && SameCase(v, o)
    ensures Pair([v], [o]) && Cover([v], [s])
  {
    var vs, slots := [v], [s];
    assert vs[0] == v && slots[0] == s;
    assert VerdictIds(vs) == {v.attempt} && ObservationIds([o]) == {o.attempt};
  }

  /** There are runs to score: one job with one variant, attempted once. */
  lemma SomeRunIsScored(usage: map<string, Table>) returns (v: Verdict, o: Observation)
    ensures Valid(SMALLEST) && ValidRun([v], [o]) && Scored(SMALLEST, "heldout", [v], [o]).Ok?
  {
    v := Verdict("a", "v", "", Success, [], []);
    o := Observation("a", "v", "", 1, 1, "recorded", usage, true, [], false);
    SmallestSlots();
    SmallestIsValid();
    LettersShow("a");
    assert |"v"| == 1 && CaseId("v", "").Some?;
    OneAttemptCovers(v, o, ForVariant(0, ONLY_VARIANT));
    ScoredIff(SMALLEST, "heldout", [v], [o]);
  }
}
