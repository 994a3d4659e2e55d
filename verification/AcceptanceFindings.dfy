/** What each thing found wrong with a run means, told from the two lists alone. */
module AcceptanceFindings {
  import opened Basics
  import opened AcceptanceManifest
  import opened AcceptanceUsage
  import opened AcceptanceCases
  import opened AcceptanceScore
  import opened AcceptancePairs

  function VerdictCount(vs: seq<Verdict>, id: string): nat {
    if vs == [] then 0 else VerdictCount(vs[..|vs| - 1], id) + if vs[|vs| - 1].attempt == id then 1 else 0
  }

  function ObservationCount(os: seq<Observation>, id: string): nat {
    if os == [] then 0 else ObservationCount(os[..|os| - 1], id) + if os[|os| - 1].attempt == id then 1 else 0
  }

  lemma {:induction false} VerdictsCounted(vs: seq<Verdict>, id: string)
    ensures |Of(vs, VerdictAttempt, id)| == VerdictCount(vs, id)
    ensures id in VerdictIds(vs) <==> VerdictCount(vs, id) > 0
  {
    if vs != [] {
      var v, rest := vs[|vs| - 1], vs[..|vs| - 1];
      VerdictsCounted(rest, id);
      assert vs == rest + [v];
    }
  }

  lemma {:induction false} ObservationsCounted(os: seq<Observation>, id: string)
    ensures |Of(os, ObservationAttempt, id)| == ObservationCount(os, id)
    ensures id in ObservationIds(os) <==> ObservationCount(os, id) > 0
  {
    if os != [] {
      var o, rest := os[|os| - 1], os[..|os| - 1];
      ObservationsCounted(rest, id);
      assert os == rest + [o];
    }
  }

  // One verdict and one observation bear the attempt's id.
  predicate Once(vs: seq<Verdict>, os: seq<Observation>, id: string) {
    VerdictCount(vs, id) == 1 == ObservationCount(os, id)
  }

  // They are these.
  predicate Both(vs: seq<Verdict>, os: seq<Observation>, id: string, v: Verdict, o: Observation) {
    Once(vs, os, id) && v in vs && o in os && v.attempt == id == o.attempt
  }

  // The attempt is one on the case, its verdict and observation agreeing.
  predicate On(vs: seq<Verdict>, os: seq<Observation>, id: string, s: Slot) {
    exists v, o :: v in vs && o in os && Both(vs, os, id, v, o) && SameCase(v, o) && Names(v, s)
  }

  function AttemptsAt(vs: seq<Verdict>, os: seq<Observation>, s: Slot): set<string> {
    set v | v in vs && On(vs, os, v.attempt, s) :: v.attempt
  }

  function TimesTried(vs: seq<Verdict>, os: seq<Observation>, s: Slot): nat {
    |AttemptsAt(vs, os, s)|
  }

  // What each finding says.
  predicate Means(f: Finding, vs: seq<Verdict>, os: seq<Observation>, slots: seq<Slot>) {
    match f
    case ManyVerdicts(id, n) => n == VerdictCount(vs, id) > 1
    case ManyObservations(id, n) => n == ObservationCount(os, id) > 1 && VerdictCount(vs, id) <= 1
    case NoObservation(id) => VerdictCount(vs, id) == 1 && ObservationCount(os, id) == 0
    case NoVerdict(id) => VerdictCount(vs, id) == 0 && ObservationCount(os, id) > 0
    case DifferentCases(id) => exists v, o :: v in vs && o in os && Both(vs, os, id, v, o) && !SameCase(v, o)
    case NotInSet(id, name) =>
      exists v, o :: v in vs && o in os && Both(vs, os, id, v, o) && SameCase(v, o) && !NamesOneOf(v, slots)
                     && name == v.variant + v.negative
    case NeverAttempted(id) => exists k :: 0 <= k < |slots| && slots[k].Id() == id && TimesTried(vs, os, slots[k]) == 0
    case CaseRepeated(id, n) => exists k :: 0 <= k < |slots| && slots[k].Id() == id && TimesTried(vs, os, slots[k]) == n > 1
  }

  // ------------------------------------------------------------------------ attempts

  lemma OnlyOne(vs: seq<Verdict>, os: seq<Observation>, id: string, v: Verdict, o: Observation)
    requires Both(vs, os, id, v, o)
    ensures GroupOf(vs, os, id) == Group(1, 1, Some(v), Some(o))
  {
    VerdictsCounted(vs, id);
    ObservationsCounted(os, id);
    var i :| 0 <= i < |vs| && vs[i] == v;
    var j :| 0 <= j < |os| && os[j] == o;
    OneVerdict(vs, os, i);
    OneObservation(vs, os, j);
  }

  lemma OnceHasBoth(vs: seq<Verdict>, os: seq<Observation>, id: string) returns (v: Verdict, o: Observation)
    requires Once(vs, os, id)
    ensures Both(vs, os, id, v, o)
  {
    VerdictsCounted(vs, id);
    ObservationsCounted(os, id);
    OfFacts(vs, VerdictAttempt, id);
    OfFacts(os, ObservationAttempt, id);
    v, o := Of(vs, VerdictAttempt, id)[0], Of(os, ObservationAttempt, id)[0];
    assert v in Of(vs, VerdictAttempt, id) && o in Of(os, ObservationAttempt, id);
  }

  // What is found of an attempt, by what its verdict and observation are.
  lemma FoundOfPair(vs: seq<Verdict>, os: seq<Observation>, slots: seq<Slot>, id: string, v: Verdict, o: Observation, f: Finding)
    requires Both(vs, os, id, v, o) && ValidRun(vs, os) && ProperSlots(slots)
    ensures f in FindingsOf(id, GroupOf(vs, os, id), slots) <==>
      || (f == DifferentCases(id) && !SameCase(v, o))
      || (f == NotInSet(id, v.variant + v.negative) && SameCase(v, o) && !NamesOneOf(v, slots))
  {
    OnlyOne(vs, os, id, v, o);
    assert ValidVerdict(v);
    if slots != [] {
      NamesIff(v, slots, 0);
    }
  }

  predicate AboutAttempt(f: Finding) { !f.NeverAttempted? && !f.CaseRepeated? }

  lemma BothAreTheOnes(vs: seq<Verdict>, os: seq<Observation>, id: string, v: Verdict, o: Observation, v': Verdict, o': Observation)
    requires Both(vs, os, id, v, o) && Both(vs, os, id, v', o')
    ensures v' == v && o' == o
  {
    OnlyOne(vs, os, id, v, o);
    OnlyOne(vs, os, id, v', o');
  }

  lemma FoundOfAttemptIff(vs: seq<Verdict>, os: seq<Observation>, slots: seq<Slot>, f: Finding)
    requires ValidRun(vs, os) && ProperSlots(slots) && AboutAttempt(f)
    ensures f.attempt in Grouped(vs, os) && f in FindingsOf(f.attempt, GroupOf(vs, os, f.attempt), slots) <==> Means(f, vs, os, slots)
  {
    var id := f.attempt;
    VerdictsCounted(vs, id);
    ObservationsCounted(os, id);
    if Once(vs, os, id) {
      var v, o := OnceHasBoth(vs, os, id);
      FoundOfPair(vs, os, slots, id, v, o, f);
      forall v', o' | Both(vs, os, id, v', o')
        ensures v' == v && o' == o
      {
        BothAreTheOnes(vs, os, id, v, o, v', o');
      }
    }
  }

  lemma FoundNamesItsAttempt(id: string, g: Group, slots: seq<Slot>, f: Finding)
    requires f in FindingsOf(id, g, slots)
    ensures AboutAttempt(f) && f.attempt == id
  {
  }

  // --------------------------------------------------------------------------- cases

  lemma OnWhen(vs: seq<Verdict>, os: seq<Observation>, id: string, v: Verdict, o: Observation, s: Slot)
    requires Both(vs, os, id, v, o)
    ensures On(vs, os, id, s) <==> SameCase(v, o) && Names(v, s)
  {
    forall v', o' | Both(vs, os, id, v', o')
      ensures v' == v && o' == o
    {
      BothAreTheOnes(vs, os, id, v, o, v', o');
    }
  }

  lemma ScoresWhen(vs: seq<Verdict>, os: seq<Observation>, slots: seq<Slot>, k: nat, id: string, v: Verdict, o: Observation)
    requires Both(vs, os, id, v, o) && ValidVerdict(v) && ProperSlots(slots) && k < |slots|
    ensures var g := GroupOf(vs, os, id);
      Scores(g, slots) && Name(g.verdict.value) == slots[k].Id() <==> SameCase(v, o) && Names(v, slots[k])
  {
    OnlyOne(vs, os, id, v, o);
    NamesIff(v, slots, k);
  }

  lemma InBothLists(vs: seq<Verdict>, os: seq<Observation>, slots: seq<Slot>, id: string)
    ensures Scores(GroupOf(vs, os, id), slots) ==> Once(vs, os, id) && id in Grouped(vs, os)
    ensures Once(vs, os, id) ==> id in Grouped(vs, os)
  {
    VerdictsCounted(vs, id);
    ObservationsCounted(os, id);
  }

  lemma ScoresOnIff(vs: seq<Verdict>, os: seq<Observation>, slots: seq<Slot>, k: nat, id: string)
    requires ValidRun(vs, os) && ProperSlots(slots) && k < |slots|
    ensures var groups := Grouped(vs, os);
      id in AttemptsOn(groups.Keys, groups, slots, slots[k].Id()) <==> On(vs, os, id, slots[k])
  {
    InBothLists(vs, os, slots, id);
    if Once(vs, os, id) {
      var v, o := OnceHasBoth(vs, os, id);
      assert ValidVerdict(v);
      OnWhen(vs, os, id, v, o, slots[k]);
      ScoresWhen(vs, os, slots, k, id, v, o);
    }
  }

  lemma AttemptsOnAre(vs: seq<Verdict>, os: seq<Observation>, slots: seq<Slot>, k: nat)
    requires ValidRun(vs, os) && ProperSlots(slots) && k < |slots|
    ensures var groups := Grouped(vs, os);
      AttemptsOn(groups.Keys, groups, slots, slots[k].Id()) == AttemptsAt(vs, os, slots[k])
  {
    var groups := Grouped(vs, os);
    forall id
      ensures id in AttemptsOn(groups.Keys, groups, slots, slots[k].Id()) <==> id in AttemptsAt(vs, os, slots[k])
    {
      ScoresOnIff(vs, os, slots, k, id);
    }
  }

  lemma {:induction false} CaseFoundIff(slots: seq<Slot>, tries: seq<nat>, upTo: nat, f: Finding)
    requires upTo <= |slots| == |tries|
    ensures f in CasesFound(slots, tries, upTo) <==>
            exists k :: 0 <= k < upTo && f in CaseFindings(slots[k].Id(), tries[k])
  {
    if upTo > 0 {
      CaseFoundIff(slots, tries, upTo - 1, f);
    }
  }

  lemma CaseFindingIs(id: string, n: nat, f: Finding)
    ensures f in CaseFindings(id, n) <==> (f == NeverAttempted(id) && n == 0) || (f == CaseRepeated(id, n) && n > 1)
  {
  }

  lemma CaseMeans(vs: seq<Verdict>, os: seq<Observation>, slots: seq<Slot>, tries: seq<nat>, f: Finding)
    requires |tries| == |slots| && forall k :: 0 <= k < |slots| ==> tries[k] == TimesTried(vs, os, slots[k])
    ensures (exists k :: 0 <= k < |slots| && f in CaseFindings(slots[k].Id(), tries[k])) <==>
            !AboutAttempt(f) && Means(f, vs, os, slots)
  {
    forall k | 0 <= k < |slots|
      ensures f in CaseFindings(slots[k].Id(), tries[k]) <==>
        || (f == NeverAttempted(slots[k].Id()) && TimesTried(vs, os, slots[k]) == 0)
        || (f == CaseRepeated(slots[k].Id(), TimesTried(vs, os, slots[k])) && TimesTried(vs, os, slots[k]) > 1)
    {
      CaseFindingIs(slots[k].Id(), tries[k], f);
    }
  }

  lemma FoundOfCaseIff(vs: seq<Verdict>, os: seq<Observation>, slots: seq<Slot>, f: Finding)
    requires ValidRun(vs, os) && ProperSlots(slots)
    ensures f in CasesFound(slots, Tries(Grouped(vs, os), slots), |slots|) <==> !AboutAttempt(f) && Means(f, vs, os, slots)
  {
    var tries := Tries(Grouped(vs, os), slots);
    forall k | 0 <= k < |slots|
      ensures tries[k] == TimesTried(vs, os, slots[k])
    {
      AttemptsOnAre(vs, os, slots, k);
    }
    CaseFoundIff(slots, tries, |slots|, f);
    CaseMeans(vs, os, slots, tries, f);
  }

  /** A run that is not scored for what is wrong with it reports exactly the findings that hold of its
      two lists and the set's cases. */
  lemma FindingsAreTrue(m: Manifest, group: string, vs: seq<Verdict>, os: seq<Observation>, f: Finding)
    requires Valid(m) && ValidRun(vs, os) && Scored(m, group, vs, os).Err? && Scored(m, group, vs, os).error.Unscored?
    ensures f in Scored(m, group, vs, os).error.findings <==> Means(f, vs, os, Slots(m, group))
  {
    SlotsFacts(m, group);
    FindingIff(vs, os, Slots(m, group), f);
  }

  lemma FindingIff(vs: seq<Verdict>, os: seq<Observation>, slots: seq<Slot>, f: Finding)
    requires ValidRun(vs, os) && ProperSlots(slots)
    ensures f in Findings(Grouped(vs, os), slots) <==> Means(f, vs, os, slots)
  {
    var groups := Grouped(vs, os);
    FoundOfCaseIff(vs, os, slots, f);
    if AboutAttempt(f) {
      FoundOfAttemptIff(vs, os, slots, f);
    }
    if f in FoundIn(groups.Keys, groups, slots) {
      var id :| id in groups && f in FindingsOf(id, groups[id], slots);
      FoundNamesItsAttempt(id, groups[id], slots, f);
    }
  }

  predicate Short(j: Job, group: string) {
    CountIn(j.variants, group) < j.threshold
  }

  lemma {:induction false} FirstShortIs(jobs: seq<Job>, group: string, n: nat, i: nat)
    requires n <= |jobs| && i < |jobs|
    ensures FirstShort(jobs, group, n) == Some(i) <==>
            i < n && Short(jobs[i], group) && forall k :: 0 <= k < i ==> !Short(jobs[k], group)
    ensures FirstShort(jobs, group, n).None? <==> forall k :: 0 <= k < n ==> !Short(jobs[k], group)
  {
    if n > 0 {
      FirstShortIs(jobs, group, n - 1, i);
    }
  }

  /** A set the manifest does not know, and the first job without enough variants in the set, are
      refused by name. */
  lemma RefusedByName(m: Manifest, group: string, vs: seq<Verdict>, os: seq<Observation>, i: nat)
    requires i < |m.jobs|
    ensures Scored(m, group, vs, os) == Err(UnknownSet) <==> group != "development" && group != "heldout"
    ensures group in SETS ==>
      (Scored(m, group, vs, os) == Err(TooFewVariants(i)) <==>
       Short(m.jobs[i], group) && forall k :: 0 <= k < i ==> !Short(m.jobs[k], group))
  {
    FirstShortIs(m.jobs, group, |m.jobs|, i);
  }
}
