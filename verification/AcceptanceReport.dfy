/** What a report says: its counts and its pass, told from the verdicts alone. */
module AcceptanceReport {
  import opened Basics
  import opened AcceptanceManifest
  import opened AcceptanceUsage
  import opened AcceptanceCases
  import opened AcceptanceScore
  import opened AcceptancePairs

  // One entry per case, made of the verdict that names it and the observation of the same attempt.
  predicate Fit(es: seq<Entry>, slots: seq<Slot>, vs: seq<Verdict>, os: seq<Observation>) {
    && |es| == |slots|
    && forall k :: 0 <= k < |slots| ==> FitOne(es[k], slots[k], vs, os)
  }

  predicate FitOne(e: Entry, s: Slot, vs: seq<Verdict>, os: seq<Observation>) {
    && e.slot == s && e.verdict in vs && e.observation in os
    && Names(e.verdict, s) && e.verdict.attempt == e.observation.attempt
  }

  lemma CountedComesFrom(vs: seq<Verdict>, os: seq<Observation>, slots: seq<Slot>, id: string)
    requires Scores(GroupOf(vs, os, id), slots)
    ensures var g := GroupOf(vs, os, id);
      && g.verdict.value in vs && g.verdict.value.attempt == id
      && g.observation.value in os && g.observation.value.attempt == id
  {
    OfFacts(vs, VerdictAttempt, id);
    OfFacts(os, ObservationAttempt, id);
    assert Of(vs, VerdictAttempt, id)[0] in Of(vs, VerdictAttempt, id);
    assert Of(os, ObservationAttempt, id)[0] in Of(os, ObservationAttempt, id);
  }

  lemma EntryFits(vs: seq<Verdict>, os: seq<Observation>, slots: seq<Slot>, k: nat)
    requires ValidRun(vs, os) && ProperSlots(slots) && k < |slots|
    requires |AttemptsOn(Grouped(vs, os).Keys, Grouped(vs, os), slots, slots[k].Id())| == 1
    ensures FitOne(EntryOn(Grouped(vs, os), slots, slots[k]), slots[k], vs, os)
  {
    var groups := Grouped(vs, os);
    var ids := AttemptsOn(groups.Keys, groups, slots, slots[k].Id());
    assert ids != {};
    var e := EntryOn(groups, slots, slots[k]);
    var id :| id in ids && e == Entry(slots[k], groups[id].verdict.value, groups[id].observation.value);
    CountedComesFrom(vs, os, slots, id);
    assert ValidVerdict(e.verdict);
    NamesIff(e.verdict, slots, k);
  }

  lemma EntriesFit(vs: seq<Verdict>, os: seq<Observation>, slots: seq<Slot>)
    requires ValidRun(vs, os) && ProperSlots(slots) && OneEach(Grouped(vs, os), slots)
    ensures Fit(Entries(Grouped(vs, os), slots), slots, vs, os)
  {
    var groups := Grouped(vs, os);
    forall k | 0 <= k < |slots|
      ensures FitOne(Entries(groups, slots)[k], slots[k], vs, os)
    {
      assert Tries(groups, slots)[k] == 1;
      EntryFits(vs, os, slots, k);
    }
  }

  lemma ScoredIs(m: Manifest, group: string, groups: map<string, Group>)
    requires ScoredGroups(m, group, groups).Ok?
    ensures OneEach(groups, Slots(m, group))
    ensures ScoredGroups(m, group, groups) == Ok(ReportOf(m, Entries(groups, Slots(m, group))))
  {
    var slots := Slots(m, group);
    NoCaseFound(slots, Tries(groups, slots), |slots|);
  }

  // A scored run, with the entries its report is made of.
  lemma ScoredEntries(m: Manifest, group: string, vs: seq<Verdict>, os: seq<Observation>) returns (es: seq<Entry>)
    requires Valid(m) && ValidRun(vs, os) && Scored(m, group, vs, os).Ok?
    ensures Scored(m, group, vs, os) == Ok(ReportOf(m, es))
    ensures Fit(es, Slots(m, group), vs, os)
  {
    ScoredIs(m, group, Grouped(vs, os));
    SlotsFacts(m, group);
    EntriesFit(vs, os, Slots(m, group));
    es := Entries(Grouped(vs, os), Slots(m, group));
  }

  lemma ScoredCovers(m: Manifest, group: string, vs: seq<Verdict>, os: seq<Observation>)
    requires Valid(m) && ValidRun(vs, os) && Scored(m, group, vs, os).Ok?
    ensures Pair(vs, os) && Cover(vs, Slots(m, group)) && EachOnce(vs, Slots(m, group))
  {
    ScoredIff(m, group, vs, os);
  }

  // ------------------------------------------------------------------------- counts

  function SlotsOf(es: seq<Entry>): seq<Slot> {
    seq(|es|, k requires 0 <= k < |es| => es[k].slot)
  }

  predicate KnownOutcomes(es: seq<Entry>) {
    forall k :: 0 <= k < |es| ==> !es[k].verdict.outcome.AnyOther?
  }

  // What an attempt on a variant came to: reached with no help but what the variant allows, reached
  // with other help, failed, or unsupported.
  datatype Ending = Reached | Helped | Failed | NotSupported

  predicate EndsAs(v: Verdict, variant: Variant, how: Ending) {
    match how
    case Reached => v.outcome == Success && forall n :: 0 <= n < |v.interventions| ==> v.interventions[n].kind in variant.allowed
    case Helped => v.outcome == Success && exists n :: 0 <= n < |v.interventions| && v.interventions[n].kind !in variant.allowed
    case Failed => v.outcome == Failure
    case NotSupported => v.outcome == Unsupported
  }

  // The entries of a job that came to this.
  function EndedOf(es: seq<Entry>, i: nat, how: Ending): nat {
    if es == [] then 0
    else
      var e := es[|es| - 1];
      EndedOf(es[..|es| - 1], i, how) +
      if e.slot.ForVariant? && e.slot.job == i && EndsAs(e.verdict, e.slot.variant, how) then 1 else 0
  }

  function CountFor(n: Counts, how: Ending): nat {
    match how
    case Reached => n.successes
    case Helped => n.assisted
    case Failed => n.failures
    case NotSupported => n.unsupported
  }

  // One entry more, in each of what a job's entries add up to.
  lemma OwnedMore(jobs: seq<Job>, es: seq<Entry>, i: nat)
    requires i < |jobs| && es != []
    ensures var e, before := es[|es| - 1], Owned(jobs, es[..|es| - 1], i);
      Owned(jobs, es, i) == if OwnedBy(jobs, e.slot, i) then before + [e] else before
  {
  }

  lemma CountsMore(jobs: seq<Job>, es: seq<Entry>, i: nat)
    requires i < |jobs| && es != []
    ensures var e, before := es[|es| - 1], CountsOf(Owned(jobs, es[..|es| - 1], i));
      CountsOf(Owned(jobs, es, i)) ==
      if e.slot.ForVariant? && e.slot.job == i then CountedOnce(before, e.verdict, e.slot.variant) else before
  {
    OwnedMore(jobs, es, i);
    var before := Owned(jobs, es[..|es| - 1], i);
    assert (before + [es[|es| - 1]])[..|before|] == before;
  }

  lemma BreachesMore(jobs: seq<Job>, es: seq<Entry>, i: nat)
    requires i < |jobs| && es != []
    ensures var e, before := es[|es| - 1], BreachesOf(Owned(jobs, es[..|es| - 1], i));
      BreachesOf(Owned(jobs, es, i)) == if OwnedBy(jobs, e.slot, i) then before + Breaches(e) else before
  {
    OwnedMore(jobs, es, i);
    var before := Owned(jobs, es[..|es| - 1], i);
    assert (before + [es[|es| - 1]])[..|before|] == before;
  }

  lemma ShotsMore(es: seq<Entry>, i: nat)
    requires es != []
    ensures var s := es[|es| - 1].slot;
      Shots(SlotsOf(es), i) == Shots(SlotsOf(es[..|es| - 1]), i) + if s.ForVariant? && s.job == i then 1 else 0
  {
    assert SlotsOf(es)[..|es| - 1] == SlotsOf(es[..|es| - 1]);
  }

  lemma OneCounted(n: Counts, v: Verdict, variant: Variant, how: Ending)
    ensures CountFor(CountedOnce(n, v, variant), how) == CountFor(n, how) + if EndsAs(v, variant, how) then 1 else 0
  {
  }

  lemma {:induction false} OwnedEndings(jobs: seq<Job>, es: seq<Entry>, i: nat, how: Ending)
    requires i < |jobs|
    ensures CountFor(CountsOf(Owned(jobs, es, i)), how) == EndedOf(es, i, how)
  {
    if es != [] {
      var e := es[|es| - 1];
      OwnedEndings(jobs, es[..|es| - 1], i, how);
      CountsMore(jobs, es, i);
      if e.slot.ForVariant? {
        OneCounted(CountsOf(Owned(jobs, es[..|es| - 1], i)), e.verdict, e.slot.variant, how);
      }
    }
  }

  lemma {:induction false} OwnedCounts(jobs: seq<Job>, es: seq<Entry>, i: nat)
    requires i < |jobs|
    ensures CountsOf(Owned(jobs, es, i)).attempts == Shots(SlotsOf(es), i)
  {
    if es != [] {
      OwnedCounts(jobs, es[..|es| - 1], i);
      CountsMore(jobs, es, i);
      ShotsMore(es, i);
    }
  }

  lemma {:induction false} OwnedSums(jobs: seq<Job>, es: seq<Entry>, i: nat)
    requires i < |jobs| && KnownOutcomes(es)
    ensures var n := CountsOf(Owned(jobs, es, i)); n.attempts == n.successes + n.assisted + n.failures + n.unsupported
  {
    if es != [] {
      OwnedSums(jobs, es[..|es| - 1], i);
      CountsMore(jobs, es, i);
    }
  }

  // Some verdict names the case and came to this.
  predicate CaseEnds(vs: seq<Verdict>, s: Slot, how: Ending) {
    s.ForVariant? && exists i :: 0 <= i < |vs| && Names(vs[i], s) && EndsAs(vs[i], s.variant, how)
  }

  // How many cases of a job a verdict says so of.
  function CasesEnding(vs: seq<Verdict>, slots: seq<Slot>, i: nat, how: Ending): nat {
    if slots == [] then 0
    else
      var s := slots[|slots| - 1];
      CasesEnding(vs, slots[..|slots| - 1], i, how) + if s.ForVariant? && s.job == i && CaseEnds(vs, s, how) then 1 else 0
  }

  function ReachedOf(vs: seq<Verdict>, slots: seq<Slot>, i: nat): nat {
    CasesEnding(vs, slots, i, Reached)
  }

  lemma CaseEndsIff(e: Entry, s: Slot, vs: seq<Verdict>, os: seq<Observation>, how: Ending)
    requires FitOne(e, s, vs, os) && NamedOnce(vs, s) && s.ForVariant?
    ensures EndsAs(e.verdict, s.variant, how) <==> CaseEnds(vs, s, how)
  {
    var n :| 0 <= n < |vs| && vs[n] == e.verdict;
    assert Names(vs[n], s);
  }

  lemma {:induction false} EndedIsCasesEnding(es: seq<Entry>, slots: seq<Slot>, vs: seq<Verdict>, os: seq<Observation>,
                                              i: nat, how: Ending)
    requires Fit(es, slots, vs, os) && EachOnce(vs, slots)
    ensures EndedOf(es, i, how) == CasesEnding(vs, slots, i, how)
  {
    if es != [] {
      var n := |es| - 1;
      assert forall k :: 0 <= k < n ==> FitOne(es[k], slots[k], vs, os) && NamedOnce(vs, slots[k]);
      EndedIsCasesEnding(es[..n], slots[..n], vs, os, i, how);
      assert FitOne(es[n], slots[n], vs, os);
      if slots[n].ForVariant? {
        CaseEndsIff(es[n], slots[n], vs, os, how);
      }
    }
  }

  lemma JobEndings(m: Manifest, group: string, es: seq<Entry>, vs: seq<Verdict>, os: seq<Observation>, i: nat, how: Ending)
    requires Fit(es, Slots(m, group), vs, os) && EachOnce(vs, Slots(m, group)) && i < |m.jobs|
    ensures CountFor(CountsOf(Owned(m.jobs, es, i)), how) == CasesEnding(vs, Slots(m, group), i, how)
  {
    OwnedEndings(m.jobs, es, i, how);
    EndedIsCasesEnding(es, Slots(m, group), vs, os, i, how);
  }

  // The counts of a job, each told from the verdicts alone.
  predicate CountsTold(n: Counts, vs: seq<Verdict>, slots: seq<Slot>, i: nat) {
    && n.successes == CasesEnding(vs, slots, i, Reached)
    && n.assisted == CasesEnding(vs, slots, i, Helped)
    && n.failures == CasesEnding(vs, slots, i, Failed)
    && n.unsupported == CasesEnding(vs, slots, i, NotSupported)
  }

  lemma JobCountsTold(m: Manifest, group: string, es: seq<Entry>, vs: seq<Verdict>, os: seq<Observation>, i: nat)
    requires Fit(es, Slots(m, group), vs, os) && EachOnce(vs, Slots(m, group)) && i < |m.jobs|
    ensures CountsTold(CountsOf(Owned(m.jobs, es, i)), vs, Slots(m, group), i)
  {
    JobEndings(m, group, es, vs, os, i, Reached);
    JobEndings(m, group, es, vs, os, i, Helped);
    JobEndings(m, group, es, vs, os, i, Failed);
    JobEndings(m, group, es, vs, os, i, NotSupported);
  }

  lemma JobCounts(m: Manifest, group: string, es: seq<Entry>, vs: seq<Verdict>, os: seq<Observation>, i: nat)
    requires Fit(es, Slots(m, group), vs, os) && ValidRun(vs, os) && EachOnce(vs, Slots(m, group)) && i < |m.jobs|
    ensures var n := CountsOf(Owned(m.jobs, es, i));
      && n.attempts == n.successes + n.assisted + n.failures + n.unsupported == CountIn(m.jobs[i].variants, group)
      && CountsTold(n, vs, Slots(m, group), i)
  {
    var slots := Slots(m, group);
    assert SlotsOf(es) == slots by {
      assert forall k :: 0 <= k < |slots| ==> FitOne(es[k], slots[k], vs, os);
    }
    FitKnown(es, slots, vs, os);
    OwnedCounts(m.jobs, es, i);
    OwnedSums(m.jobs, es, i);
    ShotsAreVariants(m, group, i);
    JobCountsTold(m, group, es, vs, os, i);
  }

  /** In the report every variant a job has in the set is counted once, as a success, an assisted
      success, a failure or unsupported, and each of the four counts is the number of the job's cases
      that a verdict of the run says so of. */
  lemma EveryVariantCountsOnce(m: Manifest, group: string, vs: seq<Verdict>, os: seq<Observation>, r: Report, i: nat)
    requires Valid(m) && ValidRun(vs, os) && Scored(m, group, vs, os) == Ok(r) && i < |m.jobs|
    ensures |r.jobs| == |m.jobs|
    ensures var n := r.jobs[i].tally.counts;
      && n.attempts == n.successes + n.assisted + n.failures + n.unsupported == CountIn(m.jobs[i].variants, group)
      && CountsTold(n, vs, Slots(m, group), i)
  {
    var es := ScoredEntries(m, group, vs, os);
    ScoredCovers(m, group, vs, os);
    JobCounts(m, group, es, vs, os, i);
  }

  lemma FitKnown(es: seq<Entry>, slots: seq<Slot>, vs: seq<Verdict>, os: seq<Observation>)
    requires Fit(es, slots, vs, os) && ValidRun(vs, os)
    ensures KnownOutcomes(es)
  {
    forall k | 0 <= k < |es|
      ensures !es[k].verdict.outcome.AnyOther?
    {
      assert FitOne(es[k], slots[k], vs, os);
    }
  }

  // --------------------------------------------------------------------------- pass

  predicate CleanFor(jobs: seq<Job>, es: seq<Entry>, i: nat)
    requires i < |jobs|
  {
    forall k :: 0 <= k < |es| && OwnedBy(jobs, es[k].slot, i) ==> es[k].verdict.violations == []
  }

  predicate CleanNegatives(es: seq<Entry>) {
    forall k :: 0 <= k < |es| && es[k].slot.ForNegative? ==> es[k].verdict.violations == []
  }

  lemma {:induction false} NoBreachIff(jobs: seq<Job>, es: seq<Entry>, i: nat)
    requires i < |jobs|
    ensures BreachesOf(Owned(jobs, es, i)) == [] <==> CleanFor(jobs, es, i)
  {
    if es != [] {
      var e, rest := es[|es| - 1], es[..|es| - 1];
      NoBreachIff(jobs, rest, i);
      assert forall k :: 0 <= k < |rest| ==> rest[k] == es[k];
      BreachesMore(jobs, es, i);
      assert |Breaches(e)| == |e.verdict.violations|;
      assert CleanFor(jobs, es, i) <==> CleanFor(jobs, rest, i) && (OwnedBy(jobs, e.slot, i) ==> e.verdict.violations == []);
    }
  }

  lemma {:induction false} NegativesCleanIff(es: seq<Entry>)
    ensures Quiet(CaseReports(es)) <==> CleanNegatives(es)
  {
    if es != [] {
      var e, rest := es[|es| - 1], es[..|es| - 1];
      NegativesCleanIff(rest);
      assert forall k :: 0 <= k < |rest| ==> rest[k] == es[k];
      var was, now := CaseReports(rest), CaseReports(es);
      assert forall k :: 0 <= k < |was| ==> now[k] == was[k];
      assert e.slot.ForNegative? ==> now[|was|].violations == e.verdict.violations;
    }
  }

  // Every verdict is in some entry, and every entry is a job's or a negative case's.
  lemma EveryVerdictEntered(es: seq<Entry>, slots: seq<Slot>, vs: seq<Verdict>, os: seq<Observation>, n: nat)
    returns (k: nat)
    requires Fit(es, slots, vs, os) && Cover(vs, slots) && n < |vs|
    ensures k < |es| && es[k].verdict == vs[n]
  {
    assert NamesOneOf(vs[n], slots);
    k :| 0 <= k < |slots| && Names(vs[n], slots[k]);
    assert FitOne(es[k], slots[k], vs, os) && NamedOnce(vs, slots[k]);
    var i :| 0 <= i < |vs| && vs[i] == es[k].verdict;
    assert Names(vs[i], slots[k]);
  }

  predicate Placed(jobs: seq<Job>, slots: seq<Slot>) {
    forall k :: 0 <= k < |slots| && slots[k].ForVariant? ==> slots[k].job < |jobs|
  }

  predicate AllClean(jobs: seq<Job>, es: seq<Entry>) {
    CleanNegatives(es) && forall i :: 0 <= i < |jobs| ==> CleanFor(jobs, es, i)
  }

  lemma AllCleanIff(jobs: seq<Job>, slots: seq<Slot>, es: seq<Entry>, vs: seq<Verdict>, os: seq<Observation>)
    requires Placed(jobs, slots) && Fit(es, slots, vs, os) && Cover(vs, slots)
    ensures AllClean(jobs, es) <==> forall n :: 0 <= n < |vs| ==> vs[n].violations == []
  {
    forall k | 0 <= k < |es|
      ensures es[k].slot == slots[k] && es[k].verdict in vs
    {
      assert FitOne(es[k], slots[k], vs, os);
    }
    if AllClean(jobs, es) {
      forall n | 0 <= n < |vs|
        ensures vs[n].violations == []
      {
        var k := EveryVerdictEntered(es, slots, vs, os, n);
        if es[k].slot.ForVariant? {
          assert CleanFor(jobs, es, es[k].slot.job) && OwnedBy(jobs, es[k].slot, es[k].slot.job);
        }
      }
    }
  }

  predicate ReachedAll(jobs: seq<Job>, vs: seq<Verdict>, slots: seq<Slot>) {
    forall i :: 0 <= i < |jobs| ==> jobs[i].threshold <= ReachedOf(vs, slots, i)
  }

  predicate SuccessesReached(jobs: seq<Job>, slots: seq<Slot>, es: seq<Entry>, vs: seq<Verdict>) {
    forall i :: 0 <= i < |jobs| ==> CountsOf(Owned(jobs, es, i)).successes == ReachedOf(vs, slots, i)
  }

  lemma PassesWhen(jobs: seq<Job>, slots: seq<Slot>, es: seq<Entry>, vs: seq<Verdict>, reports: seq<JobReport>,
                   negatives: seq<CaseReport>)
    requires |reports| == |jobs|
    requires forall i :: 0 <= i < |jobs| ==> (reports[i].pass <==> jobs[i].threshold <= ReachedOf(vs, slots, i) && CleanFor(jobs, es, i))
    requires Quiet(negatives) <==> CleanNegatives(es)
    ensures Passes(reports, negatives) <==> ReachedAll(jobs, vs, slots) && AllClean(jobs, es)
  {
  }

  lemma ReportPassesIff(m: Manifest, slots: seq<Slot>, es: seq<Entry>, vs: seq<Verdict>)
    requires SuccessesReached(m.jobs, slots, es, vs)
    ensures ReportOf(m, es).pass <==> ReachedAll(m.jobs, vs, slots) && AllClean(m.jobs, es)
  {
    var reports := JobReports(m.jobs, es);
    NegativesCleanIff(es);
    forall i | 0 <= i < |m.jobs|
      ensures reports[i].pass <==> m.jobs[i].threshold <= ReachedOf(vs, slots, i) && CleanFor(m.jobs, es, i)
    {
      NoBreachIff(m.jobs, es, i);
    }
    PassesWhen(m.jobs, slots, es, vs, reports, CaseReports(es));
  }

  /** A run passes exactly when every job reached at least its threshold of variants and no
      verdict of the run, on a variant or on a negative case, saw a violation. */
  lemma PassesIff(m: Manifest, group: string, vs: seq<Verdict>, os: seq<Observation>, r: Report)
    requires Valid(m) && ValidRun(vs, os) && Scored(m, group, vs, os) == Ok(r)
    ensures r.pass <==> ReachedAll(m.jobs, vs, Slots(m, group)) && forall n :: 0 <= n < |vs| ==> vs[n].violations == []
  {
    var es := ScoredEntries(m, group, vs, os);
    ScoredCovers(m, group, vs, os);
    SlotsFacts(m, group);
    AllCleanIff(m.jobs, Slots(m, group), es, vs, os);
    forall i | 0 <= i < |m.jobs|
      ensures CountsOf(Owned(m.jobs, es, i)).successes == ReachedOf(vs, Slots(m, group), i)
    {
      JobCounts(m, group, es, vs, os, i);
    }
    ReportPassesIff(m, Slots(m, group), es, vs);
  }
}
