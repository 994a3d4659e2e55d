/** The report counted up in place (internal/acceptance/report.go), and the whole of `Score`. */
module AcceptanceCounting {
  import opened Basics
  import opened AcceptanceManifest
  import opened AcceptanceUsage
  import opened AcceptanceCases
  import opened AcceptanceScore
  import opened AcceptanceScoring

  method Allowed(done: seq<Intervention>, permitted: seq<string>) returns (ok: bool)
    ensures ok <==> AllowedBy(done, permitted)
  {
    for i := 0 to |done|
      invariant forall k :: 0 <= k < i ==> done[k].kind in permitted
    {
      if done[i].kind !in permitted {
        return false;
      }
    }
    return true;
  }

  method AddInterventions(was: map<string, int>, done: seq<Intervention>) returns (now: map<string, int>)
    ensures now == Intervened(was, done)
  {
    now := was;
    for i := 0 to |done|
      invariant now == Intervened(was, done[..i])
    {
      assert done[..i + 1][..i] == done[..i];
      now := now[done[i].kind := Times(now, done[i].kind) + done[i].count];
    }
    assert done[..|done|] == done;
  }

  method AddBreaches(was: seq<Breach>, e: Entry) returns (now: seq<Breach>)
    ensures now == was + Breaches(e)
  {
    now := was;
    var xs := e.verdict.violations;
    for i := 0 to |xs|
      invariant now == was + Breaches(e)[..i]
    {
      now := now + [Breach(e.observation.attempt, e.slot.Id(), e.slot.ForNegative?, xs[i])];
    }
  }

  class JobTally {
    var counts: Counts
    var interventions: map<string, int>
    var breaches: seq<Breach>
    const usage: UsageTally

    function Model(): Tally
      reads this, usage
    {
      Tally(counts, interventions, breaches, usage.Model())
    }

    constructor ()
      ensures Model() == TallyOf([]) && fresh(usage)
    {
      counts, interventions, breaches := NO_COUNTS, map[], [];
      usage := new UsageTally();
    }

    method CountOutcome(v: Verdict, variant: Variant)
      modifies this`counts
      ensures counts == CountedOnce(old(counts), v, variant)
    {
      counts := counts.(attempts := counts.attempts + 1);
      match v.outcome
      case Success =>
        var ok := Allowed(v.interventions, variant.allowed);
        if ok {
          counts := counts.(successes := counts.successes + 1);
        } else {
          counts := counts.(assisted := counts.assisted + 1);
        }
      case Failure => counts := counts.(failures := counts.failures + 1);
      case Unsupported => counts := counts.(unsupported := counts.unsupported + 1);
      case AnyOther(_) =>
    }

    method Count(e: Entry)
      modifies this, usage
      ensures Model() == Counted(old(Model()), e)
    {
      if e.slot.ForVariant? {
        CountOutcome(e.verdict, e.slot.variant);
        interventions := AddInterventions(interventions, e.verdict.interventions);
      }
      breaches := AddBreaches(breaches, e);
      usage.Add(e.observation);
    }
  }

  // ------------------------------------------------------------------ tallies of all jobs

  ghost predicate Apart(tallies: seq<JobTally>, total: UsageTally) {
    && (forall i, j :: 0 <= i < j < |tallies| ==> tallies[i] != tallies[j] && tallies[i].usage != tallies[j].usage)
    && (forall i :: 0 <= i < |tallies| ==> tallies[i].usage != total)
  }

  ghost predicate Shows(tallies: seq<JobTally>, jobs: seq<Job>, es: seq<Entry>)
    reads set t | t in tallies, set t | t in tallies :: t.usage
  {
    |tallies| == |jobs| && forall i :: 0 <= i < |jobs| ==> tallies[i].Model() == TallyOf(Owned(jobs, es, i))
  }

  method NewTallies(n: nat, total: UsageTally) returns (tallies: seq<JobTally>)
    ensures |tallies| == n && Apart(tallies, total)
    ensures forall i :: 0 <= i < n ==> fresh(tallies[i]) && fresh(tallies[i].usage) && tallies[i].Model() == TallyOf([])
  {
    tallies := [];
    for k := 0 to n
      invariant |tallies| == k && Apart(tallies, total)
      invariant forall i :: 0 <= i < k ==> fresh(tallies[i]) && fresh(tallies[i].usage) && tallies[i].Model() == TallyOf([])
    {
      var t := new JobTally();
      tallies := tallies + [t];
    }
  }

  lemma OwnedPushed(jobs: seq<Job>, es: seq<Entry>, e: Entry, i: nat)
    requires i < |jobs|
    ensures TallyOf(Owned(jobs, es + [e], i)) ==
            if OwnedBy(jobs, e.slot, i) then Counted(TallyOf(Owned(jobs, es, i)), e) else TallyOf(Owned(jobs, es, i))
  {
    assert (es + [e])[..|es|] == es;
    TallyMore(Owned(jobs, es, i), e);
    assert Owned(jobs, es, i) + [] == Owned(jobs, es, i);
  }

  // An entry is counted in the job that owns it, if any.
  method CountFor(tallies: seq<JobTally>, owner: Option<nat>, e: Entry, total: UsageTally, ghost jobs: seq<Job>,
                  ghost es: seq<Entry>)
    requires Apart(tallies, total) && Shows(tallies, jobs, es)
    requires forall i :: 0 <= i < |jobs| ==> (OwnedBy(jobs, e.slot, i) <==> owner == Some(i))
    requires owner.Some? ==> owner.value < |jobs|
    modifies set t | t in tallies, set t | t in tallies :: t.usage
    ensures Shows(tallies, jobs, es + [e])
    ensures total.Model() == old(total.Model())
  {
    if owner.Some? {
      var t := tallies[owner.value];
      assert t in tallies;
      t.Count(e);
    }
    forall i | 0 <= i < |jobs|
      ensures tallies[i].Model() == TallyOf(Owned(jobs, es + [e], i))
    {
      OwnedPushed(jobs, es, e, i);
    }
  }

  // -------------------------------------------------------------------- counting the cases

  ghost predicate DistinctJobs(jobs: seq<Job>) {
    forall i, j :: 0 <= i < j < |jobs| ==> jobs[i].id != jobs[j].id
  }

  method IndexJobs(jobs: seq<Job>) returns (jobIndex: map<string, nat>)
    requires DistinctJobs(jobs)
    ensures forall i :: 0 <= i < |jobs| ==> jobs[i].id in jobIndex && jobIndex[jobs[i].id] == i
  {
    jobIndex := map[];
    for k := 0 to |jobs|
      invariant forall i :: 0 <= i < k ==> jobs[i].id in jobIndex && jobIndex[jobs[i].id] == i
    {
      jobIndex := jobIndex[jobs[k].id := k];
    }
  }

  // What the maps of cases hold of one case.
  ghost predicate Placed(s: Slot, jobs: seq<Job>, variantOf: map<string, Variant>, jobOf: map<string, nat>,
                         negativeOf: map<string, NegativeCase>) {
    if s.ForVariant? then IndexedOne(variantOf, jobOf, s) && s.job < |jobs|
    else s.Id() in negativeOf && negativeOf[s.Id()] == s.negative && (s.negative.job == "" || HasJob(jobs, s.negative.job))
  }

  method OwnerOf(s: Slot, jobIndex: map<string, nat>, ghost jobs: seq<Job>) returns (owner: Option<nat>)
    requires if s.ForVariant? then s.job < |jobs| else s.negative.job == "" || HasJob(jobs, s.negative.job)
    requires forall i :: 0 <= i < |jobs| ==> jobs[i].id in jobIndex && jobIndex[jobs[i].id] == i
    ensures forall i :: 0 <= i < |jobs| ==> (OwnedBy(jobs, s, i) <==> owner == Some(i))
    ensures owner.Some? ==> owner.value < |jobs|
  {
    if s.ForVariant? {
      return Some(s.job);
    } else if s.negative.job == "" {
      return None;
    }
    return Some(jobIndex[s.negative.job]);
  }

  method ReportCase(e: Entry) returns (r: CaseReport)
    requires e.slot.ForNegative?
    ensures r == CaseReportOf(e)
  {
    var done := AddInterventions(map[], e.verdict.interventions);
    return CaseReport(e.slot.negative.id, e.slot.negative.job, e.observation.attempt, e.verdict.outcome, e.verdict.violations, done);
  }

  lemma ReportsMore(es: seq<Entry>, e: Entry)
    ensures UsageOf(es + [e]) == Added(UsageOf(es), e.observation)
    ensures CaseReports(es + [e]) == CaseReports(es) + if e.slot.ForNegative? then [CaseReportOf(e)] else []
  {
    assert (es + [e])[..|es|] == es;
  }

  // The one attempt on each case, as an entry.
  ghost predicate Entered(cases: seq<Slot>, attempts: Attempts, es: seq<Entry>) {
    && |es| == |cases|
    && forall k :: 0 <= k < |cases| ==> EnteredOne(cases[k], Listed(attempts, cases[k].Id()), es[k])
  }

  ghost predicate EnteredOne(s: Slot, list: seq<(Verdict, Observation)>, e: Entry) {
    |list| == 1 && e == Entry(s, list[0].0, list[0].1)
  }

  method CountCase(e: Entry, tallies: seq<JobTally>, total: UsageTally, was: seq<CaseReport>,
                   jobIndex: map<string, nat>, ghost jobs: seq<Job>, ghost done: seq<Entry>)
    returns (negatives: seq<CaseReport>)
    requires if e.slot.ForVariant? then e.slot.job < |jobs| else e.slot.negative.job == "" || HasJob(jobs, e.slot.negative.job)
    requires forall i :: 0 <= i < |jobs| ==> jobs[i].id in jobIndex && jobIndex[jobs[i].id] == i
    requires Apart(tallies, total) && Shows(tallies, jobs, done) && total.Model() == UsageOf(done) && was == CaseReports(done)
    modifies total, set t | t in tallies, set t | t in tallies :: t.usage
    ensures Shows(tallies, jobs, done + [e]) && total.Model() == UsageOf(done + [e]) && negatives == CaseReports(done + [e])
  {
    ReportsMore(done, e);
    negatives := was;
    total.Add(e.observation);
    var owner := OwnerOf(e.slot, jobIndex, jobs);
    CountFor(tallies, owner, e, total, jobs, done);
    if e.slot.ForNegative? {
      var r := ReportCase(e);
      negatives := negatives + [r];
    }
  }

  // A case with its one attempt, put together from the maps.
  method EntryOf(c: Slot, attempts: Attempts, variantOf: map<string, Variant>, jobOf: map<string, nat>,
                 negativeOf: map<string, NegativeCase>,
                 ghost jobs: seq<Job>, ghost expected: Entry)
    returns (e: Entry)
    requires Placed(c, jobs, variantOf, jobOf, negativeOf) && EnteredOne(c, Listed(attempts, c.Id()), expected)
    ensures e == expected
    ensures if e.slot.ForVariant? then e.slot.job < |jobs| else e.slot.negative.job == "" || HasJob(jobs, e.slot.negative.job)
  {
    var id := c.Id();
    var s := if c.ForVariant? then ForVariant(jobOf[id], variantOf[id]) else ForNegative(negativeOf[id]);
    return Entry(s, attempts[id][0].0, attempts[id][0].1);
  }

  method CountCases(m: Manifest, cases: seq<Slot>, attempts: Attempts, variantOf: map<string, Variant>,
                    jobOf: map<string, nat>,
                    negativeOf: map<string, NegativeCase>, tallies: seq<JobTally>, total: UsageTally, ghost es: seq<Entry>)
    returns (negatives: seq<CaseReport>)
    requires DistinctJobs(m.jobs) && Entered(cases, attempts, es)
    requires forall k :: 0 <= k < |cases| ==> Placed(cases[k], m.jobs, variantOf, jobOf, negativeOf)
    requires Apart(tallies, total) && Shows(tallies, m.jobs, []) && total.Model() == NO_USAGE
    modifies total, set t | t in tallies, set t | t in tallies :: t.usage
    ensures Shows(tallies, m.jobs, es) && total.Model() == UsageOf(es) && negatives == CaseReports(es)
  {
    var jobIndex := IndexJobs(m.jobs);
    negatives := [];
    ghost var done: seq<Entry> := [];
    for k := 0 to |cases|
      invariant done == es[..k]
      invariant Shows(tallies, m.jobs, done) && total.Model() == UsageOf(done) && negatives == CaseReports(done)
    {
      var e := EntryOf(cases[k], attempts, variantOf, jobOf, negativeOf, m.jobs, es[k]);
      negatives := CountCase(e, tallies, total, negatives, jobIndex, m.jobs, done);
      done := done + [es[k]];
    }
    assert es[..|cases|] == es;
  }

  method ReportJobs(jobs: seq<Job>, tallies: seq<JobTally>, ghost es: seq<Entry>)
    returns (reports: seq<JobReport>, pass: bool)
    requires Shows(tallies, jobs, es)
    ensures reports == JobReports(jobs, es)
    ensures pass <==> forall n :: 0 <= n < |reports| ==> reports[n].pass
  {
    reports, pass := [], true;
    for i := 0 to |jobs|
      invariant reports == JobReports(jobs, es)[..i]
      invariant pass <==> forall n :: 0 <= n < i ==> reports[n].pass
    {
      var jr := JobReportOf(jobs[i], tallies[i].Model());
      assert jr == JobReports(jobs, es)[i];
      reports := reports + [jr];
      pass := pass && jr.pass;
    }
    assert reports == JobReports(jobs, es);
  }

  method AllQuiet(negatives: seq<CaseReport>) returns (quiet: bool)
    ensures quiet <==> Quiet(negatives)
  {
    quiet := true;
    for k := 0 to |negatives|
      invariant quiet <==> forall n :: 0 <= n < k ==> negatives[n].violations == []
    {
      if |negatives[k].violations| > 0 {
        quiet := false;
      }
    }
  }

  method Report(m: Manifest, tallies: seq<JobTally>, total: UsageTally, negatives: seq<CaseReport>,
                ghost es: seq<Entry>)
    returns (r: AcceptanceScore.Report)
    requires Shows(tallies, m.jobs, es) && total.Model() == UsageOf(es) && negatives == CaseReports(es)
    ensures r == ReportOf(m, es)
  {
    var jobs, pass := ReportJobs(m.jobs, tallies, es);
    var quiet := AllQuiet(negatives);
    return AcceptanceScore.Report(pass && quiet, jobs, negatives, total.Model());
  }

  // -------------------------------------------------------------------------- the whole

  lemma EntryCollected(attempts: Attempts, groups: map<string, Group>, slots: seq<Slot>, s: Slot)
    requires CollectedOne(Listed(attempts, s.Id()), AttemptsOn(groups.Keys, groups, slots, s.Id()), groups)
    requires |AttemptsOn(groups.Keys, groups, slots, s.Id())| == 1
    ensures EnteredOne(s, Listed(attempts, s.Id()), EntryOn(groups, slots, s))
  {
    var ids, list := AttemptsOn(groups.Keys, groups, slots, s.Id()), Listed(attempts, s.Id());
    assert ComesFrom(list[0], ids, groups);
    var id :| id in ids && id in groups && groups[id].verdict == Some(list[0].0) && groups[id].observation == Some(list[0].1);
    assert |ids - {id}| == 0;
    assert ids == {id};
  }

  lemma AllEntered(attempts: Attempts, groups: map<string, Group>, slots: seq<Slot>)
    requires Collected(attempts, groups.Keys, groups, slots) && OneEach(groups, slots)
    ensures Entered(slots, attempts, Entries(groups, slots))
  {
    forall k | 0 <= k < |slots|
      ensures EnteredOne(slots[k], Listed(attempts, slots[k].Id()), Entries(groups, slots)[k])
    {
      assert Tries(groups, slots)[k] == 1;
      assert CollectedOne(Listed(attempts, slots[k].Id()), AttemptsOn(groups.Keys, groups, slots, slots[k].Id()), groups);
      EntryCollected(attempts, groups, slots, slots[k]);
    }
  }

  // The maps of cases, against the cases.
  ghost predicate Named(cs: seq<NegativeCase>, negativeOf: map<string, NegativeCase>) {
    && (forall k :: 0 <= k < |cs| ==> cs[k].id in negativeOf && negativeOf[cs[k].id] == cs[k])
    && (forall id :: id in negativeOf ==> id in NegativeIds(cs))
  }

  lemma AllPlaced(m: Manifest, group: string, variantOf: map<string, Variant>, jobOf: map<string, nat>,
                  negativeOf: map<string, NegativeCase>)
    requires Valid(m) && Indexed(variantOf, jobOf, JobSlots(m.jobs, group)) && Named(m.negatives, negativeOf)
    ensures forall k :: 0 <= k < |Slots(m, group)| ==> Placed(Slots(m, group)[k], m.jobs, variantOf, jobOf, negativeOf)
  {
    var a := JobSlots(m.jobs, group);
    JobsDistinct(m);
    JobSlotsFacts(m.jobs, group);
    forall k | 0 <= k < |Slots(m, group)|
      ensures Placed(Slots(m, group)[k], m.jobs, variantOf, jobOf, negativeOf)
    {
      if k < |a| {
        assert OfJob(a[k], m.jobs, group) && IndexedOne(variantOf, jobOf, a[k]);
      } else {
        assert FineNegative(m.negatives[k - |a|], m.jobs);
      }
    }
  }

  lemma MapsTell(a: seq<Slot>, cs: seq<NegativeCase>, variantOf: map<string, Variant>, jobOf: map<string, nat>,
                 negativeOf: map<string, NegativeCase>)
    requires Indexed(variantOf, jobOf, a) && Named(cs, negativeOf)
    ensures Tells(variantOf.Keys, negativeOf.Keys, a + NegativeSlots(cs))
  {
    var slots := a + NegativeSlots(cs);
    forall k | 0 <= k < |slots|
      ensures slots[k].Id() in if slots[k].ForVariant? then variantOf.Keys else negativeOf.Keys
    {
      assert k < |a| ==> IndexedOne(variantOf, jobOf, a[k]);
    }
    forall id | id in variantOf
      ensures exists k :: 0 <= k < |slots| && slots[k].ForVariant? && slots[k].Id() == id
    {
      var k :| 0 <= k < |a| && SlotIds(a)[k] == id;
      assert slots[k] == a[k] && IndexedOne(variantOf, jobOf, a[k]);
    }
    forall id | id in negativeOf
      ensures exists k :: 0 <= k < |slots| && slots[k].ForNegative? && slots[k].Id() == id
    {
      var k :| 0 <= k < |cs| && NegativeIds(cs)[k] == id;
      assert slots[|a| + k] == ForNegative(cs[k]);
    }
  }

  method FindAll(vs: seq<Verdict>, os: seq<Observation>, cases: seq<Slot>, variants: set<string>,
                 negatives: set<string>)
    returns (findings: set<Finding>, attempts: Attempts)
    requires Tells(variants, negatives, cases)
    ensures findings == Findings(Grouped(vs, os), cases)
    ensures Collected(attempts, Grouped(vs, os).Keys, Grouped(vs, os), cases)
  {
    ghost var groups := Grouped(vs, os);
    var byVerdict := GroupBy(vs, VerdictAttempt);
    var byObservation := GroupBy(os, ObservationAttempt);
    GroupsHeld(byVerdict, byObservation, vs, os);
    findings, attempts := PairUp(byVerdict, byObservation, variants, negatives, groups, cases);
    findings := FindUnjudged(byVerdict, byObservation, findings, groups, cases);
    NothingLeft(attempts, byVerdict, byObservation, groups, cases);
    TriesCounted(attempts, groups, cases);
    findings := FindMissing(cases, attempts, findings, Tries(groups, cases));
  }

  lemma JobsDistinct(m: Manifest)
    requires Valid(m)
    ensures Distinct(JobIds(m.jobs)) && DistinctJobs(m.jobs) && Distinct(NegativeIds(m.negatives))
  {
    DistinctParts(JobIds(m.jobs), NegativeIds(m.negatives));
    forall i, j | 0 <= i < j < |m.jobs|
      ensures m.jobs[i].id != m.jobs[j].id
    {
      JobsDiffer(m.jobs, i, j);
    }
  }

  /** The scoring of a run, whatever order its maps are walked in. */
  method Score(m: Manifest, group: string, vs: seq<Verdict>, os: seq<Observation>)
    returns (r: Result<AcceptanceScore.Report, Refusal>)
    requires Valid(m)
    ensures r == Scored(m, group, vs, os)
  {
    var found := Cases(m, group);
    if found.None? {
      return Err(UnknownSet);
    }
    var cases := found.value;
    JobsDistinct(m);
    var short, variantOf, jobOf := Index(m, group);
    if short.Some? {
      return Err(TooFewVariants(short.value));
    }
    var negativeOf := IndexNegatives(m.negatives);
    MapsTell(JobSlots(m.jobs, group), m.negatives, variantOf, jobOf, negativeOf);
    AllPlaced(m, group, variantOf, jobOf, negativeOf);
    var findings, attempts := FindAll(vs, os, cases, variantOf.Keys, negativeOf.Keys);
    if findings != {} {
      return Err(Unscored(findings));
    }
    ghost var groups := Grouped(vs, os);
    NoCaseFound(cases, Tries(groups, cases), |cases|);
    AllEntered(attempts, groups, cases);
    var report := CountAll(m, cases, attempts, variantOf, jobOf, negativeOf, Entries(groups, cases));
    return Ok(report);
  }

  method CountAll(m: Manifest, cases: seq<Slot>, attempts: Attempts, variantOf: map<string, Variant>,
                  jobOf: map<string, nat>,
                  negativeOf: map<string, NegativeCase>, ghost es: seq<Entry>)
    returns (r: AcceptanceScore.Report)
    requires DistinctJobs(m.jobs) && Entered(cases, attempts, es)
    requires forall k :: 0 <= k < |cases| ==> Placed(cases[k], m.jobs, variantOf, jobOf, negativeOf)
    ensures r == ReportOf(m, es)
  {
    var total := new UsageTally();
    var tallies := NewTallies(|m.jobs|, total);
    var negatives := CountCases(m, cases, attempts, variantOf, jobOf, negativeOf, tallies, total, es);
    r := Report(m, tallies, total, negatives, es);
  }
}
