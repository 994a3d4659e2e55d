/** The hold repairs exactly what the validator refuses, but for one case, and settles at once. */
module CognitionHeld {
  import opened Basics
  import opened Cognition

  // The configuration once its rhythm is held, which the other settings are held against.
  function WithRhythm(c: Config, t: Table): Config
    requires t != []
  {
    HeldOne(c, t[0].0, t[0].1)
  }

  // The whole hold, setting by setting.
  lemma WholeHold(c: Config, t: Table)
    requires Proper(t)
    ensures Hold(c, t).None? <==> exists i :: 0 <= i < |t| && Unholdable(t[i].1, c.Get(t[i].0))
    ensures Hold(c, t).Some? ==> (
      var c', cr := Hold(c, t).value, WithRhythm(c, t);
      && c'.Ceiling() == c.Ceiling() == cr.Ceiling()
      && c'.Rhythm() == cr.Rhythm() == cr.Get(RhythmSeconds) == c'.Get(RhythmSeconds)
      && InBounds(t[0].1, cr.Get(RhythmSeconds))
      && (forall i :: 1 <= i < |t| ==> c'.Get(t[i].0) == HeldTo(cr, t[i].0, t[i].1))
      && (forall x :: x != RhythmSeconds ==> cr.Get(x) == c.Get(x)))
  {
    var (k, b) := t[0];
    var rest := t[1..];
    var cr := WithRhythm(c, t);
    HeldOneOnly(c, k, b);
    assert forall i :: 1 <= i < |t| ==> t[i] == rest[i - 1] && t[i].0 != RhythmSeconds;
    assert forall i :: 0 <= i < |rest| ==> rest[i] == t[i + 1];
    if !Unholdable(b, c.Get(k)) {
      HoldIsPointwise(cr, rest);
    }
  }

  // One setting of it.
  lemma HeldAt(c: Config, t: Table, i: nat)
    requires Proper(t) && i < |t| && Hold(c, t).Some?
    ensures var c', cr := Hold(c, t).value, WithRhythm(c, t);
      && c'.Get(t[i].0) == HeldTo(if i == 0 then c else cr, t[i].0, t[i].1)
      && (i > 0 ==> cr.Get(t[i].0) == c.Get(t[i].0))
      && !Unholdable(t[i].1, c.Get(t[i].0))
      && c'.Ceiling() == c.Ceiling() == cr.Ceiling() && c'.Rhythm() == cr.Rhythm() >= 1
      && c.GraceFits() == cr.GraceFits()
  {
    WholeHold(c, t);
    HeldOneOnly(c, t[0].0, t[0].1);
    assert i > 0 ==> t[i].0 != RhythmSeconds;
  }

  // The one case the hold does not repair: a grace too large for its ceiling, held to the most
  // that leaves a round, is still over its own bound.
  predicate Overflows(c: Config) {
    !c.GraceFits() && c.Ceiling() - 2 > GRACE_MOST
  }

  lemma HeldInBounds(c: Config, t: Table, i: nat)
    requires Proper(t) && i < |t| && Hold(c, t).Some?
    ensures t[i].0 != GraceRounds || !Overflows(c) ==> InBounds(t[i].1, Hold(c, t).value.Get(t[i].0))
    ensures t[i].0 == GraceRounds && Overflows(c) ==> Hold(c, t).value.Get(GraceRounds) == c.Ceiling() - 2
  {
    HeldAt(c, t, i);
  }

  lemma HeldGraceFits(c: Config, t: Table)
    requires Proper(t) && Hold(c, t).Some?
    ensures Hold(c, t).value.GraceFits()
  {
    var g :| 0 <= g < |t| && t[g].0 == GraceRounds;
    HeldAt(c, t, g);
  }

  lemma HeldSpacingClear(c: Config, t: Table)
    requires Proper(t) && Hold(c, t).Some?
    ensures var c' := Hold(c, t).value; c'.Get(SpacingSeconds) == 0 || c'.Rhythm() < c'.Get(SpacingSeconds)
    ensures 1 <= Hold(c, t).value.Rhythm()
  {
    var s :| 0 <= s < |t| && t[s].0 == SpacingSeconds;
    HeldAt(c, t, s);
    HeldAt(c, t, 0);
    HeldInBounds(c, t, 0);
  }

  /** What a load holds, the validator accepts, exactly when the brief's time parses and the grace
      does not overflow. */
  lemma HeldIsValidIff(c: Config, t: Table, briefParses: bool)
    requires Proper(t) && Hold(c, t).Some?
    ensures Valid(Hold(c, t).value, t, briefParses) <==> briefParses && !Overflows(c)
  {
    var c' := Hold(c, t).value;
    HeldGraceFits(c, t);
    HeldSpacingClear(c, t);
    if Overflows(c) {
      var g :| 0 <= g < |t| && t[g].0 == GraceRounds;
      HeldInBounds(c, t, g);
      assert !InBounds(t[g].1, c'.Get(t[g].0));
    } else {
      forall i | 0 <= i < |t|
        ensures InBounds(t[i].1, c'.Get(t[i].0))
      {
        HeldInBounds(c, t, i);
      }
    }
  }

  // A configuration every setting of which is where the hold would put it stays as it is.
  lemma {:induction false} FixedStays(c: Config, t: Table)
    requires forall i :: 0 <= i < |t| ==> !Unholdable(t[i].1, c.Get(t[i].0)) && HeldTo(c, t[i].0, t[i].1) == c.Get(t[i].0)
    ensures Hold(c, t) == Some(c)
    decreases |t|
  {
    if t != [] {
      assert forall i :: 0 <= i < |t| - 1 ==> t[1..][i] == t[i + 1];
      FixedStays(c, t[1..]);
    }
  }

  /** The hold leaves a valid configuration as it is. */
  lemma ValidIsKept(c: Config, t: Table, briefParses: bool)
    requires Proper(t) && Valid(c, t, briefParses)
    ensures Hold(c, t) == Some(c)
  {
    forall i | 0 <= i < |t|
      ensures !Unholdable(t[i].1, c.Get(t[i].0)) && HeldTo(c, t[i].0, t[i].1) == c.Get(t[i].0)
    {
      assert InBounds(t[i].1, c.Get(t[i].0));
    }
    FixedStays(c, t);
  }

  /** Holding again changes nothing, exactly when the grace did not overflow. */
  lemma HoldAgainIff(c: Config, t: Table)
    requires Proper(t) && Hold(c, t).Some?
    ensures Hold(Hold(c, t).value, t) == Hold(c, t) <==> !Overflows(c)
  {
    var c' := Hold(c, t).value;
    if !Overflows(c) {
      HeldIsValidIff(c, t, true);
      ValidIsKept(c', t, true);
    } else {
      var g :| 0 <= g < |t| && t[g].0 == GraceRounds;
      HeldInBounds(c, t, g);
      HeldGraceFits(c, t);
      WholeHold(c', t);
      assert HeldTo(WithRhythm(c', t), t[g].0, t[g].1) == GRACE_MOST;
    }
  }

  /** A setting in its own bounds, and clear of the rhythm or the ceiling where it answers to
      them, keeps its value whatever becomes of the others. */
  lemma FittingSettingKept(c: Config, t: Table, i: nat)
    requires Proper(t) && i < |t| && Hold(c, t).Some?
    requires InBounds(t[i].1, c.Get(t[i].0))
    requires t[i].0 == SpacingSeconds ==> c.Get(SpacingSeconds) == 0 || Hold(c, t).value.Rhythm() < c.Get(SpacingSeconds)
    requires t[i].0 == GraceRounds ==> c.GraceFits()
    ensures Hold(c, t).value.Get(t[i].0) == c.Get(t[i].0)
  {
    HeldAt(c, t, i);
  }

  /** A grace fits exactly when it leaves two rounds under every ceiling in force: the instance's own,
      and its children's where legs are on. */
  lemma GraceFitsIff(c: Config)
    ensures c.GraceFits() <==>
      || c.Get(GraceRounds) == 0
      || ((c.maxToolRounds > 0 ==> c.Get(GraceRounds) + 2 <= c.maxToolRounds) &&
          (c.legsOn && c.childMaxToolRounds > 0 ==> c.Get(GraceRounds) + 2 <= c.childMaxToolRounds))
  {
  }

  /** Where a value is held to: one above its bound to that bound, one below its least to that, a
      negative one that may stand to zero; a spacing within its bound but not longer than the rhythm
      to zero; a grace that leaves its ceiling no round to the most that does, or to zero. */
  lemma HeldWhere(c: Config, t: Table, i: nat)
    requires Proper(t) && i < |t| && Hold(c, t).Some?
    ensures var (k, b) := t[i];
      var v, held, rhythm := c.Get(k), Hold(c, t).value.Get(k), Hold(c, t).value.Rhythm();
      && (v == 0 ==> held == 0)
      && (k == GraceRounds && !c.GraceFits() ==> held == if c.Ceiling() >= 3 then c.Ceiling() - 2 else 0)
      && (!(k == GraceRounds && !c.GraceFits()) ==>
            && (v > b.most ==> held == b.most)
            && (v < 0 ==> held == 0)
            && (k != SpacingSeconds && 0 < v < b.least ==> held == b.least)
            && (k != SpacingSeconds && b.least <= v <= b.most ==> held == v)
            && (k == SpacingSeconds && 0 < v <= b.most ==> held == if v <= rhythm then 0 else Max(v, b.least)))
  {
    HeldAt(c, t, i);
  }

  lemma {:induction false} HoldTouchesOnly(c: Config, t: Table, x: Key)
    requires Hold(c, t).Some? && forall i :: 0 <= i < |t| ==> t[i].0 != x
    ensures Hold(c, t).value.Get(x) == c.Get(x) && x !in Said(c, t)
    decreases |t|
  {
    if t != [] {
      HeldOneOnly(c, t[0].0, t[0].1);
      HoldTouchesOnly(HeldOne(c, t[0].0, t[0].1), t[1..], x);
    }
  }

  /** What a load says it changed is exactly what it changed. */
  lemma {:induction false} SaidIsWhatChanged(c: Config, t: Table, x: Key)
    requires NoRepeats(t) && Hold(c, t).Some?
    ensures x in Said(c, t) <==> Hold(c, t).value.Get(x) != c.Get(x)
    decreases |t|
  {
    if t != [] {
      var (k, b) := t[0];
      var c1, rest := HeldOne(c, k, b), t[1..];
      HeldOneOnly(c, k, b);
      assert forall i :: 0 <= i < |rest| ==> rest[i] == t[i + 1];
      if x == k {
        HoldTouchesOnly(c1, rest, x);
      } else {
        SaidIsWhatChanged(c1, rest, x);
      }
    }
  }

  /** After a hold the spacing in force is longer than the rhythm in force. */
  lemma SpacingOutlastsRhythm(c: Config, t: Table)
    requires Proper(t) && Hold(c, t).Some?
    ensures Hold(c, t).value.Rhythm() < Hold(c, t).value.Spacing()
  {
    HeldSpacingClear(c, t);
  }

  /** A load fails exactly on a value no bound can repair: a zero or a negative number where the
      setting allows none. */
  lemma LoadFailsIff(c: Config)
    ensures Hold(c, TABLE).None? <==> exists i :: 0 <= i < |TABLE| && Unholdable(TABLE[i].1, c.Get(TABLE[i].0))
  {
    TableIsProper();
    WholeHold(c, TABLE);
  }

  /** Under a ceiling of at most 1,000,002 rounds, whatever a load holds is valid and settled. */
  lemma HeldUnderTheCeiling(c: Config, briefParses: bool)
    requires c.Ceiling() <= GRACE_MOST + 2 && briefParses
    ensures Hold(c, TABLE).Some? ==> (
      && Valid(Hold(c, TABLE).value, TABLE, briefParses)
      && Hold(Hold(c, TABLE).value, TABLE) == Hold(c, TABLE)
      && Hold(c, TABLE).value.Rhythm() < Hold(c, TABLE).value.Spacing())
  {
    TableIsProper();
    if Hold(c, TABLE).Some? {
      HeldIsValidIff(c, TABLE, briefParses);
      HoldAgainIff(c, TABLE);
      SpacingOutlastsRhythm(c, TABLE);
    }
  }

  /** One round more and the hold leaves a grace its own validator refuses. */
  lemma OneRoundMoreOverflows()
    ensures exists c: Config :: (
      && c.Ceiling() == GRACE_MOST + 3 && Hold(c, TABLE).Some? && !Valid(Hold(c, TABLE).value, TABLE, true))
  {
    var c := Config(map[RhythmSeconds := 600, OutcomeWindow := 1, GraceRounds := 2_000_000], GRACE_MOST + 3, 0, false);
    TableIsProper();
    WholeHold(c, TABLE);
    forall i | 0 <= i < |TABLE|
      ensures !Unholdable(TABLE[i].1, c.Get(TABLE[i].0))
    {
    }
    HeldIsValidIff(c, TABLE, true);
    assert Overflows(c);
  }
}
