/** What each sign-in operation may do, and what it leaves to be shown (internal/app/oauth_signin.go). */
module SignInGuards {
  import opened SignIn
  import opened SignInRuns

  /** A token file is written exactly by publishing tokens with the scopes asked for, from a profile
      that is still the one signed in with, for an attempt in progress that has not ended, and with
      the write succeeding. */
  lemma WritesIff(states: seq<State>, steps: seq<Step>, i: nat, id: nat)
    requires IsRun(states, steps) && i < |steps|
    ensures WritesFile(states, i, id) <==>
      && steps[i].Publish? && steps[i].id == id && steps[i].scopeGranted && steps[i].profileCurrent && steps[i].written
      && states[i].Knows(id) && states[i].IsLive(id) && !states[i].attempts[id].ended
    ensures WritesFile(states, i, id) ==> states[i + 1].attempts[id].status == Connected
  {
    var s, s' := states[i], states[i + 1];
    if WritesFile(states, i, id) {
      assert |s'.writes| == |s.writes| + 1 && s'.writes[|s.writes|] == id;
    }
    if s'.writes != s.writes {
      assert steps[i].Publish? && s'.writes == s.writes + [steps[i].id];
    }
  }

  /** Nothing but such a step changes what was written. */
  lemma OnlyWritesWrite(states: seq<State>, steps: seq<Step>, i: nat)
    requires IsRun(states, steps) && i < |steps|
    ensures states[i + 1].writes == states[i].writes || (steps[i].Publish? && WritesFile(states, i, steps[i].id))
  {
  }

  predicate ClaimsNow(s: State, step: Step, id: nat)
    requires s.Knows(id)
  {
    && step.Claim? && step.id == id && s.attempts[id].code && !s.attempts[id].claimed
    && step.state == s.attempts[id].state && step.state != ""
    && s.IsLive(id) && !s.attempts[id].ended
  }

  predicate PollsNow(s: State, step: Step, id: nat)
    requires s.Knows(id)
  {
    step.BeginPoll? && step.id == id && !s.attempts[id].code && s.IsLive(id) && !s.attempts[id].ended
  }

  // What a start and a forget leave of the attempts there were.
  lemma OthersKeepTheirWork(s: State, step: Step, id: nat)
    requires Enabled(s, step) && s.Knows(id) && (step.Start? || step.Forget?)
    ensures Next(s, step).Knows(id)
    ensures Next(s, step).attempts[id].claimed == s.attempts[id].claimed
    ensures Next(s, step).attempts[id].worker == s.attempts[id].worker
  {
  }

  /** An attempt comes to be claimed exactly by a claim with its own state, not empty, while it is an
      authorization-code attempt in progress that has not ended and was not claimed; and its worker
      begins exactly then, or with the poll of a device attempt in progress that has not ended. */
  lemma ClaimedIff(s: State, step: Step, id: nat)
    requires Enabled(s, step) && s.Knows(id)
    ensures Next(s, step).Knows(id)
    ensures !s.attempts[id].claimed ==> (Next(s, step).attempts[id].claimed <==> ClaimsNow(s, step, id))
    ensures s.attempts[id].worker.NoWorker? ==>
      (Next(s, step).attempts[id].worker.Working? <==> ClaimsNow(s, step, id) || PollsNow(s, step, id))
  {
    if step.Start? || step.Forget? {
      OthersKeepTheirWork(s, step, id);
    }
  }

  // ------------------------------------------------------------------- what is shown

  // A start that supersedes the attempt, or a cancel of its key while it is pending.
  predicate CalledOff(s: State, step: Step, id: nat)
    requires s.Knows(id)
  {
    || (step.Start? && step.profileCurrent && (s.attempts[id].key == step.key || s.attempts[id].dest == step.dest))
    || (step.Cancel? && step.key == s.attempts[id].key && s.attempts[id].status == Pending)
  }

  // Its own worker, or a refusal, ends it.
  predicate Concluded(step: Step, id: nat) {
    (step.End? || step.Abort?) && step.id == id
  }

  predicate RunsOut(s: State, step: Step, id: nat)
    requires s.Knows(id)
  {
    step.Expire? && step.id == id && s.attempts[id].status == Pending
  }

  // Nothing is said of it any more.
  predicate Forgot(s: State, step: Step, id: nat)
    requires s.Knows(id)
  {
    step.Forget? && (s.attempts[id].key == step.key || (step.dest != "" && s.attempts[id].dest == step.dest))
  }

  // What a concluded attempt came to.
  function ConcludedAs(s: State, step: Step, id: nat): Status
    requires s.Knows(id)
  {
    var a := s.attempts[id];
    if a.status != Pending then a.status
    else if step.End? && a.worker == Finishing(true) then Connected
    else if a.ended then Expired
    else Failed
  }

  predicate GoesOut(s: State, step: Step, id: nat)
    requires s.Knows(id)
  {
    CalledOff(s, step, id) || RunsOut(s, step, id) || Concluded(step, id) || Forgot(s, step, id)
  }

  lemma SettlesByItself(s: State, step: Step, id: nat)
    requires MapFits(s) && Enabled(s, step) && s.Knows(id) && s.IsLive(id) && !step.Start? && !step.Forget?
    ensures Next(s, step).Knows(id) && (!Next(s, step).IsLive(id) <==> GoesOut(s, step, id))
  {
  }

  /** An attempt in progress stops being so exactly when it is called off, runs out, is concluded or
      forgotten. */
  lemma SettlesIff(s: State, step: Step, id: nat)
    requires Inv(s) && Enabled(s, step) && s.Knows(id) && s.IsLive(id)
    ensures Next(s, step).Knows(id) && (!Next(s, step).IsLive(id) <==> GoesOut(s, step, id))
  {
    if step.Forget? {
      ForgottenFacts(s, step.key, step.dest);
    } else if !step.Start? {
      SettlesByItself(s, step, id);
    } else if step.profileCurrent {
      ClearedFacts(s, step.key, step.dest);
    }
  }

  // What the map shows under the attempt's key, once the attempt is out of it, with the attempt ended.
  predicate ShownAs(s: State, id: nat, status: Status)
    requires s.Knows(id)
  {
    && s.attempts[id].status == status && s.attempts[id].ended
    && s.attempts[id].key in s.signIns && s.signIns[s.attempts[id].key] == Settled(status, id)
  }

  /** Out of progress, an attempt called off shows Cancelled, unless a new one took its key; one that
      ran out shows Expired; one concluded shows Connected, Expired or Failed by what it came to; one
      forgotten shows nothing. */
  lemma SettlesAs(s: State, step: Step, id: nat)
    requires Inv(s) && Enabled(s, step) && s.Knows(id) && s.IsLive(id)
    ensures Next(s, step).Knows(id)
    ensures step.Cancel? && CalledOff(s, step, id) ==> ShownAs(Next(s, step), id, Cancelled)
    ensures step.Start? && CalledOff(s, step, id) && s.attempts[id].key != step.key ==> ShownAs(Next(s, step), id, Cancelled)
    ensures RunsOut(s, step, id) ==> ShownAs(Next(s, step), id, Expired)
    ensures Concluded(step, id) ==> ShownAs(Next(s, step), id, ConcludedAs(s, step, id))
    ensures Forgot(s, step, id) ==> s.attempts[id].key !in Next(s, step).signIns
  {
    if step.Start? && step.profileCurrent {
      assert Supersedes(s, step.key, step.dest, id) <==> CalledOff(s, step, id);
    } else if step.Forget? {
      assert Forgets(s, step.key, step.dest, id) <==> Forgot(s, step, id);
    }
  }

  /** A start that goes ahead puts the new attempt in progress under its key, as it was asked for. */
  lemma StartSays(s: State, key: Key, dest: Path, code: bool, state: string)
    ensures var s' := Started(s, key, dest, code, state);
      && s'.Knows(|s.attempts|) && s'.IsLive(|s.attempts|) && |s'.attempts| == |s.attempts| + 1
      && s'.attempts[|s.attempts|] == Attempt(key, dest, code, state, false, false, Pending, NoWorker)
  {
  }

  lemma EndsByItself(s: State, step: Step, id: nat)
    requires MapFits(s) && Enabled(s, step) && s.Knows(id) && s.IsLive(id) && !s.attempts[id].ended
    requires !step.Start? && !step.Forget?
    ensures Next(s, step).Knows(id)
    ensures Next(s, step).attempts[id].ended <==> (step.EndContext? && step.id == id) || GoesOut(s, step, id)
  {
  }

  lemma EndsWithOthers(s: State, step: Step, id: nat)
    requires Enabled(s, step) && s.Knows(id) && s.IsLive(id) && !s.attempts[id].ended && (step.Start? || step.Forget?)
    ensures Next(s, step).Knows(id) && (Next(s, step).attempts[id].ended <==> GoesOut(s, step, id))
  {
    if step.Start? {
      assert Supersedes(s, step.key, step.dest, id) && step.profileCurrent <==> CalledOff(s, step, id);
    } else {
      assert Forgets(s, step.key, step.dest, id) <==> Forgot(s, step, id);
    }
  }

  /** An attempt ends exactly when its time runs out, or when it goes out of progress. */
  lemma EndsIff(s: State, step: Step, id: nat)
    requires MapFits(s) && Enabled(s, step) && s.Knows(id) && s.IsLive(id) && !s.attempts[id].ended
    ensures Next(s, step).Knows(id)
    ensures Next(s, step).attempts[id].ended <==> (step.EndContext? && step.id == id) || GoesOut(s, step, id)
  {
    if step.Start? || step.Forget? {
      EndsWithOthers(s, step, id);
    } else {
      EndsByItself(s, step, id);
    }
  }

  /** What is shown under a key that is not in progress changes only by a start under it or by a profile
      forgotten with it. */
  lemma ShownStays(s: State, step: Step, k: Key)
    requires MapFits(s) && Enabled(s, step) && k in s.signIns && s.signIns[k].Settled?
    requires step.Start? || step.Forget? ==> step.key != k
    ensures k in Next(s, step).signIns && Next(s, step).signIns[k] == s.signIns[k]
  {
  }
}
