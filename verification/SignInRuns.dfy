/** What every interleaving of sign-in operations keeps. */
module SignInRuns {
  import opened SignIn

  predicate IsRun(states: seq<State>, steps: seq<Step>) {
    && |states| == |steps| + 1
    && states[0] == INITIAL
    && forall i :: 0 <= i < |steps| ==> Enabled(states[i], steps[i]) && states[i + 1] == Next(states[i], steps[i])
  }

  lemma {:induction false} RunKeeps(states: seq<State>, steps: seq<Step>, i: nat)
    requires IsRun(states, steps) && i < |states|
    ensures Inv(states[i])
  {
    if i > 0 {
      RunKeeps(states, steps, i - 1);
      StepKeeps(states[i - 1], steps[i - 1]);
    }
  }

  /** At most one sign-in is in progress per key and per credential file. */
  lemma OneInProgress(states: seq<State>, steps: seq<Step>, i: nat, a: nat, b: nat)
    requires IsRun(states, steps) && i < |states|
    requires states[i].Knows(a) && states[i].Knows(b) && states[i].IsLive(a) && states[i].IsLive(b)
    requires states[i].attempts[a].key == states[i].attempts[b].key || states[i].attempts[a].dest == states[i].attempts[b].dest
    ensures a == b
  {
    RunKeeps(states, steps, i);
  }

  // An attempt keeps what it was started with; once claimed, ended, out of the map or past a
  // stage of its worker, it stays so; and what was written stays written.
  predicate Onward(s: State, s': State, id: nat)
    requires s.Knows(id)
  {
    && |s.attempts| <= |s'.attempts|
    && s.writes <= s'.writes
    && var a, a' := s.attempts[id], s'.attempts[id];
    && a'.key == a.key && a'.dest == a.dest && a'.code == a.code && a'.state == a.state
    && (a.claimed ==> a'.claimed)
    && (a.ended ==> a'.ended)
    && (!s.IsLive(id) ==> !s'.IsLive(id))
  }

  lemma StepOnward(s: State, step: Step, id: nat)
    requires Inv(s) && Enabled(s, step) && s.Knows(id)
    ensures Onward(s, Next(s, step), id)
    ensures s.attempts[id].ended && id !in s.writes ==> id !in Next(s, step).writes
  {
    if step.Start? && step.profileCurrent {
      StartOnward(s, step.key, step.dest, step.code, step.state, id);
    } else if step.Forget? {
      ForgottenFacts(s, step.key, step.dest);
    } else if step.Publish? || step.Claim? || step.BeginPoll? || step.GiveUp? || step.EndContext? {
      TouchOnward(s, step, id);
    } else if !step.Start? {
      CloseOnward(s, step, id);
    }
  }

  lemma StartOnward(s: State, key: Key, dest: Path, code: bool, state: string, id: nat)
    requires Inv(s) && s.Knows(id)
    ensures Onward(s, Started(s, key, dest, code, state), id)
  {
    ClearedFacts(s, key, dest);
  }

  // Steps that leave the map alone.
  lemma TouchOnward(s: State, step: Step, id: nat)
    requires Inv(s) && Enabled(s, step) && s.Knows(id)
    requires step.Publish? || step.Claim? || step.BeginPoll? || step.GiveUp? || step.EndContext?
    ensures Onward(s, Next(s, step), id)
    ensures s.attempts[id].ended && id !in s.writes ==> id !in Next(s, step).writes
  {
    assert Next(s, step).signIns == s.signIns;
  }

  // Steps that may settle an attempt.
  lemma CloseOnward(s: State, step: Step, id: nat)
    requires Inv(s) && Enabled(s, step) && s.Knows(id)
    requires step.Expire? || step.End? || step.Abort? || step.Cancel?
    ensures Onward(s, Next(s, step), id) && Next(s, step).writes == s.writes
  {
  }

  lemma {:induction false} RunOnward(states: seq<State>, steps: seq<Step>, i: nat, j: nat, id: nat)
    requires IsRun(states, steps) && i <= j < |states| && states[i].Knows(id)
    ensures Onward(states[i], states[j], id)
    ensures states[i].attempts[id].ended && id !in states[i].writes ==> id !in states[j].writes
    decreases j
  {
    if i < j {
      RunOnward(states, steps, i, j - 1, id);
      RunKeeps(states, steps, j - 1);
      StepOnward(states[j - 1], steps[j - 1], id);
    }
  }

  // Step i is a claim that is granted.
  predicate Claims(states: seq<State>, steps: seq<Step>, i: nat, id: nat)
    requires i < |steps| && i < |states|
  {
    steps[i].Claim? && steps[i].id == id && states[i].Knows(id) && MayClaim(states[i], id, steps[i].state)
  }

  /** An authorization-code attempt is claimed at most once, and only with its own state. */
  lemma ClaimedOnce(states: seq<State>, steps: seq<Step>, i: nat, j: nat, id: nat)
    requires IsRun(states, steps) && i <= j < |steps|
    requires Claims(states, steps, i, id) && Claims(states, steps, j, id)
    ensures i == j
    ensures steps[i].state == states[i].attempts[id].state && steps[i].state != ""
  {
    if i < j {
      RunOnward(states, steps, i + 1, j, id);
    }
  }

  /** An authorization-code attempt writes its token file only after a claim of it. */
  lemma WritesOnlyAfterAClaim(states: seq<State>, steps: seq<Step>, i: nat, id: nat)
    requires IsRun(states, steps) && i < |states| && id in states[i].writes
    ensures states[i].Knows(id)
    ensures states[i].attempts[id].code ==> states[i].attempts[id].claimed
  {
    RunKeeps(states, steps, i);
    var k :| 0 <= k < |states[i].writes| && states[i].writes[k] == id;
  }

  // Step i writes this attempt's token file.
  predicate WritesFile(states: seq<State>, i: nat, id: nat)
    requires i + 1 < |states|
  {
    states[i + 1].writes == states[i].writes + [id]
  }

  /** Whoever writes a token file is the newest attempt for its key and its file, in progress and
      not ended at that moment. */
  lemma WriterIsNewest(states: seq<State>, steps: seq<Step>, i: nat, id: nat)
    requires IsRun(states, steps) && i < |steps| && WritesFile(states, i, id)
    ensures states[i].Knows(id) && states[i].IsLive(id) && !states[i].attempts[id].ended
    ensures forall later :: id < later < |states[i].attempts| ==>
      states[i].attempts[later].key != states[i].attempts[id].key
      && states[i].attempts[later].dest != states[i].attempts[id].dest
  {
    assert |states[i + 1].writes| == |states[i].writes| + 1 && states[i + 1].writes[|states[i].writes|] == id;
    assert steps[i].Publish? && steps[i].id == id;
    RunKeeps(states, steps, i);
  }

  /** An attempt that was superseded, cancelled or expired never writes afterwards. */
  lemma OutOfTheMapNeverWrites(states: seq<State>, steps: seq<Step>, i: nat, j: nat, id: nat)
    requires IsRun(states, steps) && i <= j < |steps|
    requires states[i].Knows(id) && (!states[i].IsLive(id) || states[i].attempts[id].ended)
    ensures !WritesFile(states, j, id)
  {
    RunOnward(states, steps, i, j, id);
    if WritesFile(states, j, id) {
      WriterIsNewest(states, steps, j, id);
    }
  }

  /** Starting an attempt puts every other one under its key or for its file out of the map, so
      none of those ever writes again. */
  lemma StartSilencesTheOthers(states: seq<State>, steps: seq<Step>, i: nat, j: nat, other: nat)
    requires IsRun(states, steps) && i < j < |steps|
    requires steps[i].Start? && steps[i].profileCurrent && states[i].Knows(other)
    requires states[i].attempts[other].key == steps[i].key || states[i].attempts[other].dest == steps[i].dest
    ensures !WritesFile(states, j, other)
  {
    RunKeeps(states, steps, i);
    ClearedFacts(states[i], steps[i].key, steps[i].dest);
    assert !states[i + 1].IsLive(other);
    OutOfTheMapNeverWrites(states, steps, i + 1, j, other);
  }

  /** Editing or disconnecting a profile silences its attempt, and any for its own token file: none
      of those ever writes again. */
  lemma ForgetSilences(states: seq<State>, steps: seq<Step>, i: nat, j: nat, other: nat)
    requires IsRun(states, steps) && i < j < |steps|
    requires steps[i].Forget? && states[i].Knows(other)
    requires states[i].attempts[other].key == steps[i].key
      || (steps[i].dest != "" && states[i].attempts[other].dest == steps[i].dest)
    ensures !WritesFile(states, j, other)
  {
    RunKeeps(states, steps, i);
    ForgottenFacts(states[i], steps[i].key, steps[i].dest);
    assert !states[i + 1].IsLive(other);
    OutOfTheMapNeverWrites(states, steps, i + 1, j, other);
  }

  /** Each attempt writes at most once, and the writes of one file come in the order the attempts
      started: a newer sign-in's tokens are never overwritten by an older one's. */
  lemma NewestTokensStay(states: seq<State>, steps: seq<Step>, i: nat, a: nat, b: nat)
    requires IsRun(states, steps) && i < |states| && a < b < |states[i].writes|
    ensures states[i].writes[a] != states[i].writes[b]
    ensures states[i].Knows(states[i].writes[a]) && states[i].Knows(states[i].writes[b])
    ensures states[i].attempts[states[i].writes[a]].dest == states[i].attempts[states[i].writes[b]].dest ==>
      states[i].writes[a] < states[i].writes[b]
  {
    RunKeeps(states, steps, i);
  }

  /** What the map says of a settled sign-in is true: it shows Connected only for an attempt that
      wrote its file, and never Pending. */
  lemma ShownConnectedWasWritten(states: seq<State>, steps: seq<Step>, i: nat, key: Key)
    requires IsRun(states, steps) && i < |states|
    requires key in states[i].signIns && states[i].signIns[key].Settled?
    ensures states[i].signIns[key].status != Pending
    ensures states[i].signIns[key].status == Connected ==> states[i].signIns[key].was in states[i].writes
  {
    RunKeeps(states, steps, i);
  }
}
