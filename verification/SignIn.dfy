/**
  Custody of sign-ins (internal/app/oauth_signin.go, and the edits of profiles in
  internal/app/oauth_profiles.go).  One map holds, per key, the attempt in progress or what became
  of the last one; starting an attempt supersedes every other one under
  the same key or writing the same credential file.  An authorization code is used at most once
  (section 4.1.2 of RFC 6749) and only with the attempt's own state (section 10.12 of RFC 6749).

  Each step is one critical section of the custody mutex, or one thing that happens outside it:
  a context ending, an exchange or a poll failing.
 */
module SignIn {
  type Key = string
  type Path = string

  datatype Status = Pending | Connected | Expired | Failed | Cancelled

  // The goroutine that carries an attempt to its end: a device poll, or the completion that
  // claimed an authorization code.
  datatype Worker = NoWorker | Working | Finishing(published: bool) | Over

  // `code` tells an authorization-code attempt from a device one; `ended` is its context's end.
  datatype Attempt = Attempt(key: Key, dest: Path, code: bool, state: string, ended: bool, claimed: bool,
                             status: Status, worker: Worker)

  // What the map holds under a key: an attempt in progress, or what a settled one came to.
  datatype Slot = Live(id: nat) | Settled(status: Status, was: nat)

  // Attempts are numbered in the order they start; `writes` are the token files written.
  datatype State = State(attempts: seq<Attempt>, signIns: map<Key, Slot>, writes: seq<nat>) {
    predicate Knows(id: nat) { id < |attempts| }

    predicate IsLive(id: nat)
      requires Knows(id)
    {
      attempts[id].key in signIns && signIns[attempts[id].key] == Live(id)
    }
  }

  const INITIAL := State([], map[], [])

  datatype Step =
    | Start(key: Key, dest: Path, code: bool, state: string, profileCurrent: bool)
    | EndContext(id: nat)
    | Expire(id: nat)
    | BeginPoll(id: nat)
    | Claim(id: nat, state: string)
    | Publish(id: nat, scopeGranted: bool, profileCurrent: bool, written: bool)
    | GiveUp(id: nat)
    | End(id: nat)
    | Abort(id: nat)
    | Cancel(key: Key)
    | Forget(key: Key, dest: Path)

  function SettledAs(s: State, id: nat, status: Status): State
    requires s.Knows(id)
  {
    var a := s.attempts[id].(status := status, ended := true);
    s.(attempts := s.attempts[id := a], signIns := s.signIns[a.key := Settled(status, id)])
  }

  predicate Supersedes(s: State, key: Key, dest: Path, id: nat)
    requires s.Knows(id)
  {
    s.IsLive(id) && (s.attempts[id].key == key || s.attempts[id].dest == dest)
  }

  // Every attempt the new one supersedes is cancelled and settled.
  function Cleared(s: State, key: Key, dest: Path): State {
    State(
      seq(|s.attempts|, id requires 0 <= id < |s.attempts| =>
        if Supersedes(s, key, dest, id) then s.attempts[id].(status := Cancelled, ended := true) else s.attempts[id]),
      map k | k in s.signIns ::
        match s.signIns[k] {
          case Live(id) => if s.Knows(id) && Supersedes(s, key, dest, id) then Settled(Cancelled, id) else Live(id)
          case Settled(status, was) => if k == key then Settled(Cancelled, was) else Settled(status, was)
        },
      s.writes)
  }

  function Started(s: State, key: Key, dest: Path, code: bool, state: string): State {
    var c := Cleared(s, key, dest);
    State(c.attempts + [Attempt(key, dest, code, state, false, false, Pending, NoWorker)],
          c.signIns[key := Live(|s.attempts|)], s.writes)
  }

  // What an edit of a profile forgets: the attempt under its key, or for its own token file if it
  // has one (`dest` not empty).
  predicate Forgets(s: State, key: Key, dest: Path, id: nat)
    requires s.Knows(id)
  {
    s.IsLive(id) && (s.attempts[id].key == key || (dest != "" && s.attempts[id].dest == dest))
  }

  predicate DropsSlot(s: State, key: Key, dest: Path, k: Key)
    requires k in s.signIns
  {
    k == key || (s.signIns[k].Live? && s.Knows(s.signIns[k].id) && Forgets(s, key, dest, s.signIns[k].id))
  }

  // Forgotten attempts are cancelled and gone from the map.
  function Forgotten(s: State, key: Key, dest: Path): State {
    State(
      seq(|s.attempts|, id requires 0 <= id < |s.attempts| =>
        if Forgets(s, key, dest, id) then s.attempts[id].(ended := true) else s.attempts[id]),
      map k | k in s.signIns && !DropsSlot(s, key, dest, k) :: s.signIns[k],
      s.writes)
  }

  predicate MayClaim(s: State, id: nat, state: string)
    requires s.Knows(id)
  {
    var a := s.attempts[id];
    a.code && state != "" && state == a.state && s.IsLive(id) && !a.ended && !a.claimed
  }

  predicate MayPublish(s: State, id: nat, scopeGranted: bool, profileCurrent: bool)
    requires s.Knows(id)
  {
    scopeGranted && s.IsLive(id) && !s.attempts[id].ended && profileCurrent
  }

  // The end of an attempt that failed or succeeded, if it is still the one in progress.
  function Closed(s: State, id: nat, ok: bool): State
    requires s.Knows(id)
  {
    var a := s.attempts[id];
    if !s.IsLive(id) then s
    else if a.status != Pending then SettledAs(s, id, a.status)
    else SettledAs(s, id, if ok then Connected else if a.ended then Expired else Failed)
  }

  predicate Enabled(s: State, step: Step) {
    match step
    case Start(_, _, code, state, _) => code ==> state != ""
    case EndContext(id) => s.Knows(id)
    case Expire(id) => s.Knows(id) && s.attempts[id].ended
    case BeginPoll(id) => s.Knows(id) && !s.attempts[id].code && s.attempts[id].worker.NoWorker?
    case Claim(id, _) => s.Knows(id)
    case Publish(id, _, _, _) => s.Knows(id) && s.attempts[id].worker.Working?
    case GiveUp(id) => s.Knows(id) && s.attempts[id].worker.Working?
    case End(id) => s.Knows(id) && s.attempts[id].worker.Finishing?
    case Abort(id) => s.Knows(id)
    case Cancel(_) => true
    case Forget(_, _) => true
  }

  function WithWorker(s: State, id: nat, w: Worker): State
    requires s.Knows(id)
  {
    s.(attempts := s.attempts[id := s.attempts[id].(worker := w)])
  }

  function Next(s: State, step: Step): State
    requires Enabled(s, step)
  {
    match step
    case Start(key, dest, code, state, profileCurrent) =>
      if profileCurrent then Started(s, key, dest, code, state) else s
    case EndContext(id) => s.(attempts := s.attempts[id := s.attempts[id].(ended := true)])
    case Expire(id) => if s.IsLive(id) && s.attempts[id].status == Pending then SettledAs(s, id, Expired) else s
    case BeginPoll(id) => if s.IsLive(id) && !s.attempts[id].ended then WithWorker(s, id, Working) else s
    case Claim(id, state) =>
      if MayClaim(s, id, state) then
        s.(attempts := s.attempts[id := s.attempts[id].(claimed := true, worker := Working)])
      else s
    case Publish(id, scopeGranted, profileCurrent, written) =>
      if MayPublish(s, id, scopeGranted, profileCurrent) && written then
        s.(attempts := s.attempts[id := s.attempts[id].(status := Connected, worker := Finishing(true))],
           writes := s.writes + [id])
      else WithWorker(s, id, Finishing(false))
    case GiveUp(id) => WithWorker(s, id, Finishing(false))
    case End(id) => Closed(WithWorker(s, id, Over), id, s.attempts[id].worker.published)
    case Abort(id) => Closed(s, id, false)
    case Cancel(key) =>
      if key in s.signIns && s.signIns[key].Live? && s.Knows(s.signIns[key].id)
         && s.attempts[s.signIns[key].id].status == Pending
      then SettledAs(s, s.signIns[key].id, Cancelled)
      else s
    case Forget(key, dest) => Forgotten(s, key, dest)
  }

  // ----------------------------------------------------------------- invariant

  // The map points at attempts under their own key, and an attempt out of the map has ended.
  predicate MapFits(s: State) {
    && (forall k :: k in s.signIns && s.signIns[k].Live? ==>
          s.Knows(s.signIns[k].id) && s.attempts[s.signIns[k].id].key == k)
    && (forall id :: 0 <= id < |s.attempts| && !s.IsLive(id) ==> s.attempts[id].ended)
  }

  // Nothing started later shares a live attempt's key or file.
  predicate LiveIsNewest(s: State) {
    forall id, later :: 0 <= id < later < |s.attempts| && s.IsLive(id) ==>
      s.attempts[later].key != s.attempts[id].key && s.attempts[later].dest != s.attempts[id].dest
  }

  predicate WorkersFit(s: State) {
    forall id :: 0 <= id < |s.attempts| ==>
      var a := s.attempts[id];
      && (a.code ==> (a.claimed <==> !a.worker.NoWorker?))
      && (id in s.writes ==> a.worker == Finishing(true) || a.worker == Over)
      && (a.worker == Finishing(true) ==> id in s.writes)
      && (a.status == Connected ==> id in s.writes)
  }

  predicate WritesFit(s: State) {
    && (forall i :: 0 <= i < |s.writes| ==> s.Knows(s.writes[i]))
    && (forall i, j :: 0 <= i < j < |s.writes| ==> s.writes[i] != s.writes[j])
    && (forall i, j :: 0 <= i < j < |s.writes| && s.attempts[s.writes[i]].dest == s.attempts[s.writes[j]].dest ==>
          s.writes[i] < s.writes[j])
  }

  predicate SlotsTruthful(s: State) {
    forall k :: k in s.signIns && s.signIns[k].Settled? ==>
      s.signIns[k].status != Pending && (s.signIns[k].status == Connected ==> s.signIns[k].was in s.writes)
  }

  predicate Inv(s: State) {
    MapFits(s) && LiveIsNewest(s) && WorkersFit(s) && WritesFit(s) && SlotsTruthful(s)
  }

  lemma EndedKeeps(s: State, id: nat, status: Status)
    requires Inv(s) && s.Knows(id) && s.IsLive(id)
    requires status != Pending && (status == Connected ==> id in s.writes)
    ensures Inv(SettledAs(s, id, status))
  {
    var s' := SettledAs(s, id, status);
    assert forall x :: 0 <= x < |s.attempts| && x != id ==> s'.attempts[x] == s.attempts[x];
    assert forall x :: 0 <= x < |s.attempts| ==> (s'.IsLive(x) <==> s.IsLive(x) && x != id);
  }

  lemma ClosedKeeps(s: State, id: nat, ok: bool)
    requires Inv(s) && s.Knows(id) && (ok ==> id in s.writes)
    ensures Inv(Closed(s, id, ok))
  {
    var a := s.attempts[id];
    if s.IsLive(id) {
      EndedKeeps(s, id, if a.status != Pending then a.status else if ok then Connected else if a.ended then Expired else Failed);
    }
  }

  // A change to one attempt that leaves its key, file and place in the map alone.
  lemma TouchedKeeps(s: State, s': State, id: nat)
    requires Inv(s) && s.Knows(id) && s'.signIns == s.signIns && s'.writes == s.writes
    requires |s'.attempts| == |s.attempts| && forall x :: 0 <= x < |s.attempts| && x != id ==> s'.attempts[x] == s.attempts[x]
    requires var a, a' := s.attempts[id], s'.attempts[id];
      && a'.key == a.key && a'.dest == a.dest && a'.code == a.code && a'.status == a.status && (a.ended ==> a'.ended)
      && (a'.code ==> (a'.claimed <==> !a'.worker.NoWorker?))
      && (id in s.writes ==> a'.worker == Over)
      && (a'.worker == Finishing(true) ==> id in s.writes)
    ensures Inv(s')
  {
    assert forall x :: 0 <= x < |s.attempts| ==> s'.IsLive(x) == s.IsLive(x);
  }

  lemma ClearedFacts(s: State, key: Key, dest: Path)
    requires Inv(s)
    ensures var c := Cleared(s, key, dest);
      && |c.attempts| == |s.attempts| && c.writes == s.writes
      && (forall x :: 0 <= x < |s.attempts| ==>
            && c.attempts[x].key == s.attempts[x].key && c.attempts[x].dest == s.attempts[x].dest
            && (c.IsLive(x) <==> s.IsLive(x) && s.attempts[x].key != key && s.attempts[x].dest != dest))
      && Inv(c)
  {
    var c := Cleared(s, key, dest);
    forall x | 0 <= x < |s.attempts|
      ensures c.IsLive(x) <==> s.IsLive(x) && s.attempts[x].key != key && s.attempts[x].dest != dest
    {
      assert s.IsLive(x) ==> Supersedes(s, key, dest, x) == (s.attempts[x].key == key || s.attempts[x].dest == dest);
    }
    forall k | k in c.signIns && c.signIns[k].Live?
      ensures c.Knows(c.signIns[k].id) && c.attempts[c.signIns[k].id].key == k
    {
      assert s.signIns[k].Live?;
    }
    assert MapFits(c);
    assert LiveIsNewest(c);
    assert WorkersFit(c);
    assert SlotsTruthful(c);
  }

  lemma StartedKeeps(s: State, key: Key, dest: Path, code: bool, state: string)
    requires Inv(s)
    ensures Inv(Started(s, key, dest, code, state))
  {
    ClearedFacts(s, key, dest);
    var c, s' := Cleared(s, key, dest), Started(s, key, dest, code, state);
    var n := |s.attempts|;
    assert forall x :: 0 <= x < n ==> s'.attempts[x] == c.attempts[x];
    forall x | 0 <= x < n
      ensures s'.IsLive(x) == c.IsLive(x)
    {
      if c.IsLive(x) {
        assert c.attempts[x].key != key;
      }
    }
    assert s'.IsLive(n);
    forall i | 0 <= i < |s.writes|
      ensures s.writes[i] != n
    {
    }
  }

  lemma ForgottenFacts(s: State, key: Key, dest: Path)
    requires Inv(s)
    ensures var c := Forgotten(s, key, dest);
      && |c.attempts| == |s.attempts| && c.writes == s.writes
      && (forall x :: 0 <= x < |s.attempts| ==>
            && c.attempts[x] == s.attempts[x].(ended := c.attempts[x].ended)
            && (s.attempts[x].ended ==> c.attempts[x].ended)
            && (c.IsLive(x) <==> s.IsLive(x) && !Forgets(s, key, dest, x)))
      && Inv(c)
  {
    var c := Forgotten(s, key, dest);
    forall x | 0 <= x < |s.attempts|
      ensures c.IsLive(x) <==> s.IsLive(x) && !Forgets(s, key, dest, x)
    {
    }
    assert MapFits(c);
    assert LiveIsNewest(c);
    assert WorkersFit(c);
    assert SlotsTruthful(c);
  }

  predicate MayWrite(s: State, id: nat) {
    s.Knows(id) && s.IsLive(id) && s.attempts[id].worker.Working? && !s.attempts[id].ended
  }

  lemma WrittenInOrder(s: State, id: nat)
    requires LiveIsNewest(s) && WorkersFit(s) && WritesFit(s) && MayWrite(s, id)
    ensures WritesFit(Next(s, Publish(id, true, true, true)))
  {
    assert id !in s.writes;
    forall i | 0 <= i < |s.writes| && s.attempts[s.writes[i]].dest == s.attempts[id].dest
      ensures s.writes[i] < id
    {
      assert s.writes[i] in s.writes;
    }
  }

  lemma WrittenWorkersFit(s: State, id: nat)
    requires WorkersFit(s) && SlotsTruthful(s) && MayWrite(s, id)
    ensures WorkersFit(Next(s, Publish(id, true, true, true))) && SlotsTruthful(Next(s, Publish(id, true, true, true)))
  {
    assert forall x :: x in s.writes + [id] <==> x in s.writes || x == id;
  }

  lemma WrittenKeeps(s: State, id: nat)
    requires Inv(s) && MayWrite(s, id)
    ensures Inv(Next(s, Publish(id, true, true, true)))
  {
    var s' := Next(s, Publish(id, true, true, true));
    WrittenInOrder(s, id);
    WrittenWorkersFit(s, id);
    assert forall x :: 0 <= x < |s.attempts| ==> s'.IsLive(x) == s.IsLive(x);
  }

  lemma PublishKeeps(s: State, id: nat)
    requires Inv(s) && s.Knows(id) && s.IsLive(id) && s.attempts[id].worker.Working?
    ensures Inv(Next(s, Publish(id, true, true, true)))
  {
    if !s.attempts[id].ended {
      WrittenKeeps(s, id);
    } else {
      TouchedKeeps(s, WithWorker(s, id, Finishing(false)), id);
    }
  }

  /** Every step keeps the invariant. */
  lemma StepKeeps(s: State, step: Step)
    requires Inv(s) && Enabled(s, step)
    ensures Inv(Next(s, step))
  {
    var s' := Next(s, step);
    match step
    case Start(key, dest, code, state, profileCurrent) =>
      if profileCurrent { StartedKeeps(s, key, dest, code, state); }
    case EndContext(id) => EndContextKeeps(s, id);
    case Expire(id) =>
      if s.IsLive(id) && s.attempts[id].status == Pending { EndedKeeps(s, id, Expired); }
    case BeginPoll(id) => TouchedKeeps(s, s', id);
    case Claim(id, state) => if MayClaim(s, id, state) { TouchedKeeps(s, s', id); }
    case Publish(id, scopeGranted, profileCurrent, written) =>
      if MayPublish(s, id, scopeGranted, profileCurrent) && written {
        PublishKeeps(s, id);
      } else {
        TouchedKeeps(s, s', id);
      }
    case GiveUp(id) => TouchedKeeps(s, s', id);
    case End(id) =>
      TouchedKeeps(s, WithWorker(s, id, Over), id);
      ClosedKeeps(WithWorker(s, id, Over), id, s.attempts[id].worker.published);
    case Abort(id) => ClosedKeeps(s, id, false);
    case Cancel(key) =>
      if s' != s { EndedKeeps(s, s.signIns[key].id, Cancelled); }
    case Forget(key, dest) => ForgottenFacts(s, key, dest);
  }

  lemma EndContextKeeps(s: State, id: nat)
    requires Inv(s) && s.Knows(id)
    ensures Inv(Next(s, EndContext(id)))
  {
    var s' := Next(s, EndContext(id));
    assert forall x :: 0 <= x < |s.attempts| ==> s'.IsLive(x) == s.IsLive(x);
  }
}
