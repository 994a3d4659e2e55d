/** The custody as the object the source keeps: the map it mutates, with attempts held by their
    number, each method proved to make the step module SignIn makes. */
module SignInCustody {
  import opened Basics
  import opened SignIn

  class Custody {
    var attempts: seq<Attempt>
    var signIns: map<Key, Slot>
    var writes: seq<nat>

    ghost function Model(): State
      reads this
    {
      State(attempts, signIns, writes)
    }

    ghost predicate Valid()
      reads this
    {
      Inv(Model())
    }

    constructor ()
      ensures Valid() && Model() == INITIAL
    {
      attempts, signIns, writes := [], map[], [];
    }

    // Settles what the new attempt would compete with, in whatever order the map is walked.
    method Supersede(key: Key, dest: Path)
      requires MapFits(Model())
      modifies this
      ensures Model() == Cleared(old(Model()), key, dest)
    {
      ghost var s0 := Model();
      ghost var cleared := Cleared(s0, key, dest);
      var todo := signIns.Keys;
      while todo != {}
        invariant todo <= s0.signIns.Keys && signIns.Keys == s0.signIns.Keys && |attempts| == |s0.attempts|
        invariant writes == s0.writes
        invariant forall k :: k in s0.signIns ==> signIns[k] == if k in todo then s0.signIns[k] else cleared.signIns[k]
        invariant forall x :: 0 <= x < |attempts| ==>
          attempts[x] == if s0.IsLive(x) && s0.attempts[x].key !in todo then cleared.attempts[x] else s0.attempts[x]
        decreases todo
      {
        var k :| k in todo;
        todo := todo - {k};
        match signIns[k] {
          case Live(prev) =>
            if k == key || attempts[prev].dest == dest {
              Settle(k, prev, Cancelled);
            }
          case Settled(_, was) =>
            if k == key {
              signIns := signIns[k := Settled(Cancelled, was)];
            }
        }
      }
      assert attempts == cleared.attempts;
      assert signIns == cleared.signIns;
    }

    method StartAttempt(key: Key, dest: Path, code: bool, state: string, profileCurrent: bool) returns (id: Option<nat>)
      requires Valid() && (code ==> state != "")
      modifies this
      ensures Valid() && Model() == Next(old(Model()), Start(key, dest, code, state, profileCurrent))
      ensures id == if profileCurrent then Some(|old(attempts)|) else None
    {
      StepKeeps(Model(), Start(key, dest, code, state, profileCurrent));
      if !profileCurrent {
        return None;
      }
      Supersede(key, dest);
      id := Some(|attempts|);
      attempts := attempts + [Attempt(key, dest, code, state, false, false, Pending, NoWorker)];
      signIns := signIns[key := Live(id.value)];
    }

    // The walk over the map that an edit of a profile makes, in whatever order it comes.
    method ForgetProfile(key: Key, dest: Path)
      requires Valid()
      modifies this
      ensures Valid() && Model() == Next(old(Model()), Forget(key, dest))
    {
      StepKeeps(Model(), Forget(key, dest));
      DropForgotten(key, dest);
    }

    method DropForgotten(key: Key, dest: Path)
      requires MapFits(Model())
      modifies this
      ensures Model() == Forgotten(old(Model()), key, dest)
    {
      ghost var s0 := Model();
      ghost var gone := Forgotten(s0, key, dest);
      var todo := signIns.Keys;
      while todo != {}
        invariant todo <= s0.signIns.Keys && |attempts| == |s0.attempts| && writes == s0.writes
        invariant forall k :: k in signIns <==> k in s0.signIns && (k in todo || k in gone.signIns)
        invariant forall k :: k in signIns ==> signIns[k] == s0.signIns[k]
        invariant forall x :: 0 <= x < |attempts| ==>
          attempts[x] == if s0.IsLive(x) && s0.attempts[x].key !in todo then gone.attempts[x] else s0.attempts[x]
        decreases todo
      {
        var k :| k in todo;
        todo := todo - {k};
        match signIns[k] {
          case Live(id) =>
            if k == key || (dest != "" && attempts[id].dest == dest) {
              attempts := attempts[id := attempts[id].(ended := true)];
              signIns := signIns - {k};
            }
          case Settled(_, _) =>
            if k == key {
              signIns := signIns - {k};
            }
        }
      }
      assert attempts == gone.attempts;
      assert signIns == gone.signIns;
    }

    // The attempt's view keeps the given status, its context ends, and the map remembers only that.
    method Settle(key: Key, id: nat, status: Status)
      requires id < |attempts| && attempts[id].key == key
      modifies this
      ensures Model() == SettledAs(old(Model()), id, status)
    {
      attempts := attempts[id := attempts[id].(status := status, ended := true)];
      signIns := signIns[key := Settled(status, id)];
    }

    method ClaimCode(id: nat, state: string) returns (granted: bool)
      requires Valid() && id < |attempts|
      modifies this
      ensures Valid() && Model() == Next(old(Model()), Claim(id, state))
      ensures granted == MayClaim(old(Model()), id, state)
    {
      StepKeeps(Model(), Claim(id, state));
      var a := attempts[id];
      if !a.code || state == "" || state != a.state {
        return false;
      }
      if a.key !in signIns || signIns[a.key] != Live(id) {
        return false;
      }
      if a.ended {
        return false;
      }
      if a.claimed {
        return false;
      }
      attempts := attempts[id := a.(claimed := true, worker := Working)];
      return true;
    }

    // The required scope, if one is, is among those granted.
    method HasScope(required: string, granted: seq<string>) returns (has: bool)
      ensures has <==> required == "" || required in granted
    {
      if required == "" {
        return true;
      }
      has := false;
      for i := 0 to |granted|
        invariant has <==> required in granted[..i]
      {
        has := has || granted[i] == required;
        assert granted[..i + 1] == granted[..i] + [granted[i]];
      }
      assert granted[..|granted|] == granted;
    }

    method PublishTokens(id: nat, required: string, granted: seq<string>, profileCurrent: bool, written: bool) returns (ok: bool)
      requires Valid() && id < |attempts| && attempts[id].worker.Working?
      modifies this
      ensures Valid()
      ensures Model() == Next(old(Model()), Step.Publish(id, required == "" || required in granted, profileCurrent, written))
      ensures ok <==> writes == old(writes) + [id]
    {
      var has := HasScope(required, granted);
      ok := Publish(id, has, profileCurrent, written);
    }

    method Publish(id: nat, scopeGranted: bool, profileCurrent: bool, written: bool) returns (ok: bool)
      requires Valid() && id < |attempts| && attempts[id].worker.Working?
      modifies this
      ensures Valid() && Model() == Next(old(Model()), Step.Publish(id, scopeGranted, profileCurrent, written))
      ensures ok <==> writes == old(writes) + [id]
    {
      StepKeeps(Model(), Step.Publish(id, scopeGranted, profileCurrent, written));
      var a := attempts[id];
      attempts := attempts[id := a.(worker := Finishing(false))];
      if !scopeGranted {
        return false;
      }
      if a.key !in signIns || signIns[a.key] != Live(id) || a.ended {
        return false;
      }
      if !profileCurrent || !written {
        return false;
      }
      writes := writes + [id];
      attempts := attempts[id := a.(status := Connected, worker := Finishing(true))];
      return true;
    }

    method EndAttempt(id: nat)
      requires Valid() && id < |attempts| && attempts[id].worker.Finishing?
      modifies this
      ensures Valid() && Model() == Next(old(Model()), End(id))
    {
      StepKeeps(Model(), End(id));
      var ok := attempts[id].worker.published;
      attempts := attempts[id := attempts[id].(worker := Over)];
      Close(id, ok);
    }

    // A refusal by the authority, or a device sign-in that did not begin.
    method AbortAttempt(id: nat)
      requires Valid() && id < |attempts|
      modifies this
      ensures Valid() && Model() == Next(old(Model()), Abort(id))
    {
      StepKeeps(Model(), Abort(id));
      Close(id, false);
    }

    method Close(id: nat, ok: bool)
      requires id < |attempts|
      modifies this
      ensures Model() == Closed(old(Model()), id, ok)
    {
      var a := attempts[id];
      if a.key in signIns && signIns[a.key] == Live(id) {
        var status := a.status;
        if status == Pending {
          status := if ok then Connected else if a.ended then Expired else Failed;
        }
        Settle(a.key, id, status);
      }
    }

    method CancelKey(key: Key)
      requires Valid()
      modifies this
      ensures Valid() && Model() == Next(old(Model()), Cancel(key))
    {
      StepKeeps(Model(), Cancel(key));
      if key in signIns && signIns[key].Live? && attempts[signIns[key].id].status == Pending {
        Settle(key, signIns[key].id, Cancelled);
      }
    }

    method ExpireAttempt(id: nat)
      requires Valid() && id < |attempts| && attempts[id].ended
      modifies this
      ensures Valid() && Model() == Next(old(Model()), Expire(id))
    {
      StepKeeps(Model(), Expire(id));
      var a := attempts[id];
      if a.key in signIns && signIns[a.key] == Live(id) && a.status == Pending {
        Settle(a.key, id, Expired);
      }
    }
  }
}
