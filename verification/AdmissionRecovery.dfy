/** When the lock that a dead process left behind can be taken over. */
module AdmissionRecovery {
  import opened Wrappers
  import opened AdmissionLock

  ghost predicate DeadOwner(s: State, t: Token) {
    IsOwner(s.lock, t) && t in s.attempts && s.attempts[t].pid in s.dead
  }

  /** The attempt is alive and holds the retirement claim on `t`. */
  ghost predicate Retires(s: State, a: Token, t: Token) {
    Live(s, a) && Claimant(s.attempts[a].phase) && s.attempts[a].phase.target == t
  }

  /** The owner's process is dead and nobody alive is retiring its directory. */
  ghost predicate Orphaned(s: State, t: Token) {
    DeadOwner(s, t) && forall a | a in s.attempts :: !Retires(s, a, t)
  }

  /** Three calls of attempt `w` in a row, all of which succeed. */
  function Thrice(w: Token, name: nat): seq<Action> {
    var step := Advance(w, Succeed, name);
    [step, step, step]
  }

  lemma {:induction false} ExecThrice(s: State, w: Token, name: nat)
    ensures var step := Advance(w, Succeed, name);
      Exec(s, Thrice(w, name)) == Apply(Apply(Apply(s, step), step), step)
  {
    var step := Advance(w, Succeed, name);
    assert Thrice(w, name)[1..] == [step, step];
    assert [step, step][1..] == [step];
    assert Exec(Apply(Apply(s, step), step), [step]) == Apply(Apply(Apply(s, step), step), step);
  }

  lemma {:induction false} FindsOrphan(s: State, w: Token, t: Token, name: nat)
    requires OwnerKnown(s) && IsOwner(s.lock, t) && s.attempts[t].pid in s.dead
    requires Live(s, w) && s.attempts[w].phase.Trying?
    ensures Exec(s, Thrice(w, name)) == Move(s, w, Claiming(t, Steal))
  {
    var step := Advance(w, Succeed, name);
    assert Apply(s, step) == Move(s, w, Found);
    assert Apply(Move(s, w, Found), step) == Move(s, w, Probing(t, s.attempts[t].pid));
    ExecThrice(s, w, name);
  }

  lemma {:induction false} MovesOrphan(s: State, w: Token, t: Token, name: nat)
    requires IsOwner(s.lock, t) && t !in s.claims && name !in s.retired
    requires Live(s, w) && s.attempts[w].phase == Claiming(t, Steal)
    ensures Exec(s, Thrice(w, name)) ==
            Move(s.(lock := None, retired := s.retired[name := s.lock.value], claims := s.claims + {t}),
                 w, Verifying(t, Steal, name))
  {
    ExecThrice(s, w, name);
  }

  lemma {:induction false} DeletesOrphan(s: State, w: Token, t: Token, name: nat)
    requires Live(s, w) && s.attempts[w].phase == Verifying(t, Steal, name)
    requires name in s.retired && IsOwner(Some(s.retired[name]), t)
    ensures Exec(s, Thrice(w, name)) ==
            Move(s.(retired := s.retired - {name}, claims := s.claims - {t}), w, Trying)
  {
    ExecThrice(s, w, name);
  }

  lemma {:induction false} TakesFreeLock(s: State, w: Token, name: nat)
    requires Live(s, w) && s.attempts[w].phase.Trying? && s.lock.None?
    ensures var s' := Exec(s, Thrice(w, name)); Live(s', w) && s'.attempts[w].phase.Holding?
  {
    ExecThrice(s, w, name);
  }

  lemma {:induction false} ExecAppend(s: State, first: seq<Action>, second: seq<Action>)
    ensures Exec(s, first + second) == Exec(Exec(s, first), second)
    decreases |first|
  {
    if first == [] {
      assert first + second == second;
    } else {
      assert (first + second)[1..] == first[1..] + second;
      ExecAppend(Apply(s, first[0]), first[1..], second);
    }
  }

  /** A waiter running alone retires an unclaimed orphan and takes the lock. */
  lemma {:induction false} TakesOverOrphan(s: State, w: Token, t: Token, name: nat)
    requires Inv(s) && Orphaned(s, t) && t !in s.claims
    requires Live(s, w) && s.attempts[w].phase.Trying? && name !in s.retired
    ensures var three := Thrice(w, name); var s' := Exec(s, three + (three + (three + three)));
      Live(s', w) && s'.attempts[w].phase.Holding?
  {
    var three := Thrice(w, name);
    FindsOrphan(s, w, t, name);
    var s1 := Exec(s, three);
    MovesOrphan(s1, w, t, name);
    var s2 := Exec(s1, three);
    DeletesOrphan(s2, w, t, name);
    var s3 := Exec(s2, three);
    TakesFreeLock(s3, w, name);
    ExecAppend(s2, three, three);
    ExecAppend(s1, three, three + three);
    ExecAppend(s, three, three + (three + three));
  }

  /** An abandoned claim blocks the orphan: no action can remove the claim or the directory. */
  lemma {:induction false} ClaimedOrphanStays(s: State, t: Token, action: Action)
    requires Inv(s) && Orphaned(s, t) && t in s.claims
    ensures var s' := Apply(s, action); Orphaned(s', t) && t in s'.claims && s'.lock == s.lock
  {
    if action.Advance? && Live(s, action.token) {
      var a := action.token;
      assert DirectoryMatches(s, a) && TargetJustified(s, a) && ClaimMatches(s, a) && !Retires(s, a, t);
      if Retiring(s.attempts[a].phase) {
        RetireFrame(s, a, action.choice, action.name);
      } else {
        AcquireFrame(s, a, action.choice);
      }
    }
  }

  lemma {:induction false} ClaimedOrphanStaysForever(s: State, t: Token, actions: seq<Action>)
    requires Inv(s) && Orphaned(s, t) && t in s.claims
    ensures var s' := Exec(s, actions); Inv(s') && Orphaned(s', t) && t in s'.claims && s'.lock == s.lock
    decreases |actions|
  {
    if actions != [] {
      ExecKeeps(s, [actions[0]]);
      assert Exec(s, [actions[0]]) == Apply(s, actions[0]);
      ClaimedOrphanStays(s, t, actions[0]);
      ClaimedOrphanStaysForever(Apply(s, actions[0]), t, actions[1..]);
    }
  }

  /** The calls with which a claimant gives its claim back without touching the directory. */
  function LetGo(s: State, a: Token, name: nat): seq<Action>
    requires a in s.attempts
  {
    (if s.attempts[a].phase.Unclaiming? then [] else [Advance(a, Fail, name)]) + [Advance(a, Succeed, name)]
  }

  lemma {:induction false} ExecLetGo(s: State, a: Token, name: nat)
    requires a in s.attempts
    ensures var s1 := if s.attempts[a].phase.Unclaiming? then s else Apply(s, Advance(a, Fail, name));
      Exec(s, LetGo(s, a, name)) == Apply(s1, Advance(a, Succeed, name))
  {
    var first, last := Advance(a, Fail, name), Advance(a, Succeed, name);
    assert Exec(Apply(s, last), [last][1..]) == Apply(s, last);
    assert [first, last][1..] == [last];
    assert Exec(Apply(Apply(s, first), last), [last][1..]) == Apply(Apply(s, first), last);
    assert LetGo(s, a, name) == if s.attempts[a].phase.Unclaiming? then [last] else [first, last];
  }

  lemma Unclaimed(s: State, t: Token)
    requires Inv(s)
    ensures t !in s.claims ==> forall a | a in s.attempts :: !Retires(s, a, t)
  {
    if t !in s.claims {
      forall a | a in s.attempts ensures !Retires(s, a, t) {
        assert ClaimMatches(s, a);
      }
    }
  }

  /** A live claimant can always give the claim back; nobody else is affected. */
  lemma {:induction false} ClaimantLetsGo(s: State, a: Token, t: Token, name: nat)
    requires Inv(s) && DeadOwner(s, t) && Retires(s, a, t)
    ensures var s' := Exec(s, LetGo(s, a, name));
      && Inv(s') && Orphaned(s', t) && t !in s'.claims && s'.retired == s.retired
      && (forall b | b in s.attempts && b != a :: b in s'.attempts && s'.attempts[b] == s.attempts[b]) &&
        s'.dead == s.dead
  {
    ExecKeeps(s, LetGo(s, a, name));
    ExecLetGo(s, a, name);
    assert ClaimMatches(s, a);
    Unclaimed(Exec(s, LetGo(s, a, name)), t);
  }

  /** A waiter can still come to hold the lock. */
  ghost predicate CanHold(s: State, w: Token) {
    exists more: seq<Action> :: var s' := Exec(s, more); Live(s', w) && s'.attempts[w].phase.Holding?
  }

  lemma {:induction false} UnclaimedCanHold(s: State, w: Token, t: Token, name: nat)
    requires Inv(s) && DeadOwner(s, t) && t !in s.claims
    requires Live(s, w) && s.attempts[w].phase.Trying? && name !in s.retired
    ensures CanHold(s, w)
  {
    Unclaimed(s, t);
    TakesOverOrphan(s, w, t, name);
  }

  lemma {:induction false} RetiredCanHold(s: State, w: Token, t: Token, a: Token, name: nat)
    requires Inv(s) && DeadOwner(s, t) && Retires(s, a, t)
    requires Live(s, w) && s.attempts[w].phase.Trying? && name !in s.retired
    ensures CanHold(s, w)
  {
    ClaimantLetsGo(s, a, t, name);
    var s' := Exec(s, LetGo(s, a, name));
    UnclaimedCanHold(s', w, t, name);
    var more: seq<Action> :| var s2 := Exec(s', more); Live(s2, w) && s2.attempts[w].phase.Holding?;
    ExecAppend(s, LetGo(s, a, name), more);
  }

  /**
   In a reachable state whose lock belongs to a dead process, a waiter can
   still come to hold the lock if and only if there is no retirement claim on
   that owner, or the claimant is alive: a claim left behind by a dead one
   blocks the lock for good.
   */
  lemma {:induction false} DeadOwnerRecoverableIff(run: seq<Action>, w: Token, t: Token, name: nat)
    requires var s := Exec(START, run);
      DeadOwner(s, t) && Live(s, w) && s.attempts[w].phase.Trying? && name !in s.retired
    ensures var s := Exec(START, run);
      t !in s.claims || (exists a :: Retires(s, a, t)) <==> CanHold(s, w)
  {
    ExecKeeps(START, run);
    var s := Exec(START, run);
    if t !in s.claims {
      UnclaimedCanHold(s, w, t, name);
    } else if a :| Retires(s, a, t) {
      RetiredCanHold(s, w, t, a, name);
    } else {
      forall more: seq<Action> ensures var s' := Exec(s, more); !(Live(s', w) && s'.attempts[w].phase.Holding?) {
        ClaimedOrphanStaysForever(s, t, more);
        var s' := Exec(s, more);
        assert Live(s', w) ==> DirectoryMatches(s', w);
      }
    }
  }
}
