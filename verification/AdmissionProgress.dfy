/** What the calls of the admission lock achieve when they succeed, and what they leave alone when they fail. */
module AdmissionProgress {
  import opened Wrappers
  import opened AdmissionLock
  import opened AdmissionRecovery

  /** A process that runs can start an attempt, and one that crashed moves none of its attempts again. */
  lemma BeginsAndCrashes(s: State, token: Token, pid: Pid)
    ensures token !in s.attempts && pid !in s.dead ==>
      Apply(s, Begin(token, pid)) == s.(attempts := s.attempts[token := Attempt(pid, Trying)])
    ensures token in s.attempts || pid in s.dead ==> Apply(s, Begin(token, pid)) == s
    ensures var s' := Apply(s, Crash(pid));
      s' == s.(dead := s'.dead) && forall a | a in s.attempts :: Live(s', a) <==> Live(s, a) && s.attempts[a].pid != pid
  {
  }

  lemma {:induction false} DeadStays(s: State, a: Token, actions: seq<Action>)
    requires a in s.attempts && s.attempts[a].pid in s.dead
    ensures var s' := Exec(s, actions);
      a in s'.attempts && s'.attempts[a] == s.attempts[a] && s.attempts[a].pid in s'.dead
    decreases |actions|
  {
    if actions != [] {
      DeadStays(Apply(s, actions[0]), a, actions[1..]);
    }
  }

  // ----- releasing

  /** The attempt has let go of the lock for good. */
  predicate LetGoOf(phase: Phase) {
    phase.Finished? || (Retiring(phase) && phase.purpose.Release?)
  }

  /** Only the tokens of the dead, and of those that let go of the lock, are ever claimed. */
  ghost predicate ClaimsJustified(s: State) {
    forall t | t in s.claims :: ClaimJustified(s, t)
  }

  ghost predicate ClaimJustified(s: State, t: Token) {
    t in s.attempts && (s.attempts[t].pid in s.dead || LetGoOf(s.attempts[t].phase))
  }

  /** One call lets go of no more than its own token, and does not take it up again. */
  lemma CallLetsGo(s: State, a: Token, choice: Choice, name: nat, t: Token)
    requires a in s.attempts && ClaimJustified(s, t)
    ensures ClaimJustified(Call(s, a, choice, name), t)
  {
  }

  lemma CallClaims(s: State, a: Token, choice: Choice, name: nat, t: Token)
    requires a in s.attempts && TargetJustified(s, a)
    requires t in Call(s, a, choice, name).claims && t !in s.claims
    ensures ClaimJustified(Call(s, a, choice, name), t)
  {
  }

  lemma {:induction false} ApplyKeepsClaims(s: State, action: Action)
    requires Inv(s) && ClaimsJustified(s)
    ensures ClaimsJustified(Apply(s, action))
  {
    if action.Advance? && Live(s, action.token) {
      var a, s' := action.token, Apply(s, action);
      assert TargetJustified(s, a);
      forall t | t in s'.claims ensures ClaimJustified(s', t) {
        if t in s.claims {
          assert ClaimJustified(s, t);
          CallLetsGo(s, a, action.choice, action.name, t);
        } else {
          CallClaims(s, a, action.choice, action.name, t);
        }
      }
    }
  }

  lemma {:induction false} RunKeepsClaims(s: State, actions: seq<Action>)
    requires Inv(s) && ClaimsJustified(s)
    ensures ClaimsJustified(Exec(s, actions))
    decreases |actions|
  {
    if actions != [] {
      ApplyKeepsClaims(s, actions[0]);
      ExecKeeps(s, [actions[0]]);
      assert Exec(Apply(s, actions[0]), [actions[0]][1..]) == Apply(s, actions[0]);
      RunKeepsClaims(Apply(s, actions[0]), actions[1..]);
    }
  }

  lemma {:induction false} ReadsOwn(s: State, a: Token, name: nat)
    requires Live(s, a) && s.attempts[a].phase.Holding? && IsOwner(s.lock, a) && a !in s.claims
    ensures Exec(s, Thrice(a, name)) == Move(s.(claims := s.claims + {a}), a, Rereading(a, Release))
  {
    ExecThrice(s, a, name);
  }

  lemma {:induction false} MovesOwn(s: State, a: Token, name: nat)
    requires Live(s, a) && s.attempts[a].phase == Rereading(a, Release) && IsOwner(s.lock, a) && name !in s.retired
    ensures Exec(s, Thrice(a, name)) ==
            Move(s.(lock := None, retired := s.retired[name := s.lock.value]), a, Deleting(a, Release, name))
  {
    ExecThrice(s, a, name);
  }

  lemma {:induction false} DeletesOwn(s: State, a: Token, name: nat)
    requires Live(s, a) && s.attempts[a].phase == Deleting(a, Release, name)
    ensures Exec(s, Thrice(a, name)) ==
            Move(s.(retired := s.retired - {name}, claims := s.claims - {a}), a, Finished)
  {
    ExecThrice(s, a, name);
  }

  /**
   In every reachable state, a live holder whose release meets no failing call
   frees the lock, and nothing else is changed: no directory moved aside and no
   claim is left behind.
   */
  lemma {:induction false} ReleaseFreesLock(run: seq<Action>, a: Token, name: nat)
    requires var s := Exec(START, run); Live(s, a) && s.attempts[a].phase.Holding? && name !in s.retired
    ensures var s, three := Exec(START, run), Thrice(a, name);
      Exec(s, three + (three + three)) == Move(s.(lock := None), a, Finished)
  {
    var s := Exec(START, run);
    ExecKeeps(START, run);
    RunKeepsClaims(START, run);
    assert DirectoryMatches(s, a);
    assert a in s.claims ==> ClaimJustified(s, a);
    ReleaseCycle(s, a, name);
  }

  lemma {:induction false} ReleaseCycle(s: State, a: Token, name: nat)
    requires Live(s, a) && s.attempts[a].phase.Holding? && IsOwner(s.lock, a) && a !in s.claims && name !in s.retired
    ensures var three := Thrice(a, name); Exec(s, three + (three + three)) == Move(s.(lock := None), a, Finished)
  {
    var three := Thrice(a, name);
    ReadsOwn(s, a, name);
    var s1 := Move(s.(claims := s.claims + {a}), a, Rereading(a, Release));
    MovesOwn(s1, a, name);
    var s2 := Move(s1.(lock := None, retired := s.retired[name := s.lock.value]), a, Deleting(a, Release, name));
    DeletesOwn(s2, a, name);
    assert s.claims + {a} - {a} == s.claims;
    assert s.retired[name := s.lock.value] - {name} == s.retired;
    ExecThreeTimes(s, s1, s2, three);
  }

  lemma {:induction false} ExecThreeTimes(s: State, s1: State, s2: State, actions: seq<Action>)
    requires Exec(s, actions) == s1 && Exec(s1, actions) == s2
    ensures Exec(s, actions + (actions + actions)) == Exec(s2, actions)
  {
    ExecAppend(s1, actions, actions);
    ExecAppend(s, actions, actions + actions);
  }

  // ----- failing calls

  /** Where an attempt goes when its call fails. */
  predicate GivesUpTo(from: Phase, to: Phase) {
    match from
    case Trying => to == Finished
    case Created => to == Abandoning
    case Filling => to == Abandoning
    case Abandoning => to == Finished
    case Holding => to == Holding
    case Found => to == Trying
    case Probing(_, _) => to == Trying
    case ReadingOwn => to == Finished
    case Finished => to == Finished
    case Claiming(_, purpose) => to == if purpose == Release then Finished else Trying
    case Unclaiming(_, purpose) => to == if purpose == Release then Finished else Trying
    case _ => to == Unclaiming(from.target, from.purpose)
  }

  /** A failing call changes no file or directory; its attempt cleans up, waits on or ends. */
  lemma FailChangesNoFile(s: State, a: Token, name: nat)
    requires a in s.attempts
    ensures var s' := Call(s, a, Fail, name);
      && (s'.lock, s'.retired, s'.claims, s'.dead) == (s.lock, s.retired, s.claims, s.dead)
      && a in s'.attempts && GivesUpTo(s.attempts[a].phase, s'.attempts[a].phase)
  {
  }

  /**
   After a failed write the directory is removed again exactly when it is still
   empty; one that holds an owner file stays, with its owner file.
   */
  lemma {:induction false} AbandonsEmptyDirectory(s: State, a: Token, name: nat)
    requires a in s.attempts && s.attempts[a].phase.Abandoning?
    ensures Call(s, a, Succeed, name) == Move(s.(lock := if s.lock == Some(Absent) then None else s.lock), a, Finished)
  {
  }

  /** A waiter begins to retire a directory only when its owner file is readable and names a process that is dead. */
  lemma {:induction false} StealsFromDeadOnly(s: State, w: Token, name: nat, choice: Choice)
    requires w in s.attempts && (s.attempts[w].phase.Found? || s.attempts[w].phase.Probing?)
    ensures var s' := Call(s, w, choice, name); var phase := s'.attempts[w].phase;
      && s' == Move(s, w, phase)
      && (phase.Claiming? ==> s.attempts[w].phase.Probing? && s.attempts[w].phase.pid in s.dead)
      && (phase.Probing? ==> s.attempts[w].phase.Found? && s.lock == Some(Written(phase.target, phase.pid)))
  {
  }

  /** A directory that was moved aside and turns out to name another owner is not deleted. */
  lemma {:induction false} ForeignDirectoryStays(s: State, a: Token, name: nat, first: Choice, second: Choice)
    requires a in s.attempts && s.attempts[a].phase.Verifying?
    requires var phase := s.attempts[a].phase;
      phase.moved in s.retired && !IsOwner(Some(s.retired[phase.moved]), phase.target)
    ensures Call(Call(s, a, first, name), a, second, name).retired == s.retired
  {
  }
}
