/**
 The cross-process admission lock, as a step relation over the filesystem.

 Any number of lock attempts run in any number of operating-system processes.
 One action advances one attempt by one filesystem call, or starts an attempt,
 or kills a process.  The choice that an action carries decides whether the
 call succeeds, so "for all sequences of actions" ranges over every
 interleaving, every failing call and every crash.  Staleness and deadlines are
 choices as well: safety does not depend on clocks.
 */
module AdmissionLock {
  import opened Wrappers

  /** The random token of one attempt; it also names the attempt. */
  type Token = nat
  type Pid = nat

  /** The file owner.json of a lock directory. */
  datatype OwnerFile =
    | Absent                           // no such file
    | Partial                          // created, contents not complete: unreadable
    | Written(token: Token, pid: Pid)

  /** The two entry points that may retire a lock directory. */
  datatype Purpose = Steal | Release

  datatype Choice = Succeed | Fail | GiveUp

  /** The filesystem call that an attempt makes next. */
  datatype Phase =
    | Trying                                      // mkdir lock directory
    | Created                                     // open owner.json, exclusively
    | Filling                                     // write its contents
    | Abandoning                                  // rmdir the directory after a failed write
    | Holding                                     // the lock was handed to the caller
    | Found                                       // look at the existing directory
    | Probing(target: Token, pid: Pid)            // is the process of the owner alive?
    | ReadingOwn                                  // release: read owner.json
    | Claiming(target: Token, purpose: Purpose)   // mkdir the retirement claim
    | Rereading(target: Token, purpose: Purpose)  // read owner.json again
    | Renaming(target: Token, purpose: Purpose)   // move the directory aside
    | Verifying(target: Token, purpose: Purpose, moved: nat)
    | Deleting(target: Token, purpose: Purpose, moved: nat)
    | IdentityChanged(target: Token, purpose: Purpose)
    | Unclaiming(target: Token, purpose: Purpose) // rmdir the retirement claim
    | Finished

  datatype Attempt = Attempt(pid: Pid, phase: Phase)

  datatype State = State(
    lock: Option<OwnerFile>,          // the lock directory and its owner file
    retired: map<nat, OwnerFile>,     // directories moved aside, by unique name
    claims: set<Token>,               // retirement claims, by observed token
    attempts: map<Token, Attempt>,
    dead: set<Pid>)

  const START := State(None, map[], {}, map[], {})

  datatype Action =
    | Begin(token: Token, pid: Pid)
    | Crash(pid: Pid)
    | Advance(token: Token, choice: Choice, name: nat)

  predicate Live(s: State, a: Token) {
    a in s.attempts && s.attempts[a].pid !in s.dead
  }

  function Move(s: State, a: Token, phase: Phase): State
    requires a in s.attempts
  {
    s.(attempts := s.attempts[a := s.attempts[a].(phase := phase)])
  }

  /** Phases in which the attempt owns the retirement claim on `target`. */
  predicate Claimant(phase: Phase) {
    phase.Rereading? || phase.Renaming? || phase.Verifying? || phase.Deleting?
    || phase.IdentityChanged? || phase.Unclaiming?
  }

  predicate Retiring(phase: Phase) { phase.Claiming? || Claimant(phase) }

  /** Where an attempt goes once the retirement it called has returned. */
  function AfterRetirement(purpose: Purpose): Phase {
    if purpose.Release? then Finished else Trying
  }

  /** The calls of acquireAdmissionDirectoryLock and of the release it returns. */
  function AcquireCall(s: State, a: Token, choice: Choice): State
    requires a in s.attempts && !Retiring(s.attempts[a].phase)
  {
    match s.attempts[a].phase
    case Trying =>
      if !choice.Succeed? then Move(s, a, Finished)
      else if s.lock.None? then Move(s.(lock := Some(Absent)), a, Created)
      else Move(s, a, Found)
    case Created =>
      if choice.Succeed? && s.lock == Some(Absent)
      then Move(s.(lock := Some(Partial)), a, Filling)
      else Move(s, a, Abandoning)
    case Filling =>
      var contents := Written(a, s.attempts[a].pid);
      var s' := if !choice.Fail? && s.lock == Some(Partial) then s.(lock := Some(contents)) else s;
      Move(s', a, if choice.Succeed? then Holding else Abandoning)
    case Abandoning =>
      // rmdir refuses a directory that holds a file
      if choice.Succeed? && s.lock == Some(Absent)
      then Move(s.(lock := None), a, Finished)
      else Move(s, a, Finished)
    case Holding =>
      if choice.Succeed? then Move(s, a, ReadingOwn) else s
    case Found =>
      if choice.Succeed? && s.lock.Some? && s.lock.value.Written?
      then Move(s, a, Probing(s.lock.value.token, s.lock.value.pid))
      else Move(s, a, Trying)
    case Probing(target, pid) =>
      // the probe never reports a live process dead
      if choice.Succeed? && pid in s.dead
      then Move(s, a, Claiming(target, Steal))
      else Move(s, a, Trying)
    case ReadingOwn =>
      if choice.Succeed? && s.lock.Some? && s.lock.value.Written? && s.lock.value.token == a
      then Move(s, a, Claiming(a, Release))
      else Move(s, a, Finished)
    case Finished => s
  }

  /** The calls of retireAdmissionLock, made on behalf of a waiter or of a release. */
  function RetireCall(s: State, a: Token, choice: Choice, name: nat): State
    requires a in s.attempts && Retiring(s.attempts[a].phase)
  {
    match s.attempts[a].phase
    case Claiming(target, purpose) =>
      if choice.Succeed? && target !in s.claims
      then Move(s.(claims := s.claims + {target}), a, Rereading(target, purpose))
      else Move(s, a, AfterRetirement(purpose))
    case Rereading(target, purpose) =>
      if choice.Succeed? && s.lock.Some? && s.lock.value.Written? && s.lock.value.token == target
      then Move(s, a, Renaming(target, purpose))
      else Move(s, a, Unclaiming(target, purpose))
    case Renaming(target, purpose) =>
      if choice.Succeed? && s.lock.Some? && name !in s.retired
      then Move(s.(lock := None, retired := s.retired[name := s.lock.value]), a, Verifying(target, purpose, name))
      else Move(s, a, Unclaiming(target, purpose))
    case Verifying(target, purpose, moved) =>
      if !choice.Succeed? || moved !in s.retired || !s.retired[moved].Written?
      then Move(s, a, Unclaiming(target, purpose))
      else if s.retired[moved].token != target
      then Move(s, a, IdentityChanged(target, purpose))
      else Move(s, a, Deleting(target, purpose, moved))
    case Deleting(target, purpose, moved) =>
      var s' := if choice.Succeed? then s.(retired := s.retired - {moved}) else s;
      Move(s', a, Unclaiming(target, purpose))
    case IdentityChanged(target, purpose) =>
      Move(s, a, Unclaiming(target, purpose))
    case Unclaiming(target, purpose) =>
      var s' := if choice.Succeed? then s.(claims := s.claims - {target}) else s;
      Move(s', a, AfterRetirement(purpose))
  }

  /** One filesystem call of attempt `a`.  A disabled choice changes nothing. */
  function Call(s: State, a: Token, choice: Choice, name: nat): State
    requires a in s.attempts
  {
    if Retiring(s.attempts[a].phase) then RetireCall(s, a, choice, name) else AcquireCall(s, a, choice)
  }

  /** Tokens are unique: an attempt begins with a token never used before. */
  function Apply(s: State, action: Action): State {
    match action
    case Begin(token, pid) =>
      if token in s.attempts || pid in s.dead then s
      else s.(attempts := s.attempts[token := Attempt(pid, Trying)])
    case Crash(pid) => s.(dead := s.dead + {pid})
    case Advance(a, choice, name) =>
      if Live(s, a) then Call(s, a, choice, name) else s
  }

  function Exec(s: State, actions: seq<Action>): State
    decreases |actions|
  {
    if actions == [] then s else Exec(Apply(s, actions[0]), actions[1..])
  }

  // ----- the invariant

  /** Phases from a successful mkdir of the lock directory to the retirement of it. */
  predicate Occupying(phase: Phase) {
    phase.Created? || phase.Filling? || phase.Abandoning? || phase.Holding? || phase.ReadingOwn?
  }

  predicate Occupies(s: State, a: Token)
    requires a in s.attempts
  {
    Live(s, a) && Occupying(s.attempts[a].phase)
  }

  /** Phases from which the attempt can still write its owner file. */
  predicate Unwritten(phase: Phase) {
    phase.Trying? || phase.Created? || phase.Filling? || phase.Found? || phase.Probing?
    || (Retiring(phase) && phase.purpose.Steal?)
  }

  predicate IsOwner(file: Option<OwnerFile>, t: Token) {
    file.Some? && file.value.Written? && file.value.token == t
  }

  /** What the lock directory contains, seen from an attempt that is alive. */
  predicate DirectoryMatches(s: State, a: Token)
    requires a in s.attempts
  {
    match s.attempts[a].phase
    case Created => s.lock == Some(Absent)
    case Filling => s.lock == Some(Partial)
    case Abandoning => s.lock.Some? && (s.lock.value.Written? ==> s.lock.value.token == a)
    case Holding => IsOwner(s.lock, a)
    case ReadingOwn => IsOwner(s.lock, a)
    case _ => true
  }

  /** The owner of the token was alive when it retired itself, or is dead. */
  predicate TargetJustified(s: State, a: Token)
    requires a in s.attempts
  {
    var phase := s.attempts[a].phase;
    && (phase.Probing? ==> phase.target in s.attempts && s.attempts[phase.target].pid == phase.pid
                           && !StillUnwritten(s, phase.target))
    && (Retiring(phase) && phase.purpose.Steal? ==>
          phase.target in s.attempts && s.attempts[phase.target].pid in s.dead)
    && (Retiring(phase) && phase.purpose.Release? ==> phase.target == a)
  }

  /** A live attempt that may still write its token into an owner file. */
  predicate StillUnwritten(s: State, t: Token)
    requires t in s.attempts
  {
    Live(s, t) && Unwritten(s.attempts[t].phase)
  }

  predicate ClaimMatches(s: State, a: Token)
    requires a in s.attempts
  {
    var phase := s.attempts[a].phase;
    && (Claimant(phase) ==> phase.target in s.claims)
    && (phase.Renaming? ==> IsOwner(s.lock, phase.target))
    && (phase.Verifying? || phase.Deleting? ==>
          phase.moved in s.retired && IsOwner(Some(s.retired[phase.moved]), phase.target))
    && !phase.IdentityChanged?
  }

  ghost predicate OneOccupant(s: State) {
    forall a, b | a in s.attempts && b in s.attempts && Occupies(s, a) && Occupies(s, b) :: a == b
  }

  ghost predicate OneClaimant(s: State) {
    forall a, b | a in s.attempts && b in s.attempts
                  && Claimant(s.attempts[a].phase) && Claimant(s.attempts[b].phase)
                  && s.attempts[a].phase.target == s.attempts[b].phase.target :: a == b
  }

  predicate OwnerKnown(s: State) {
    s.lock.Some? && s.lock.value.Written? ==>
      var t := s.lock.value.token;
      t in s.attempts && s.attempts[t].pid == s.lock.value.pid && !StillUnwritten(s, t)
  }

  ghost predicate Inv(s: State) {
    && OneOccupant(s)
    && OneClaimant(s)
    && OwnerKnown(s)
    && (forall a | a in s.attempts :: Live(s, a) ==> DirectoryMatches(s, a))
    && (forall a | a in s.attempts :: TargetJustified(s, a))
    && (forall a | a in s.attempts :: ClaimMatches(s, a))
  }

  /** A new attempt changes nothing for the others, and holds nothing itself. */
  lemma BeginKeepsEach(s: State, token: Token, pid: Pid, a: Token)
    requires a in s.attempts && TargetJustified(s, a) && ClaimMatches(s, a) && (Live(s, a) ==> DirectoryMatches(s, a))
    ensures var s' := Apply(s, Begin(token, pid));
      && a in s'.attempts && s'.attempts[a] == s.attempts[a]
      && TargetJustified(s', a) && ClaimMatches(s', a) && (Live(s', a) ==> DirectoryMatches(s', a))
  {
  }

  lemma BeginKeepsOwner(s: State, token: Token, pid: Pid)
    requires OwnerKnown(s)
    ensures OwnerKnown(Apply(s, Begin(token, pid)))
  {
  }

  lemma BeginKeepsSingles(s: State, token: Token, pid: Pid)
    requires OneOccupant(s) && OneClaimant(s)
    ensures var s' := Apply(s, Begin(token, pid)); OneOccupant(s') && OneClaimant(s')
  {
    var s' := Apply(s, Begin(token, pid));
    forall a, b | a in s'.attempts && b in s'.attempts && Occupies(s', a) && Occupies(s', b) ensures a == b {
      assert Occupies(s, a) && Occupies(s, b);
    }
  }

  lemma {:induction false} BeginKeeps(s: State, token: Token, pid: Pid)
    requires Inv(s)
    ensures Inv(Apply(s, Begin(token, pid)))
  {
    BeginKeepsOwner(s, token, pid);
    BeginKeepsSingles(s, token, pid);
    forall a | a in s.attempts
      ensures var s' := Apply(s, Begin(token, pid));
        && a in s'.attempts && s'.attempts[a] == s.attempts[a]
        && TargetJustified(s', a) && ClaimMatches(s', a) && (Live(s', a) ==> DirectoryMatches(s', a))
    {
      BeginKeepsEach(s, token, pid, a);
    }
  }

  lemma CrashKeeps(s: State, pid: Pid)
    requires Inv(s)
    ensures Inv(Apply(s, Crash(pid)))
  {
  }

  /** One call changes the record of its own attempt only. */
  ghost predicate OnlyMoves(s: State, s': State, a: Token) {
    && a in s.attempts && a in s'.attempts
    && s'.dead == s.dead
    && s'.attempts == s.attempts[a := s'.attempts[a]]
    && s'.attempts[a].pid == s.attempts[a].pid
  }

  /** How one call can change the phase of its attempt. */
  ghost predicate PhaseStep(s: State, from: Phase, to: Phase) {
    && (Occupying(to) ==> Occupying(from) || s.lock.None?)
    && (Claimant(to) ==> if Claimant(from) then to.target == from.target else to.target !in s.claims)
    && (Unwritten(to) ==> Unwritten(from))
  }

  lemma AcquireFrame(s: State, a: Token, choice: Choice)
    requires Live(s, a) && DirectoryMatches(s, a) && TargetJustified(s, a) && OwnerKnown(s)
    requires !Retiring(s.attempts[a].phase)
    ensures var s' := AcquireCall(s, a, choice);
      && OnlyMoves(s, s', a)
      && PhaseStep(s, s.attempts[a].phase, s'.attempts[a].phase)
      && TargetJustified(s', a)
  {
  }

  lemma RetireFrame(s: State, a: Token, choice: Choice, name: nat)
    requires Live(s, a) && TargetJustified(s, a)
    requires Retiring(s.attempts[a].phase)
    ensures var s' := RetireCall(s, a, choice, name);
      && OnlyMoves(s, s', a)
      && PhaseStep(s, s.attempts[a].phase, s'.attempts[a].phase)
      && TargetJustified(s', a)
  {
  }

  lemma MovesKeepOccupant(s: State, s': State, a: Token)
    requires Inv(s) && Live(s, a) && OnlyMoves(s, s', a)
    requires PhaseStep(s, s.attempts[a].phase, s'.attempts[a].phase)
    ensures OneOccupant(s')
  {
    forall b, c | b in s'.attempts && c in s'.attempts && Occupies(s', b) && Occupies(s', c) ensures b == c {
      assert b != a ==> Occupies(s, b) && DirectoryMatches(s, b);
      assert c != a ==> Occupies(s, c) && DirectoryMatches(s, c);
    }
  }

  lemma MovesKeepClaimant(s: State, s': State, a: Token)
    requires Inv(s) && OnlyMoves(s, s', a)
    requires PhaseStep(s, s.attempts[a].phase, s'.attempts[a].phase)
    ensures OneClaimant(s')
  {
    forall b | b in s'.attempts && b != a && Claimant(s'.attempts[b].phase)
      ensures s.attempts[b].phase.target in s.claims
    {
      assert ClaimMatches(s, b);
    }
  }

  lemma CallKeepsOwner(s: State, a: Token, choice: Choice, name: nat)
    requires Live(s, a) && OwnerKnown(s) && DirectoryMatches(s, a)
    ensures OwnerKnown(Call(s, a, choice, name))
  {
  }

  lemma MovesKeepTarget(s: State, s': State, a: Token, b: Token)
    requires OnlyMoves(s, s', a) && b in s.attempts && b != a && TargetJustified(s, b)
    requires PhaseStep(s, s.attempts[a].phase, s'.attempts[a].phase)
    ensures TargetJustified(s', b)
  {
  }

  lemma AcquireKeepsDirectory(s: State, a: Token, choice: Choice, b: Token)
    requires Live(s, a) && DirectoryMatches(s, a) && !Retiring(s.attempts[a].phase)
    requires Live(s, b) && DirectoryMatches(s, b)
    requires Occupies(s, a) && Occupies(s, b) ==> a == b
    ensures DirectoryMatches(AcquireCall(s, a, choice), b)
  {
  }

  lemma RetireKeepsDirectory(s: State, a: Token, choice: Choice, name: nat, b: Token)
    requires Live(s, a) && TargetJustified(s, a) && ClaimMatches(s, a) && Retiring(s.attempts[a].phase)
    requires Live(s, b) && DirectoryMatches(s, b)
    ensures DirectoryMatches(RetireCall(s, a, choice, name), b)
  {
  }

  /** A call of `a` leaves the directory of every other occupant alone. */
  lemma CallKeepsDirectory(s: State, a: Token, choice: Choice, name: nat, b: Token)
    requires Live(s, a) && DirectoryMatches(s, a) && TargetJustified(s, a) && ClaimMatches(s, a)
    requires Live(s, b) && DirectoryMatches(s, b)
    requires Occupies(s, a) && Occupies(s, b) ==> a == b
    ensures DirectoryMatches(Call(s, a, choice, name), b)
  {
    if Retiring(s.attempts[a].phase) {
      RetireKeepsDirectory(s, a, choice, name, b);
    } else {
      AcquireKeepsDirectory(s, a, choice, b);
    }
  }

  /** A call of `a` leaves the directory that another claimant is retiring alone. */
  lemma AcquireKeepsClaim(s: State, a: Token, choice: Choice, b: Token)
    requires Live(s, a) && DirectoryMatches(s, a) && !Retiring(s.attempts[a].phase)
    requires b in s.attempts && ClaimMatches(s, b)
    ensures ClaimMatches(AcquireCall(s, a, choice), b)
  {
  }

  lemma RetireKeepsClaim(s: State, a: Token, choice: Choice, name: nat, b: Token)
    requires Live(s, a) && ClaimMatches(s, a) && Retiring(s.attempts[a].phase)
    requires b in s.attempts && ClaimMatches(s, b)
    requires a != b && Claimant(s.attempts[a].phase) && Claimant(s.attempts[b].phase) ==>
               s.attempts[a].phase.target != s.attempts[b].phase.target
    ensures ClaimMatches(RetireCall(s, a, choice, name), b)
  {
  }

  lemma {:induction false} CallKeeps(s: State, a: Token, choice: Choice, name: nat)
    requires Inv(s) && Live(s, a)
    ensures Inv(Call(s, a, choice, name))
  {
    var s' := Call(s, a, choice, name);
    if Retiring(s.attempts[a].phase) { RetireFrame(s, a, choice, name); } else { AcquireFrame(s, a, choice); }
    MovesKeepOccupant(s, s', a);
    MovesKeepClaimant(s, s', a);
    CallKeepsOwner(s, a, choice, name);
    forall b | b in s'.attempts ensures Live(s', b) ==> DirectoryMatches(s', b) {
      if Live(s, b) { CallKeepsDirectory(s, a, choice, name, b); }
    }
    forall b | b in s'.attempts ensures TargetJustified(s', b) {
      if b != a { MovesKeepTarget(s, s', a, b); }
    }
    forall b | b in s'.attempts ensures ClaimMatches(s', b) {
      if Retiring(s.attempts[a].phase) {
        RetireKeepsClaim(s, a, choice, name, b);
      } else {
        AcquireKeepsClaim(s, a, choice, b);
      }
    }
  }

  lemma {:induction false} ExecKeeps(s: State, actions: seq<Action>)
    requires Inv(s)
    ensures Inv(Exec(s, actions))
    decreases |actions|
  {
    if actions != [] {
      match actions[0] {
        case Begin(token, pid) => BeginKeeps(s, token, pid);
        case Crash(pid) => CrashKeeps(s, pid);
        case Advance(a, choice, name) => if Live(s, a) { CallKeeps(s, a, choice, name); }
      }
      ExecKeeps(Apply(s, actions[0]), actions[1..]);
    }
  }

  // ----- main results

  /** At most one live attempt is between its owner write and its release. */
  lemma {:induction false} MutualExclusion(actions: seq<Action>, a: Token, b: Token)
    ensures var s := Exec(START, actions);
      Live(s, a) && Live(s, b) && s.attempts[a].phase.Holding? && s.attempts[b].phase.Holding? ==> a == b
  {
    ExecKeeps(START, actions);
    var s := Exec(START, actions);
    assert Live(s, a) ==> DirectoryMatches(s, a);
  }

  /** A live holder's token stays in the lock directory until the holder itself moves the directory. */
  lemma {:induction false} HolderKeepsDirectory(actions: seq<Action>, a: Token)
    ensures var s := Exec(START, actions);
      Live(s, a) && s.attempts[a].phase.Holding? ==> s.lock == Some(Written(a, s.attempts[a].pid))
  {
    ExecKeeps(START, actions);
    var s := Exec(START, actions);
    assert Live(s, a) ==> DirectoryMatches(s, a);
  }

  /**
   A retirer past its second read faces the same token until it has moved the
   directory, so the directory never turns out to be another one afterwards.
   */
  lemma {:induction false} IdentityNeverChanges(actions: seq<Action>, a: Token)
    ensures var s := Exec(START, actions);
      a in s.attempts ==>
        && !s.attempts[a].phase.IdentityChanged?
        && (s.attempts[a].phase.Renaming? ==> IsOwner(s.lock, s.attempts[a].phase.target))
  {
    ExecKeeps(START, actions);
    var s := Exec(START, actions);
    assert a in s.attempts ==> ClaimMatches(s, a);
  }
}
