/**
 Several managers on one lease file: under the directory lock each reads the
 file once and writes it once, and processes may crash in between.
 */
module AdmissionSerial {
  import opened Wrappers
  import Lock = AdmissionLock
  import Ledger = AdmissionLedger
  import Budget = AdmissionBudget

  /** `views`: what an attempt has read and not yet written back; `done`: the operations written so far, in order. */
  datatype State = State(lock: Lock.State, file: Ledger.Leases, views: map<Lock.Token, Ledger.Leases>,
                         done: seq<Ledger.Event>)

  const START := State(Lock.START, [], map[], [])

  /** A step of the lock, or a read or a write of the lease file by the attempt that runs its operation. */
  datatype Action =
    | Locking(action: Lock.Action)
    | Reading(a: Lock.Token)
    | Writing(a: Lock.Token, event: Ledger.Event)

  predicate Holds(s: Lock.State, a: Lock.Token) {
    Lock.Live(s, a) && s.attempts[a].phase.Holding?
  }

  /** The write replaces the file by what the operation makes of the view. */
  function Apply(s: State, action: Action, gpus: seq<Budget.Gpu>, policy: Budget.Policy): State {
    match action
    case Locking(step) => s.(lock := Lock.Apply(s.lock, step))
    case Reading(a) => if Holds(s.lock, a) then s.(views := s.views[a := s.file]) else s
    case Writing(a, event) =>
      if Holds(s.lock, a) && a in s.views
      then s.(file := Ledger.Apply(s.views[a], event, gpus, policy), views := s.views - {a}, done := s.done + [event])
      else s
  }

  function Exec(actions: seq<Action>, gpus: seq<Budget.Gpu>, policy: Budget.Policy): State {
    if actions == [] then START
    else Apply(Exec(actions[..|actions| - 1], gpus, policy), actions[|actions| - 1], gpus, policy)
  }

  // ----- who can still write

  /** Phases from which an attempt never comes to hold the lock any more, unless it holds it now. */
  predicate Entered(phase: Lock.Phase) {
    phase.Holding? || phase.ReadingOwn? || phase.Finished? || (Lock.Retiring(phase) && phase.purpose.Release?)
  }

  lemma CallStaysEntered(s: Lock.State, a: Lock.Token, choice: Lock.Choice, name: nat)
    requires a in s.attempts && Entered(s.attempts[a].phase)
    ensures var s' := Lock.Call(s, a, choice, name);
      Entered(s'.attempts[a].phase) && (s'.attempts[a].phase.Holding? ==> s.attempts[a].phase.Holding?)
  {
  }

  lemma CallMovesOne(s: Lock.State, a: Lock.Token, choice: Lock.Choice, name: nat, b: Lock.Token)
    requires a in s.attempts && b in s.attempts && b != a
    ensures var s' := Lock.Call(s, a, choice, name);
      b in s'.attempts && s'.attempts[b] == s.attempts[b] && s'.dead == s.dead
  {
  }

  /** Whoever has a view entered the lock, and the view of a holder is the file. */
  ghost predicate ViewsInv(s: State) {
    forall a | a in s.views ::
      && a in s.lock.attempts && Entered(s.lock.attempts[a].phase)
      && (Holds(s.lock, a) ==> s.views[a] == s.file)
  }

  ghost predicate Inv(s: State, gpus: seq<Budget.Gpu>, policy: Budget.Policy) {
    Lock.Inv(s.lock) && ViewsInv(s) && s.file == Ledger.Exec([], s.done, gpus, policy)
  }

  lemma LockingKeepsViews(s: State, step: Lock.Action)
    requires ViewsInv(s)
    ensures ViewsInv(s.(lock := Lock.Apply(s.lock, step)))
  {
    var lock := Lock.Apply(s.lock, step);
    forall a | a in s.views
      ensures a in lock.attempts && Entered(lock.attempts[a].phase) && (Holds(lock, a) ==> Holds(s.lock, a))
    {
      if step.Advance? && Lock.Live(s.lock, step.token) {
        if step.token == a {
          CallStaysEntered(s.lock, a, step.choice, step.name);
        } else {
          CallMovesOne(s.lock, step.token, step.choice, step.name, a);
        }
      }
    }
  }

  lemma OneHolder(s: Lock.State, a: Lock.Token, b: Lock.Token)
    requires Lock.Inv(s) && Holds(s, a) && Holds(s, b)
    ensures a == b
  {
    assert Lock.Occupies(s, a) && Lock.Occupies(s, b);
  }

  lemma {:induction false} ExecSnoc(leases: Ledger.Leases, events: seq<Ledger.Event>, last: Ledger.Event,
                                    gpus: seq<Budget.Gpu>,
                                    policy: Budget.Policy)
    ensures Ledger.Exec(leases, events + [last], gpus, policy)
      == Ledger.Apply(Ledger.Exec(leases, events, gpus, policy), last, gpus, policy)
    decreases |events|
  {
    if events == [] {
      assert [] + [last] == [last];
      assert Ledger.Exec(Ledger.Apply(leases, last, gpus, policy), [last][1..], gpus, policy)
        == Ledger.Apply(leases, last, gpus, policy);
    } else {
      assert (events + [last])[1..] == events[1..] + [last];
      ExecSnoc(Ledger.Apply(leases, events[0], gpus, policy), events[1..], last, gpus, policy);
    }
  }

  lemma WritingKeeps(s: State, a: Lock.Token, event: Ledger.Event, gpus: seq<Budget.Gpu>, policy: Budget.Policy)
    requires Inv(s, gpus, policy) && Holds(s.lock, a) && a in s.views
    ensures Inv(Apply(s, Writing(a, event), gpus, policy), gpus, policy)
  {
    var s' := Apply(s, Writing(a, event), gpus, policy);
    ExecSnoc([], s.done, event, gpus, policy);
    forall b | b in s'.views ensures !Holds(s.lock, b) {
      if Holds(s.lock, b) {
        OneHolder(s.lock, a, b);
      }
    }
  }

  lemma LockingKeeps(s: Lock.State, step: Lock.Action)
    requires Lock.Inv(s)
    ensures Lock.Inv(Lock.Apply(s, step))
  {
    Lock.ExecKeeps(s, [step]);
    assert Lock.Exec(Lock.Apply(s, step), [step][1..]) == Lock.Apply(s, step);
  }

  lemma {:induction false} ExecKeeps(actions: seq<Action>, gpus: seq<Budget.Gpu>, policy: Budget.Policy)
    ensures Inv(Exec(actions, gpus, policy), gpus, policy)
  {
    if actions != [] {
      var s, last := Exec(actions[..|actions| - 1], gpus, policy), actions[|actions| - 1];
      ExecKeeps(actions[..|actions| - 1], gpus, policy);
      match last
      case Locking(step) =>
        LockingKeeps(s.lock, step);
        LockingKeepsViews(s, step);
      case Reading(a) =>
      case Writing(a, event) =>
        if Holds(s.lock, a) && a in s.views {
          WritingKeeps(s, a, event, gpus, policy);
        }
    }
  }

  // ----- main results

  /** However the managers interleave and crash, the file is that of the written operations one after another. */
  lemma FileIsSequential(actions: seq<Action>, gpus: seq<Budget.Gpu>, policy: Budget.Policy)
    ensures var s := Exec(actions, gpus, policy); s.file == Ledger.Exec([], s.done, gpus, policy)
  {
    ExecKeeps(actions, gpus, policy);
  }

  /** No operation is lost: a holder that has read the file writes on top of all that was written before. */
  lemma NoLostUpdate(actions: seq<Action>, gpus: seq<Budget.Gpu>, policy: Budget.Policy, a: Lock.Token)
    ensures var s := Exec(actions, gpus, policy);
      a in s.views && Holds(s.lock, a) ==> s.views[a] == Ledger.Exec([], s.done, gpus, policy)
  {
    ExecKeeps(actions, gpus, policy);
  }

  /** With fixed policy and telemetry, no interleaving of any number of managers overcommits a GPU. */
  lemma NoOvercommitAcrossManagers(actions: seq<Action>, gpus: seq<Budget.Gpu>, policy: Budget.Policy, gpu: Budget.Gpu)
    requires Ledger.DistinctKeys(gpus) && gpu in gpus
    ensures var reserved := Ledger.ReservedMb(Exec(actions, gpus, policy).file, gpu.key, {});
      reserved > 0 ==> Budget.WithinBudget(gpu, policy, reserved)
  {
    FileIsSequential(actions, gpus, policy);
    Ledger.NoOvercommit(Exec(actions, gpus, policy).done, gpus, policy, gpu);
  }

  // ----- runs make progress

  lemma {:induction false} ExecNext(actions: seq<Action>, action: Action, gpus: seq<Budget.Gpu>,
                                    policy: Budget.Policy)
    ensures Exec(actions + [action], gpus, policy) == Apply(Exec(actions, gpus, policy), action, gpus, policy)
  {
    assert (actions + [action])[..|actions|] == actions;
  }

  /** The steps of the lock are those of the lock alone, and change neither the file nor what was read of it. */
  lemma {:induction false} LockingIsTheLock(actions: seq<Action>, step: Lock.Action, gpus: seq<Budget.Gpu>,
                                            policy: Budget.Policy)
    ensures var s, s' := Exec(actions, gpus, policy), Exec(actions + [Locking(step)], gpus, policy);
      s'.lock == Lock.Apply(s.lock, step) && (s'.file, s'.views, s'.done) == (s.file, s.views, s.done)
  {
    ExecNext(actions, Locking(step), gpus, policy);
  }

  /** A holder that reads and writes puts its operation into the file; whoever does not hold the lock changes none. */
  lemma {:induction false} HolderOperates(actions: seq<Action>, a: Lock.Token, event: Ledger.Event,
                                          gpus: seq<Budget.Gpu>, policy: Budget.Policy)
    ensures var s := Exec(actions, gpus, policy);
      var s' := Exec(actions + [Reading(a)] + [Writing(a, event)], gpus, policy);
      if Holds(s.lock, a) then
        && s'.file == Ledger.Apply(s.file, event, gpus, policy) && s'.done == s.done + [event]
        && s'.lock == s.lock && s'.views == s.views - {a}
      else s' == s
  {
    ExecNext(actions, Reading(a), gpus, policy);
    ExecNext(actions + [Reading(a)], Writing(a, event), gpus, policy);
  }
}
