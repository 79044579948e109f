/** When a replacement begins, commits and rolls back, said of the containers and of the commands that fail. */
module ReplacementAnswers {
  import opened Wrappers
  import opened ContainerReplacement

  /** The next `n` commands take effect and say so. */
  predicate AllWork(d: Docker, n: nat) {
    forall i | 0 <= i < n && i < |d.faults| :: d.faults[i].Works?
  }

  lemma AllWorkNext(d: Docker, n: nat, command: Command)
    ensures AllWork(d, n + 1) <==> AllWork(d, 1) && AllWork(Exec(d, command).0, n)
  {
    var rest := if d.faults == [] then [] else d.faults[1..];
    if AllWork(d, 1) && AllWork(Exec(d, command).0, n) {
      forall i | 0 <= i < n + 1 && i < |d.faults| ensures d.faults[i].Works? {
        assert i > 0 ==> rest[i - 1] == d.faults[i];
      }
    }
  }

  lemma FirstWorks(d: Docker, command: Command)
    ensures AllWork(d, 1) ==>
      (Exec(d, command).0.containers, Exec(d, command).1) == Effect(d.containers, command)
    ensures !AllWork(d, 1) ==> Exec(d, command).1.Failed?
  {
  }

  // ----- begin

  /** The container belongs to another manager than the one that asks. */
  predicate Foreign(container: Container, managerId: string) {
    container.owner != "" && managerId != "" && container.owner != managerId
  }

  /** The replacement of a container stops it, if it runs, and moves it aside. */
  lemma {:induction false} BeginsIff(d: Docker, originalName: string, backupName: string, managerId: string)
    requires originalName in d.containers && backupName != originalName
    ensures var begun := Begin(d, originalName, backupName, managerId).1;
      var previous := d.containers[originalName];
      && (begun == InspectFailed <==> !AllWork(d, 1))
      && (begun == OwnedByOther <==> AllWork(d, 1) && Foreign(previous, managerId))
      && (begun.Begun? <==>
            && !Foreign(previous, managerId) && backupName !in d.containers
            && AllWork(d, if previous.running then 3 else 2))
  {
    var previous := d.containers[originalName];
    FirstWorks(d, Inspect(originalName));
    var d1 := Exec(d, Inspect(originalName)).0;
    AllWorkNext(d, 1, Inspect(originalName));
    AllWorkNext(d, 2, Inspect(originalName));
    if AllWork(d, 1) {
      if previous.running {
        FirstWorks(d1, Stop(originalName));
        AllWorkNext(d1, 1, Stop(originalName));
        FirstWorks(Exec(d1, Stop(originalName)).0, Rename(originalName, backupName));
      } else {
        FirstWorks(d1, Rename(originalName, backupName));
      }
    }
  }

  /** Where there is nothing to replace, a replacement begins with a look and nothing else. */
  lemma {:induction false} BeginsOnNothing(d: Docker, originalName: string, backupName: string, managerId: string)
    requires originalName !in d.containers
    ensures var (d', begun) := Begin(d, originalName, backupName, managerId);
      && d'.containers == d.containers
      && begun == if AllWork(d, 1) then Begun(Handle(originalName, backupName, false, false, Empty)) else InspectFailed
  {
    FirstWorks(d, Inspect(originalName));
  }

  // ----- commit and rollback

  /** A replacement that was committed or rolled back stays so: the same call does nothing, the other one throws. */
  lemma EndsOnce(d: Docker, h: Handle)
    ensures h.phase.Committed? ==> Commit(d, h) == (d, h, Returned) && Rollback(d, h) == (d, h, Threw)
    ensures h.phase.RolledBack? ==> Commit(d, h) == (d, h, Threw) && Rollback(d, h) == (d, h, Returned)
  {
  }

  /** A commit returns exactly when its one command works, and then the container that was moved aside is gone. */
  lemma {:induction false} CommitsIff(d: Docker, h: Handle)
    requires h.phase.Prepared? && h.hadPrevious
    ensures var (d', h', ended) := Commit(d, h);
      && (ended.Returned? <==> AllWork(d, 1))
      && (ended.Returned? ==> d'.containers == d.containers - {h.backupName} && h' == h.(phase := Committed))
      && (ended.Threw? ==> h' == h)
  {
    FirstWorks(d, Remove(h.backupName));
    assert h.backupName !in d.containers ==> d.containers - {h.backupName} == d.containers;
  }

  /** Without a container to bring back, a commit runs no command, and a rollback removes the new container. */
  lemma {:induction false} EndsOnNothing(d: Docker, h: Handle)
    requires h.phase.Empty? && !h.hadPrevious
    ensures Commit(d, h) == (d, h.(phase := Committed), Returned)
    ensures var (d', h', ended) := Rollback(d, h);
      && (ended.Returned? <==> AllWork(d, 1))
      && (ended.Returned? ==> d'.containers == d.containers - {h.originalName} && h' == h.(phase := RolledBack))
      && (ended.Threw? ==> h' == h)
  {
    FirstWorks(d, Remove(h.originalName));
    assert h.originalName !in d.containers ==> d.containers - {h.originalName} == d.containers;
  }

  /** A rollback returns exactly when all its commands work: it removes, looks, renames, and starts what ran before. */
  lemma {:induction false} RollsBackIff(d: Docker, h: Handle)
    requires h.phase.Prepared? && h.hadPrevious && h.backupName in d.containers && h.backupName != h.originalName
    ensures Rollback(d, h).2.Returned? <==> AllWork(d, if h.previousWasRunning then 4 else 3)
  {
    FirstWorks(d, Remove(h.originalName));
    var d1 := Exec(d, Remove(h.originalName)).0;
    AllWorkNext(d, 2, Remove(h.originalName));
    AllWorkNext(d, 3, Remove(h.originalName));
    if AllWork(d, 1) {
      assert d1.containers == d.containers - {h.originalName};
      FirstWorks(d1, Inspect(h.backupName));
      var d2 := Exec(d1, Inspect(h.backupName)).0;
      AllWorkNext(d1, 1, Inspect(h.backupName));
      AllWorkNext(d1, 2, Inspect(h.backupName));
      if AllWork(d1, 1) {
        RenamesBackIff(d2, h);
      }
    }
  }

  lemma RenamesBackIff(d: Docker, h: Handle)
    requires h.backupName in d.containers && h.originalName !in d.containers
    ensures var (d1, renamed) := Exec(d, Rename(h.backupName, h.originalName));
      && (renamed.Done? <==> AllWork(d, 1))
      && (AllWork(d, 2) <==> renamed.Done? && Exec(d1, Start(h.originalName)).1.Done?)
  {
    FirstWorks(d, Rename(h.backupName, h.originalName));
    var d1 := Exec(d, Rename(h.backupName, h.originalName)).0;
    FirstWorks(d1, Start(h.originalName));
    AllWorkNext(d, 1, Rename(h.backupName, h.originalName));
  }

  /** When the container that was moved aside is gone, a rollback still removes the new one and returns. */
  lemma {:induction false} RollsBackWithoutBackup(d: Docker, h: Handle)
    requires h.phase.Prepared? && h.hadPrevious && h.backupName !in d.containers
    ensures var (d', h', ended) := Rollback(d, h);
      && (ended.Returned? <==> AllWork(d, 2))
      && (ended.Returned? ==> d'.containers == d.containers - {h.originalName} && h' == h.(phase := RolledBack))
      && (ended.Threw? ==> h' == h)
  {
    FirstWorks(d, Remove(h.originalName));
    var d1 := Exec(d, Remove(h.originalName)).0;
    AllWorkNext(d, 1, Remove(h.originalName));
    assert h.originalName !in d.containers ==> d.containers - {h.originalName} == d.containers;
    FirstWorks(d1, Inspect(h.backupName));
  }
}
