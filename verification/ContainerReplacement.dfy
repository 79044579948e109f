/**
 Replacing a container as a transaction over Docker commands, any of which may
 fail, with or without having taken effect.
 */
module ContainerReplacement {
  import opened Wrappers

  datatype Container = Container(id: nat, owner: string, running: bool)

  type Containers = map<string, Container>

  datatype Command =
    | Inspect(name: string)
    | Stop(name: string)
    | Start(name: string)
    | Rename(name: string, newName: string)
    | Remove(name: string)

  /** What happens to one command; Lost took effect but its answer is an error. */
  datatype Fault = Works | Rejected | Lost

  datatype Reply = Done | Missing | Failed

  /** `faults` scripts the coming commands; `trace` holds the state after each command run so far. */
  datatype Docker = Docker(containers: Containers, faults: seq<Fault>, trace: seq<Containers>)

  function Effect(containers: Containers, command: Command): (Containers, Reply) {
    if command.name !in containers then (containers, Missing)
    else
      var container := containers[command.name];
      match command
      case Inspect(_) => (containers, Done)
      case Stop(name) => (containers[name := container.(running := false)], Done)
      case Start(name) => (containers[name := container.(running := true)], Done)
      case Rename(name, newName) =>
        if newName in containers then (containers, Failed)
        else ((containers - {name})[newName := container], Done)
      case Remove(name) => (containers - {name}, Done)
  }

  function Exec(d: Docker, command: Command): (Docker, Reply) {
    var fault := if d.faults == [] then Works else d.faults[0];
    var (after, reply) := Effect(d.containers, command);
    var containers := if fault.Rejected? then d.containers else after;
    (Docker(containers, if d.faults == [] then [] else d.faults[1..], d.trace + [containers]),
     if fault.Works? then reply else Failed)
  }

  datatype Phase = Empty | Prepared | Committed | RolledBack

  datatype Handle = Handle(originalName: string, backupName: string, hadPrevious: bool, previousWasRunning: bool,
                           phase: Phase)

  datatype Begun = Begun(handle: Handle) | InspectFailed | OwnedByOther | PrepareFailed

  /** The best effort to bring the previous container back when preparing failed. */
  function Abandon(d: Docker, name: string, wasRunning: bool): Docker {
    if wasRunning then Exec(d, Start(name)).0 else d
  }

  function Begin(d: Docker, originalName: string, backupName: string, managerId: string): (Docker, Begun) {
    var (d1, seen) := Exec(d, Inspect(originalName));
    match seen
    case Failed => (d1, InspectFailed)
    case Missing => (d1, Begun(Handle(originalName, backupName, false, false, Empty)))
    case Done =>
      var previous := d.containers[originalName];
      if previous.owner != "" && managerId != "" && previous.owner != managerId then (d1, OwnedByOther)
      else
        var (d2, stopped) := if previous.running then Exec(d1, Stop(originalName)) else (d1, Done);
        if !stopped.Done? then (Abandon(d2, originalName, previous.running), PrepareFailed)
        else
          var (d3, renamed) := Exec(d2, Rename(originalName, backupName));
          if !renamed.Done? then (Abandon(d3, originalName, previous.running), PrepareFailed)
          else (d3, Begun(Handle(originalName, backupName, true, previous.running, Prepared)))
  }

  /** Whether the commit or rollback returned, or threw. */
  datatype Ended = Returned | Threw

  function Commit(d: Docker, h: Handle): (Docker, Handle, Ended) {
    match h.phase
    case Committed => (d, h, Returned)
    case RolledBack => (d, h, Threw)
    case _ =>
      var (d1, removed) := if h.hadPrevious then Exec(d, Remove(h.backupName)) else (d, Missing);
      if removed.Failed? then (d1, h, Threw) else (d1, h.(phase := Committed), Returned)
  }

  function Rollback(d: Docker, h: Handle): (Docker, Handle, Ended) {
    match h.phase
    case RolledBack => (d, h, Returned)
    case Committed => (d, h, Threw)
    case _ =>
      var (d1, removed) := Exec(d, Remove(h.originalName));
      if removed.Failed? then (d1, h, Threw)
      else if !h.hadPrevious then (d1, h.(phase := RolledBack), Returned)
      else
        var (d2, seen) := Exec(d1, Inspect(h.backupName));
        match seen
        case Failed => (d2, h, Threw)
        case Missing => (d2, h.(phase := RolledBack), Returned)
        case Done =>
          var (d3, renamed) := Exec(d2, Rename(h.backupName, h.originalName));
          if !renamed.Done? then (d3, h, Threw)
          else
            var (d4, started) := if h.previousWasRunning then Exec(d3, Start(h.originalName)) else (d3, Done);
            if !started.Done? then (d4, h, Threw) else (d4, h.(phase := RolledBack), Returned)
  }

  // ----- the previous container survives

  predicate Holds(containers: Containers, name: string, id: nat) {
    name in containers && containers[name].id == id
  }

  predicate Survives(containers: Containers, originalName: string, backupName: string, id: nat) {
    Holds(containers, originalName, id) || Holds(containers, backupName, id)
  }

  /** Every state recorded between two Docker states keeps the container, and none is reached without being recorded. */
  ghost predicate SurvivesThroughout(d: Docker, d': Docker, originalName: string, backupName: string, id: nat) {
    && |d.trace| <= |d'.trace| && d'.trace[..|d.trace|] == d.trace
    && d'.containers == (if |d'.trace| == |d.trace| then d.containers else d'.trace[|d'.trace| - 1])
    && (forall i | |d.trace| <= i < |d'.trace| :: Survives(d'.trace[i], originalName, backupName, id))
    && Survives(d'.containers, originalName, backupName, id)
  }

  /** Nothing but the two names is touched. */
  ghost predicate OnlyTouches(before: Containers, after: Containers, originalName: string, backupName: string) {
    forall name | name != originalName && name != backupName ::
      (name in before <==> name in after) && (name in before ==> after[name] == before[name])
  }

  /** A command on the two names that does not remove the container itself. */
  predicate Harmless(d: Docker, command: Command, originalName: string, backupName: string, id: nat) {
    && command.name in {originalName, backupName}
    && (command.Rename? ==> command.newName in {originalName, backupName})
    && (command.Remove? ==> !Holds(d.containers, command.name, id))
  }

  ghost predicate Keeps(d: Docker, d': Docker, originalName: string, backupName: string, id: nat) {
    SurvivesThroughout(d, d', originalName, backupName, id) &&
      OnlyTouches(d.containers, d'.containers, originalName, backupName)
  }

  lemma ExecKeeps(d: Docker, command: Command, originalName: string, backupName: string, id: nat)
    requires Survives(d.containers, originalName, backupName, id) && Harmless(d, command, originalName, backupName, id)
    ensures Keeps(d, Exec(d, command).0, originalName, backupName, id)
  {
    var d' := Exec(d, command).0;
    assert Survives(d'.containers, originalName, backupName, id);
    assert forall i | |d.trace| <= i < |d'.trace| :: d'.trace[i] == d'.containers;
  }

  lemma KeepsTransitive(d: Docker, d1: Docker, d2: Docker, originalName: string, backupName: string, id: nat)
    requires Keeps(d, d1, originalName, backupName, id) && Keeps(d1, d2, originalName, backupName, id)
    ensures Keeps(d, d2, originalName, backupName, id)
  {
    assert d2.trace[..|d.trace|] == d1.trace[..|d.trace|];
    forall i | |d.trace| <= i < |d2.trace| ensures Survives(d2.trace[i], originalName, backupName, id) {
      if i < |d1.trace| { assert d2.trace[..|d1.trace|][i] == d1.trace[i]; }
    }
  }

  /** The state from which the container is safe: another command of the same kind keeps it. */
  lemma ThenExec(d: Docker, d1: Docker, command: Command, originalName: string, backupName: string, id: nat)
    requires Keeps(d, d1, originalName, backupName, id) && Harmless(d1, command, originalName, backupName, id)
    ensures Keeps(d, Exec(d1, command).0, originalName, backupName, id)
  {
    ExecKeeps(d1, command, originalName, backupName, id);
    KeepsTransitive(d, d1, Exec(d1, command).0, originalName, backupName, id);
  }

  /** Beginning a replacement never loses the previous container, whatever fails. */
  lemma {:induction false} BeginKeepsPrevious(d: Docker, originalName: string, backupName: string, managerId: string)
    requires originalName in d.containers
    ensures Keeps(d, Begin(d, originalName, backupName, managerId).0, originalName, backupName,
                  d.containers[originalName].id)
  {
    var previous := d.containers[originalName];
    ExecKeeps(d, Inspect(originalName), originalName, backupName, previous.id);
    var d1 := Exec(d, Inspect(originalName)).0;
    ThenExec(d, d1, Stop(originalName), originalName, backupName, previous.id);
    var d2 := if previous.running then Exec(d1, Stop(originalName)).0 else d1;
    ThenExec(d, d2, Start(originalName), originalName, backupName, previous.id);
    ThenExec(d, d2, Rename(originalName, backupName), originalName, backupName, previous.id);
    var d3 := Exec(d2, Rename(originalName, backupName)).0;
    ThenExec(d, d3, Start(originalName), originalName, backupName, previous.id);
  }

  /** What a replacement that began has done, and that a refused one did nothing. */
  lemma BeginOutcome(d: Docker, originalName: string, backupName: string, managerId: string)
    requires originalName in d.containers && backupName != originalName
    ensures var (d', begun) := Begin(d, originalName, backupName, managerId);
      var previous := d.containers[originalName];
      && (begun.Begun? ==>
            && begun.handle == Handle(originalName, backupName, true, previous.running, Prepared)
            && d'.containers == (d.containers - {originalName})[backupName := previous.(running := false)])
      && (begun.InspectFailed? || begun.OwnedByOther? ==> d'.containers == d.containers)
  {
    var previous := d.containers[originalName];
    var d1 := Exec(d, Inspect(originalName)).0;
    var (d2, stopped) := if previous.running then Exec(d1, Stop(originalName)) else (d1, Done);
    if stopped.Done? {
      assert d2.containers == d.containers[originalName := previous.(running := false)];
      assert d2.containers - {originalName} == d.containers - {originalName};
    }
  }

  /** A replacement begins only under a backup name that is free. */
  lemma BegunBackupIsNew(d: Docker, originalName: string, backupName: string, managerId: string)
    requires originalName in d.containers && Begin(d, originalName, backupName, managerId).1.Begun?
    ensures backupName !in d.containers
  {
    var previous := d.containers[originalName];
    var d1 := Exec(d, Inspect(originalName)).0;
    assert d1.containers == d.containers;
    var d2 := if previous.running then Exec(d1, Stop(originalName)).0 else d1;
    assert d2.containers.Keys == d.containers.Keys;
    assert Exec(d2, Rename(originalName, backupName)).1.Done?;
  }

  /** One rollback attempt keeps it as well, whatever fails. */
  lemma {:induction false} RollbackKeepsPrevious(d: Docker, h: Handle, id: nat)
    requires h.phase.Prepared? && h.hadPrevious
    requires Holds(d.containers, h.backupName, id) && !Holds(d.containers, h.originalName, id)
    ensures Keeps(d, Rollback(d, h).0, h.originalName, h.backupName, id)
  {
    ExecKeeps(d, Remove(h.originalName), h.originalName, h.backupName, id);
    var d1 := Exec(d, Remove(h.originalName)).0;
    ThenExec(d, d1, Inspect(h.backupName), h.originalName, h.backupName, id);
    var d2 := Exec(d1, Inspect(h.backupName)).0;
    ThenExec(d, d2, Rename(h.backupName, h.originalName), h.originalName, h.backupName, id);
    var d3 := Exec(d2, Rename(h.backupName, h.originalName)).0;
    ThenExec(d, d3, Start(h.originalName), h.originalName, h.backupName, id);
  }

  /** A rollback that returns has put the container back under its name and in its running state. */
  lemma RollbackRestores(d: Docker, h: Handle)
    requires h.phase.Prepared? && h.hadPrevious && h.backupName in d.containers && h.backupName != h.originalName
    ensures var (d', h', ended) := Rollback(d, h);
      var previous := d.containers[h.backupName];
      if ended.Returned? then
        && h'.phase.RolledBack?
        && d'.containers == (d.containers - {h.backupName})
             [h.originalName := if h.previousWasRunning then previous.(running := true) else previous]
      else h' == h
  {
    var previous := d.containers[h.backupName];
    var (d1, removed) := Exec(d, Remove(h.originalName));
    if removed.Done? || removed.Missing? {
      assert d1.containers == d.containers - {h.originalName};
      assert h.backupName in d1.containers;
      var d2 := Exec(d1, Inspect(h.backupName)).0;
      assert d2.containers == d1.containers;
      var (d3, renamed) := Exec(d2, Rename(h.backupName, h.originalName));
      if renamed.Done? {
        assert d3.containers == (d.containers - {h.backupName})[h.originalName := previous];
      }
    }
  }

  /** A commit touches the backup only, so the previous container is there until its own removal. */
  lemma CommitRemovesOnlyBackup(d: Docker, h: Handle)
    requires h.phase.Prepared? && h.hadPrevious
    ensures var (d', h', ended) := Commit(d, h);
      && (d'.containers == d.containers || d'.containers == d.containers - {h.backupName})
      && (ended.Returned? ==> h.backupName !in d'.containers && h'.phase.Committed?)
      && (ended.Threw? ==> h' == h)
  {
  }

  /**
   A retried rollback is safe exactly while the container still has its backup
   name, or when the removal that it begins with is refused: after a first
   attempt that got past the rename, the container has its original name back
   and the retry removes it.
   */
  lemma RetryKeepsPreviousIffBackup(d: Docker, h: Handle, id: nat)
    requires h.phase.Prepared? && h.hadPrevious && h.backupName != h.originalName
    requires Survives(d.containers, h.originalName, h.backupName, id)
    requires !(Holds(d.containers, h.originalName, id) && Holds(d.containers, h.backupName, id))
    ensures Survives(Rollback(d, h).0.containers, h.originalName, h.backupName, id)
            <==> Holds(d.containers, h.backupName, id) || (d.faults != [] && d.faults[0].Rejected?)
  {
    if Holds(d.containers, h.backupName, id) { RollbackKeepsPrevious(d, h, id); }
  }

  lemma BeginsOnOne(d: Docker, previous: Container)
    requires previous.running && previous.owner == "" && d.containers == map["app" := previous]
    requires |d.faults| >= 3 && d.faults[0] == d.faults[1] == d.faults[2] == Works
    ensures var (d1, begun) := Begin(d, "app", "app-backup", "");
      && begun == Begun(Handle("app", "app-backup", true, true, Prepared))
      && d1.containers == map["app-backup" := previous.(running := false)] && d1.faults == d.faults[3..]
  {
    BeginOutcome(d, "app", "app-backup", "");
    var d1 := Exec(d, Inspect("app")).0;
    assert d1.containers == d.containers && d1.faults == d.faults[1..];
    var d2 := Exec(d1, Stop("app")).0;
    assert d2.containers == map["app" := previous.(running := false)] && d2.faults == d.faults[2..];
    assert Exec(d2, Rename("app", "app-backup")).1.Done?;
  }

  lemma RestartRefused(d: Docker, h: Handle, stopped: Container)
    requires h == Handle("app", "app-backup", true, true, Prepared)
    requires d.containers == map["app-backup" := stopped] && d.faults == [Works, Works, Works, Rejected]
    ensures var (d', h', ended) := Rollback(d, h);
      ended.Threw? && h' == h && d'.containers == map["app" := stopped] && d'.faults == []
  {
    var d1 := Exec(d, Remove("app")).0;
    assert d1.containers == d.containers && d1.faults == [Works, Works, Rejected];
    var d2 := Exec(d1, Inspect("app-backup")).0;
    assert d2.containers == d.containers && d2.faults == [Works, Rejected];
    var d3 := Exec(d2, Rename("app-backup", "app")).0;
    assert d3.containers == map["app" := stopped] && d3.faults == [Rejected];
  }

  /** A rollback whose restart is refused, and a second one that returns: the container is gone. */
  lemma RetryLosesPrevious(d: Docker, previous: Container)
    requires previous.running && previous.owner == ""
    requires d == Docker(map["app" := previous], [Works, Works, Works, Works, Works, Works, Rejected], [])
    ensures var (d1, begun) := Begin(d, "app", "app-backup", "");
      && begun.Begun?
      && var (d2, h2, first) := Rollback(d1, begun.handle);
      && first.Threw? && Holds(d2.containers, "app", previous.id)
      && var (d3, h3, second) := Rollback(d2, h2);
      && second.Returned? && d3.containers == map[]
  {
    BeginsOnOne(d, previous);
    var d1 := Begin(d, "app", "app-backup", "").0;
    assert d1.faults == [Works, Works, Works, Rejected];
    var h := Handle("app", "app-backup", true, true, Prepared);
    RestartRefused(d1, h, previous.(running := false));
    var d2 := Rollback(d1, h).0;
    assert Exec(d2, Remove("app")).0.containers == map[];
  }

  /** A single refused command while preparing leaves everything as it was. */
  lemma RefusedPrepareRestores(d: Docker, originalName: string, backupName: string, managerId: string, k: nat)
    requires originalName in d.containers && backupName !in d.containers
    requires forall i | 0 <= i < |d.faults| :: if i == k then d.faults[i].Rejected? else d.faults[i].Works?
    ensures var (d', begun) := Begin(d, originalName, backupName, managerId);
      !begun.Begun? ==> d'.containers == d.containers
  {
    var previous := d.containers[originalName];
    var d1 := Exec(d, Inspect(originalName)).0;
    assert d1.containers == d.containers;
    var (d2, stopped) := if previous.running then Exec(d1, Stop(originalName)) else (d1, Done);
    var (d3, renamed) := Exec(d2, Rename(originalName, backupName));
    if !stopped.Done? {
      assert d2.containers == d.containers;
      assert Abandon(d2, originalName, true).containers == d.containers[originalName := previous];
    } else if !renamed.Done? {
      assert d3.containers == d2.containers == d.containers[originalName := previous.(running := false)];
      assert Abandon(d3, originalName, previous.running).containers == d.containers[originalName := previous];
    }
    assert d.containers[originalName := previous] == d.containers;
  }

  // ----- the running engine and the replacement object

  class Engine {
    var docker: Docker

    constructor (docker: Docker)
      ensures this.docker == docker
    {
      this.docker := docker;
    }

    method Run(command: Command) returns (reply: Reply)
      modifies this
      ensures (docker, reply) == Exec(old(docker), command)
    {
      var fault := Works;
      if docker.faults != [] {
        fault := docker.faults[0];
        docker := docker.(faults := docker.faults[1..]);
      }
      var (containers, answer) := Effect(docker.containers, command);
      if fault != Rejected {
        docker := docker.(containers := containers);
      }
      docker := docker.(trace := docker.trace + [docker.containers]);
      reply := if fault == Works then answer else Failed;
    }
  }

  class Replacement {
    const engine: Engine
    var handle: Handle

    constructor (engine: Engine, handle: Handle)
      ensures this.engine == engine && this.handle == handle
    {
      this.engine := engine;
      this.handle := handle;
    }

    method CommitReplacement() returns (ended: Ended)
      modifies this, engine
      ensures (engine.docker, handle, ended) == Commit(old(engine.docker), old(handle))
    {
      if handle.phase == Committed { return Returned; }
      if handle.phase == RolledBack { return Threw; }
      if handle.hadPrevious {
        var removed := engine.Run(Remove(handle.backupName));
        if removed == Failed { return Threw; }
      }
      handle := handle.(phase := Committed);
      return Returned;
    }

    method RollbackReplacement() returns (ended: Ended)
      modifies this, engine
      ensures (engine.docker, handle, ended) == Rollback(old(engine.docker), old(handle))
    {
      if handle.phase == RolledBack { return Returned; }
      if handle.phase == Committed { return Threw; }
      var removed := engine.Run(Remove(handle.originalName));
      if removed == Failed { return Threw; }
      if handle.hadPrevious {
        var seen := engine.Run(Inspect(handle.backupName));
        if seen == Failed { return Threw; }
        if seen == Done {
          var renamed := engine.Run(Rename(handle.backupName, handle.originalName));
          if renamed != Done { return Threw; }
          if handle.previousWasRunning {
            var started := engine.Run(Start(handle.originalName));
            if started != Done { return Threw; }
          }
        }
      }
      handle := handle.(phase := RolledBack);
      return Returned;
    }
  }

  method BeginReplacement(engine: Engine, originalName: string, backupName: string, managerId: string)
    returns (begun: Begun, replacement: Replacement?)
    modifies engine
    ensures (engine.docker, begun) == Begin(old(engine.docker), originalName, backupName, managerId)
    ensures begun.Begun? ==>
      replacement != null && fresh(replacement) && replacement.engine == engine && replacement.handle == begun.handle
    ensures !begun.Begun? ==> replacement == null
  {
    replacement := null;
    ghost var before := engine.docker;
    var seen := engine.Run(Inspect(originalName));
    if seen == Failed { return InspectFailed, null; }
    var handle := Handle(originalName, backupName, false, false, Empty);
    if seen == Done {
      var previous := engine.docker.containers[originalName];
      if previous.owner != "" && managerId != "" && previous.owner != managerId { return OwnedByOther, null; }
      var prepared := Done;
      if previous.running {
        prepared := engine.Run(Stop(originalName));
      }
      if prepared == Done {
        prepared := engine.Run(Rename(originalName, backupName));
      }
      if prepared != Done {
        if previous.running {
          var _ := engine.Run(Start(originalName));
        }
        return PrepareFailed, null;
      }
      handle := Handle(originalName, backupName, true, previous.running, Prepared);
    }
    replacement := new Replacement(engine, handle);
    begun := Begun(handle);
  }
}
