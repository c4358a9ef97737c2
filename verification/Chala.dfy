/** The Docker daemon as its client documents it: a container name is taken once, connecting, starting
    and removing can be repeated, and nothing takes a container off a network. */
module Docker {
  import opened ChalaNames

  datatype Status = Created | Running | Paused | Restarting | Exited | Dead | Removing

  datatype Health = NoCheck | Starting | Healthy | Unhealthy

  /** Stands for the container name `ContainerName(account, name)`, which determines both. */
  datatype Slot = Slot(account: string, name: string)

  /** `made` is the request whose labels the container carries; labels never change. */
  datatype Container = Container(
    id: nat, made: Request, status: Status, health: Health, networks: set<string>)

  datatype Daemon = Daemon(containers: map<Slot, Container>, networks: set<string>, nextId: nat)

  function SlotOf(r: Request): Slot { Slot(r.account, r.name) }

  /** The container `id` is still there.  Containers are never renamed. */
  predicate Has(d: Daemon, slot: Slot, id: nat) {
    slot in d.containers && d.containers[slot].id == id
  }

  function EnsureNetwork(d: Daemon, network: string): Daemon {
    d.(networks := d.networks + {network})
  }

  function CreateContainer(d: Daemon, r: Request): Daemon
    requires SlotOf(r) !in d.containers
  {
    var c := Container(d.nextId, r, Created, Starting, {NetworkName(r.account)});
    d.(containers := d.containers[SlotOf(r) := c], nextId := d.nextId + 1)
  }

  function ConnectNetwork(d: Daemon, slot: Slot, id: nat, network: string): Daemon
    requires Has(d, slot, id)
  {
    var c := d.containers[slot];
    d.(containers := d.containers[slot := c.(networks := c.networks + {network})])
  }

  /** What the daemon will start, or finds started. */
  predicate CanStart(s: Status) { s == Created || s == Exited || s == Running || s == Restarting }

  function StartContainer(d: Daemon, slot: Slot, id: nat): Daemon
    requires Has(d, slot, id) && CanStart(d.containers[slot].status)
  {
    var c := d.containers[slot];
    if c.status == Created || c.status == Exited then
      d.(containers := d.containers[slot := c.(status := Running)])
    else d
  }

  /** Removing a container that is gone already is not an error. */
  function RemoveContainer(d: Daemon, slot: Slot, id: nat): Daemon {
    if Has(d, slot, id) then d.(containers := d.containers - {slot}) else d
  }

  function InstancesOf(d: Daemon, account: string): set<Slot> {
    set s | s in d.containers && s.account == account
  }
}

/** chala's handlers, one daemon call at a time. */
module Chala {
  import opened ChalaNames
  import opened Docker
  import opened Splitting

  datatype ErrorCode = IdempotencyMismatch | LimitExceeded | NotFound | Internal

  /** Where a RunInstance is: in front of its next daemon call, or answered.  The arguments are what it
      remembers of the container it inspected. */
  datatype Pc =
    | LookUp
    | Count
    | Prepare
    | Create
    | LookAgain
    | InspectNew(id: nat)
    | EnsureAttach(id: nat, fresh_: bool)
    | Attach(id: nat, fresh_: bool)
    | Start(id: nat)
    | Respond(id: nat)
    | Done(id: nat)
    | Failed(error: ErrorCode)

  predicate Answered(pc: Pc) { pc.Done? || pc.Failed? }

  /** The part of `finish` that is left after looking at the container. */
  function AfterInspect(c: Container, r: Request): Pc {
    if r.attach != "" && NetworkName(r.attach) !in c.networks then EnsureAttach(c.id, c.status == Created)
    else if c.status == Created then Start(c.id)
    else Respond(c.id)
  }

  /** `adopt`: the same request is finished, another one reusing the name is refused. */
  function Adopt(c: Container, r: Request): Pc {
    if Adopts(LabelsFor(c.made), r) then AfterInspect(c, r) else Failed(IdempotencyMismatch)
  }

  /** One daemon call of `runInstance`, for an account that may have `max` instances. */
  function RunStep(d: Daemon, r: Request, pc: Pc, max: nat): (Daemon, Pc) {
    var slot := SlotOf(r);
    match pc
    case LookUp => (d, if slot in d.containers then Adopt(d.containers[slot], r) else Count)
    case Count => (d, if |InstancesOf(d, r.account)| >= max then Failed(LimitExceeded) else Prepare)
    case Prepare => (EnsureNetwork(d, NetworkName(r.account)), Create)
    case Create =>
      if slot in d.containers then (d, LookAgain)
      else (CreateContainer(d, r), InspectNew(d.nextId))
    case LookAgain => (d, if slot in d.containers then Adopt(d.containers[slot], r) else Failed(Internal))
    case InspectNew(id) => (d, if Has(d, slot, id) then AfterInspect(d.containers[slot], r) else Failed(Internal))
    case EnsureAttach(id, f) => (EnsureNetwork(d, NetworkName(r.attach)), Attach(id, f))
    case Attach(id, f) =>
      if Has(d, slot, id) then
        (ConnectNetwork(d, slot, id, NetworkName(r.attach)), if f then Start(id) else Respond(id))
      else (d, Failed(Internal))
    case Start(id) =>
      if Has(d, slot, id) && CanStart(d.containers[slot].status) then
        (StartContainer(d, slot, id), Respond(id))
      else (d, Failed(Internal))
    case Respond(id) => (d, if Has(d, slot, id) then Done(id) else Failed(Internal))
    case Done(_) => (d, pc)
    case Failed(_) => (d, pc)
  }

  /** A terminate is a look-up by name and a removal by id. */
  datatype TerminatePc = Find | Remove(id: nat) | Removed | NotThere

  function TerminateStep(d: Daemon, slot: Slot, pc: TerminatePc): (Daemon, TerminatePc) {
    match pc
    case Find =>
      (d, if slot in d.containers && d.containers[slot].made.account == slot.account
          then Remove(d.containers[slot].id) else NotThere)
    case Remove(id) => (RemoveContainer(d, slot, id), Removed)
    case Removed => (d, pc)
    case NotThere => (d, pc)
  }

  // ---- One request with nothing in between ----

  /** How many calls may be left. */
  function CallsLeft(pc: Pc): nat {
    match pc
    case LookUp => 10
    case Count => 9
    case Prepare => 8
    case Create => 7
    case LookAgain => 6
    case InspectNew(_) => 5
    case EnsureAttach(_, _) => 4
    case Attach(_, _) => 3
    case Start(_) => 2
    case Respond(_) => 1
    case _ => 0
  }

  lemma StepDescends(d: Daemon, r: Request, pc: Pc, max: nat)
    requires !Answered(pc)
    ensures CallsLeft(RunStep(d, r, pc, max).1) < CallsLeft(pc)
  {
    hide Adopts, LabelsFor, InstancesOf, NetworkName, EnsureNetwork, CreateContainer, ConnectNetwork,
      StartContainer;
  }

  function RunToEnd(d: Daemon, r: Request, pc: Pc, max: nat): (res: (Daemon, Pc))
    ensures Answered(res.1)
    decreases CallsLeft(pc)
  {
    if Answered(pc) then (d, pc) else
    hide RunStep;
    StepDescends(d, r, pc, max);
    var (d', pc') := RunStep(d, r, pc, max);
    RunToEnd(d', r, pc', max)
  }

  lemma Unroll(d: Daemon, r: Request, pc: Pc, max: nat)
    ensures Answered(pc) ==> RunToEnd(d, r, pc, max) == (d, pc)
    ensures !Answered(pc) ==> var (d', pc') := RunStep(d, r, pc, max);
      RunToEnd(d, r, pc, max) == RunToEnd(d', r, pc', max)
  {
    hide RunStep;
  }

  function RunInstance(d: Daemon, r: Request, max: nat): (Daemon, Pc) { RunToEnd(d, r, LookUp, max) }

  /** The network a request wants its container on, besides its account's. */
  function AttachedNetworks(r: Request): set<string> {
    if r.attach == "" then {} else {NetworkName(r.attach)}
  }

  /** Attached and started. */
  function Finished(c: Container, r: Request): Container {
    c.(status := if c.status == Created then Running else c.status,
       networks := c.networks + AttachedNetworks(r))
  }

  lemma StartEnds(d: Daemon, r: Request, c: Container, max: nat)
    requires Has(d, SlotOf(r), c.id) && d.containers[SlotOf(r)] == c && c.status == Created
    ensures RunToEnd(d, r, Start(c.id), max)
      == (d.(containers := d.containers[SlotOf(r) := c.(status := Running)]), Done(c.id))
  {
    hide RunToEnd;
    var started := d.(containers := d.containers[SlotOf(r) := c.(status := Running)]);
    Unroll(d, r, Start(c.id), max);
    Unroll(started, r, Respond(c.id), max);
    Unroll(started, r, Done(c.id), max);
  }

  lemma AttachEnds(d: Daemon, r: Request, c: Container, max: nat)
    requires Has(d, SlotOf(r), c.id) && d.containers[SlotOf(r)] == c && r.attach != ""
    ensures var (d', pc) := RunToEnd(d, r, EnsureAttach(c.id, c.status == Created), max);
      d'.containers == d.containers[SlotOf(r) := Finished(c, r)] && d'.nextId == d.nextId && pc == Done(c.id)
  {
    hide RunToEnd, NetworkName;
    var slot, network := SlotOf(r), NetworkName(r.attach);
    var d1 := EnsureNetwork(d, network);
    var d2 := ConnectNetwork(d1, slot, c.id, network);
    Unroll(d, r, EnsureAttach(c.id, c.status == Created), max);
    Unroll(d1, r, Attach(c.id, c.status == Created), max);
    if c.status == Created {
      StartEnds(d2, r, d2.containers[slot], max);
    } else {
      Unroll(d2, r, Respond(c.id), max);
      Unroll(d2, r, Done(c.id), max);
    }
  }

  /** `finish` brings any container to where the request wants it. */
  lemma FinishEnds(d: Daemon, r: Request, c: Container, max: nat)
    requires Has(d, SlotOf(r), c.id) && d.containers[SlotOf(r)] == c
    ensures var (d', pc) := RunToEnd(d, r, AfterInspect(c, r), max);
      d'.containers == d.containers[SlotOf(r) := Finished(c, r)] && d'.nextId == d.nextId && pc == Done(c.id)
  {
    hide RunToEnd, NetworkName, RunStep;
    if r.attach != "" && NetworkName(r.attach) !in c.networks {
      AttachEnds(d, r, c, max);
    } else {
      assert c.networks + AttachedNetworks(r) == c.networks;
      if c.status == Created {
        StartEnds(d, r, c, max);
      } else {
        assert d.containers[SlotOf(r) := c] == d.containers;
        RespondEnds(d, r, c.id, max);
      }
    }
  }

  lemma RespondEnds(d: Daemon, r: Request, id: nat, max: nat)
    requires Has(d, SlotOf(r), id)
    ensures RunToEnd(d, r, Respond(id), max) == (d, Done(id))
  {
    hide RunToEnd;
    Unroll(d, r, Respond(id), max);
    Unroll(d, r, Done(id), max);
  }

  /** What comes of a name that is taken, once that was seen. */
  lemma AdoptEnds(d: Daemon, r: Request, max: nat)
    requires SlotOf(r) in d.containers
    ensures var c := d.containers[SlotOf(r)];
      var (d', pc) := RunToEnd(d, r, Adopt(c, r), max);
      if Adopts(LabelsFor(c.made), r) then
        && d'.containers == d.containers[SlotOf(r) := Finished(c, r)]
        && d'.nextId == d.nextId && pc == Done(c.id)
      else d' == d && pc == Failed(IdempotencyMismatch)
  {
    hide RunToEnd, LabelsFor, Adopts, AfterInspect;
    var c := d.containers[SlotOf(r)];
    if Adopts(LabelsFor(c.made), r) {
      FinishEnds(d, r, c, max);
    } else {
      Unroll(d, r, Failed(IdempotencyMismatch), max);
    }
  }

  lemma PutOnTakenName(d: Daemon, r: Request, max: nat)
    requires SlotOf(r) in d.containers
    ensures var c := d.containers[SlotOf(r)];
      var (d', pc) := RunInstance(d, r, max);
      if Adopts(LabelsFor(c.made), r) then
        && d'.containers == d.containers[SlotOf(r) := Finished(c, r)]
        && d'.nextId == d.nextId && pc == Done(c.id)
      else d' == d && pc == Failed(IdempotencyMismatch)
  {
    hide RunToEnd, LabelsFor, Adopts, AfterInspect, Adopt;
    Unroll(d, r, LookUp, max);
    AdoptEnds(d, r, max);
  }

  /** A PUT that loses the race for a name, at the create or just after it, comes to the same as one that found
      the name taken. */
  lemma LostRaceEnds(d: Daemon, r: Request, pc: Pc, max: nat)
    requires SlotOf(r) in d.containers && (pc == Create || pc == LookAgain)
    ensures var c := d.containers[SlotOf(r)];
      var (d', pc') := RunToEnd(d, r, pc, max);
      if Adopts(LabelsFor(c.made), r) then
        && d'.containers == d.containers[SlotOf(r) := Finished(c, r)]
        && d'.nextId == d.nextId && pc' == Done(c.id)
      else d' == d && pc' == Failed(IdempotencyMismatch)
  {
    hide RunToEnd, LabelsFor, Adopts, AfterInspect, Adopt;
    Unroll(d, r, Create, max);
    Unroll(d, r, LookAgain, max);
    AdoptEnds(d, r, max);
  }

  /** If the winner is gone again by then, there is nothing to adopt. */
  lemma LostNameEnds(d: Daemon, r: Request, max: nat)
    requires SlotOf(r) !in d.containers
    ensures RunToEnd(d, r, LookAgain, max) == (d, Failed(Internal))
  {
    hide RunToEnd;
    Unroll(d, r, LookAgain, max);
    Unroll(d, r, Failed(Internal), max);
  }

  lemma PutOnFreeName(d: Daemon, r: Request, max: nat)
    requires SlotOf(r) !in d.containers
    ensures var (d', pc) := RunInstance(d, r, max);
      if |InstancesOf(d, r.account)| < max then
        && d'.containers == d.containers[SlotOf(r) :=
             Container(d.nextId, r, Running, Starting, {NetworkName(r.account)} + AttachedNetworks(r))]
        && d'.nextId == d.nextId + 1 && pc == Done(d.nextId)
      else d' == d && pc == Failed(LimitExceeded)
  {
    hide RunToEnd, AfterInspect, NetworkName, InstancesOf;
    Unroll(d, r, LookUp, max);
    Unroll(d, r, Count, max);
    if |InstancesOf(d, r.account)| < max {
      var d1 := EnsureNetwork(d, NetworkName(r.account));
      var d2 := CreateContainer(d1, r);
      Unroll(d, r, Prepare, max);
      Unroll(d1, r, Create, max);
      Unroll(d2, r, InspectNew(d.nextId), max);
      FinishEnds(d2, r, d2.containers[SlotOf(r)], max);
    } else {
      Unroll(d, r, Failed(LimitExceeded), max);
    }
  }

  function TerminateInstance(d: Daemon, slot: Slot): (Daemon, TerminatePc) {
    var (d', pc') := TerminateStep(d, slot, Find);
    TerminateStep(d', slot, pc')
  }

  /** The server, its handlers in the order of their code. */
  class Server {
    const maxInstances: nat
    var daemon: Daemon

    constructor (daemon: Daemon, maxInstances: nat)
      ensures this.daemon == daemon && this.maxInstances == maxInstances
    {
      this.daemon := daemon;
      this.maxInstances := maxInstances;
    }

    method Run(r: Request) returns (answer: Pc)
      modifies this`daemon
      ensures (daemon, answer) == RunInstance(old(daemon), r, maxInstances)
    {
      hide Adopts, LabelsFor, AfterInspect, InstancesOf, NetworkName, CreateContainer, RunToEnd;
      var slot := SlotOf(r);
      ghost var d0, max := daemon, maxInstances;
      Unroll(d0, r, LookUp, max);
      if slot in daemon.containers {
        answer := AdoptExisting(daemon.containers[slot], r);
        return;
      }
      Unroll(d0, r, Count, max);
      if |InstancesOf(daemon, r.account)| >= maxInstances {
        Unroll(d0, r, Failed(LimitExceeded), max);
        return Failed(LimitExceeded);
      }
      daemon := EnsureNetwork(daemon, NetworkName(r.account));
      answer := CreateNew(r);
      Unroll(d0, r, Prepare, max);
    }

    /** Everything from the create on.  With nothing in between the name is still free. */
    method CreateNew(r: Request) returns (answer: Pc)
      requires SlotOf(r) !in daemon.containers
      modifies this`daemon
      ensures (daemon, answer) == RunToEnd(old(daemon), r, Create, maxInstances)
    {
      hide AfterInspect, NetworkName, RunToEnd;
      Unroll(daemon, r, Create, maxInstances);
      var id := daemon.nextId;
      daemon := CreateContainer(daemon, r);
      Unroll(daemon, r, InspectNew(id), maxInstances);
      answer := Finish(daemon.containers[SlotOf(r)], r);
    }

    method AdoptExisting(c: Container, r: Request) returns (answer: Pc)
      requires Has(daemon, SlotOf(r), c.id)
      modifies this`daemon
      ensures (daemon, answer) == RunToEnd(old(daemon), r, Adopt(c, r), maxInstances)
    {
      hide AfterInspect, TagsFrom, LabelsFor, Label;
      var labels := LabelsFor(c.made);
      var tags := ReadTags(labels);
      var same := SameTags(tags, r.tags);
      if Label(labels, LABEL_IMAGE) != r.image || !same
         || Label(labels, LABEL_ATTACH_ACCOUNT) != r.attach
         || Label(labels, LABEL_ATTACH_ALIASES) != Join(r.aliases, ',') {
        return Failed(IdempotencyMismatch);
      }
      answer := Finish(c, r);
    }

    /** Attached where it should be, then started. */
    method Finish(c: Container, r: Request) returns (answer: Pc)
      modifies this`daemon
      ensures (daemon, answer) == RunToEnd(old(daemon), r, AfterInspect(c, r), maxInstances)
    {
      hide RunToEnd, NetworkName, EnsureNetwork, ConnectNetwork, CanStart;
      var slot := SlotOf(r);
      if r.attach != "" {
        var network := NetworkName(r.attach);
        if network !in c.networks {
          Unroll(daemon, r, EnsureAttach(c.id, c.status == Created), maxInstances);
          daemon := EnsureNetwork(daemon, network);
          Unroll(daemon, r, Attach(c.id, c.status == Created), maxInstances);
          if !Has(daemon, slot, c.id) {
            Unroll(daemon, r, Failed(Internal), maxInstances);
            return Failed(Internal);
          }
          daemon := ConnectNetwork(daemon, slot, c.id, network);
        }
      }
      if c.status == Created {
        answer := StartIt(c.id, r);
      } else {
        answer := Describe(c.id, r);
      }
    }

    method StartIt(id: nat, r: Request) returns (answer: Pc)
      modifies this`daemon
      ensures (daemon, answer) == RunToEnd(old(daemon), r, Start(id), maxInstances)
    {
      hide RunToEnd;
      Unroll(daemon, r, Start(id), maxInstances);
      if !(Has(daemon, SlotOf(r), id) && CanStart(daemon.containers[SlotOf(r)].status)) {
        Unroll(daemon, r, Failed(Internal), maxInstances);
        return Failed(Internal);
      }
      daemon := StartContainer(daemon, SlotOf(r), id);
      answer := Describe(id, r);
    }

    /** `respondWith` */
    method Describe(id: nat, r: Request) returns (answer: Pc)
      ensures (daemon, answer) == RunToEnd(daemon, r, Respond(id), maxInstances)
    {
      answer := if Has(daemon, SlotOf(r), id) then Done(id) else Failed(Internal);
    }

    method Terminate(slot: Slot) returns (answer: TerminatePc)
      modifies this`daemon
      ensures (daemon, answer) == TerminateInstance(old(daemon), slot)
    {
      if slot !in daemon.containers || daemon.containers[slot].made.account != slot.account {
        return NotThere;
      }
      daemon := RemoveContainer(daemon, slot, daemon.containers[slot].id);
      return Removed;
    }
  }
}
