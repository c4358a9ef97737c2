/** Any number of RunInstance and TerminateInstance handlers over one daemon, interleaved call by call,
    dropped at any point, while containers stop, change health and disappear on their own. */
module ChalaRuns {
  import opened ChalaNames
  import opened Docker
  import opened Chala
  import opened Sets

  /** What chala is told at boot. */
  datatype Config = Config(maxInstances: nat, services: map<string, string>)

  function ServiceOf(cfg: Config, account: string): string {
    if account in cfg.services then cfg.services[account] else ""
  }

  datatype RunHandler = RunHandler(request: Request, pc: Pc)

  datatype StopHandler = StopHandler(slot: Slot, pc: TerminatePc)

  /** Handlers have arbitrary distinct numbers. */
  datatype State = State(daemon: Daemon, runs: map<nat, RunHandler>, stops: map<nat, StopHandler>)

  datatype Step =
    | Arrive(h: nat, request: Request)
    | ArriveStop(h: nat, slot: Slot)
    | RunCall(h: nat)
    | StopCall(h: nat)
    | DropRun(h: nat)
    | DropStop(h: nat)
    | ChangeStatus(slot: Slot, status: Status)
    | ChangeHealth(slot: Slot, health: Health)
    | Vanish(slot: Slot)

  ghost predicate Enabled(cfg: Config, s: State, step: Step) {
    match step
    // A PUT that passed validation.
    case Arrive(h, r) => h !in s.runs && Validated(r, ServiceOf(cfg, r.account))
    case ArriveStop(h, _) => h !in s.stops
    case RunCall(h) => h in s.runs
    case StopCall(h) => h in s.stops
    // Answered, or the caller went away, a daemon call failed, or chala died.
    case DropRun(h) => h in s.runs
    case DropStop(h) => h in s.stops
    // Only a start takes a container out of `created`; a removal is one step.
    case ChangeStatus(slot, status) =>
      slot in s.daemon.containers && s.daemon.containers[slot].status != Created && status != Created
    case ChangeHealth(slot, _) => slot in s.daemon.containers
    case Vanish(slot) => slot in s.daemon.containers
  }

  function Update(d: Daemon, slot: Slot, c: Container): Daemon {
    d.(containers := d.containers[slot := c])
  }

  ghost function After(cfg: Config, s: State, step: Step): State
    requires Enabled(cfg, s, step)
  {
    match step
    case Arrive(h, r) => s.(runs := s.runs[h := RunHandler(r, LookUp)])
    case ArriveStop(h, slot) => s.(stops := s.stops[h := StopHandler(slot, Find)])
    case RunCall(h) =>
      var RunHandler(r, pc) := s.runs[h];
      var (d, pc') := RunStep(s.daemon, r, pc, cfg.maxInstances);
      s.(daemon := d, runs := s.runs[h := RunHandler(r, pc')])
    case StopCall(h) =>
      var StopHandler(slot, pc) := s.stops[h];
      var (d, pc') := TerminateStep(s.daemon, slot, pc);
      s.(daemon := d, stops := s.stops[h := StopHandler(slot, pc')])
    case DropRun(h) => s.(runs := s.runs - {h})
    case DropStop(h) => s.(stops := s.stops - {h})
    case ChangeStatus(slot, status) =>
      s.(daemon := Update(s.daemon, slot, s.daemon.containers[slot].(status := status)))
    case ChangeHealth(slot, health) =>
      s.(daemon := Update(s.daemon, slot, s.daemon.containers[slot].(health := health)))
    case Vanish(slot) => s.(daemon := s.daemon.(containers := s.daemon.containers - {slot}))
  }

  const EMPTY := State(Daemon(map[], {}, 0), map[], map[])

  /** A run is a sequence of steps, each enabled where it is taken. */
  ghost predicate IsRun(cfg: Config, steps: seq<Step>, states: seq<State>) {
    && |states| == |steps| + 1
    && states[0] == EMPTY
    && forall i | 0 <= i < |steps| ::
         Enabled(cfg, states[i], steps[i]) && states[i + 1] == After(cfg, states[i], steps[i])
  }

  // ---- What every step keeps ----

  /** The networks a container may be on: its account's, and the one it is attached to. */
  function OwnNetworks(r: Request): set<string> { {NetworkName(r.account)} + AttachedNetworks(r) }

  ghost predicate GoodContainer(cfg: Config, d: Daemon, slot: Slot)
    requires slot in d.containers
  {
    var c := d.containers[slot];
    && c.id < d.nextId
    && SlotOf(c.made) == slot
    && Validated(c.made, ServiceOf(cfg, slot.account))
    && c.networks <= OwnNetworks(c.made)
    && (c.made.attach != "" && c.status != Created ==> NetworkName(c.made.attach) in c.networks)
  }

  /** The container a handler works on, if it is still there, is one its request describes; it is attached by
      the time the handler would start it, and started by the time it would answer. */
  ghost predicate GoodTarget(d: Daemon, r: Request, id: nat, attached: bool, started: bool) {
    && id < d.nextId
    && (Has(d, SlotOf(r), id) ==>
          var c := d.containers[SlotOf(r)];
          && SameAsk(c.made, r)
          && (attached && r.attach != "" ==> NetworkName(r.attach) in c.networks)
          && (started ==> c.status != Created))
  }

  ghost predicate GoodPc(d: Daemon, r: Request, pc: Pc) {
    match pc
    case InspectNew(id) => GoodTarget(d, r, id, false, false)
    case EnsureAttach(id, f) => r.attach != "" && GoodTarget(d, r, id, false, !f)
    case Attach(id, f) => r.attach != "" && GoodTarget(d, r, id, false, !f)
    case Start(id) => GoodTarget(d, r, id, true, false)
    case Respond(id) => GoodTarget(d, r, id, true, true)
    case Done(id) => GoodTarget(d, r, id, true, true)
    case _ => true
  }

  ghost predicate GoodDaemon(cfg: Config, d: Daemon) {
    forall slot | slot in d.containers :: GoodContainer(cfg, d, slot)
  }

  ghost predicate GoodRuns(cfg: Config, s: State) {
    forall h | h in s.runs ::
      && Validated(s.runs[h].request, ServiceOf(cfg, s.runs[h].request.account))
      && GoodPc(s.daemon, s.runs[h].request, s.runs[h].pc)
  }

  ghost predicate Inv(cfg: Config, s: State) {
    && GoodDaemon(cfg, s.daemon)
    && GoodRuns(cfg, s)
    && forall h | h in s.stops && s.stops[h].pc.Remove? :: s.stops[h].pc.id < s.daemon.nextId
  }

  /** From `d` to `d'` containers may go, come with new ids, gain networks and change status,
      but not back to `created`. */
  ghost predicate Evolves(d: Daemon, d': Daemon) {
    && d.nextId <= d'.nextId
    && forall slot, id: nat | Has(d', slot, id) && id < d.nextId ::
         && Has(d, slot, id)
         && d'.containers[slot].made == d.containers[slot].made
         && d.containers[slot].networks <= d'.containers[slot].networks
         && (d.containers[slot].status != Created ==> d'.containers[slot].status != Created)
  }

  lemma PcEvolves(d: Daemon, d': Daemon, r: Request, pc: Pc)
    requires Evolves(d, d') && GoodPc(d, r, pc)
    ensures GoodPc(d', r, pc)
  {
    hide SlotOf, NetworkName, SameAsk;
  }

  lemma AfterInspectGood(cfg: Config, d: Daemon, r: Request)
    requires SlotOf(r) in d.containers && GoodContainer(cfg, d, SlotOf(r))
    requires SameAsk(d.containers[SlotOf(r)].made, r)
    ensures GoodPc(d, r, AfterInspect(d.containers[SlotOf(r)], r))
  {
    hide Validated, NetworkName;
  }

  lemma AdoptGood(cfg: Config, d: Daemon, r: Request)
    requires SlotOf(r) in d.containers && GoodContainer(cfg, d, SlotOf(r))
    requires Validated(r, ServiceOf(cfg, r.account))
    ensures GoodPc(d, r, Adopt(d.containers[SlotOf(r)], r))
  {
    hide Validated, Adopts, AfterInspect, SameAsk, LabelsFor;
    var c := d.containers[SlotOf(r)];
    AdoptsExactly(c.made, ServiceOf(cfg, r.account), r, ServiceOf(cfg, r.account));
    if Adopts(LabelsFor(c.made), r) {
      AfterInspectGood(cfg, d, r);
    }
  }

  lemma CreateGood(cfg: Config, d: Daemon, r: Request)
    requires GoodDaemon(cfg, d) && Validated(r, ServiceOf(cfg, r.account)) && SlotOf(r) !in d.containers
    ensures var d' := CreateContainer(d, r);
      GoodDaemon(cfg, d') && Evolves(d, d') && GoodTarget(d', r, d.nextId, false, false)
  {
    hide Validated, NetworkName;
  }

  lemma ConnectGood(cfg: Config, d: Daemon, r: Request, id: nat, started: bool)
    requires GoodDaemon(cfg, d) && r.attach != "" && GoodTarget(d, r, id, false, started) && Has(d, SlotOf(r), id)
    ensures var d' := ConnectNetwork(d, SlotOf(r), id, NetworkName(r.attach));
      GoodDaemon(cfg, d') && Evolves(d, d') && GoodTarget(d', r, id, true, started)
  {
    hide Validated, NetworkName;
  }

  /** A start never takes a container that is not attached out of `created`. */
  lemma StartGood(cfg: Config, d: Daemon, r: Request, id: nat)
    requires GoodDaemon(cfg, d) && GoodTarget(d, r, id, true, false)
    requires Has(d, SlotOf(r), id) && CanStart(d.containers[SlotOf(r)].status)
    ensures var d' := StartContainer(d, SlotOf(r), id);
      GoodDaemon(cfg, d') && Evolves(d, d') && GoodTarget(d', r, id, true, true)
  {
    hide Validated, NetworkName, OwnNetworks;
  }

  lemma EnsureGood(cfg: Config, d: Daemon, r: Request, id: nat, network: string, started: bool)
    requires GoodDaemon(cfg, d)
    ensures var d' := EnsureNetwork(d, network);
      && GoodDaemon(cfg, d') && Evolves(d, d')
      && (GoodTarget(d, r, id, false, started) ==> GoodTarget(d', r, id, false, started))
  {
    hide Validated, NetworkName, OwnNetworks;
  }

  lemma EvolvesSelf(d: Daemon)
    ensures Evolves(d, d)
  {}

  lemma RunStepGood(cfg: Config, d: Daemon, r: Request, pc: Pc, max: nat)
    requires GoodDaemon(cfg, d) && GoodPc(d, r, pc) && Validated(r, ServiceOf(cfg, r.account))
    ensures var (d', pc') := RunStep(d, r, pc, max);
      GoodDaemon(cfg, d') && GoodPc(d', r, pc') && Evolves(d, d')
  {
    hide Validated, Adopt, AfterInspect, NetworkName, InstancesOf, Evolves, GoodDaemon, GoodTarget, GoodContainer,
      CreateContainer, ConnectNetwork, StartContainer, EnsureNetwork;
    var slot := SlotOf(r);
    EvolvesSelf(d);
    assert slot in d.containers ==> GoodContainer(cfg, d, slot) by { InDaemon(cfg, d, slot); }
    match pc {
      case LookUp => if slot in d.containers { AdoptGood(cfg, d, r); }
      case Prepare => EnsureGood(cfg, d, r, 0, NetworkName(r.account), false);
      case Create => if slot !in d.containers { CreateGood(cfg, d, r); }
      case LookAgain => if slot in d.containers { AdoptGood(cfg, d, r); }
      case InspectNew(id) => if Has(d, slot, id) { InspectGood(cfg, d, r, id); }
      case EnsureAttach(id, f) => EnsureGood(cfg, d, r, id, NetworkName(r.attach), !f);
      case Attach(id, f) => if Has(d, slot, id) { ConnectGood(cfg, d, r, id, !f); }
      case Start(id) =>
        if Has(d, slot, id) && CanStart(d.containers[slot].status) { StartGood(cfg, d, r, id); }
      case _ =>
    }
  }

  lemma InDaemon(cfg: Config, d: Daemon, slot: Slot)
    requires GoodDaemon(cfg, d)
    ensures slot in d.containers ==> GoodContainer(cfg, d, slot)
  {}

  lemma InspectGood(cfg: Config, d: Daemon, r: Request, id: nat)
    requires GoodDaemon(cfg, d) && GoodTarget(d, r, id, false, false) && Has(d, SlotOf(r), id)
    ensures GoodPc(d, r, AfterInspect(d.containers[SlotOf(r)], r))
  {
    hide Validated, NetworkName, OwnNetworks, AfterInspect, GoodPc;
    AfterInspectGood(cfg, d, r);
  }

  lemma TerminateStepGood(cfg: Config, d: Daemon, slot: Slot, pc: TerminatePc)
    requires GoodDaemon(cfg, d) && (pc.Remove? ==> pc.id < d.nextId)
    ensures var (d', pc') := TerminateStep(d, slot, pc);
      GoodDaemon(cfg, d') && Evolves(d, d') && (pc'.Remove? ==> pc'.id < d'.nextId)
  {
    hide Validated, OwnNetworks;
  }

  lemma EnvironmentGood(cfg: Config, s: State, step: Step)
    requires GoodDaemon(cfg, s.daemon) && Enabled(cfg, s, step)
    requires step.ChangeStatus? || step.ChangeHealth? || step.Vanish?
    ensures var d' := After(cfg, s, step).daemon;
      GoodDaemon(cfg, d') && Evolves(s.daemon, d')
  {
    hide Validated, OwnNetworks, NetworkName, RunStep, TerminateStep;
  }

  lemma StepKeeps(cfg: Config, s: State, step: Step)
    requires Inv(cfg, s) && Enabled(cfg, s, step)
    ensures Inv(cfg, After(cfg, s, step))
    ensures Evolves(s.daemon, After(cfg, s, step).daemon)
  {
    hide Validated, RunStep, TerminateStep, GoodPc, GoodContainer;
    var s' := After(cfg, s, step);
    assert GoodDaemon(cfg, s'.daemon) && Evolves(s.daemon, s'.daemon) by {
      DaemonKeeps(cfg, s, step);
    }
    forall h | h in s'.runs
      ensures Validated(s'.runs[h].request, ServiceOf(cfg, s'.runs[h].request.account))
      ensures GoodPc(s'.daemon, s'.runs[h].request, s'.runs[h].pc)
    {
      RunKeeps(cfg, s, step, h);
    }
    forall h | h in s'.stops && s'.stops[h].pc.Remove?
      ensures s'.stops[h].pc.id < s'.daemon.nextId
    {
      if step.StopCall? && step.h == h {
        TerminateStepGood(cfg, s.daemon, s.stops[h].slot, s.stops[h].pc);
      }
    }
  }

  lemma DaemonKeeps(cfg: Config, s: State, step: Step)
    requires Inv(cfg, s) && Enabled(cfg, s, step)
    ensures var s' := After(cfg, s, step);
      GoodDaemon(cfg, s'.daemon) && Evolves(s.daemon, s'.daemon)
  {
    hide Validated, RunStep, TerminateStep, GoodPc, GoodContainer;
    match step {
      case RunCall(h) =>
        RunStepGood(cfg, s.daemon, s.runs[h].request, s.runs[h].pc, cfg.maxInstances);
      case StopCall(h) => TerminateStepGood(cfg, s.daemon, s.stops[h].slot, s.stops[h].pc);
      case ChangeStatus(_, _) => EnvironmentGood(cfg, s, step);
      case ChangeHealth(_, _) => EnvironmentGood(cfg, s, step);
      case Vanish(_) => EnvironmentGood(cfg, s, step);
      case _ =>
    }
  }

  lemma RunKeeps(cfg: Config, s: State, step: Step, h: nat)
    requires Inv(cfg, s) && Enabled(cfg, s, step) && h in After(cfg, s, step).runs
    ensures var s' := After(cfg, s, step);
      && Validated(s'.runs[h].request, ServiceOf(cfg, s'.runs[h].request.account))
      && GoodPc(s'.daemon, s'.runs[h].request, s'.runs[h].pc)
  {
    hide Validated, RunStep, TerminateStep, GoodContainer, GoodTarget;
    DaemonKeeps(cfg, s, step);
    var s' := After(cfg, s, step);
    if step.RunCall? && step.h == h {
      RunStepGood(cfg, s.daemon, s.runs[h].request, s.runs[h].pc, cfg.maxInstances);
    } else if h in s.runs && s'.runs[h] == s.runs[h] {
      PcEvolves(s.daemon, s'.daemon, s.runs[h].request, s.runs[h].pc);
    } else {
      assert step.Arrive? && step.h == h;
    }
  }

  /** A step makes no container but the one its handler asks for. */
  lemma WhereContainersComeFrom(cfg: Config, s: State, step: Step, slot: Slot)
    requires Enabled(cfg, s, step) && slot in After(cfg, s, step).daemon.containers
    ensures var d, c := s.daemon, After(cfg, s, step).daemon.containers[slot];
      || (slot in d.containers && d.containers[slot].id == c.id && d.containers[slot].made == c.made)
      || (&& step.RunCall? && step.h in s.runs && !Answered(s.runs[step.h].pc)
          && s.runs[step.h].request == c.made && SlotOf(c.made) == slot && c.id == d.nextId)
  {
    hide Validated, RunStep, TerminateStep, ServiceOf;
    match step {
      case RunCall(h) => RunStepAdds(s.daemon, s.runs[h].request, s.runs[h].pc, cfg.maxInstances, slot);
      case StopCall(h) => TerminateAdds(s.daemon, s.stops[h].slot, s.stops[h].pc, slot);
      case _ =>
    }
  }

  lemma RunStepAdds(d: Daemon, r: Request, pc: Pc, max: nat, slot: Slot)
    requires slot in RunStep(d, r, pc, max).0.containers
    ensures var c := RunStep(d, r, pc, max).0.containers[slot];
      || (slot in d.containers && d.containers[slot].id == c.id && d.containers[slot].made == c.made)
      || (pc.Create? && c.made == r && SlotOf(r) == slot && c.id == d.nextId)
  {
    hide Adopts, LabelsFor, NetworkName, InstancesOf, AfterInspect;
  }

  /** A call of a handler is about its own slot only. */
  lemma RunStepElsewhere(d: Daemon, r: Request, pc: Pc, max: nat, slot: Slot)
    requires slot != SlotOf(r)
    ensures var d' := RunStep(d, r, pc, max).0;
      && (slot in d'.containers <==> slot in d.containers)
      && (slot in d.containers ==> d'.containers[slot] == d.containers[slot])
  {
    hide Adopts, LabelsFor, NetworkName, InstancesOf, AfterInspect;
  }

  lemma StopElsewhere(d: Daemon, target: Slot, pc: TerminatePc, slot: Slot)
    requires slot != target
    ensures var d' := TerminateStep(d, target, pc).0;
      && (slot in d'.containers <==> slot in d.containers)
      && (slot in d.containers ==> d'.containers[slot] == d.containers[slot])
  {}

  lemma TerminateAdds(d: Daemon, target: Slot, pc: TerminatePc, slot: Slot)
    requires slot in TerminateStep(d, target, pc).0.containers
    ensures slot in d.containers && d.containers[slot] == TerminateStep(d, target, pc).0.containers[slot]
  {}

  /** A handler that is at work was at work before, or has just arrived. */
  lemma WhereOpenRunsComeFrom(cfg: Config, s: State, step: Step, h: nat)
    requires Enabled(cfg, s, step)
    requires h in After(cfg, s, step).runs && !Answered(After(cfg, s, step).runs[h].pc)
    ensures var r := After(cfg, s, step).runs[h].request;
      || (h in s.runs && s.runs[h].request == r && !Answered(s.runs[h].pc))
      || (step.Arrive? && step.h == h && step.request == r)
  {
    hide Validated, TerminateStep, ServiceOf, RunStep;
    if step.RunCall? && step.h == h {
      AnsweredStays(s.daemon, s.runs[h].request, s.runs[h].pc, cfg.maxInstances);
    }
  }

  lemma AnsweredStays(d: Daemon, r: Request, pc: Pc, max: nat)
    ensures Answered(pc) ==> RunStep(d, r, pc, max) == (d, pc)
  {}

  /** A terminate cannot come to a good end while the container it found is there. */
  predicate StopOk(s: State, h: nat, slot: Slot) {
    h in s.stops && s.stops[h].slot == slot && slot in s.daemon.containers ==>
      match s.stops[h].pc
      case Find => true
      case Remove(id) => s.daemon.containers[slot].id == id
      case Removed => false
      case NotThere => false
  }

  lemma StopKept(cfg: Config, s: State, step: Step, h: nat, slot: Slot)
    requires Inv(cfg, s) && Enabled(cfg, s, step) && StopOk(s, h, slot)
    requires var d, d' := s.daemon, After(cfg, s, step).daemon;
      slot in d'.containers ==> slot in d.containers && d.containers[slot].id == d'.containers[slot].id
    ensures StopOk(After(cfg, s, step), h, slot)
  {
    hide Validated, RunStep, ServiceOf, OwnNetworks, GoodRuns;
    var s' := After(cfg, s, step);
    if step.StopCall? && step.h == h && slot in s'.daemon.containers {
      assert GoodContainer(cfg, s.daemon, slot);
    }
  }

  lemma {:induction false} RunsKeep(cfg: Config, steps: seq<Step>, states: seq<State>, i: nat)
    requires IsRun(cfg, steps, states) && i < |states|
    ensures Inv(cfg, states[i])
  {
    hide Enabled, After;
    if i > 0 {
      RunsKeep(cfg, steps, states, i - 1);
      StepKeeps(cfg, states[i - 1], steps[i - 1]);
    }
  }

  /** Whatever the interleaving, a container with an attach label is on that account's network before
      it is ever past `created`, and on no network but its own account's and that one. */
  lemma AttachedBeforeStarted(cfg: Config, steps: seq<Step>, states: seq<State>, i: nat, slot: Slot)
    requires IsRun(cfg, steps, states) && i < |states| && slot in states[i].daemon.containers
    ensures var c := states[i].daemon.containers[slot];
      && (c.made.attach != "" && c.status != Created ==> NetworkName(c.made.attach) in c.networks)
      && (forall n | n in c.networks ::
            n == NetworkName(slot.account) || (c.made.attach != "" && n == NetworkName(c.made.attach)))
  {
    hide IsRun, Validated;
    RunsKeep(cfg, steps, states, i);
    assert GoodContainer(cfg, states[i].daemon, slot);
  }

  // ---- The quota ----

  /** Past the quota check, in front of the create. */
  predicate Admitted(h: RunHandler) { h.pc.Prepare? || h.pc.Create? }

  /** The PUTs of an account that were counted and can still create. */
  function AdmittedRuns(s: State, account: string): set<nat> {
    set h | h in s.runs && s.runs[h].request.account == account && Admitted(s.runs[h])
  }

  /** The names an account has, or is about to have. */
  function Names(s: State, account: string): set<Slot> {
    InstancesOf(s.daemon, account)
    + set h | h in AdmittedRuns(s, account) :: SlotOf(s.runs[h].request)
  }

  /** Only a create adds a name, and only the count admits one. */
  lemma RunStepNames(d: Daemon, r: Request, pc: Pc, max: nat, account: string)
    ensures var (d', pc') := RunStep(d, r, pc, max);
      && InstancesOf(d', account) <= InstancesOf(d, account)
           + (if pc.Create? && r.account == account then {SlotOf(r)} else {})
      && (pc'.Prepare? || pc'.Create? ==> d'.containers == d.containers && (pc.Count? || pc.Prepare?))
      && (pc.Count? ==> d' == d)
      && (pc.Count? && pc'.Prepare? ==> |InstancesOf(d, r.account)| < max)
  {
    hide RunStep;
    RunStepAdmits(d, r, pc, max);
    forall slot | slot in RunStep(d, r, pc, max).0.containers
      ensures slot in d.containers || (pc.Create? && slot == SlotOf(r))
    {
      RunStepAdds(d, r, pc, max, slot);
    }
  }

  lemma RunStepAdmits(d: Daemon, r: Request, pc: Pc, max: nat)
    ensures var (d', pc') := RunStep(d, r, pc, max);
      && (pc'.Prepare? || pc'.Create? ==> d'.containers == d.containers && (pc.Count? || pc.Prepare?))
      && (pc.Count? ==> d' == d)
      && (pc.Count? && pc'.Prepare? ==> |InstancesOf(d, r.account)| < max)
  {
    hide Adopts, LabelsFor, NetworkName, InstancesOf;
  }

  lemma NamesShrink(cfg: Config, s: State, step: Step, account: string)
    requires Enabled(cfg, s, step)
    requires step.RunCall? ==> !s.runs[step.h].pc.Count? || s.runs[step.h].request.account != account
    ensures Names(After(cfg, s, step), account) <= Names(s, account)
  {
    hide Validated, RunStep, TerminateStep, ServiceOf;
    match step {
      case RunCall(h) =>
        RunStepNames(s.daemon, s.runs[h].request, s.runs[h].pc, cfg.maxInstances, account);
      case StopCall(h) => TerminateShrinks(s.daemon, s.stops[h].slot, s.stops[h].pc, account);
      case _ =>
    }
  }

  lemma TerminateShrinks(d: Daemon, slot: Slot, pc: TerminatePc, account: string)
    ensures InstancesOf(TerminateStep(d, slot, pc).0, account) <= InstancesOf(d, account)
  {}

  lemma NamesAreFew(s: State, account: string)
    ensures |Names(s, account)| <= |InstancesOf(s.daemon, account)| + |AdmittedRuns(s, account)|
  {
    var runs := AdmittedRuns(s, account);
    var admitted := set h | h in runs :: SlotOf(s.runs[h].request);
    ImageSize(runs, admitted, h requires h in s.runs => SlotOf(s.runs[h].request));
    UnionSize(InstancesOf(s.daemon, account), admitted);
  }

  lemma QuotaStep(cfg: Config, s: State, step: Step, account: string, k: nat)
    requires Enabled(cfg, s, step) && k >= 1
    requires |AdmittedRuns(After(cfg, s, step), account)| <= k
    requires |Names(s, account)| <= cfg.maxInstances + k - 1
    ensures |Names(After(cfg, s, step), account)| <= cfg.maxInstances + k - 1
  {
    hide RunStep, TerminateStep, Names, AdmittedRuns, InstancesOf, Validated, ServiceOf;
    var s' := After(cfg, s, step);
    if step.RunCall? && s.runs[step.h].pc.Count? && s.runs[step.h].request.account == account {
      var r := s.runs[step.h].request;
      RunStepNames(s.daemon, r, Count, cfg.maxInstances, account);
      if s'.runs[step.h].pc.Prepare? {
        NamesAreFew(s', account);
      } else {
        CountRefuses(cfg, s, step.h, account);
        SubsetSize(Names(s', account), Names(s, account));
      }
    } else {
      NamesShrink(cfg, s, step, account);
      SubsetSize(Names(s', account), Names(s, account));
    }
  }

  lemma CountRefuses(cfg: Config, s: State, h: nat, account: string)
    requires h in s.runs && s.runs[h].pc.Count? && !After(cfg, s, RunCall(h)).runs[h].pc.Prepare?
    ensures Names(After(cfg, s, RunCall(h)), account) <= Names(s, account)
  {}

  lemma NoNames(account: string)
    ensures Names(EMPTY, account) == {}
  {}

  lemma {:induction false} QuotaHolds(cfg: Config, steps: seq<Step>, states: seq<State>, i: nat,
                                      account: string, k: nat)
    requires IsRun(cfg, steps, states) && i < |states| && k >= 1
    requires forall j | 0 <= j <= i :: |AdmittedRuns(states[j], account)| <= k
    ensures |Names(states[i], account)| <= cfg.maxInstances + k - 1
  {
    hide Enabled, After, Names, AdmittedRuns;
    if i == 0 {
      NoNames(account);
    } else {
      QuotaHolds(cfg, steps, states, i - 1, account, k);
      var j := i - 1;
      assert states[j + 1] == After(cfg, states[j], steps[j]);
      QuotaStep(cfg, states[j], steps[j], account, k);
    }
  }

  /** With at most `k` of its PUTs between their count and their create at any time, an account overshoots by
      less than `k`. */
  lemma QuotaOvershootsByLessThanAdmitted(cfg: Config, steps: seq<Step>, states: seq<State>, i: nat,
                                          account: string, k: nat)
    requires IsRun(cfg, steps, states) && i < |states| && k >= 1
    requires forall j | 0 <= j <= i :: |AdmittedRuns(states[j], account)| <= k
    ensures |set slot | slot in states[i].daemon.containers && slot.account == account| <= cfg.maxInstances + k - 1
  {
    hide IsRun, AdmittedRuns;
    QuotaHolds(cfg, steps, states, i, account, k);
    var instances := set slot | slot in states[i].daemon.containers && slot.account == account;
    assert instances == InstancesOf(states[i].daemon, account);
    SubsetSize(instances, Names(states[i], account));
  }

  // ---- A retry ends what a crash left ----

  /** However a container was left behind, the same PUT, undisturbed, leaves it running and attached,
      and touches no other; a different PUT of that name is refused and changes nothing. */
  lemma RetryFinishes(cfg: Config, steps: seq<Step>, states: seq<State>, i: nat, r: Request)
    requires IsRun(cfg, steps, states) && i < |states| && SlotOf(r) in states[i].daemon.containers
    requires Validated(r, ServiceOf(cfg, r.account))
    ensures var d, slot := states[i].daemon, SlotOf(r);
      var c := d.containers[slot];
      var (d', pc) := RunInstance(d, r, cfg.maxInstances);
      if SameAsk(c.made, r) then
        && pc == Done(c.id)
        && slot in d'.containers && d'.containers - {slot} == d.containers - {slot}
        && d'.containers[slot].status == (if c.status == Created then Running else c.status)
        && d.containers[slot].networks <= d'.containers[slot].networks
        && (r.attach != "" ==> NetworkName(r.attach) in d'.containers[slot].networks)
      else pc == Failed(IdempotencyMismatch) && d' == d
  {
    hide IsRun, Validated, RunInstance, LabelsFor, Adopts, SameAsk;
    RunsKeep(cfg, steps, states, i);
    var d := states[i].daemon;
    assert GoodContainer(cfg, d, SlotOf(r));
    AdoptsExactly(d.containers[SlotOf(r)].made, ServiceOf(cfg, r.account), r, ServiceOf(cfg, r.account));
    PutOnTakenName(d, r, cfg.maxInstances);
  }

  /** In every state of every run: a PUT that lost the race for its name, left to itself, finishes the winner's
      container if that is what it asked for, is refused if not, and fails if the container is gone. */
  lemma RaceEnds(cfg: Config, steps: seq<Step>, states: seq<State>, i: nat, h: nat)
    requires IsRun(cfg, steps, states) && i < |states|
    requires h in states[i].runs && states[i].runs[h].pc == LookAgain
    ensures var d, r := states[i].daemon, states[i].runs[h].request;
      var slot := SlotOf(r);
      var (d', pc) := RunToEnd(d, r, LookAgain, cfg.maxInstances);
      if slot !in d.containers then d' == d && pc == Failed(Internal)
      else if !SameAsk(d.containers[slot].made, r) then d' == d && pc == Failed(IdempotencyMismatch)
      else
        && pc == Done(d.containers[slot].id)
        && slot in d'.containers && d'.containers - {slot} == d.containers - {slot}
        && d'.containers[slot].status !in {Created} && (r.attach != "" ==>
             NetworkName(r.attach) in d'.containers[slot].networks)
  {
    hide IsRun, Validated, RunToEnd, LabelsFor, Adopts, SameAsk, NetworkName, GoodPc;
    RunsKeep(cfg, steps, states, i);
    var d, r := states[i].daemon, states[i].runs[h].request;
    if SlotOf(r) in d.containers {
      assert GoodContainer(cfg, d, SlotOf(r));
      AdoptsExactly(d.containers[SlotOf(r)].made, ServiceOf(cfg, r.account), r, ServiceOf(cfg, r.account));
      LostRaceEnds(d, r, LookAgain, cfg.maxInstances);
    } else {
      LostNameEnds(d, r, cfg.maxInstances);
    }
  }

  // ---- What an answer means ----

  /** A PUT is answered with a container only if it is there, made by the same request, attached as asked and
      started; and with an error only for its own reason, at the call that shows it. */
  ghost predicate Meant(cfg: Config, d: Daemon, r: Request, before: Pc, pc: Pc) {
    var slot := SlotOf(r);
    match pc
    case Done(id) =>
      && slot in d.containers && d.containers[slot].id == id
      && SameAsk(d.containers[slot].made, r) && d.containers[slot].status != Created
      && (r.attach != "" ==> NetworkName(r.attach) in d.containers[slot].networks)
    case Failed(error) =>
      (match error
       case LimitExceeded => |set s | s in d.containers && s.account == r.account| >= cfg.maxInstances
       case IdempotencyMismatch => slot in d.containers && !SameAsk(d.containers[slot].made, r)
       case Internal => IsLost(d, slot, before)
       case NotFound => false)
    case _ => true
  }

  lemma StepMeans(cfg: Config, d: Daemon, r: Request, pc: Pc)
    requires GoodPc(d, r, pc) && !Answered(pc)
    requires SlotOf(r) in d.containers ==>
      (Adopts(LabelsFor(d.containers[SlotOf(r)].made), r) <==> SameAsk(d.containers[SlotOf(r)].made, r))
    ensures Meant(cfg, d, r, pc, RunStep(d, r, pc, cfg.maxInstances).1)
  {
    hide NetworkName, LabelsFor, Adopts, SameAsk;
    assert (set s | s in d.containers && s.account == r.account) == InstancesOf(d, r.account);
  }

  lemma AnswersMean(cfg: Config, steps: seq<Step>, states: seq<State>, i: nat, h: nat)
    requires IsRun(cfg, steps, states) && i < |steps| && steps[i] == RunCall(h)
    ensures h in states[i].runs && h in states[i + 1].runs
    ensures !Answered(states[i].runs[h].pc) ==>
      Meant(cfg, states[i].daemon, states[i].runs[h].request, states[i].runs[h].pc, states[i + 1].runs[h].pc)
  {
    hide Validated, RunStep, LabelsFor, Adopts, SameAsk, Meant, GoodPc;
    assert Enabled(cfg, states[i], steps[i]) && states[i + 1] == After(cfg, states[i], steps[i]);
    RunsKeep(cfg, steps, states, i);
    var d, r := states[i].daemon, states[i].runs[h].request;
    if SlotOf(r) in d.containers {
      assert GoodContainer(cfg, d, SlotOf(r));
      AdoptsExactly(d.containers[SlotOf(r)].made, ServiceOf(cfg, r.account), r, ServiceOf(cfg, r.account));
    }
    if !Answered(states[i].runs[h].pc) {
      StepMeans(cfg, d, r, states[i].runs[h].pc);
    }
  }

  /** The container a handler was at is gone, or is in no state to be started. */
  predicate IsLost(d: Daemon, slot: Slot, pc: Pc) {
    match pc
    case LookAgain => slot !in d.containers
    case InspectNew(id) => slot !in d.containers || d.containers[slot].id != id
    case Attach(id, _) => slot !in d.containers || d.containers[slot].id != id
    case Start(id) =>
      slot !in d.containers || d.containers[slot].id != id || d.containers[slot].status in {Paused, Dead, Removing}
    case Respond(id) => slot !in d.containers || d.containers[slot].id != id
    case _ => false
  }

  /** A PUT that starts its container leaves it running, or about to. */
  lemma StartRuns(cfg: Config, steps: seq<Step>, states: seq<State>, i: nat, h: nat)
    requires IsRun(cfg, steps, states) && i < |steps| && steps[i] == RunCall(h)
    requires h in states[i].runs && states[i].runs[h].pc.Start?
    ensures h in states[i + 1].runs
    ensures states[i + 1].runs[h].pc.Respond? ==>
      var slot, d := SlotOf(states[i].runs[h].request), states[i + 1].daemon;
      slot in d.containers && d.containers[slot].status in {Running, Restarting}
  {
    hide Validated;
    assert Enabled(cfg, states[i], steps[i]) && states[i + 1] == After(cfg, states[i], steps[i]);
  }

  /** A terminate takes away the container it found, never one that has come in its place, and no other. */
  lemma StopsOnlyWhatItFound(cfg: Config, steps: seq<Step>, states: seq<State>, i: nat, h: nat, slot: Slot)
    requires IsRun(cfg, steps, states) && i < |steps| && steps[i] == StopCall(h) && slot in states[i].daemon.containers
    ensures h in states[i].stops
    ensures slot !in states[i + 1].daemon.containers ==>
      states[i].stops[h] == StopHandler(slot, Remove(states[i].daemon.containers[slot].id))
    ensures slot in states[i + 1].daemon.containers ==>
      states[i + 1].daemon.containers[slot] == states[i].daemon.containers[slot]
  {
    hide Validated;
    assert Enabled(cfg, states[i], steps[i]) && states[i + 1] == After(cfg, states[i], steps[i]);
  }

  // ---- Networks ----

  /** A network is there before a container is put on it. */
  ghost predicate NetworksOk(s: State) {
    && (forall slot, n | slot in s.daemon.containers && n in s.daemon.containers[slot].networks ::
          n in s.daemon.networks)
    && (forall h | h in s.runs :: PcNetworkOk(s.daemon, s.runs[h].request, s.runs[h].pc))
  }

  predicate PcNetworkOk(d: Daemon, r: Request, pc: Pc) {
    match pc
    case Create => NetworkName(r.account) in d.networks
    case Attach(_, _) => NetworkName(r.attach) in d.networks
    case _ => true
  }

  lemma RunStepNetworks(d: Daemon, r: Request, pc: Pc, max: nat)
    requires PcNetworkOk(d, r, pc)
    requires forall slot, n | slot in d.containers && n in d.containers[slot].networks :: n in d.networks
    ensures var (d', pc') := RunStep(d, r, pc, max);
      && d.networks <= d'.networks && PcNetworkOk(d', r, pc')
      && forall slot, n | slot in d'.containers && n in d'.containers[slot].networks :: n in d'.networks
  {
    hide Adopts, LabelsFor, NetworkName, InstancesOf;
  }

  lemma NetworksStep(cfg: Config, s: State, step: Step)
    requires Enabled(cfg, s, step) && NetworksOk(s)
    ensures NetworksOk(After(cfg, s, step))
  {
    hide Validated, RunStep, ServiceOf, NetworkName;
    if step.RunCall? {
      RunStepNetworks(s.daemon, s.runs[step.h].request, s.runs[step.h].pc, cfg.maxInstances);
    }
  }

  lemma {:induction false} NetworksExist(cfg: Config, steps: seq<Step>, states: seq<State>, i: nat)
    requires IsRun(cfg, steps, states) && i < |states|
    ensures NetworksOk(states[i])
  {
    hide Enabled, After;
    if i > 0 {
      NetworksExist(cfg, steps, states, i - 1);
      var j := i - 1;
      assert states[j + 1] == After(cfg, states[j], steps[j]);
      NetworksStep(cfg, states[j], steps[j]);
    }
  }

  // ---- Who may attach ----

  /** In every run a container that is attached is that of a service, to another account's network, under names
      of that account and that service alone. */
  lemma OnlyServicesAttach(cfg: Config, steps: seq<Step>, states: seq<State>, i: nat, slot: Slot)
    requires IsRun(cfg, steps, states) && i < |states| && slot in states[i].daemon.containers
    ensures var made := states[i].daemon.containers[slot].made;
      && (made.attach == "" ==> made.aliases == [])
      && (made.attach != "" ==>
            && slot.account in cfg.services && cfg.services[slot.account] != ""
            && IsAccountId(made.attach) && made.attach != slot.account && |made.aliases| <= 4
            && forall a | a in made.aliases :: exists host ::
                 IsInstanceName(host)
                 && a == host + "." + made.attach + "." + cfg.services[slot.account] + ".dariya.internal")
  {
    hide IsRun, IsInstanceName, IsAccountId, ValidTags, GoodRuns;
    RunsKeep(cfg, steps, states, i);
    assert GoodContainer(cfg, states[i].daemon, slot);
    var made := states[i].daemon.containers[slot].made;
    AttachIff(made.account, ServiceOf(cfg, made.account), made.attach, made.aliases);
  }
}
