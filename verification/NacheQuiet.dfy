/** Stretches of a run in which rows stay as they are, calls are answered and no node of nache's account
    dies, while other accounts do as they like and nodes turn healthy. */
module NacheQuiet {
  import opened ChalaNames
  import opened Docker
  import opened Chala
  import opened NacheStore
  import opened NacheCompute
  import opened NacheReconciler
  import opened NacheRuns
  import opened Wrappers
  import Handlers = ChalaRuns

  // ---- The phases of a cluster ----

  datatype Phase = Gone | Dying | Missing | Half | Sick | Warming | Well(active: bool)

  function PhaseOf(cfg: Config, rows: Rows, d: Daemon, k: Key): Phase {
    var slot := NodeSlot(cfg.nache, k);
    if k !in rows then Gone
    else if rows[k].state == Deleting then Dying
    else if slot !in d.containers then Missing
    else
      var c := d.containers[slot];
      if StateOf(c.status) == Pending then Half
      else if StateOf(c.status) == Stopped || c.health == Unhealthy then Sick
      else if c.health == Healthy then Well(rows[k].state == Active)
      else Warming
  }

  function PhaseIn(cfg: Config, s: State, k: Key): Phase { PhaseOf(cfg, s.rows, s.chala.daemon, k) }

  /** How many passes, at the most, until nothing is left to do. */
  function Distance(p: Phase): nat {
    match p
    case Gone => 0
    case Dying => 1
    case Missing => 2
    case Half => 2
    case Sick => 3
    case Warming => 2
    case Well(active) => if active then 0 else 1
  }

  // ---- Quiet steps ----

  /** A container that lives on: it may have turned healthy. */
  predicate Aged(c: Container, c': Container) {
    && c'.id == c.id && c'.made == c.made && StateOf(c'.status) == StateOf(c.status)
    && (c'.health == c.health || (c'.health == Healthy && StateOf(c.status) == InService))
  }

  predicate Kept(d: Daemon, d': Daemon, slot: Slot) {
    && (slot in d.containers <==> slot in d'.containers)
    && (slot in d.containers && slot in d'.containers ==> Aged(d.containers[slot], d'.containers[slot]))
  }

  lemma KeptOn(d: Daemon, d1: Daemon, d2: Daemon, slot: Slot)
    requires Kept(d, d1, slot) && Kept(d1, d2, slot)
    ensures Kept(d, d2, slot)
  {}

  /** The terminate the pass waits for. */
  predicate OwnStop(cfg: Config, s: State, h: nat) {
    && At(s.pass) && s.pass.awaited == Some(h) && h in s.chala.stops
    && Head(s.pass) == Terminate(s.chala.stops[h].slot.name)
  }

  /** Nothing but the pass's own terminate takes a node away, and nodes only turn healthy.  A terminate left
      over from before may still be there, as long as it finds nothing to remove. */
  ghost predicate QuietCall(cfg: Config, s: State, step: Handlers.Step)
    requires Handlers.Enabled(cfg.chala, s.chala, step)
  {
    match step
    case StopCall(h) =>
      s.chala.stops[h].slot.account == cfg.nache && !OwnStop(cfg, s, h) ==>
        Handlers.After(cfg.chala, s.chala, step).daemon == s.chala.daemon
    case ChangeStatus(slot, status) =>
      slot.account == cfg.nache ==> StateOf(status) == StateOf(s.chala.daemon.containers[slot].status)
    case ChangeHealth(slot, health) =>
      slot.account == cfg.nache ==>
        health == Healthy && StateOf(s.chala.daemon.containers[slot].status) == InService
    case Vanish(slot) => slot.account != cfg.nache
    case _ => true
  }

  /** No row is changed but by the pass; nothing fails, except that chala refuses what it must: a node for a
      cluster of nache's own account. */
  ghost predicate Quiet(cfg: Config, s: State, step: Step)
    requires Enabled(cfg, s, step)
  {
    match step
    case CreateCall(_) => After(cfg, s, step).rows == s.rows
    case Delete(_) => After(cfg, s, step).rows == s.rows
    case Compute(step) => QuietCall(cfg, s, step)
    case Fail => Head(s.pass).RunNode? && Head(s.pass).key.account == cfg.nache
    case FailedStatement(_) => false
    case Crash => false
    case _ => true
  }

  // ---- Whose calls reach a node ----

  /** What nache has open is what its pass waits for. */
  ghost predicate OnlyOwn(cfg: Config, s: State) {
    forall h | h in s.chala.runs && OpenAsk(cfg, s.chala.runs[h]) ::
      At(s.pass) && s.pass.awaited == Some(h) && Head(s.pass) == RunNode(NodeKey(s.chala.runs[h].request))
  }

  /** A call of the pass that is about this slot. */
  ghost predicate Reaches(cfg: Config, s: State, step: Handlers.Step, slot: Slot) {
    || (step.RunCall? && step.h in s.chala.runs && OpenAsk(cfg, s.chala.runs[step.h])
        && SlotOf(s.chala.runs[step.h].request) == slot)
    || (step.StopCall? && OwnStop(cfg, s, step.h) && s.chala.stops[step.h].slot == slot)
  }

  /** Every other call leaves it alone. */
  lemma CallKeeps(cfg: Config, s: State, step: Handlers.Step, slot: Slot)
    requires Handlers.Enabled(cfg.chala, s.chala, step) && QuietCall(cfg, s, step)
    requires slot.account == cfg.nache && !Reaches(cfg, s, step, slot)
    ensures Kept(s.chala.daemon, Handlers.After(cfg.chala, s.chala, step).daemon, slot)
  {
    hide Validated, RunStep, TerminateStep, Handlers.ServiceOf, StateOf;
    match step {
      case RunCall(h) =>
        var r, pc := s.chala.runs[h].request, s.chala.runs[h].pc;
        if SlotOf(r) == slot {
          Handlers.AnsweredStays(s.chala.daemon, r, pc, cfg.chala.maxInstances);
        } else {
          Handlers.RunStepElsewhere(s.chala.daemon, r, pc, cfg.chala.maxInstances, slot);
        }
      case StopCall(h) =>
        if s.chala.stops[h].slot != slot {
          Handlers.StopElsewhere(s.chala.daemon, s.chala.stops[h].slot, s.chala.stops[h].pc, slot);
        }
      case _ =>
    }
  }

  lemma OnlyOwnOn(cfg: Config, s: State, step: Step)
    requires IsConfig(cfg) && Inv(cfg, s) && Enabled(cfg, s, step) && Quiet(cfg, s, step) && OnlyOwn(cfg, s)
    ensures OnlyOwn(cfg, After(cfg, s, step))
  {
    hide Handlers.Enabled, Handlers.After, Work, ListsAll, AreOrphans, AllIds, AfterCreateCall, AfterInspectOf,
      Marked, Applied, Answers, Answer, NodeKey, Inv, Nodes, OpenAsk, IsConfig, ValidKey;
    var s' := After(cfg, s, step);
    forall h | h in s'.chala.runs && OpenAsk(cfg, s'.chala.runs[h])
      ensures At(s'.pass) && s'.pass.awaited == Some(h)
      ensures Head(s'.pass) == RunNode(NodeKey(s'.chala.runs[h].request))
    {
      OpenOn(cfg, s, step, h);
    }
  }

  lemma OpenOn(cfg: Config, s: State, step: Step, h: nat)
    requires IsConfig(cfg) && Inv(cfg, s) && Enabled(cfg, s, step) && Quiet(cfg, s, step) && OnlyOwn(cfg, s)
    requires h in After(cfg, s, step).chala.runs && OpenAsk(cfg, After(cfg, s, step).chala.runs[h])
    ensures var s' := After(cfg, s, step);
      At(s'.pass) && s'.pass.awaited == Some(h) && Head(s'.pass) == RunNode(NodeKey(s'.chala.runs[h].request))
  {
    hide Handlers.Enabled, Handlers.After, Work, ListsAll, AreOrphans, AllIds, Marked, Applied, NodeKey, Inv, ValidKey;
    match step {
      case Compute(c) => Handlers.WhereOpenRunsComeFrom(cfg.chala, s.chala, c, h);
      case Send(g) =>
        Handlers.WhereOpenRunsComeFrom(cfg.chala, s.chala, Arrival(cfg, Head(s.pass), g), h);
        if Head(s.pass).RunNode? { KeyOfRequest(cfg, Head(s.pass).key); }
      case Fail => OwnIsNeverAsked(cfg, s, h);
      case _ =>
    }
  }

  lemma KeyOfRequest(cfg: Config, k: Key)
    ensures NodeKey(NodeRequest(cfg.nache, k)) == k
  {
    hide NodeName, Endpoint;
    TagKeysDiffer();
  }

  /** chala lets no request of nache's through that is for nache's own account. */
  lemma OwnIsNeverAsked(cfg: Config, s: State, h: nat)
    requires Inv(cfg, s) && h in s.chala.runs && OpenAsk(cfg, s.chala.runs[h])
    ensures NodeKey(s.chala.runs[h].request).account != cfg.nache
  {
    hide NodeName, Endpoint, NodeKey, Inv, Validated, IsInstanceName, IsClusterName;
    AskIsValid(cfg, s, h);
    AttachesElsewhere(cfg, s.chala.runs[h].request);
  }

  lemma AskIsValid(cfg: Config, s: State, h: nat)
    requires Inv(cfg, s) && h in s.chala.runs && OpenAsk(cfg, s.chala.runs[h])
    ensures var r := s.chala.runs[h].request;
      && r == NodeRequest(cfg.nache, NodeKey(r)) && ValidKey(NodeKey(r))
      && Validated(r, Handlers.ServiceOf(cfg.chala, r.account))
  {
    hide NodeRequest, NodeKey, Nodes, CreatesOk, PassOk, Handlers.GoodDaemon, Handlers.GoodPc, Validated, ValidKey;
    assert IsAsk(cfg, s.rows, s.chala.runs[h].request);
  }

  lemma AttachesElsewhere(cfg: Config, r: Request)
    requires r == NodeRequest(cfg.nache, NodeKey(r)) && ValidKey(NodeKey(r))
    requires Validated(r, Handlers.ServiceOf(cfg.chala, r.account))
    ensures NodeKey(r).account != cfg.nache
  {
    hide NodeName, Endpoint, NodeKey, IsInstanceName, IsClusterName, ValidTags;
  }
}
