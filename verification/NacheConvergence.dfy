/** Left alone with its rows, nache makes them true: from any reachable state three passes are enough,
    whatever other accounts do meanwhile. */
module NacheConvergence {
  import opened ChalaNames
  import opened Docker
  import opened Chala
  import opened NacheStore
  import opened NacheCompute
  import opened NacheReconciler
  import opened NacheRuns
  import opened NacheQuiet
  import opened NacheListing
  import opened NachePass
  import opened Wrappers
  import Handlers = ChalaRuns

  // ---- Passes of a run ----

  ghost predicate QuietRun(cfg: Config, steps: seq<Step>, states: seq<State>, a: nat, b: nat) {
    && IsConfig(cfg) && IsRun(cfg, steps, states) && b <= |steps|
    && forall i | a <= i < b :: Quiet(cfg, states[i], steps[i])
  }

  predicate NoBoundary(steps: seq<Step>, a: nat, b: nat) {
    b <= |steps| && forall i | a <= i < b :: !steps[i].BeginPass? && !steps[i].EndPass?
  }

  /** The pass that step `b` begins and step `e` ends. */
  predicate IsPass(steps: seq<Step>, b: nat, e: nat) {
    b < e < |steps| && steps[b].BeginPass? && steps[e].EndPass? && NoBoundary(steps, b + 1, e)
  }

  lemma RunStepAt(cfg: Config, steps: seq<Step>, states: seq<State>, a: nat, b: nat, i: nat)
    requires QuietRun(cfg, steps, states, a, b) && a <= i < b
    ensures Enabled(cfg, states[i], steps[i]) && Quiet(cfg, states[i], steps[i])
    ensures states[i + 1] == After(cfg, states[i], steps[i]) && Inv(cfg, states[i]) && Inv(cfg, states[i + 1])
  {
    hide Enabled, After, Quiet, Inv, IsConfig;
    RunsKeep(cfg, steps, states, i);
    RunsKeep(cfg, steps, states, i + 1);
  }

  lemma PassBegins(cfg: Config, s: State, step: Step)
    requires Enabled(cfg, s, step) && step.BeginPass?
    ensures InPass(cfg, s, After(cfg, s, step)) && OnlyOwn(cfg, After(cfg, s, step))
    ensures After(cfg, s, step).rows == s.rows && After(cfg, s, step).chala == s.chala && s.pass.Idle?
  {
    hide ListsAll, OpenAsk;
    SameSelf(cfg, s);
    SameDaemon(cfg, s, After(cfg, s, step));
  }

  lemma {:induction false} PassGoes(cfg: Config, steps: seq<Step>, states: seq<State>, b: nat, i: nat)
    requires QuietRun(cfg, steps, states, b, i) && b < i && steps[b].BeginPass? && NoBoundary(steps, b + 1, i)
    requires NoneTerminating(cfg, states[b])
    ensures InPass(cfg, states[b], states[i]) && OnlyOwn(cfg, states[i])
    decreases i
  {
    hide Enabled, After, Quiet, Inv, InPass, OnlyOwn, NoneTerminating, QuietRun;
    RunStepAt(cfg, steps, states, b, i, i - 1);
    ConfigOf(cfg, steps, states, b, i);
    if i == b + 1 {
      PassBegins(cfg, states[b], steps[b]);
    } else {
      QuietPart(cfg, steps, states, b, i, b, i - 1);
      PassGoes(cfg, steps, states, b, i - 1);
      PassOn(cfg, states[b], states[i - 1], steps[i - 1]);
      OnlyOwnOn(cfg, states[i - 1], steps[i - 1]);
    }
  }

  lemma ConfigOf(cfg: Config, steps: seq<Step>, states: seq<State>, a: nat, b: nat)
    requires QuietRun(cfg, steps, states, a, b)
    ensures IsConfig(cfg) && |states| == |steps| + 1 && b <= |steps|
  {}

  /** What a pass has done to every cluster, whatever came in between. */
  lemma QuietPassDoes(cfg: Config, steps: seq<Step>, states: seq<State>, b: nat, e: nat)
    requires IsPass(steps, b, e) && QuietRun(cfg, steps, states, b, e + 1) && NoneTerminating(cfg, states[b])
    ensures Passed(cfg, states[b], states[e + 1])
    ensures states[e + 1].pass.Idle? && OnlyOwn(cfg, states[e + 1])
  {
    hide Quiet, Inv, InPass, OnlyOwn, NoneTerminating, QuietRun, IsConfig, Passed, Handlers.After, Handlers.Enabled;
    RunStepAt(cfg, steps, states, b, e + 1, e);
    ConfigOf(cfg, steps, states, b, e + 1);
    QuietPart(cfg, steps, states, b, e + 1, b, e);
    PassGoes(cfg, steps, states, b, e);
    PassEnds(cfg, states[b], states[e]);
    OnlyOwnOn(cfg, states[e], steps[e]);
  }

  /** Between two passes nothing of nache's changes, but that nodes may turn healthy. */
  lemma {:induction false} Rests(cfg: Config, steps: seq<Step>, states: seq<State>, a: nat, b: nat)
    requires a <= b && NoBoundary(steps, a, b) && QuietRun(cfg, steps, states, a, b)
    requires states[a].pass.Idle? && OnlyOwn(cfg, states[a])
    ensures SameSoFar(cfg, states[a], states[b]) && states[b].pass.Idle? && OnlyOwn(cfg, states[b])
    decreases b
  {
    hide Enabled, After, Quiet, Inv, OnlyOwn, SameSoFar, QuietRun, IsConfig;
    ConfigOf(cfg, steps, states, a, b);
    if a == b {
      SameSelf(cfg, states[a]);
    } else {
      QuietPart(cfg, steps, states, a, b, a, b - 1);
      Rests(cfg, steps, states, a, b - 1);
      RunStepAt(cfg, steps, states, a, b, b - 1);
      NothingChanges(cfg, states[b - 1], steps[b - 1]);
      SameOn(cfg, states[a], states[b - 1], states[b]);
      OnlyOwnOn(cfg, states[b - 1], steps[b - 1]);
      StaysIdle(cfg, states[b - 1], steps[b - 1]);
    }
  }

  lemma QuietPart(cfg: Config, steps: seq<Step>, states: seq<State>, a: nat, b: nat, a': nat, b': nat)
    requires QuietRun(cfg, steps, states, a, b) && a <= a' && b' <= b
    ensures QuietRun(cfg, steps, states, a', b')
  {
    hide Quiet, IsConfig;
  }

  lemma StaysIdle(cfg: Config, s: State, step: Step)
    requires Enabled(cfg, s, step) && s.pass.Idle? && !step.BeginPass?
    ensures After(cfg, s, step).pass.Idle?
  {
    hide Handlers.Enabled, Handlers.After, CreateStep, Marked;
  }

  // ---- The measure ----

  /** Every node that is up is healthy. */
  ghost predicate AllHealthy(cfg: Config, s: State) {
    forall slot | slot in s.chala.daemon.containers && slot.account == cfg.nache ::
      StateOf(s.chala.daemon.containers[slot].status) == InService ==>
        s.chala.daemon.containers[slot].health == Healthy
  }

  /** chala refuses nodes to clusters of nache's own account: such a row stays without one. */
  predicate IsMade(cfg: Config, rows: Rows, k: Key) {
    k.account != cfg.nache || (k in rows && rows[k].state == Deleting)
  }

  lemma PhaseFalls(cfg: Config, s0: State, s1: State, s2: State, k: Key, q: Phase)
    requires k in s0.rows && Turned(PhaseIn(cfg, s0, k), q) && Becomes(cfg, s0.rows, s1, k, q)
    requires SameSoFar(cfg, s1, s2) && AllHealthy(cfg, s2) && IsMade(cfg, s0.rows, k)
    ensures Distance(PhaseIn(cfg, s2, k)) < Distance(PhaseIn(cfg, s0, k))
      || Distance(PhaseIn(cfg, s2, k)) == Distance(PhaseIn(cfg, s0, k)) == 0
  {
    hide NodeName;
    assert Kept(s1.chala.daemon, s2.chala.daemon, NodeSlot(cfg.nache, k));
  }

  /** A pass, and the time up to the next one. */
  ghost predicate Round(cfg: Config, steps: seq<Step>, states: seq<State>, b: nat, e: nat, b': nat) {
    && IsPass(steps, b, e) && e < b' && NoBoundary(steps, e + 1, b')
    && QuietRun(cfg, steps, states, b, b') && NoneTerminating(cfg, states[b])
  }

  lemma RoundDoes(cfg: Config, steps: seq<Step>, states: seq<State>, b: nat, e: nat, b': nat)
    requires Round(cfg, steps, states, b, e, b')
    ensures b' < |states| && Passed(cfg, states[b], states[e + 1]) && SameSoFar(cfg, states[e + 1], states[b'])
    ensures states[b'].pass.Idle? && OnlyOwn(cfg, states[b'])
  {
    hide QuietRun, Passed, SameSoFar, NoneTerminating, OnlyOwn;
    ConfigOf(cfg, steps, states, b, b');
    QuietPart(cfg, steps, states, b, b', b, e + 1);
    QuietPart(cfg, steps, states, b, b', e + 1, b');
    QuietPassDoes(cfg, steps, states, b, e);
    Rests(cfg, steps, states, e + 1, b');
  }

  lemma RoundHas(cfg: Config, steps: seq<Step>, states: seq<State>, b: nat, e: nat, b': nat)
    requires Round(cfg, steps, states, b, e, b')
    ensures b < e < b' < |states| && QuietRun(cfg, steps, states, b, b')
  {
    hide Quiet, IsConfig;
  }

  /** The measure of every cluster falls from one pass to the next. */
  lemma PassFalls(cfg: Config, steps: seq<Step>, states: seq<State>, b: nat, e: nat, b': nat, k: Key)
    requires Round(cfg, steps, states, b, e, b') && b' < |states| && AllHealthy(cfg, states[b'])
    requires IsMade(cfg, states[b].rows, k)
    ensures Distance(PhaseIn(cfg, states[b'], k)) < Distance(PhaseIn(cfg, states[b], k))
      || Distance(PhaseIn(cfg, states[b'], k)) == Distance(PhaseIn(cfg, states[b], k)) == 0
  {
    hide Round, Turned, Becomes, SameSoFar, AllHealthy, NoneTerminating, PhaseIn, Distance;
    RoundDoes(cfg, steps, states, b, e, b');
    RoundHas(cfg, steps, states, b, e, b');
    SameRows(cfg, states[e + 1], states[b']);
    if k in states[b].rows {
      var q :| Turned(PhaseIn(cfg, states[b], k), q) && Becomes(cfg, states[b].rows, states[e + 1], k, q);
      PhaseFalls(cfg, states[b], states[e + 1], states[b'], k, q);
    } else {
      NoRow(cfg, states[b], k);
      NoRow(cfg, states[b'], k);
    }
  }

  lemma SameRows(cfg: Config, s: State, s': State)
    requires SameSoFar(cfg, s, s')
    ensures s'.rows == s.rows
  {}

  lemma NoRow(cfg: Config, s: State, k: Key)
    requires k !in s.rows
    ensures Distance(PhaseIn(cfg, s, k)) == 0
  {}

  // ---- Who is left ----

  ghost predicate Survivors(s: State, s': State) {
    && s'.rows.Keys == (set k | k in s.rows && s.rows[k].state != Deleting)
    && forall k | k in s'.rows :: s'.rows[k].state != Deleting
  }

  /** A pass forgets the deleting rows and no other, and makes no row deleting. */
  lemma SurvivorsOf(cfg: Config, s0: State, s: State)
    requires Passed(cfg, s0, s)
    ensures Survivors(s0, s)
  {
    hide Turned, Becomes, PhaseIn;
    forall k | k in s0.rows
      ensures k in s.rows <==> s0.rows[k].state != Deleting
      ensures k in s.rows ==> s.rows[k].state != Deleting
    {
      var q :| Turned(PhaseIn(cfg, s0, k), q) && Becomes(cfg, s0.rows, s, k, q);
      Survives(cfg, s0, s, k, q);
    }
  }

  lemma Survives(cfg: Config, s0: State, s: State, k: Key, q: Phase)
    requires k in s0.rows && Turned(PhaseIn(cfg, s0, k), q) && Becomes(cfg, s0.rows, s, k, q)
    ensures k in s.rows <==> s0.rows[k].state != Deleting
    ensures k in s.rows ==> s.rows[k].state != Deleting
  {
    hide NodeName;
  }

  /** A cluster of nache's own account is left as it is, without a node. */
  lemma OwnIsLeft(cfg: Config, s0: State, s: State, k: Key)
    requires Passed(cfg, s0, s) && Inv(cfg, s0) && k in s.rows && k.account == cfg.nache
    ensures k in s0.rows && s.rows[k] == s0.rows[k]
  {
    hide Turned, Becomes, PhaseIn, Inv;
    var q :| Turned(PhaseIn(cfg, s0, k), q) && Becomes(cfg, s0.rows, s, k, q);
    KeysAreValid(cfg, s0, k);
    OwnHasNoNode(cfg, s0, k);
    OwnIsSame(cfg, s0, s, k, q);
  }

  /** In no state of any run is there a node for a cluster of nache's own account, nor is chala at one. */
  lemma OwnNeverHasNode(cfg: Config, steps: seq<Step>, states: seq<State>, i: nat, k: Key)
    requires IsConfig(cfg) && IsRun(cfg, steps, states) && i < |states|
    requires k in states[i].rows && k.account == cfg.nache
    ensures NodeSlot(cfg.nache, k) !in states[i].chala.daemon.containers
    ensures forall slot | slot in states[i].chala.daemon.containers && slot.account == cfg.nache ::
      KeyOf(ViewOf(states[i].chala.daemon.containers[slot])) != k
    ensures forall h | h in states[i].chala.runs && OpenAsk(cfg, states[i].chala.runs[h]) ::
      states[i].chala.runs[h].request != NodeRequest(cfg.nache, k)
  {
    hide IsRun, IsConfig, Inv, NodeName, ViewOf, KeyOf, NodeKey, ValidKey, NodeRequest, OpenAsk;
    RunsKeep(cfg, steps, states, i);
    var s := states[i];
    KeysAreValid(cfg, s, k);
    OwnHasNoNode(cfg, s, k);
    forall slot | slot in s.chala.daemon.containers && slot.account == cfg.nache
      ensures KeyOf(ViewOf(s.chala.daemon.containers[slot])) != k
    {
      NodeOfCustomer(cfg, s, slot);
      var c := s.chala.daemon.containers[slot];
      NodeIsListedUnderItsKey(cfg.nache, NodeKey(c.made), c);
    }
    forall h | h in s.chala.runs && OpenAsk(cfg, s.chala.runs[h])
      ensures s.chala.runs[h].request != NodeRequest(cfg.nache, k)
    {
      OwnIsNeverAsked(cfg, s, h);
      KeyOfRequest(cfg, k);
    }
  }

  lemma OwnIsSame(cfg: Config, s0: State, s: State, k: Key, q: Phase)
    requires k in s0.rows && k in s.rows && k.account == cfg.nache
    requires NodeSlot(cfg.nache, k) !in s0.chala.daemon.containers
    requires Turned(PhaseIn(cfg, s0, k), q) && Becomes(cfg, s0.rows, s, k, q)
    ensures s.rows[k] == s0.rows[k]
  {
    hide NodeName;
  }

  // ---- Three passes ----

  predicate IsServed(cfg: Config, s: State, k: Key) {
    && k in s.rows && s.rows[k] == Row(Active, [Node(NodeName(k.account, k.cluster), NodeAvailable)])
    && Serves(s.chala.daemon, NodeSlot(cfg.nache, k))
    && s.chala.daemon.containers[NodeSlot(cfg.nache, k)].health == Healthy
  }

  /** No row is being deleted, every customer's row is active with one healthy node, and there is no other
      node. */
  ghost predicate Converged(cfg: Config, s: State) {
    && (forall k | k in s.rows :: s.rows[k].state != Deleting)
    && (forall k | k in s.rows && k.account != cfg.nache :: IsServed(cfg, s, k))
    && (forall slot | slot in s.chala.daemon.containers && slot.account == cfg.nache ::
          exists k :: k in s.rows && k.account != cfg.nache && slot == NodeSlot(cfg.nache, k))
  }

  lemma NodesAreOfRows(cfg: Config, s: State, slot: Slot)
    requires Inv(cfg, s) && slot in s.chala.daemon.containers && slot.account == cfg.nache
    ensures exists k :: k in s.rows && k.account != cfg.nache && slot == NodeSlot(cfg.nache, k)
  {
    hide Inv, NodeName, NodeKey, ValidKey, NodeRequest;
    NodeOfCustomer(cfg, s, slot);
    var k := NodeKey(s.chala.daemon.containers[slot].made);
    assert k in s.rows && k.account != cfg.nache && slot == NodeSlot(cfg.nache, k);
  }

  /** After a pass no node is half removed. */
  lemma NoneTerminatingAfter(cfg: Config, s0: State, s: State, s': State)
    requires Inv(cfg, s) && Inv(cfg, s') && Passed(cfg, s0, s) && SameSoFar(cfg, s, s')
    ensures NoneTerminating(cfg, s')
  {
    hide Inv, Turned, Becomes, PhaseIn, NodeName, StateOf;
    forall slot | slot in s'.chala.daemon.containers && slot.account == cfg.nache
      ensures StateOf(s'.chala.daemon.containers[slot].status) != Terminating
    {
      assert Kept(s.chala.daemon, s'.chala.daemon, slot);
      NodesAreOfRows(cfg, s, slot);
      var k :| k in s.rows && k.account != cfg.nache && slot == NodeSlot(cfg.nache, k);
      var q :| Turned(PhaseIn(cfg, s0, k), q) && Becomes(cfg, s0.rows, s, k, q);
      ServesIfThere(cfg, s0, s, k, q);
    }
  }

  lemma ServesIfThere(cfg: Config, s0: State, s: State, k: Key, q: Phase)
    requires Becomes(cfg, s0.rows, s, k, q) && k.account != cfg.nache
    requires NodeSlot(cfg.nache, k) in s.chala.daemon.containers
    ensures Serves(s.chala.daemon, NodeSlot(cfg.nache, k))
  {
    hide NodeName;
  }

  lemma WellAtLast(cfg: Config, s0: State, s: State, k: Key, q: Phase)
    requires k in s0.rows && k in s.rows && k.account != cfg.nache && Distance(PhaseIn(cfg, s0, k)) <= 1
    requires Turned(PhaseIn(cfg, s0, k), q) && Becomes(cfg, s0.rows, s, k, q)
    ensures IsServed(cfg, s, k)
  {
    hide NodeName;
  }

  lemma LastPass(cfg: Config, s0: State, s: State)
    requires Passed(cfg, s0, s) && Inv(cfg, s)
    requires forall k | k in s0.rows && k.account != cfg.nache :: Distance(PhaseIn(cfg, s0, k)) <= 1
    ensures Converged(cfg, s)
  {
    hide Inv, Turned, Becomes, PhaseIn, Distance, IsServed, NodeName;
    SurvivorsOf(cfg, s0, s);
    forall k | k in s.rows && k.account != cfg.nache ensures IsServed(cfg, s, k) {
      var q :| Turned(PhaseIn(cfg, s0, k), q) && Becomes(cfg, s0.rows, s, k, q);
      WellAtLast(cfg, s0, s, k, q);
    }
    forall slot | slot in s.chala.daemon.containers && slot.account == cfg.nache
      ensures exists k :: k in s.rows && k.account != cfg.nache && slot == NodeSlot(cfg.nache, k)
    {
      NodesAreOfRows(cfg, s, slot);
    }
  }

  /** What a round leaves to the next. */
  lemma RoundEnds(cfg: Config, steps: seq<Step>, states: seq<State>, b: nat, e: nat, b': nat)
    requires Round(cfg, steps, states, b, e, b')
    ensures b' < |states| && NoneTerminating(cfg, states[b']) && Survivors(states[b], states[b'])
    ensures forall k | k in states[b'].rows && k.account == cfg.nache ::
      k in states[b].rows && states[b'].rows[k] == states[b].rows[k]
  {
    hide Passed, SameSoFar, NoneTerminating, OnlyOwn, Survivors, QuietRun, Inv, IsPass;
    RoundHas(cfg, steps, states, b, e, b');
    InvAt(cfg, steps, states, b, b', b);
    InvAt(cfg, steps, states, b, b', e + 1);
    InvAt(cfg, steps, states, b, b', b');
    RoundDoes(cfg, steps, states, b, e, b');
    NoneTerminatingAfter(cfg, states[b], states[e + 1], states[b']);
    SurvivorsOf(cfg, states[b], states[e + 1]);
    SameRows(cfg, states[e + 1], states[b']);
    SameSurvivors(states[b], states[e + 1], states[b']);
    forall k | k in states[b'].rows && k.account == cfg.nache
      ensures k in states[b].rows && states[b'].rows[k] == states[b].rows[k]
    {
      OwnIsLeft(cfg, states[b], states[e + 1], k);
    }
  }

  lemma SameSurvivors(s0: State, s: State, s': State)
    requires Survivors(s0, s) && s'.rows == s.rows
    ensures Survivors(s0, s')
  {}

  lemma InvAt(cfg: Config, steps: seq<Step>, states: seq<State>, a: nat, b: nat, i: nat)
    requires QuietRun(cfg, steps, states, a, b) && i < |states|
    ensures Inv(cfg, states[i])
  {
    hide Inv, IsRun, IsConfig;
    RunsKeep(cfg, steps, states, i);
  }

  /** Three passes in a run, one after the other, from any state the run has come to. */
  ghost predicate Rounds(cfg: Config, steps: seq<Step>, states: seq<State>,
                         b1: nat, e1: nat, b2: nat, e2: nat, b3: nat, e3: nat)
  {
    && IsPass(steps, b1, e1) && NoBoundary(steps, e1 + 1, b2) && e1 < b2
    && IsPass(steps, b2, e2) && NoBoundary(steps, e2 + 1, b3) && e2 < b3
    && IsPass(steps, b3, e3)
    && QuietRun(cfg, steps, states, b1, e3 + 1)
  }

  /** From whatever state a run has come to, three passes make the rows true, if no node is half removed when
      the first begins, and those that are up are healthy when the second and the third begin. */
  lemma ThreePasses(cfg: Config, steps: seq<Step>, states: seq<State>,
                    b1: nat, e1: nat, b2: nat, e2: nat, b3: nat, e3: nat)
    requires Rounds(cfg, steps, states, b1, e1, b2, e2, b3, e3)
    requires NoneTerminating(cfg, states[b1]) && AllHealthy(cfg, states[b2]) && AllHealthy(cfg, states[b3])
    ensures Converged(cfg, states[e3 + 1])
    ensures states[e3 + 1].rows.Keys == set k | k in states[b1].rows && states[b1].rows[k].state != Deleting
    ensures forall k | k in states[e3 + 1].rows && k.account == cfg.nache ::
      states[e3 + 1].rows[k] == states[b1].rows[k]
  {
    hide QuietRun, NoneTerminating, AllHealthy, Converged, IsPass, NoBoundary, Inv, Passed, Round, Distance, PhaseIn,
      IsMade;
    ConfigOf(cfg, steps, states, b1, e3 + 1);
    RoundsAre(cfg, steps, states, b1, e1, b2, e2, b3, e3);
    RoundEnds(cfg, steps, states, b1, e1, b2);
    RoundIs(cfg, steps, states, b2, e2, b3);
    RoundEnds(cfg, steps, states, b2, e2, b3);
    QuietPassDoes(cfg, steps, states, b3, e3);
    InvAt(cfg, steps, states, b1, e3 + 1, b3);
    InvAt(cfg, steps, states, b1, e3 + 1, e3 + 1);
    forall k | k in states[b3].rows && k.account != cfg.nache ensures Distance(PhaseIn(cfg, states[b3], k)) <= 1 {
      AtMost(cfg, states[b1], k);
      CustomersAreMade(cfg, states[b1].rows, k);
      CustomersAreMade(cfg, states[b2].rows, k);
      PassFalls(cfg, steps, states, b1, e1, b2, k);
      PassFalls(cfg, steps, states, b2, e2, b3, k);
    }
    LastPass(cfg, states[b3], states[e3 + 1]);
    SurvivorsOf(cfg, states[b3], states[e3 + 1]);
    forall k | k in states[e3 + 1].rows && k.account == cfg.nache
      ensures states[e3 + 1].rows[k] == states[b1].rows[k]
    {
      OwnIsLeft(cfg, states[b3], states[e3 + 1], k);
    }
  }

  lemma AtMost(cfg: Config, s: State, k: Key)
    ensures Distance(PhaseIn(cfg, s, k)) <= 3
  {}

  lemma CustomersAreMade(cfg: Config, rows: Rows, k: Key)
    ensures k.account != cfg.nache ==> IsMade(cfg, rows, k)
  {}

  lemma RoundIs(cfg: Config, steps: seq<Step>, states: seq<State>, b: nat, e: nat, b': nat)
    requires IsPass(steps, b, e) && e < b' && NoBoundary(steps, e + 1, b') && QuietRun(cfg, steps, states, b, b')
    requires NoneTerminating(cfg, states[b])
    ensures Round(cfg, steps, states, b, e, b')
  {}

  lemma RoundsAre(cfg: Config, steps: seq<Step>, states: seq<State>,
                  b1: nat, e1: nat, b2: nat, e2: nat, b3: nat, e3: nat)
    requires Rounds(cfg, steps, states, b1, e1, b2, e2, b3, e3) && NoneTerminating(cfg, states[b1])
    ensures b1 < e1 < b2 < e2 < b3 < e3 && IsPass(steps, b2, e2) && IsPass(steps, b3, e3)
    ensures NoBoundary(steps, e2 + 1, b3)
    ensures QuietRun(cfg, steps, states, b2, b3) && QuietRun(cfg, steps, states, b3, e3 + 1)
    ensures Round(cfg, steps, states, b1, e1, b2)
  {
    hide QuietRun, NoneTerminating;
    ConfigOf(cfg, steps, states, b1, e3 + 1);
    QuietPart(cfg, steps, states, b1, e3 + 1, b1, b2);
    QuietPart(cfg, steps, states, b1, e3 + 1, b2, b3);
    QuietPart(cfg, steps, states, b1, e3 + 1, b3, e3 + 1);
  }

  // ---- And then nothing more is asked of chala ----

  lemma ConvergedHasNoneTerminating(cfg: Config, s: State)
    requires Converged(cfg, s)
    ensures NoneTerminating(cfg, s)
  {
    hide NodeName, StateOf;
    forall slot | slot in s.chala.daemon.containers && slot.account == cfg.nache
      ensures StateOf(s.chala.daemon.containers[slot].status) != Terminating
    {
      var k :| k in s.rows && k.account != cfg.nache && slot == NodeSlot(cfg.nache, k);
      assert IsServed(cfg, s, k);
    }
  }

  lemma IsWell(cfg: Config, s: State, k: Key)
    requires Converged(cfg, s) && k in s.rows && k.account != cfg.nache
    ensures PhaseIn(cfg, s, k) == Well(true)
  {
    hide NodeName;
    assert IsServed(cfg, s, k);
  }

  /** Once everything is as wanted it stays so, … */
  lemma StaysConverged(cfg: Config, steps: seq<Step>, states: seq<State>, b: nat, e: nat)
    requires IsPass(steps, b, e) && QuietRun(cfg, steps, states, b, e + 1) && Converged(cfg, states[b])
    ensures Converged(cfg, states[e + 1]) && states[e + 1].rows == states[b].rows
  {
    hide QuietRun, Converged, NoneTerminating, OnlyOwn, Inv, PhaseIn, Distance, NodeName;
    ConfigOf(cfg, steps, states, b, e + 1);
    var s, s' := states[b], states[e + 1];
    ConvergedHasNoneTerminating(cfg, s);
    QuietPassDoes(cfg, steps, states, b, e);
    InvAt(cfg, steps, states, b, e + 1, b);
    InvAt(cfg, steps, states, b, e + 1, e + 1);
    forall k | k in s.rows && k.account != cfg.nache ensures Distance(PhaseIn(cfg, s, k)) <= 1 {
      IsWell(cfg, s, k);
      WellIsNear();
    }
    LastPass(cfg, s, s');
    SurvivorsOf(cfg, s, s');
    forall k | k in s.rows ensures k in s'.rows && s'.rows[k] == s.rows[k] {
      NotDeleting(cfg, s, k);
      if k.account == cfg.nache {
        OwnIsLeft(cfg, s, s', k);
      } else {
        ServedRow(cfg, s, k);
        ServedRow(cfg, s', k);
      }
    }
  }

  lemma WellIsNear()
    ensures Distance(Well(true)) == 0
  {}

  lemma NotDeleting(cfg: Config, s: State, k: Key)
    requires Converged(cfg, s) && k in s.rows
    ensures s.rows[k].state != Deleting
  {}

  lemma ServedRow(cfg: Config, s: State, k: Key)
    requires Converged(cfg, s) && k in s.rows && k.account != cfg.nache
    ensures s.rows[k] == Row(Active, [Node(NodeName(k.account, k.cluster), NodeAvailable)])
  {
    assert IsServed(cfg, s, k);
  }

  /** … and a pass asks nothing of chala for any customer, finished or not. */
  lemma NoMoreCalls(cfg: Config, steps: seq<Step>, states: seq<State>, b: nat, i: nat)
    requires QuietRun(cfg, steps, states, b, i) && b < i < |steps| && steps[b].BeginPass? && NoBoundary(steps, b + 1, i)
    requires Converged(cfg, states[b]) && steps[i].Send?
    ensures At(states[i].pass) && Head(states[i].pass).RunNode? && Head(states[i].pass).key.account == cfg.nache
  {
    hide QuietRun, Converged, NoneTerminating, OnlyOwn, Inv, WorkInv, Handlers.Enabled, Quiet, After;
    ConfigOf(cfg, steps, states, b, i);
    ConvergedHasNoneTerminating(cfg, states[b]);
    PassGoes(cfg, steps, states, b, i);
    IsEnabled(cfg, steps, states, b, i, i);
    var seen, n: nat, done: nat :| WorkInv(cfg, states[b], states[i], seen, n, done);
    CallsOnlyForOwn(cfg, states[b], states[i], seen, n, done);
  }

  lemma IsEnabled(cfg: Config, steps: seq<Step>, states: seq<State>, a: nat, b: nat, i: nat)
    requires QuietRun(cfg, steps, states, a, b) && i < |steps|
    ensures Enabled(cfg, states[i], steps[i])
  {
    hide Enabled, After, Quiet;
  }

  lemma CallsOnlyForOwn(cfg: Config, s0: State, s: State, seen: seq<View>, n: nat, done: nat)
    requires WorkInv(cfg, s0, s, seen, n, done) && Converged(cfg, s0) && At(s.pass) && IsCall(Head(s.pass))
    ensures Head(s.pass).RunNode? && Head(s.pass).key.account == cfg.nache
  {
    hide WorkInv, Converged, PhaseIn, NodeName, Tagged, PlanFor, ValidKey, Plan, PhaseAt;
    HeadIs(cfg, s0, s, seen, n, done);
    PlanOf(cfg, s0, s, seen, n, done);
    ClusterIs(cfg, s0, s, seen, n, done);
    SeenOf(cfg, s0, s, seen, n, done);
    PlannedFor(cfg, s0, s.pass.clusters, seen, n);
    var k := s.pass.clusters[n].0;
    NotDeleting(cfg, s0, k);
    if k.account != cfg.nache {
      IsWell(cfg, s0, k);
    } else {
      OwnIsMissing(cfg, s0, s.pass.clusters, seen, n);
    }
  }

  lemma SeenOf(cfg: Config, s0: State, s: State, seen: seq<View>, n: nat, done: nat)
    requires WorkInv(cfg, s0, s, seen, n, done)
    ensures SeenFrom(cfg, s0, s.pass.clusters, seen)
  {
    hide TasksAt, SeenFrom, ListsAll, Becomes, Waiting, Doing, PhaseAt;
  }

  lemma PlannedFor(cfg: Config, s0: State, clusters: seq<Cluster>, seen: seq<View>, n: nat)
    requires SeenFrom(cfg, s0, clusters, seen) && n < |clusters|
    ensures Turned(PhaseIn(cfg, s0, clusters[n].0), PhaseAt(clusters, seen, n))
  {
    hide PhaseIn, Tagged, PhaseShown;
  }

  /** Nor does the rest between two passes undo anything. */
  lemma RestsConverged(cfg: Config, s: State, s': State)
    requires Converged(cfg, s) && Inv(cfg, s') && SameSoFar(cfg, s, s')
    ensures Converged(cfg, s')
  {
    hide Inv, NodeName, StateOf;
    forall k | k in s'.rows && k.account != cfg.nache ensures IsServed(cfg, s', k) {
      assert IsServed(cfg, s, k);
      assert Kept(s.chala.daemon, s'.chala.daemon, NodeSlot(cfg.nache, k));
    }
    forall slot | slot in s'.chala.daemon.containers && slot.account == cfg.nache
      ensures exists k :: k in s'.rows && k.account != cfg.nache && slot == NodeSlot(cfg.nache, k)
    {
      NodesAreOfRows(cfg, s', slot);
    }
  }

  lemma {:induction false} FirstBoundary(steps: seq<Step>, a: nat, i: nat) returns (b: nat)
    requires a <= i <= |steps|
    ensures a <= b <= i && NoBoundary(steps, a, b)
    ensures b < i ==> steps[b].BeginPass? || steps[b].EndPass?
    decreases i - a
  {
    if a == i || steps[a].BeginPass? || steps[a].EndPass? {
      b := a;
    } else {
      b := FirstBoundary(steps, a + 1, i);
    }
  }

  /** Converged at rest. */
  ghost predicate AtEase(cfg: Config, rows: Rows, s: State) {
    s.pass.Idle? && OnlyOwn(cfg, s) && Converged(cfg, s) && s.rows == rows
  }

  /** However long a run stays quiet, it is at ease or in a pass that began at ease, at `b`. */
  lemma {:induction false} StaysAtEase(cfg: Config, steps: seq<Step>, states: seq<State>, a: nat, i: nat)
    returns (b: nat)
    requires a <= i && QuietRun(cfg, steps, states, a, i) && AtEase(cfg, states[a].rows, states[a])
    ensures a <= b <= i && AtEase(cfg, states[a].rows, states[b])
    ensures b < i ==> steps[b].BeginPass? && NoBoundary(steps, b + 1, i) && !states[i].pass.Idle?
    decreases i - a
  {
    hide QuietRun, Converged, OnlyOwn, Inv, SameSoFar, NoBoundary, InPass, Handlers.Enabled, After, Quiet;
    ConfigOf(cfg, steps, states, a, i);
    b := FirstBoundary(steps, a, i);
    QuietPart(cfg, steps, states, a, i, a, b);
    Rests(cfg, steps, states, a, b);
    SameRows(cfg, states[a], states[b]);
    InvAt(cfg, steps, states, a, i, b);
    RestsConverged(cfg, states[a], states[b]);
    if b < i {
      IsEnabled(cfg, steps, states, a, i, b);
      assert steps[b].BeginPass?;
      QuietPart(cfg, steps, states, a, i, b, i);
      var e := FirstBoundary(steps, b + 1, i);
      ConvergedHasNoneTerminating(cfg, states[b]);
      QuietPart(cfg, steps, states, a, i, b, e);
      PassGoes(cfg, steps, states, b, e);
      NotIdle(cfg, states[b], states[e]);
      if e < i {
        IsEnabled(cfg, steps, states, a, i, e);
        assert IsPass(steps, b, e);
        QuietPart(cfg, steps, states, a, i, b, e + 1);
        QuietPassDoes(cfg, steps, states, b, e);
        StaysConverged(cfg, steps, states, b, e);
        QuietPart(cfg, steps, states, a, i, e + 1, i);
        b := StaysAtEase(cfg, steps, states, e + 1, i);
      }
    }
  }

  lemma NotIdle(cfg: Config, s0: State, s: State)
    requires InPass(cfg, s0, s)
    ensures !s.pass.Idle?
  {}

  /** From any state a run has come to, after three passes: as long as it stays quiet, however many passes there
      are, chala is asked for nothing but what it will refuse, a node for a cluster of nache's own account; and
      every time nache rests the rows are as the third pass left them, and true. */
  lemma AfterThreePasses(cfg: Config, steps: seq<Step>, states: seq<State>,
                         b1: nat, e1: nat, b2: nat, e2: nat, b3: nat, e3: nat, i: nat)
    requires Rounds(cfg, steps, states, b1, e1, b2, e2, b3, e3)
    requires NoneTerminating(cfg, states[b1]) && AllHealthy(cfg, states[b2]) && AllHealthy(cfg, states[b3])
    requires e3 < i && QuietRun(cfg, steps, states, b1, i)
    ensures i < |steps| && steps[i].Send? ==>
      At(states[i].pass) && Head(states[i].pass).RunNode? && Head(states[i].pass).key.account == cfg.nache
    ensures states[i].pass.Idle? ==> Converged(cfg, states[i]) && states[i].rows == states[e3 + 1].rows
  {
    hide QuietRun, NoneTerminating, AllHealthy, Converged, IsPass, NoBoundary, Inv, OnlyOwn, Quiet, After,
      Handlers.Enabled;
    ConfigOf(cfg, steps, states, b1, i);
    ThreePasses(cfg, steps, states, b1, e1, b2, e2, b3, e3);
    ThirdEnds(cfg, steps, states, b1, e1, b2, e2, b3, e3);
    QuietPart(cfg, steps, states, b1, i, e3 + 1, i);
    var b := StaysAtEase(cfg, steps, states, e3 + 1, i);
    if i < |steps| && steps[i].Send? {
      IsEnabled(cfg, steps, states, b1, i, i);
      assert b < i;
      QuietPart(cfg, steps, states, b1, i, b, i);
      NoMoreCalls(cfg, steps, states, b, i);
    }
  }

  lemma ThirdEnds(cfg: Config, steps: seq<Step>, states: seq<State>,
                  b1: nat, e1: nat, b2: nat, e2: nat, b3: nat, e3: nat)
    requires Rounds(cfg, steps, states, b1, e1, b2, e2, b3, e3) && NoneTerminating(cfg, states[b1])
    ensures b1 <= e3 && states[e3 + 1].pass.Idle? && OnlyOwn(cfg, states[e3 + 1])
  {
    hide QuietRun, NoneTerminating, IsPass, NoBoundary, OnlyOwn, Round;
    RoundsAre(cfg, steps, states, b1, e1, b2, e2, b3, e3);
    RoundEnds(cfg, steps, states, b1, e1, b2);
    RoundIs(cfg, steps, states, b2, e2, b3);
    RoundEnds(cfg, steps, states, b2, e2, b3);
    QuietPassDoes(cfg, steps, states, b3, e3);
  }

  // ---- A delete ----

  ghost predicate Doomed(rows: Rows, k: Key) { k in rows ==> rows[k].state == Deleting }

  lemma QuietDooms(cfg: Config, s: State, step: Step, k: Key)
    requires Enabled(cfg, s, step) && Quiet(cfg, s, step) && Doomed(s.rows, k)
    ensures Doomed(After(cfg, s, step).rows, k)
  {
    hide Handlers.Enabled, Handlers.After, QuietCall, AfterInspectOf, CreateStep, Marked, NodeName, Answer, AllIds,
      Work;
    match step {
      case Inspect(slot) => InspectLeavesRows(cfg, s, slot);
      case _ =>
    }
  }

  lemma InspectLeavesRows(cfg: Config, s: State, slot: Slot)
    requires s.pass.Listing? && slot in s.pass.todo
    ensures AfterInspectOf(cfg, s, slot).rows == s.rows
  {
    hide Shows, ShowsHealthy, ViewOf, KeyOf;
  }

  lemma {:induction false} DoomedOn(cfg: Config, steps: seq<Step>, states: seq<State>, a: nat, b: nat, k: Key)
    requires a <= b && QuietRun(cfg, steps, states, a, b) && Doomed(states[a].rows, k)
    ensures Doomed(states[b].rows, k)
    decreases b
  {
    hide Enabled, After, Quiet, QuietRun, Inv, Doomed;
    if a < b {
      ConfigOf(cfg, steps, states, a, b);
      QuietPart(cfg, steps, states, a, b, a, b - 1);
      DoomedOn(cfg, steps, states, a, b - 1, k);
      RunStepAt(cfg, steps, states, a, b, b - 1);
      QuietDooms(cfg, states[b - 1], steps[b - 1], k);
    }
  }

  /** A cluster that was deleted is gone, row and node, after the next quiet pass that begins. */
  lemma DeletedIsGone(cfg: Config, steps: seq<Step>, states: seq<State>, i: nat, b: nat, e: nat, k: Key)
    requires IsConfig(cfg) && IsRun(cfg, steps, states) && i < b && IsPass(steps, b, e)
    requires steps[i] == Delete(k) && k in states[i].rows
    requires QuietRun(cfg, steps, states, i + 1, e + 1) && NoneTerminating(cfg, states[b])
    ensures k !in states[e + 1].rows && NodeSlot(cfg.nache, k) !in states[e + 1].chala.daemon.containers
  {
    hide QuietRun, IsConfig, Inv, NoneTerminating, OnlyOwn, Passed, NodeName, Handlers.Enabled, Handlers.After,
      ValidKey;
    assert Enabled(cfg, states[i], steps[i]) && states[i + 1] == After(cfg, states[i], steps[i]);
    MarkedIsDeleting(states[i].rows, k);
    QuietPart(cfg, steps, states, i + 1, e + 1, i + 1, b);
    DoomedOn(cfg, steps, states, i + 1, b, k);
    QuietPart(cfg, steps, states, i + 1, e + 1, b, e + 1);
    QuietPassDoes(cfg, steps, states, b, e);
    SurvivorsOf(cfg, states[b], states[e + 1]);
    RunsKeep(cfg, steps, states, i);
    KeysAreValid(cfg, states[i], k);
    HasAccount(k);
    RunsKeep(cfg, steps, states, e + 1);
    RowIsBornAlone(cfg, states[e + 1], k);
  }

  lemma HasAccount(k: Key)
    requires ValidKey(k)
    ensures IsAccountId(k.account)
  {}

  // ---- chala does not refuse ----

  /** With room for the customers' nodes, no call of a quiet pass is refused: what it waits for is on its way
      or done. */
  lemma NeverRefused(cfg: Config, steps: seq<Step>, states: seq<State>, b: nat, e: nat, i: nat)
    requires IsPass(steps, b, e) && QuietRun(cfg, steps, states, b, e + 1) && NoneTerminating(cfg, states[b])
    requires b < i <= e && |Customers(cfg, states[b].rows)| <= cfg.chala.maxInstances
    requires At(states[i].pass) && Head(states[i].pass).RunNode? && states[i].pass.awaited.Some?
    ensures var h, c := states[i].pass.awaited.value, states[i].chala;
      h in c.runs && c.runs[h].request == NodeRequest(cfg.nache, Head(states[i].pass).key) ==> !c.runs[h].pc.Failed?
  {
    hide QuietRun, NoneTerminating, OnlyOwn, Inv, NodeName, NodeRequest, WorkInv, Customers;
    ConfigOf(cfg, steps, states, b, e + 1);
    QuietPart(cfg, steps, states, b, e + 1, b, i);
    PassGoes(cfg, steps, states, b, i);
    var s := states[i];
    var seen, n: nat, done: nat :| WorkInv(cfg, states[b], s, seen, n, done);
    RefusedForRoom(cfg, states[b], s, seen, n, done);
  }

  lemma RefusedForRoom(cfg: Config, s0: State, s: State, seen: seq<View>, n: nat, done: nat)
    requires WorkInv(cfg, s0, s, seen, n, done) && At(s.pass) && Head(s.pass).RunNode? && s.pass.awaited.Some?
    ensures var h, c := s.pass.awaited.value, s.chala;
      h in c.runs && c.runs[h].request == NodeRequest(cfg.nache, Head(s.pass).key) && c.runs[h].pc.Failed? ==>
        Crowded(cfg, s0.rows)
  {
    hide TasksAt, SeenFrom, ListsAll, Becomes, Waiting, Called, PhaseShown, Tagged, NodeName, NodeRequest, Crowded,
      PlanFor;
    HeadIs(cfg, s0, s, seen, n, done);
    PlanOf(cfg, s0, s, seen, n, done);
    PlanNames(s.pass.clusters[n].0, PhaseAt(s.pass.clusters, seen, n), Tagged(seen, s.pass.clusters[n].0) != [], done);
  }
}
