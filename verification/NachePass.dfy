/** What a quiet pass does to every cluster, step by step, whatever other accounts do meanwhile. */
module NachePass {
  import opened ChalaNames
  import opened Docker
  import opened Chala
  import opened NacheStore
  import opened NacheCompute
  import opened NacheReconciler
  import opened NacheRuns
  import opened NacheQuiet
  import opened NacheListing
  import opened Sets
  import opened Wrappers
  import Handlers = ChalaRuns

  // ---- What a pass means to do, and what it has done ----

  /** The phase the pass goes by: that of the row when it was read, and of the node when it was shown. */
  function PhaseShown(state: RowState, shown: seq<View>): Phase {
    if state == Deleting then Dying
    else if shown == [] then Missing
    else if shown[0].state == Pending then Half
    else if shown[0].state == Stopped || shown[0].health == Unhealthy then Sick
    else if shown[0].health == Healthy then Well(state == Active)
    else Warming
  }

  /** A node may have turned healthy before it was shown. */
  predicate Turned(p: Phase, q: Phase) { q == p || ((p.Sick? || p.Warming?) && q.Well?) }

  function PlanBy(k: Key, q: Phase, shown: bool): seq<Effect> {
    var id := NodeName(k.account, k.cluster);
    match q
    case Gone => []
    case Dying => (if shown then [Terminate(id)] else []) + [Forget(k)]
    case Missing => [RunNode(k), Observe(k, NodeCreating, false)]
    case Half => [RunNode(k), Observe(k, NodeCreating, false)]
    case Sick => [Terminate(id), Observe(k, NodeImpaired, false)]
    case Warming => [Observe(k, NodeCreating, false)]
    case Well(_) => [Observe(k, NodeAvailable, true)]
  }

  lemma PlanIs(k: Key, state: RowState, shown: seq<View>)
    requires |shown| <= 1 && (shown != [] ==> shown[0].name == NodeName(k.account, k.cluster))
    ensures PlanFor((k, state), shown) == PlanBy(k, PhaseShown(state, shown), shown != [])
  {
    hide NodeName;
    var want := NodeName(k.account, k.cluster);
    if shown != [] {
      assert shown[1..] == [];
      assert Own(shown[1..], want) == None;
      assert Own(shown, want) == Some(shown[0]) && Strays(shown, want) == [];
      assert Terminates(shown) == [Terminate(want)];
    }
    assert Terminates([]) == [];
  }

  predicate Serves(d: Daemon, slot: Slot) {
    slot in d.containers && StateOf(d.containers[slot].status) == InService
  }

  /** The node is as the plan takes it to be. */
  predicate CellFits(q: Phase, d: Daemon, slot: Slot) {
    match q
    case Gone => false
    case Dying => true
    case Missing => slot !in d.containers
    case Half => slot in d.containers && StateOf(d.containers[slot].status) == Pending
    case Sick => slot in d.containers
    case Warming => Serves(d, slot)
    case Well(_) => Serves(d, slot) && d.containers[slot].health == Healthy
  }

  predicate SameRow(rows0: Rows, rows: Rows, k: Key) { k in rows0 && k in rows && rows[k] == rows0[k] }

  /** The cluster's turn is still to come. */
  predicate Waiting(cfg: Config, rows0: Rows, s: State, k: Key, q: Phase) {
    SameRow(rows0, s.rows, k) && CellFits(q, s.chala.daemon, NodeSlot(cfg.nache, k))
  }

  /** Its call was answered, its row not written yet. */
  predicate Called(cfg: Config, rows0: Rows, s: State, k: Key, q: Phase) {
    && SameRow(rows0, s.rows, k)
    && match q
       case Dying => NodeSlot(cfg.nache, k) !in s.chala.daemon.containers
       case Missing => Serves(s.chala.daemon, NodeSlot(cfg.nache, k))
       case Half => Serves(s.chala.daemon, NodeSlot(cfg.nache, k))
       case Sick => NodeSlot(cfg.nache, k) !in s.chala.daemon.containers
       case _ => false
  }

  /** What a pass does to a cluster, by the phase it goes by.  chala refuses a node to a cluster of nache's
      own account, which is left as it is. */
  predicate Becomes(cfg: Config, rows0: Rows, s: State, k: Key, q: Phase) {
    var d, slot, id := s.chala.daemon, NodeSlot(cfg.nache, k), NodeName(k.account, k.cluster);
    k in rows0 &&
    if k.account == cfg.nache && q.Missing? then SameRow(rows0, s.rows, k) && slot !in d.containers
    else
      match q
      case Gone => false
      case Dying => k !in s.rows && slot !in d.containers
      case Missing =>
        k in s.rows && s.rows[k] == Row(rows0[k].state, [Node(id, NodeCreating)]) && Serves(d, slot)
      case Half =>
        k in s.rows && s.rows[k] == Row(rows0[k].state, [Node(id, NodeCreating)]) && Serves(d, slot)
      case Sick =>
        k in s.rows && s.rows[k] == Row(rows0[k].state, [Node(id, NodeImpaired)]) && slot !in d.containers
      case Warming =>
        k in s.rows && s.rows[k] == Row(rows0[k].state, [Node(id, NodeCreating)]) && Serves(d, slot)
      case Well(_) =>
        && k in s.rows && s.rows[k] == Row(Active, [Node(id, NodeAvailable)])
        && Serves(d, slot) && d.containers[slot].health == Healthy
  }

  // ---- The call in between ----

  /** The clusters chala may be asked for. */
  function Customers(cfg: Config, rows: Rows): set<Key> { set k | k in rows && k.account != cfg.nache }

  predicate Crowded(cfg: Config, rows0: Rows) { |Customers(cfg, rows0)| > cfg.chala.maxInstances }

  predicate IsNew(d: Daemon, slot: Slot, id: nat) { Has(d, slot, id) && d.containers[slot].status == Created }

  /** Where the handler of a RunNode is, with nobody else at its node: never refused, but for lack of room. */
  predicate AskPc(d: Daemon, slot: Slot, pc: Pc, crowded: bool) {
    match pc
    case LookUp => slot in d.containers ==> d.containers[slot].status == Created
    case Count => slot !in d.containers
    case Prepare => slot !in d.containers
    case Create => slot !in d.containers
    case LookAgain => false
    case InspectNew(id) => IsNew(d, slot, id)
    case EnsureAttach(id, f) => f && IsNew(d, slot, id)
    case Attach(id, f) => f && IsNew(d, slot, id)
    case Start(id) => IsNew(d, slot, id)
    case Respond(id) => Has(d, slot, id) && Serves(d, slot)
    case Done(id) => Has(d, slot, id) && Serves(d, slot)
    case Failed(e) => e == ErrorCode.LimitExceeded && crowded
  }

  predicate AskOk(cfg: Config, c: Handlers.State, k: Key, h: nat, crowded: bool) {
    h in c.runs && c.runs[h].request == NodeRequest(cfg.nache, k) ==>
      AskPc(c.daemon, NodeSlot(cfg.nache, k), c.runs[h].pc, crowded)
  }

  predicate Calling(cfg: Config, rows0: Rows, s: State, k: Key, q: Phase, h: nat) {
    && SameRow(rows0, s.rows, k)
    && match q
       case Dying => Handlers.StopOk(s.chala, h, NodeSlot(cfg.nache, k))
       case Missing => AskOk(cfg, s.chala, k, h, Crowded(cfg, rows0))
       case Half => AskOk(cfg, s.chala, k, h, Crowded(cfg, rows0))
       case Sick => Handlers.StopOk(s.chala, h, NodeSlot(cfg.nache, k))
       case _ => false
  }

  // ---- Where a pass is in its work ----

  function PhaseAt(clusters: seq<Cluster>, seen: seq<View>, i: nat): Phase
    requires i < |clusters|
  {
    PhaseShown(clusters[i].1, Tagged(seen, clusters[i].0))
  }

  function Plan(clusters: seq<Cluster>, seen: seq<View>, i: nat): seq<Effect>
    requires i < |clusters|
  {
    PlanFor(clusters[i], Tagged(seen, clusters[i].0))
  }

  /** `done` effects of cluster `n` are done; the clusters after it are to come. */
  predicate TasksAt(clusters: seq<Cluster>, seen: seq<View>, tasks: seq<seq<Effect>>, n: nat, done: nat)
    requires n <= |clusters|
  {
    if n == |clusters| then done == 0 && tasks == []
    else
      done <= |Plan(clusters, seen, n)|
      && tasks == [Plan(clusters, seen, n)[done..]] + ClusterWork(clusters[n + 1..], seen)
  }

  predicate Doing(cfg: Config, rows0: Rows, s: State, c: Cluster, shown: seq<View>, done: nat)
  {
    var k, q, plan := c.0, PhaseShown(c.1, shown), PlanFor(c, shown);
    && s.pass.Working? && done <= |plan|
    && if done == |plan| then s.pass.awaited == None && Becomes(cfg, rows0, s, k, q)
       else if s.pass.awaited.Some? then IsCall(plan[done]) && Calling(cfg, rows0, s, k, q, s.pass.awaited.value)
       else if done == 0 then Waiting(cfg, rows0, s, k, q)
       else Called(cfg, rows0, s, k, q)
  }

  /** The cluster was shown as it is, or as it was before it turned healthy. */
  ghost predicate SeenRight(cfg: Config, s0: State, c: Cluster, shown: seq<View>) {
    && ValidKey(c.0) && |shown| <= 1 && (shown != [] ==> shown[0].name == NodeName(c.0.account, c.0.cluster))
    && (c.0.account == cfg.nache ==> shown == [])
    && Turned(PhaseIn(cfg, s0, c.0), PhaseShown(c.1, shown))
  }

  ghost predicate SeenFrom(cfg: Config, s0: State, clusters: seq<Cluster>, seen: seq<View>) {
    forall i | 0 <= i < |clusters| :: SeenRight(cfg, s0, clusters[i], Tagged(seen, clusters[i].0))
  }

  ghost predicate WorkInv(cfg: Config, s0: State, s: State, seen: seq<View>, n: nat, done: nat)
  {
    && s.pass.Working? && n <= |s.pass.clusters|
    && ListsAll(s0.rows, s.pass.clusters) && SeenFrom(cfg, s0, s.pass.clusters, seen)
    && s.rows.Keys <= s0.rows.Keys
    && TasksAt(s.pass.clusters, seen, s.pass.tasks, n, done)
    && (n == |s.pass.clusters| ==> s.pass.awaited == None)
    && (forall i | 0 <= i < n ::
          Becomes(cfg, s0.rows, s, s.pass.clusters[i].0, PhaseAt(s.pass.clusters, seen, i)))
    && (forall i | n < i < |s.pass.clusters| ::
          Waiting(cfg, s0.rows, s, s.pass.clusters[i].0, PhaseAt(s.pass.clusters, seen, i)))
    && (n < |s.pass.clusters| ==>
          Doing(cfg, s0.rows, s, s.pass.clusters[n], Tagged(seen, s.pass.clusters[n].0), done))
  }

  // ---- What does not touch a cluster leaves it where it is ----

  predicate SameCell(cfg: Config, s: State, s': State, k: Key) {
    && (k in s.rows <==> k in s'.rows) && (k in s.rows && k in s'.rows ==> s'.rows[k] == s.rows[k])
    && Kept(s.chala.daemon, s'.chala.daemon, NodeSlot(cfg.nache, k))
  }

  lemma CellCarries(cfg: Config, rows0: Rows, s: State, s': State, k: Key, q: Phase)
    requires SameCell(cfg, s, s', k)
    ensures Waiting(cfg, rows0, s, k, q) ==> Waiting(cfg, rows0, s', k, q)
    ensures Called(cfg, rows0, s, k, q) ==> Called(cfg, rows0, s', k, q)
    ensures Becomes(cfg, rows0, s, k, q) ==> Becomes(cfg, rows0, s', k, q)
  {
    hide NodeName;
  }

  /** A row of a cluster that is about to be, or has been dealt with, is not touched by what is done for
      another. */
  lemma SlotsDiffer(cfg: Config, clusters: seq<Cluster>, rows: Rows, seen: seq<View>, s0: State, i: nat, j: nat)
    requires ListsAll(rows, clusters) && SeenFrom(cfg, s0, clusters, seen)
    requires i < |clusters| && j < |clusters| && i != j
    ensures clusters[i].0 != clusters[j].0
    ensures NodeSlot(cfg.nache, clusters[i].0) != NodeSlot(cfg.nache, clusters[j].0)
  {
    hide NodeName, Tagged, ValidKey, Turned, PhaseShown;
    var k, k' := clusters[i].0, clusters[j].0;
    assert ValidKey(k) && ValidKey(k');
    if NodeName(k.account, k.cluster) == NodeName(k'.account, k'.cluster) {
      NacheListing.SameNode(k, k');
    }
  }

  /** The effect a pass is at is one of cluster `n`. */
  lemma HeadIs(cfg: Config, s0: State, s: State, seen: seq<View>, n: nat, done: nat)
    requires WorkInv(cfg, s0, s, seen, n, done) && At(s.pass)
    ensures n < |s.pass.clusters| && done < |Plan(s.pass.clusters, seen, n)|
    ensures Head(s.pass) == Plan(s.pass.clusters, seen, n)[done]
  {
    hide ListsAll, SeenFrom, Becomes, Waiting, Doing, PlanFor, Tagged;
  }

  lemma PlanOf(cfg: Config, s0: State, s: State, seen: seq<View>, n: nat, done: nat)
    requires WorkInv(cfg, s0, s, seen, n, done) && n < |s.pass.clusters|
    ensures var k := s.pass.clusters[n].0;
      Plan(s.pass.clusters, seen, n)
        == PlanBy(k, PhaseAt(s.pass.clusters, seen, n), Tagged(seen, k) != [])
  {
    hide ListsAll, Becomes, Waiting, Doing, PlanFor, Tagged, PlanBy, NodeName, ValidKey, Turned, PhaseIn;
    var (k, state) := s.pass.clusters[n];
    PlanIs(k, state, Tagged(seen, k));
  }

  // ---- A step of chala while the pass works ----

  /** A call of the pass is about the node of the cluster it is at. */
  lemma ReachesOwn(cfg: Config, s0: State, s: State, seen: seq<View>, n: nat, done: nat, step: Handlers.Step,
                   slot: Slot)
    requires WorkInv(cfg, s0, s, seen, n, done) && OnlyOwn(cfg, s) && Inv(cfg, s)
    requires slot.account == cfg.nache && Reaches(cfg, s, step, slot)
    ensures n < |s.pass.clusters| && slot == NodeSlot(cfg.nache, s.pass.clusters[n].0)
    ensures step.RunCall? ==> s.chala.runs[step.h].request == NodeRequest(cfg.nache, s.pass.clusters[n].0)
    ensures s.pass.awaited == Some(step.h)
    ensures step.RunCall? ==> Plan(s.pass.clusters, seen, n)[done].RunNode?
    ensures step.StopCall? ==> Plan(s.pass.clusters, seen, n)[done].Terminate?
  {
    hide WorkInv, Inv, NodeName, NodeRequest, NodeKey, Plan, PhaseAt, Tagged, Validated, ValidKey;
    assert At(s.pass);
    HeadIs(cfg, s0, s, seen, n, done);
    PlanOf(cfg, s0, s, seen, n, done);
    PlanNames(s.pass.clusters[n].0, PhaseAt(s.pass.clusters, seen, n), Tagged(seen, s.pass.clusters[n].0) != [], done);
    if step.RunCall? {
      AskIsValid(cfg, s, step.h);
      AskSlot(cfg, s.chala.runs[step.h].request);
    }
  }

  lemma PlanNames(k: Key, q: Phase, shown: bool, i: nat)
    requires i < |PlanBy(k, q, shown)|
    ensures var e := PlanBy(k, q, shown)[i];
      && (e.RunNode? ==> e.key == k && i == 0 && (q.Missing? || q.Half?))
      && (e.Terminate? ==> e.name == NodeName(k.account, k.cluster) && i == 0 && (q.Sick? || q.Dying?))
      && (e.Observe? ==> e.key == k && i + 1 == |PlanBy(k, q, shown)|)
      && (e.Forget? ==> e.key == k && i + 1 == |PlanBy(k, q, shown)| && q.Dying?)
  {
    hide NodeName;
  }

  /** Every cluster but the one the pass is at is as it was after any call. */
  lemma OthersKept(cfg: Config, s0: State, s: State, seen: seq<View>, n: nat, done: nat, step: Handlers.Step, i: nat)
    requires WorkInv(cfg, s0, s, seen, n, done) && OnlyOwn(cfg, s) && Inv(cfg, s)
    requires Enabled(cfg, s, Compute(step)) && Quiet(cfg, s, Compute(step))
    requires i < |s.pass.clusters|
    requires i != n || !Reaches(cfg, s, step, NodeSlot(cfg.nache, s.pass.clusters[i].0))
    ensures SameCell(cfg, s, After(cfg, s, Compute(step)), s.pass.clusters[i].0)
  {
    hide Inv, Handlers.Enabled, Handlers.After, Kept, Reaches, QuietCall, NodeName, Doing, Becomes, Waiting, TasksAt;
    var slot := NodeSlot(cfg.nache, s.pass.clusters[i].0);
    if Reaches(cfg, s, step, slot) {
      ReachesOwn(cfg, s0, s, seen, n, done, step, slot);
      SlotsDiffer(cfg, s.pass.clusters, s0.rows, seen, s0, i, n);
      assert false;
    }
    CallKeeps(cfg, s, step, slot);
  }

  lemma AwaitedCarries(cfg: Config, rows0: Rows, s: State, step: Handlers.Step, k: Key, q: Phase, h: nat)
    requires Inv(cfg, s) && OnlyOwn(cfg, s) && Enabled(cfg, s, Compute(step)) && Calling(cfg, rows0, s, k, q, h)
    requires !Reaches(cfg, s, step, NodeSlot(cfg.nache, k))
    requires SameCell(cfg, s, After(cfg, s, Compute(step)), k)
    ensures Calling(cfg, rows0, After(cfg, s, Compute(step)), k, q, h)
  {
    hide Inv, Handlers.Enabled, Handlers.After, NodeName, NodeRequest, Crowded, Handlers.StopOk, AskPc, Reaches, Aged;
    var slot := NodeSlot(cfg.nache, k);
    var c' := Handlers.After(cfg.chala, s.chala, step);
    if q.Dying? || q.Sick? {
      HandlersInv(cfg, s);
      KeptIds(s.chala.daemon, c'.daemon, slot);
      Handlers.StopKept(cfg.chala, s.chala, step, h, slot);
    } else {
      if h in c'.runs && c'.runs[h].request == NodeRequest(cfg.nache, k) {
        HandlerStays(cfg, s, step, k, h);
        AskCarries(s.chala.daemon, c'.daemon, slot, s.chala.runs[h].pc, Crowded(cfg, rows0));
      }
    }
  }

  lemma HandlersInv(cfg: Config, s: State)
    requires Inv(cfg, s)
    ensures Handlers.Inv(cfg.chala, s.chala)
  {}

  lemma KeptIds(d: Daemon, d': Daemon, slot: Slot)
    requires Kept(d, d', slot)
    ensures slot in d'.containers ==> slot in d.containers && d.containers[slot].id == d'.containers[slot].id
  {}

  /** Nobody but the handler itself moves it. */
  lemma HandlerStays(cfg: Config, s: State, step: Handlers.Step, k: Key, h: nat)
    requires Enabled(cfg, s, Compute(step)) && !Reaches(cfg, s, step, NodeSlot(cfg.nache, k))
    requires var c' := Handlers.After(cfg.chala, s.chala, step);
      h in c'.runs && c'.runs[h].request == NodeRequest(cfg.nache, k)
    ensures h in s.chala.runs && s.chala.runs[h] == Handlers.After(cfg.chala, s.chala, step).runs[h]
  {
    hide NodeName, RunStep, TerminateStep, Validated, Handlers.ServiceOf, Endpoint;
    if step.RunCall? && step.h == h {
      Handlers.AnsweredStays(s.chala.daemon, s.chala.runs[h].request, s.chala.runs[h].pc, cfg.chala.maxInstances);
    }
  }

  lemma AskCarries(d: Daemon, d': Daemon, slot: Slot, pc: Pc, crowded: bool)
    requires Kept(d, d', slot) && AskPc(d, slot, pc, crowded)
    ensures AskPc(d', slot, pc, crowded)
  {}

  // ---- The handler's own call ----

  /** nache's containers belong to clusters of customers. */
  lemma NodeOfCustomer(cfg: Config, s: State, slot: Slot)
    requires Inv(cfg, s) && slot in s.chala.daemon.containers && slot.account == cfg.nache
    ensures var k := NodeKey(s.chala.daemon.containers[slot].made);
      && k in s.rows && ValidKey(k) && k.account != cfg.nache && slot == NodeSlot(cfg.nache, k)
      && s.chala.daemon.containers[slot].made == NodeRequest(cfg.nache, k)
  {
    hide NodeName, NodeKey, Validated, ValidKey, Asks, PassOk, CreatesOk, Handlers.GoodRuns, NodeRequest;
    var made := s.chala.daemon.containers[slot].made;
    assert Handlers.GoodContainer(cfg.chala, s.chala.daemon, slot);
    assert IsAsk(cfg, s.rows, made);
    assert ValidKey(NodeKey(made));
    AttachesElsewhere(cfg, made);
    AskSlot(cfg, made);
  }

  lemma RoomFor(cfg: Config, s: State, rows0: Rows, k: Key)
    requires Inv(cfg, s) && s.rows.Keys <= rows0.Keys && k in Customers(cfg, rows0)
    requires NodeSlot(cfg.nache, k) !in s.chala.daemon.containers
    ensures |InstancesOf(s.chala.daemon, cfg.nache)| < |Customers(cfg, rows0)|
  {
    hide Inv, NodeName, NodeKey, NodeRequest, ValidKey;
    var d, others := s.chala.daemon, Customers(cfg, rows0) - {k};
    forall slot | slot in InstancesOf(d, cfg.nache)
      ensures exists other :: other in others && NodeSlot(cfg.nache, other) == slot
    {
      NodeOfCustomer(cfg, s, slot);
      var other := NodeKey(d.containers[slot].made);
      assert other in others && NodeSlot(cfg.nache, other) == slot;
    }
    ImageSize(others, InstancesOf(d, cfg.nache), other => NodeSlot(cfg.nache, other));
    assert |others| == |Customers(cfg, rows0)| - 1;
  }

  /** What is found under the name is adopted, being the same request's. */
  lemma Adopted(cfg: Config, s: State, k: Key)
    requires Inv(cfg, s) && ValidKey(k) && NodeSlot(cfg.nache, k) in s.chala.daemon.containers
    requires Validated(NodeRequest(cfg.nache, k), Handlers.ServiceOf(cfg.chala, cfg.nache))
    ensures var c := s.chala.daemon.containers[NodeSlot(cfg.nache, k)];
      Adopt(c, NodeRequest(cfg.nache, k)) == AfterInspect(c, NodeRequest(cfg.nache, k))
  {
    hide Inv, NodeName, NodeKey, NodeRequest, Validated, Adopts, LabelsFor, AfterInspect, ValidKey;
    var r, slot := NodeRequest(cfg.nache, k), NodeSlot(cfg.nache, k);
    NodeOfCustomer(cfg, s, slot);
    var made := s.chala.daemon.containers[slot].made;
    NacheListing.SameNode(k, NodeKey(made));
    AdoptsExactly(made, Handlers.ServiceOf(cfg.chala, cfg.nache), r, Handlers.ServiceOf(cfg.chala, cfg.nache));
  }

  lemma FinishPc(d: Daemon, slot: Slot, r: Request, crowded: bool)
    requires slot in d.containers && d.containers[slot].status == Created
    ensures AskPc(d, slot, AfterInspect(d.containers[slot], r), crowded)
  {
    hide NetworkName;
  }

  /** One call of the handler the pass waits for. */
  lemma AskSteps(cfg: Config, s: State, rows0: Rows, k: Key, pc: Pc)
    requires Inv(cfg, s) && ValidKey(k) && s.rows.Keys <= rows0.Keys && k in Customers(cfg, rows0)
    requires Validated(NodeRequest(cfg.nache, k), Handlers.ServiceOf(cfg.chala, cfg.nache))
    requires AskPc(s.chala.daemon, NodeSlot(cfg.nache, k), pc, Crowded(cfg, rows0))
    ensures var (d', pc') := RunStep(s.chala.daemon, NodeRequest(cfg.nache, k), pc, cfg.chala.maxInstances);
      AskPc(d', NodeSlot(cfg.nache, k), pc', Crowded(cfg, rows0))
  {
    hide Inv, NodeName, Validated, Adopt, AfterInspect, InstancesOf, Customers, ValidKey, Endpoint, NetworkName;
    var r, slot, d := NodeRequest(cfg.nache, k), NodeSlot(cfg.nache, k), s.chala.daemon;
    match pc {
      case LookUp =>
        if slot in d.containers {
          Adopted(cfg, s, k);
          FinishPc(d, slot, r, Crowded(cfg, rows0));
        }
      case Count => RoomFor(cfg, s, rows0, k);
      case InspectNew(_) => FinishPc(d, slot, r, Crowded(cfg, rows0));
      case _ =>
    }
  }

  /** The cluster the pass waits for, after a call of its own handler. */
  lemma OwnCall(cfg: Config, s0: State, s: State, seen: seq<View>, n: nat, done: nat, step: Handlers.Step)
    requires WorkInv(cfg, s0, s, seen, n, done) && OnlyOwn(cfg, s) && Inv(cfg, s)
    requires Enabled(cfg, s, Compute(step)) && Quiet(cfg, s, Compute(step)) && n < |s.pass.clusters|
    requires Reaches(cfg, s, step, NodeSlot(cfg.nache, s.pass.clusters[n].0))
    ensures var c := s.pass.clusters[n];
      Doing(cfg, s0.rows, After(cfg, s, Compute(step)), c, Tagged(seen, c.0), done)
  {
    hide Inv, Handlers.Enabled, Handlers.After, NodeName, NodeRequest, QuietCall, TasksAt, Tagged, PlanFor, Becomes,
      Waiting, SeenFrom, ListsAll, Handlers.StopOk, AskPc, Crowded, Called, Reaches, CellFits;
    var (k, state) := s.pass.clusters[n];
    var slot, q := NodeSlot(cfg.nache, k), PhaseAt(s.pass.clusters, seen, n);
    ReachesOwn(cfg, s0, s, seen, n, done, step, slot);
    PlanOf(cfg, s0, s, seen, n, done);
    PlanNames(k, q, Tagged(seen, k) != [], done);
    if step.RunCall? {
      IsOwnRun(cfg, s, step, slot);
      OwnRunCall(cfg, s, s0.rows, k, step);
    } else {
      IsOwnStop(cfg, s, step, slot);
      HandlersInv(cfg, s);
      StopKeepsId(cfg, s, step, slot);
      Handlers.StopKept(cfg.chala, s.chala, step, step.h, slot);
    }
  }

  lemma IsOwnRun(cfg: Config, s: State, step: Handlers.Step, slot: Slot)
    requires Reaches(cfg, s, step, slot) && step.RunCall?
    ensures step.h in s.chala.runs && OpenAsk(cfg, s.chala.runs[step.h])
  {}

  lemma IsOwnStop(cfg: Config, s: State, step: Handlers.Step, slot: Slot)
    requires Reaches(cfg, s, step, slot) && !step.RunCall?
    ensures step.StopCall? && OwnStop(cfg, s, step.h) && s.chala.stops[step.h].slot == slot
  {}

  lemma StopKeepsId(cfg: Config, s: State, step: Handlers.Step, slot: Slot)
    requires Enabled(cfg, s, Compute(step)) && step.StopCall?
    ensures var d, d' := s.chala.daemon, Handlers.After(cfg.chala, s.chala, step).daemon;
      slot in d'.containers ==> slot in d.containers && d.containers[slot].id == d'.containers[slot].id
  {
    hide TerminateStep;
    var h := step.h;
    if slot in Handlers.After(cfg.chala, s.chala, step).daemon.containers {
      Handlers.TerminateAdds(s.chala.daemon, s.chala.stops[h].slot, s.chala.stops[h].pc, slot);
    }
  }

  lemma OwnRunCall(cfg: Config, s: State, rows0: Rows, k: Key, step: Handlers.Step)
    requires Inv(cfg, s) && s.rows.Keys <= rows0.Keys && Enabled(cfg, s, Compute(step)) && step.RunCall?
    requires OpenAsk(cfg, s.chala.runs[step.h]) && s.chala.runs[step.h].request == NodeRequest(cfg.nache, k)
    requires AskOk(cfg, s.chala, k, step.h, Crowded(cfg, rows0))
    ensures AskOk(cfg, Handlers.After(cfg.chala, s.chala, step), k, step.h, Crowded(cfg, rows0))
  {
    hide Inv, NodeName, NodeRequest, RunStep, AskPc, Crowded, Validated, ValidKey;
    AskIsValid(cfg, s, step.h);
    KeyOfRequest(cfg, k);
    OwnIsNeverAsked(cfg, s, step.h);
    InRows(cfg, s, step.h);
    AccountOfRequest(cfg, k);
    AskSteps(cfg, s, rows0, k, s.chala.runs[step.h].pc);
  }

  lemma AccountOfRequest(cfg: Config, k: Key)
    ensures NodeRequest(cfg.nache, k).account == cfg.nache
    ensures SlotOf(NodeRequest(cfg.nache, k)) == NodeSlot(cfg.nache, k)
  {
    hide NodeName, Endpoint;
  }

  lemma InRows(cfg: Config, s: State, h: nat)
    requires Inv(cfg, s) && h in s.chala.runs && OpenAsk(cfg, s.chala.runs[h])
    ensures NodeKey(s.chala.runs[h].request) in s.rows
  {
    hide Handlers.Inv, Nodes, RowsOk, PassOk, NodeKey, NodeRequest;
    assert IsAsk(cfg, s.rows, s.chala.runs[h].request);
  }

  lemma DoingCarries(cfg: Config, s0: State, s: State, seen: seq<View>, n: nat, done: nat, step: Handlers.Step)
    requires WorkInv(cfg, s0, s, seen, n, done) && OnlyOwn(cfg, s) && Inv(cfg, s)
    requires Enabled(cfg, s, Compute(step)) && Quiet(cfg, s, Compute(step)) && n < |s.pass.clusters|
    requires !Reaches(cfg, s, step, NodeSlot(cfg.nache, s.pass.clusters[n].0))
    ensures var c := s.pass.clusters[n];
      Doing(cfg, s0.rows, After(cfg, s, Compute(step)), c, Tagged(seen, c.0), done)
  {
    hide Inv, Handlers.Enabled, Handlers.After, NodeName, QuietCall, TasksAt, Tagged, PlanFor, Becomes, Waiting,
      Called, Calling, SeenFrom, ListsAll, Reaches, SameCell;
    var c := s.pass.clusters[n];
    var q := PhaseShown(c.1, Tagged(seen, c.0));
    OthersKept(cfg, s0, s, seen, n, done, step, n);
    CellCarries(cfg, s0.rows, s, After(cfg, s, Compute(step)), c.0, q);
    if done < |PlanFor(c, Tagged(seen, c.0))| && s.pass.awaited.Some? {
      AwaitedCarries(cfg, s0.rows, s, step, c.0, q, s.pass.awaited.value);
    }
  }

  lemma CallOn(cfg: Config, s0: State, s: State, seen: seq<View>, n: nat, done: nat, step: Handlers.Step)
    requires WorkInv(cfg, s0, s, seen, n, done) && OnlyOwn(cfg, s) && Inv(cfg, s)
    requires Enabled(cfg, s, Compute(step)) && Quiet(cfg, s, Compute(step))
    ensures WorkInv(cfg, s0, After(cfg, s, Compute(step)), seen, n, done)
  {
    hide Inv, Handlers.Enabled, Handlers.After, NodeName, QuietCall, TasksAt, Becomes, Waiting, Doing, SeenFrom,
      ListsAll, Reaches, SameCell, PhaseAt, Tagged;
    var s' := After(cfg, s, Compute(step));
    forall i | 0 <= i < |s.pass.clusters| && i != n
      ensures i < n ==> Becomes(cfg, s0.rows, s', s.pass.clusters[i].0, PhaseAt(s.pass.clusters, seen, i))
      ensures i > n ==> Waiting(cfg, s0.rows, s', s.pass.clusters[i].0, PhaseAt(s.pass.clusters, seen, i))
    {
      OthersKept(cfg, s0, s, seen, n, done, step, i);
      CellCarries(cfg, s0.rows, s, s', s.pass.clusters[i].0, PhaseAt(s.pass.clusters, seen, i));
    }
    if n < |s.pass.clusters| {
      if Reaches(cfg, s, step, NodeSlot(cfg.nache, s.pass.clusters[n].0)) {
        OwnCall(cfg, s0, s, seen, n, done, step);
      } else {
        DoingCarries(cfg, s0, s, seen, n, done, step);
      }
    }
  }

  // ---- A step of the pass itself ----

  /** The other clusters, when only the row of cluster `n` or what the pass is at changes. */
  lemma RestCarries(cfg: Config, s0: State, s: State, s': State, seen: seq<View>, n: nat, done: nat)
    requires WorkInv(cfg, s0, s, seen, n, done)
    requires s'.pass.Working? && s'.pass.clusters == s.pass.clusters
    requires forall i | 0 <= i < |s.pass.clusters| && i != n :: SameCell(cfg, s, s', s.pass.clusters[i].0)
    ensures forall i | 0 <= i < n ::
      Becomes(cfg, s0.rows, s', s.pass.clusters[i].0, PhaseAt(s.pass.clusters, seen, i))
    ensures forall i | n < i < |s.pass.clusters| ::
      Waiting(cfg, s0.rows, s', s.pass.clusters[i].0, PhaseAt(s.pass.clusters, seen, i))
  {
    hide TasksAt, Becomes, Waiting, Doing, SeenFrom, ListsAll, SameCell, PhaseAt;
    forall i | 0 <= i < |s.pass.clusters| && i != n
      ensures i < n ==> Becomes(cfg, s0.rows, s', s.pass.clusters[i].0, PhaseAt(s.pass.clusters, seen, i))
      ensures i > n ==> Waiting(cfg, s0.rows, s', s.pass.clusters[i].0, PhaseAt(s.pass.clusters, seen, i))
    {
      CellCarries(cfg, s0.rows, s, s', s.pass.clusters[i].0, PhaseAt(s.pass.clusters, seen, i));
    }
  }

  lemma SameStays(cfg: Config, s: State, s': State, k: Key)
    requires s'.chala.daemon == s.chala.daemon && (k in s.rows <==> k in s'.rows)
    requires k in s.rows && k in s'.rows ==> s'.rows[k] == s.rows[k]
    ensures SameCell(cfg, s, s', k)
  {}

  lemma TasksStep(clusters: seq<Cluster>, seen: seq<View>, tasks: seq<seq<Effect>>, n: nat, done: nat)
    requires n <= |clusters| && TasksAt(clusters, seen, tasks, n, done) && tasks != []
    ensures n < |clusters| && tasks[0] == Plan(clusters, seen, n)[done..]
    ensures tasks[0] == [] ==> TasksAt(clusters, seen, tasks[1..], n + 1, 0) && done == |Plan(clusters, seen, n)|
    ensures tasks[0] != [] ==>
      && done < |Plan(clusters, seen, n)| && tasks[0][0] == Plan(clusters, seen, n)[done]
      && TasksAt(clusters, seen, AfterAnswer(tasks, true), n, done + 1)
      && TasksAt(clusters, seen, AfterAnswer(tasks, false), n + 1, 0)
  {
    hide PlanFor, Tagged;
    var rest := ClusterWork(clusters[n + 1..], seen);
    assert tasks[1..] == rest;
    if n + 1 < |clusters| {
      assert rest == [Plan(clusters, seen, n + 1)[0..]] + ClusterWork(clusters[n + 2..], seen);
    }
    if tasks[0] != [] {
      assert tasks[0][1..] == Plan(clusters, seen, n)[done + 1..];
    }
  }

  lemma NextOn(cfg: Config, s0: State, s: State, seen: seq<View>, n: nat, done: nat)
    requires WorkInv(cfg, s0, s, seen, n, done) && Enabled(cfg, s, NextTask)
    ensures WorkInv(cfg, s0, After(cfg, s, NextTask), seen, n + 1, 0)
  {
    hide TasksAt, Becomes, Waiting, SeenFrom, ListsAll, PhaseShown, Tagged, PlanFor, Called, Calling;
    var s' := After(cfg, s, NextTask);
    TasksStep(s.pass.clusters, seen, s.pass.tasks, n, done);
    forall k ensures SameCell(cfg, s, s', k) { SameStays(cfg, s, s', k); }
    RestCarries(cfg, s0, s, s', seen, n, done);
    assert Doing(cfg, s0.rows, s, s.pass.clusters[n], Tagged(seen, s.pass.clusters[n].0), done);
    Turn(cfg, s0, s, s', seen, n);
  }

  /** The next cluster's turn begins. */
  lemma Turn(cfg: Config, s0: State, s: State, s': State, seen: seq<View>, n: nat)
    requires s.pass.Working? && n < |s.pass.clusters| && s'.pass.Working?
    requires s'.pass.clusters == s.pass.clusters && s'.pass.awaited == None
    requires s'.chala.daemon == s.chala.daemon && s'.rows == s.rows
    requires Becomes(cfg, s0.rows, s, s.pass.clusters[n].0, PhaseAt(s.pass.clusters, seen, n))
    requires forall i | n < i < |s.pass.clusters| ::
      Waiting(cfg, s0.rows, s', s.pass.clusters[i].0, PhaseAt(s.pass.clusters, seen, i))
    ensures Becomes(cfg, s0.rows, s', s.pass.clusters[n].0, PhaseAt(s.pass.clusters, seen, n))
    ensures n + 1 < |s.pass.clusters| ==>
      var c := s.pass.clusters[n + 1]; Doing(cfg, s0.rows, s', c, Tagged(seen, c.0), 0)
  {
    hide Becomes, Waiting, Tagged, PlanFor, Called, Calling, PhaseShown;
    SameStays(cfg, s, s', s.pass.clusters[n].0);
    CellCarries(cfg, s0.rows, s, s', s.pass.clusters[n].0, PhaseAt(s.pass.clusters, seen, n));
    if n + 1 < |s.pass.clusters| {
      PlanIsSomething(s.pass.clusters[n + 1], Tagged(seen, s.pass.clusters[n + 1].0));
    }
  }

  lemma PlanIsSomething(c: Cluster, shown: seq<View>)
    ensures PlanFor(c, shown) != []
  {
    hide Strays, Own, Terminates, NodeName;
  }

  lemma SendOn(cfg: Config, s0: State, s: State, seen: seq<View>, n: nat, done: nat, h: nat)
    requires WorkInv(cfg, s0, s, seen, n, done) && Inv(cfg, s) && Enabled(cfg, s, Send(h))
    ensures WorkInv(cfg, s0, After(cfg, s, Send(h)), seen, n, done)
  {
    hide Inv, TasksAt, Becomes, Waiting, SeenFrom, ListsAll, PhaseShown, Tagged, PlanFor, Called, Calling, NodeName,
      SameCell, NodeRequest, Validated, ValidKey, Handlers.StopOk;
    var s' := After(cfg, s, Send(h));
    HeadIs(cfg, s0, s, seen, n, done);
    PlanOf(cfg, s0, s, seen, n, done);
    var (k, state) := s.pass.clusters[n];
    var q, e := PhaseAt(s.pass.clusters, seen, n), Head(s.pass);
    PlanNames(k, q, Tagged(seen, k) != [], done);
    SentKeeps(cfg, s, h);
    forall i | 0 <= i < |s.pass.clusters| && i != n ensures SameCell(cfg, s, s', s.pass.clusters[i].0) {
      SameStays(cfg, s, s', s.pass.clusters[i].0);
    }
    RestCarries(cfg, s0, s, s', seen, n, done);
    if e.RunNode? {
      AskStarts(cfg, s0.rows, s, s', k, q, h);
    } else {
      StopStarts(cfg, s0.rows, s, s', k, q, h);
    }
  }

  lemma SentKeeps(cfg: Config, s: State, h: nat)
    requires Enabled(cfg, s, Send(h))
    ensures var s' := After(cfg, s, Send(h));
      && s'.chala.daemon == s.chala.daemon && s'.rows == s.rows
      && s'.pass == s.pass.(awaited := Some(h))
      && (Head(s.pass).RunNode? ==>
            h in s'.chala.runs
            && s'.chala.runs[h] == Handlers.RunHandler(NodeRequest(cfg.nache, Head(s.pass).key), LookUp))
      && (Head(s.pass).Terminate? ==>
            h in s'.chala.stops
            && s'.chala.stops[h] == Handlers.StopHandler(Slot(cfg.nache, Head(s.pass).name), Find))
  {
    hide NodeRequest, Validated;
  }

  lemma AskStarts(cfg: Config, rows0: Rows, s: State, s': State, k: Key, q: Phase, h: nat)
    requires Waiting(cfg, rows0, s, k, q) && (q.Missing? || q.Half?)
    requires s'.chala.daemon == s.chala.daemon && s'.rows == s.rows
    requires h in s'.chala.runs && s'.chala.runs[h] == Handlers.RunHandler(NodeRequest(cfg.nache, k), LookUp)
    ensures Calling(cfg, rows0, s', k, q, h)
  {
    hide NodeName, NodeRequest, Crowded;
  }

  lemma StopStarts(cfg: Config, rows0: Rows, s: State, s': State, k: Key, q: Phase, h: nat)
    requires Waiting(cfg, rows0, s, k, q) && (q.Dying? || q.Sick?)
    requires s'.rows == s.rows
    requires h in s'.chala.stops && s'.chala.stops[h].pc == Find
    ensures Calling(cfg, rows0, s', k, q, h)
  {
    hide NodeName;
  }

  /** The answer: chala has done what was asked. */
  lemma AnswerOn(cfg: Config, s0: State, s: State, seen: seq<View>, n: nat, done: nat)
    requires WorkInv(cfg, s0, s, seen, n, done) && Inv(cfg, s) && Enabled(cfg, s, Succeed)
    ensures WorkInv(cfg, s0, After(cfg, s, Succeed), seen, n, done + 1)
  {
    hide Inv, TasksAt, Becomes, Waiting, SeenFrom, ListsAll, PhaseShown, Tagged, PlanFor, Called, Calling, NodeName,
      SameCell, NodeRequest, Answers, AfterAnswer;
    var s' := After(cfg, s, Succeed);
    HeadIs(cfg, s0, s, seen, n, done);
    PlanOf(cfg, s0, s, seen, n, done);
    TasksStep(s.pass.clusters, seen, s.pass.tasks, n, done);
    var (k, state) := s.pass.clusters[n];
    var q, e := PhaseAt(s.pass.clusters, seen, n), Head(s.pass);
    PlanNames(k, q, Tagged(seen, k) != [], done);
    forall i | 0 <= i < |s.pass.clusters| && i != n ensures SameCell(cfg, s, s', s.pass.clusters[i].0) {
      SameStays(cfg, s, s', s.pass.clusters[i].0);
    }
    RestCarries(cfg, s0, s, s', seen, n, done);
    AnswerIs(cfg, s0.rows, s, k, q, e, s.pass.awaited.value);
    SameStays(cfg, s, s', k);
    CellCarries(cfg, s0.rows, s, s', k, q);
    CallIsNotLast(k, q, Tagged(seen, k) != [], done);
  }

  lemma CallIsNotLast(k: Key, q: Phase, shown: bool, i: nat)
    requires i < |PlanBy(k, q, shown)| && IsCall(PlanBy(k, q, shown)[i])
    ensures i + 1 < |PlanBy(k, q, shown)|
  {
    hide NodeName;
  }

  lemma AnswerIs(cfg: Config, rows0: Rows, s: State, k: Key, q: Phase, e: Effect, h: nat)
    requires Calling(cfg, rows0, s, k, q, h) && Answers(cfg, s.chala, e, h) && IsCall(e)
    requires e.RunNode? ==> e.key == k && (q.Missing? || q.Half?)
    requires e.Terminate? ==> e.name == NodeName(k.account, k.cluster) && (q.Sick? || q.Dying?)
    ensures Called(cfg, rows0, s, k, q)
  {
    hide NodeName, NodeRequest, Crowded;
  }

  /** The row is written. */
  lemma StatementOn(cfg: Config, s0: State, s: State, seen: seq<View>, n: nat, done: nat)
    requires WorkInv(cfg, s0, s, seen, n, done) && Inv(cfg, s) && Enabled(cfg, s, Statement)
    ensures WorkInv(cfg, s0, After(cfg, s, Statement), seen, n, done + 1)
  {
    hide Inv, TasksAt, Becomes, Waiting, SeenFrom, PhaseShown, Tagged, PlanFor, Called, Calling, NodeName, SameCell,
      AfterAnswer, Applied;
    var s' := After(cfg, s, Statement);
    HeadIs(cfg, s0, s, seen, n, done);
    PlanOf(cfg, s0, s, seen, n, done);
    TasksStep(s.pass.clusters, seen, s.pass.tasks, n, done);
    var (k, state) := s.pass.clusters[n];
    var q, e := PhaseAt(s.pass.clusters, seen, n), Head(s.pass);
    PlanNames(k, q, Tagged(seen, k) != [], done);
    AppliesToOne(s.rows, e, k);
    forall i | 0 <= i < |s.pass.clusters| && i != n ensures SameCell(cfg, s, s', s.pass.clusters[i].0) {
      SlotsDiffer(cfg, s.pass.clusters, s0.rows, seen, s0, i, n);
      SameStays(cfg, s, s', s.pass.clusters[i].0);
    }
    RestCarries(cfg, s0, s, s', seen, n, done);
    Written(cfg, s0, s, seen, n, done);
  }

  /** A statement is about one row. */
  lemma AppliesToOne(rows: Rows, e: Effect, k: Key)
    requires (e.Observe? || e.Forget?) && e.key == k
    ensures Applied(rows, e).Keys <= rows.Keys
    ensures forall other | other != k ::
      && (other in Applied(rows, e) <==> other in rows)
      && (other in rows ==> Applied(rows, e)[other] == rows[other])
  {
    hide NodeName;
  }

  lemma Written(cfg: Config, s0: State, s: State, seen: seq<View>, n: nat, done: nat)
    requires At(s.pass) && n < |s.pass.clusters| && done < |Plan(s.pass.clusters, seen, n)|
    requires Head(s.pass) == Plan(s.pass.clusters, seen, n)[done] && Enabled(cfg, s, Statement)
    requires WorkInv(cfg, s0, s, seen, n, done) && Inv(cfg, s)
    ensures done + 1 == |Plan(s.pass.clusters, seen, n)|
    ensures Becomes(cfg, s0.rows, After(cfg, s, Statement), s.pass.clusters[n].0, PhaseAt(s.pass.clusters, seen, n))
  {
    hide Inv, TasksAt, Becomes, Waiting, Tagged, PlanFor, Called, Calling, NodeName, AfterAnswer, Applied, PlanBy,
      SeenFrom, WorkInv, ValidKey, Plan;
    var (k, state) := s.pass.clusters[n];
    var q, e, shown := PhaseAt(s.pass.clusters, seen, n), Head(s.pass), Tagged(seen, k) != [];
    PlanOf(cfg, s0, s, seen, n, done);
    PlanNames(k, q, shown, done);
    ClusterIs(cfg, s0, s, seen, n, done);
    if e.Forget? {
      GoneByNow(cfg, s);
    }
    FirstIsCall(cfg, k, q, shown, done);
    if k.account == cfg.nache {
      OwnHasNoNode(cfg, s, k);
    }
    WrittenCell(cfg, s0.rows, s, k, q, shown, done, state);
  }

  lemma ClusterIs(cfg: Config, s0: State, s: State, seen: seq<View>, n: nat, done: nat)
    requires WorkInv(cfg, s0, s, seen, n, done) && n < |s.pass.clusters| && done < |Plan(s.pass.clusters, seen, n)|
    ensures var (k, state) := s.pass.clusters[n];
      var q := PhaseAt(s.pass.clusters, seen, n);
      && ValidKey(k) && k in s0.rows && s0.rows[k].state == state
      && (s.pass.awaited == None ==>
            if done == 0 then Waiting(cfg, s0.rows, s, k, q) else Called(cfg, s0.rows, s, k, q))
      && (s.pass.awaited.Some? ==> IsCall(Plan(s.pass.clusters, seen, n)[done]))
  {
    hide TasksAt, Becomes, Waiting, Tagged, PlanFor, Called, Calling, PhaseShown, ValidKey, Turned, PhaseIn;
    assert s.pass.clusters[n] in s.pass.clusters;
  }

  /** There is never a node for a cluster of nache's own account. */
  lemma OwnHasNoNode(cfg: Config, s: State, k: Key)
    requires Inv(cfg, s) && ValidKey(k) && k.account == cfg.nache
    ensures NodeSlot(cfg.nache, k) !in s.chala.daemon.containers
  {
    hide Inv, NodeName, NodeKey, NodeRequest, ValidKey;
    var slot := NodeSlot(cfg.nache, k);
    if slot in s.chala.daemon.containers {
      NodeOfCustomer(cfg, s, slot);
      NacheListing.SameNode(k, NodeKey(s.chala.daemon.containers[slot].made));
    }
  }

  lemma FirstIsCall(cfg: Config, k: Key, q: Phase, shown: bool, i: nat)
    requires i < |PlanBy(k, q, shown)| && !IsCall(PlanBy(k, q, shown)[i])
    ensures i == 0 ==> q.Warming? || q.Well? || (q.Dying? && !shown)
    ensures i > 0 ==> q.Missing? || q.Half? || q.Sick? || q.Dying?
    ensures PlanBy(k, q, shown)[i] ==
      if q.Dying? then Forget(k)
      else Observe(k, if q.Sick? then NodeImpaired else if q.Well? then NodeAvailable else NodeCreating, q.Well?)
  {
    hide NodeName;
  }

  lemma GoneByNow(cfg: Config, s: State)
    requires Inv(cfg, s) && At(s.pass) && Head(s.pass).Forget?
    ensures NodeSlot(cfg.nache, Head(s.pass).key) !in s.chala.daemon.containers
  {
    hide Inv, TaskOk, NodeName;
    FirstTaskOk(cfg, s);
    ForgetIsLast(cfg, s.chala.daemon, s.shown, s.pass.clusters, s.pass.tasks[0], Head(s.pass).key);
  }

  lemma WrittenCell(cfg: Config, rows0: Rows, s: State, k: Key, q: Phase, shown: bool, done: nat, state: RowState)
    requires At(s.pass) && done < |PlanBy(k, q, shown)| && Head(s.pass) == PlanBy(k, q, shown)[done]
    requires !IsCall(Head(s.pass)) && k in rows0 && rows0[k].state == state && (state == Deleting <==> q.Dying?)
    requires if done == 0 then Waiting(cfg, rows0, s, k, q) else Called(cfg, rows0, s, k, q)
    requires done == 0 ==> q.Warming? || q.Well? || (q.Dying? && !shown)
    requires done > 0 ==> q.Missing? || q.Half? || q.Sick? || q.Dying?
    requires Head(s.pass) ==
      if q.Dying? then Forget(k)
      else Observe(k, if q.Sick? then NodeImpaired else if q.Well? then NodeAvailable else NodeCreating, q.Well?)
    requires Head(s.pass).Forget? ==> NodeSlot(cfg.nache, k) !in s.chala.daemon.containers
    requires k.account == cfg.nache ==> NodeSlot(cfg.nache, k) !in s.chala.daemon.containers
    ensures Becomes(cfg, rows0, s.(rows := Applied(s.rows, Head(s.pass)), pass := Answer(s.pass, true)), k, q)
  {
    hide NodeName, Answer, PlanBy;
  }

  /** chala refuses a node to a cluster of nache's own account, and the pass goes on with the next. */
  lemma RefusedOn(cfg: Config, s0: State, s: State, seen: seq<View>, n: nat, done: nat)
    requires WorkInv(cfg, s0, s, seen, n, done) && Inv(cfg, s) && Enabled(cfg, s, Fail) && Quiet(cfg, s, Fail)
    ensures WorkInv(cfg, s0, After(cfg, s, Fail), seen, n + 1, 0)
  {
    hide Inv, TasksAt, Becomes, Waiting, SeenFrom, Tagged, PlanFor, Called, Calling, NodeName, SameCell, AfterAnswer,
      ListsAll, PhaseShown;
    var s' := After(cfg, s, Fail);
    HeadIs(cfg, s0, s, seen, n, done);
    PlanOf(cfg, s0, s, seen, n, done);
    TasksStep(s.pass.clusters, seen, s.pass.tasks, n, done);
    var (k, state) := s.pass.clusters[n];
    var q := PhaseAt(s.pass.clusters, seen, n);
    PlanNames(k, q, Tagged(seen, k) != [], done);
    ClusterIs(cfg, s0, s, seen, n, done);
    OwnHasNoNode(cfg, s, k);
    OwnIsMissing(cfg, s0, s.pass.clusters, seen, n);
    LeftAlone(cfg, s0.rows, s, k, q, s.pass.awaited, done, Plan(s.pass.clusters, seen, n));
    forall i | 0 <= i < |s.pass.clusters| ensures SameCell(cfg, s, s', s.pass.clusters[i].0) {
      SameStays(cfg, s, s', s.pass.clusters[i].0);
    }
    RestCarries(cfg, s0, s, s', seen, n, done);
    Turn(cfg, s0, s, s', seen, n);
  }

  lemma OwnIsMissing(cfg: Config, s0: State, clusters: seq<Cluster>, seen: seq<View>, n: nat)
    requires SeenFrom(cfg, s0, clusters, seen) && n < |clusters| && clusters[n].0.account == cfg.nache
    ensures PhaseAt(clusters, seen, n) == if clusters[n].1 == Deleting then Dying else Missing
  {
    hide Tagged, ValidKey, Turned, PhaseIn;
  }

  lemma LeftAlone(cfg: Config, rows0: Rows, s: State, k: Key, q: Phase, awaited: Option<nat>, done: nat,
                  plan: seq<Effect>)
    requires k.account == cfg.nache && q.Missing? && NodeSlot(cfg.nache, k) !in s.chala.daemon.containers
    requires if awaited.Some? then Calling(cfg, rows0, s, k, q, awaited.value)
             else if done == 0 then Waiting(cfg, rows0, s, k, q) else Called(cfg, rows0, s, k, q)
    ensures Becomes(cfg, rows0, s, k, q)
  {
    hide NodeName, AskOk, Crowded;
  }

  // ---- From the listing to the work ----

  ghost predicate NoneTerminating(cfg: Config, s: State) {
    forall slot | slot in s.chala.daemon.containers && slot.account == cfg.nache ::
      StateOf(s.chala.daemon.containers[slot].status) != Terminating
  }

  /** What was shown, against what was there when the pass began and what is there now. */
  lemma PhaseTurned(cfg: Config, s0: State, s: State, k: Key, shown: seq<View>)
    requires SameSoFar(cfg, s0, s) && NoneTerminating(cfg, s0) && k in s0.rows
    requires var slot := NodeSlot(cfg.nache, k);
      && (slot in s.chala.daemon.containers <==> slot in s0.chala.daemon.containers)
      && if slot in s.chala.daemon.containers then |shown| == 1 && Fits(shown[0], s.chala.daemon.containers[slot])
      else shown == []
    requires shown != [] ==>
      shown[0].health == s0.chala.daemon.containers[NodeSlot(cfg.nache, k)].health || shown[0].health == Healthy
    ensures var q := PhaseShown(s0.rows[k].state, shown);
      Turned(PhaseIn(cfg, s0, k), q) && Waiting(cfg, s0.rows, s, k, q)
  {
    hide NodeName, TagsFrom, LabelsFor;
    assert Kept(s0.chala.daemon, s.chala.daemon, NodeSlot(cfg.nache, k));
  }

  lemma SeenCluster(cfg: Config, s0: State, s: State, clusters: seq<Cluster>, seen: seq<View>, i: nat)
    requires Inv(cfg, s) && SameSoFar(cfg, s0, s) && NoneTerminating(cfg, s0) && Shown(cfg, s.chala.daemon, seen)
    requires SeenSince(cfg, s0.chala.daemon, seen)
    requires ListsAll(s0.rows, clusters) && i < |clusters|
    ensures SeenRight(cfg, s0, clusters[i], Tagged(seen, clusters[i].0))
    ensures Waiting(cfg, s0.rows, s, clusters[i].0, PhaseAt(clusters, seen, i))
  {
    hide Inv, Kept, NoneTerminating, Shown, Tagged, Fits, NodeName, ValidKey, PhaseShown, PhaseIn, Waiting, Turned;
    var (k, state) := clusters[i];
    assert clusters[i] in clusters;
    assert k in s.rows && s0.rows[k].state == state;
    SameSlot(cfg, s0, s, k);
    KeysAreValid(cfg, s, k);
    TaggedShows(cfg, s, seen, k);
    PhaseTurned(cfg, s0, s, k, Tagged(seen, k));
    if k.account == cfg.nache {
      OwnHasNoNode(cfg, s, k);
    }
  }

  lemma SameSlot(cfg: Config, s0: State, s: State, k: Key)
    requires SameSoFar(cfg, s0, s)
    ensures Kept(s0.chala.daemon, s.chala.daemon, NodeSlot(cfg.nache, k))
    ensures NodeSlot(cfg.nache, k) in s.chala.daemon.containers
      <==> NodeSlot(cfg.nache, k) in s0.chala.daemon.containers
  {
    hide NodeName;
  }

  lemma SeenAll(cfg: Config, s0: State, s: State, clusters: seq<Cluster>, seen: seq<View>)
    requires Inv(cfg, s) && SameSoFar(cfg, s0, s) && NoneTerminating(cfg, s0) && Shown(cfg, s.chala.daemon, seen)
    requires SeenSince(cfg, s0.chala.daemon, seen)
    requires ListsAll(s0.rows, clusters)
    ensures SeenFrom(cfg, s0, clusters, seen)
    ensures forall i | 0 <= i < |clusters| :: Waiting(cfg, s0.rows, s, clusters[i].0, PhaseAt(clusters, seen, i))
  {
    hide Inv, SameSoFar, NoneTerminating, Shown, Tagged, Waiting, SeenRight, PhaseAt, ListsAll, SeenSince;
    forall i | 0 <= i < |clusters|
      ensures SeenRight(cfg, s0, clusters[i], Tagged(seen, clusters[i].0))
      ensures Waiting(cfg, s0.rows, s, clusters[i].0, PhaseAt(clusters, seen, i))
    {
      SeenCluster(cfg, s0, s, clusters, seen, i);
    }
  }

  lemma WorkStarts(cfg: Config, s0: State, s: State, orphans: seq<View>)
    requires Inv(cfg, s) && s.pass.Listing? && s.pass.todo == map[] && ListedSoFar(cfg, s.chala.daemon, s.pass)
    requires SameSoFar(cfg, s0, s) && NoneTerminating(cfg, s0) && ListsAll(s0.rows, s.pass.clusters)
    requires SeenSince(cfg, s0.chala.daemon, s.pass.seen)
    requires AreOrphans(s.pass.clusters, s.pass.seen, orphans)
    ensures WorkInv(cfg, s0, s.(pass := Working(s.pass.clusters, Work(s.pass.clusters, s.pass.seen, orphans), None)),
                    s.pass.seen, 0, 0)
  {
    hide Inv, Kept, NoneTerminating, Shown, Tagged, Waiting, ListedSoFar, SeenFrom, AreOrphans, Called, Calling,
      Becomes, PlanFor, PhaseAt, ListsAll, TasksAt, SeenSince;
    var clusters, seen := s.pass.clusters, s.pass.seen;
    var s' := s.(pass := Working(clusters, Work(clusters, seen, orphans), None));
    ListingEnds(cfg, s.chala.daemon, s.pass);
    NacheListing.NoOrphans(cfg, s, clusters, seen, orphans);
    assert Work(clusters, seen, orphans) == ClusterWork(clusters, seen);
    SeenAll(cfg, s0, s, clusters, seen);
    forall i | 0 <= i < |clusters| ensures Waiting(cfg, s0.rows, s', clusters[i].0, PhaseAt(clusters, seen, i)) {
      WaitsOn(cfg, s0.rows, s, s', clusters[i].0, PhaseAt(clusters, seen, i));
    }
    FirstTask(clusters, seen);
    if clusters != [] {
      FirstWaits(cfg, s0.rows, s', clusters, seen);
    }
  }

  lemma FirstWaits(cfg: Config, rows0: Rows, s: State, clusters: seq<Cluster>, seen: seq<View>)
    requires s.pass.Working? && s.pass.awaited == None && clusters != []
    requires Waiting(cfg, rows0, s, clusters[0].0, PhaseAt(clusters, seen, 0))
    ensures Doing(cfg, rows0, s, clusters[0], Tagged(seen, clusters[0].0), 0)
  {
    hide Waiting, Tagged, PlanFor, Becomes, Called, Calling, PhaseShown;
    PlanIsSomething(clusters[0], Tagged(seen, clusters[0].0));
  }

  lemma WaitsOn(cfg: Config, rows0: Rows, s: State, s': State, k: Key, q: Phase)
    requires Waiting(cfg, rows0, s, k, q) && s'.rows == s.rows && s'.chala == s.chala
    ensures Waiting(cfg, rows0, s', k, q)
  {}

  lemma FirstTask(clusters: seq<Cluster>, seen: seq<View>)
    ensures TasksAt(clusters, seen, ClusterWork(clusters, seen), 0, 0)
  {
    hide PlanFor, Tagged;
    if clusters != [] {
      assert ClusterWork(clusters, seen) == [Plan(clusters, seen, 0)[0..]] + ClusterWork(clusters[1..], seen);
    }
  }

  // ---- A pass, step by step ----

  ghost predicate InPass(cfg: Config, s0: State, s: State) {
    match s.pass
    case Idle => false
    case Listed(clusters) => ListsAll(s0.rows, clusters) && SameSoFar(cfg, s0, s)
    case Listing(clusters, _, _) =>
      ListsAll(s0.rows, clusters) && SameSoFar(cfg, s0, s) && ListedSoFar(cfg, s.chala.daemon, s.pass)
      && SeenSince(cfg, s0.chala.daemon, s.pass.seen)
    case Working(_, _, _) => exists seen, n: nat, done: nat :: WorkInv(cfg, s0, s, seen, n, done)
  }

  lemma WorkOn(cfg: Config, s0: State, s: State, step: Step)
    requires IsConfig(cfg) && Inv(cfg, s) && OnlyOwn(cfg, s) && Enabled(cfg, s, step) && Quiet(cfg, s, step)
    requires s.pass.Working? && InPass(cfg, s0, s) && !step.EndPass?
    ensures InPass(cfg, s0, After(cfg, s, step))
  {
    hide Inv, WorkInv, Handlers.Enabled, Handlers.After, QuietCall, Answer, Applied, Marked, CreateStep, Answers,
      IsConfig, ValidKey;
    var seen, n: nat, done: nat :| WorkInv(cfg, s0, s, seen, n, done);
    var s' := After(cfg, s, step);
    match step {
      case Compute(c) => CallOn(cfg, s0, s, seen, n, done, c); StillIn(cfg, s0, s', seen, n, done);
      case NextTask => NextOn(cfg, s0, s, seen, n, done); StillIn(cfg, s0, s', seen, n + 1, 0);
      case Send(h) => SendOn(cfg, s0, s, seen, n, done, h); StillIn(cfg, s0, s', seen, n, done);
      case Succeed => AnswerOn(cfg, s0, s, seen, n, done); StillIn(cfg, s0, s', seen, n, done + 1);
      case Fail => RefusedOn(cfg, s0, s, seen, n, done); StillIn(cfg, s0, s', seen, n + 1, 0);
      case Statement => StatementOn(cfg, s0, s, seen, n, done); StillIn(cfg, s0, s', seen, n, done + 1);
      case _ => SameWork(cfg, s0, s, s', seen, n, done); StillIn(cfg, s0, s', seen, n, done);
    }
  }

  lemma StillIn(cfg: Config, s0: State, s: State, seen: seq<View>, n: nat, done: nat)
    requires WorkInv(cfg, s0, s, seen, n, done)
    ensures InPass(cfg, s0, s)
  {
    hide TasksAt, SeenFrom, ListsAll, Becomes, Waiting, Doing, PhaseAt;
    assert s.pass.Working?;
  }

  lemma SameWork(cfg: Config, s0: State, s: State, s': State, seen: seq<View>, n: nat, done: nat)
    requires WorkInv(cfg, s0, s, seen, n, done) && s'.rows == s.rows && s'.chala == s.chala && s'.pass == s.pass
    ensures WorkInv(cfg, s0, s', seen, n, done)
  {
    hide TasksAt, SeenFrom, ListsAll, Tagged, PlanFor, PhaseShown, NodeName, CellFits, Serves, AskOk, Handlers.StopOk;
  }

  lemma PassOn(cfg: Config, s0: State, s: State, step: Step)
    requires IsConfig(cfg) && Inv(cfg, s) && OnlyOwn(cfg, s) && NoneTerminating(cfg, s0)
    requires Enabled(cfg, s, step) && Quiet(cfg, s, step) && InPass(cfg, s0, s) && !step.EndPass?
    ensures InPass(cfg, s0, After(cfg, s, step))
  {
    hide Inv, WorkInv, Handlers.Enabled, Handlers.After, Quiet, SameSoFar, ListedSoFar, ListsAll, AreOrphans, Work,
      AllIds, AfterCreateCall, AfterInspectOf, Marked, Answers, NoneTerminating, IsConfig, ValidKey, OnlyOwn;
    var s' := After(cfg, s, step);
    if s.pass.Working? {
      WorkOn(cfg, s0, s, step);
    } else {
      NothingChanges(cfg, s, step);
      SameOn(cfg, s0, s, s');
      match step {
        case ListIds => ListingStarts(cfg, s);
        case Inspect(slot) =>
          InspectOn(cfg, s, slot);
          InspectSince(cfg, s0, s, slot);
          InspectPass(cfg, s, slot);
        case BeginWork(orphans) => WorkStarts(cfg, s0, s, orphans); StillIn(cfg, s0, s', s.pass.seen, 0, 0);
        case _ =>
          PassKept(cfg, s, step);
          if s.pass.Listing? {
            ListedOn(cfg, s, s');
          }
      }
    }
  }

  lemma InspectPass(cfg: Config, s: State, slot: Slot)
    requires s.pass.Listing? && slot in s.pass.todo
    ensures AfterInspectOf(cfg, s, slot).pass.Listing?
    ensures AfterInspectOf(cfg, s, slot).pass.clusters == s.pass.clusters
  {
    hide Shows, ShowsHealthy, ViewOf, KeyOf;
  }

  /** Everything else leaves the listing where it is. */
  lemma PassKept(cfg: Config, s: State, step: Step)
    requires Enabled(cfg, s, step) && (s.pass.Listed? || s.pass.Listing?) && Quiet(cfg, s, step)
    requires !step.ListIds? && !step.Inspect? && !step.BeginWork?
    ensures After(cfg, s, step).pass == s.pass
  {
    hide Handlers.Enabled, Handlers.After, CreateStep, Marked, ListsAll;
  }

  /** What a quiet pass has done when it ends. */
  ghost predicate Passed(cfg: Config, s0: State, s: State) {
    && s.rows.Keys <= s0.rows.Keys
    && forall k | k in s0.rows :: exists q :: Turned(PhaseIn(cfg, s0, k), q) && Becomes(cfg, s0.rows, s, k, q)
  }

  lemma PassEnds(cfg: Config, s0: State, s: State)
    requires InPass(cfg, s0, s) && Enabled(cfg, s, EndPass)
    ensures Passed(cfg, s0, After(cfg, s, EndPass))
  {
    hide Tagged, PlanFor, Becomes, Waiting, Doing, PhaseShown, PhaseIn, Turned, ValidKey, NodeName;
    var s' := After(cfg, s, EndPass);
    var seen, n: nat, done: nat :| WorkInv(cfg, s0, s, seen, n, done);
    var clusters := s.pass.clusters;
    assert n == |clusters|;
    forall k | k in s0.rows ensures exists q :: Turned(PhaseIn(cfg, s0, k), q) && Becomes(cfg, s0.rows, s', k, q) {
      assert (k, s0.rows[k].state) in clusters;
      var i :| 0 <= i < |clusters| && clusters[i] == (k, s0.rows[k].state);
      var q := PhaseAt(clusters, seen, i);
      assert Turned(PhaseIn(cfg, s0, k), q);
      SameBecomes(cfg, s0.rows, s, s', k, q);
    }
  }

  lemma SameBecomes(cfg: Config, rows0: Rows, s: State, s': State, k: Key, q: Phase)
    requires Becomes(cfg, rows0, s, k, q) && s'.rows == s.rows && s'.chala == s.chala
    ensures Becomes(cfg, rows0, s', k, q)
  {
    hide NodeName;
  }
}
