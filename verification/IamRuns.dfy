/** Changes of policies, the hooks they fire, and policy loads, interleaved statement by statement.

    DeletePolicy is not one statement: it reads who is affected, deletes, and then fires the hooks. */
module IamRuns {
  import opened Iam
  import opened Policy

  /** What a principal has: each attached policy with its document. */
  type Holdings = map<string, Row>

  function Of(policies: Policies, attachments: Attachments, principal: string): Holdings {
    map a | a in policies && (a, principal) in attachments :: policies[a]
  }

  datatype Deletion = Deletion(policy: string, affected: set<string>)

  /** `loads` are those that have read and not stored yet; `hooks` those still to be fired. */
  datatype State = State(
    policies: Policies, attachments: Attachments, cached: map<string, Holdings>, loads: map<string, Holdings>,
    deletions: map<nat, Deletion>, hooks: map<nat, set<string>>)

  datatype Step =
    | Create(policy: string, row: Row)
    | Attach(h: nat, policy: string, principal: string)
    | Detach(h: nat, policy: string, principal: string)
    | ReadAffected(h: nat, policy: string)
    | Delete(h: nat)
    | Hook(h: nat, principal: string)
    | LoseHooks(h: nat)
    | ReadLoad(principal: string)
    | StoreLoad(principal: string)
    | RefuseLoad(principal: string)
    | Expire(principal: string)

  function AttachedTo(s: State, policy: string): set<string> {
    set a | a in s.attachments && a.0 == policy :: a.1
  }

  predicate Enabled(s: State, step: Step) {
    match step
    case Create(policy, _) => policy !in s.policies
    case Attach(h, policy, _) => h !in s.hooks && policy in s.policies
    case Detach(h, policy, principal) => h !in s.hooks && (policy, principal) in s.attachments
    case ReadAffected(h, _) => h !in s.deletions
    case Delete(h) => h in s.deletions && h !in s.hooks && s.deletions[h].policy in s.policies
    case Hook(h, principal) => h in s.hooks && principal in s.hooks[h]
    // A statement that was applied while its call came back with an error: no hook is fired.
    case LoseHooks(h) => h in s.hooks
    case ReadLoad(principal) => principal !in s.loads
    case StoreLoad(principal) => principal in s.loads
    // The cache is full.
    case RefuseLoad(principal) => principal in s.loads
    case Expire(principal) => principal in s.cached
  }

  function After(s: State, step: Step): State
    requires Enabled(s, step)
  {
    match step
    case Create(policy, row) => s.(policies := s.policies[policy := row])
    case Attach(h, policy, principal) =>
      s.(attachments := s.attachments + {(policy, principal)}, hooks := s.hooks[h := {principal}])
    case Detach(h, policy, principal) =>
      s.(attachments := s.attachments - {(policy, principal)}, hooks := s.hooks[h := {principal}])
    case ReadAffected(h, policy) => s.(deletions := s.deletions[h := Deletion(policy, AttachedTo(s, policy))])
    case Delete(h) =>
      var Deletion(policy, affected) := s.deletions[h];
      s.(policies := s.policies - {policy}, attachments := Without(s.attachments, policy),
         deletions := s.deletions - {h}, hooks := s.hooks[h := affected])
    case Hook(h, principal) =>
      s.(cached := s.cached - {principal}, hooks := s.hooks[h := s.hooks[h] - {principal}])
    case LoseHooks(h) => s.(hooks := s.hooks - {h})
    case ReadLoad(principal) =>
      s.(loads := s.loads[principal := Of(s.policies, s.attachments, principal)])
    case StoreLoad(principal) =>
      s.(cached := s.cached[principal := s.loads[principal]], loads := s.loads - {principal})
    case RefuseLoad(principal) => s.(loads := s.loads - {principal})
    case Expire(principal) => s.(cached := s.cached - {principal})
  }

  const EMPTY := State(map[], {}, map[], map[], map[], map[])

  ghost predicate IsRun(steps: seq<Step>, states: seq<State>) {
    && |states| == |steps| + 1
    && states[0] == EMPTY
    && forall i | 0 <= i < |steps| :: Enabled(states[i], steps[i]) && states[i + 1] == After(states[i], steps[i])
  }

  function Held(s: State, principal: string): Holdings { Of(s.policies, s.attachments, principal) }

  /** Some hook for the principal is still to come, … */
  predicate Awaited(s: State, principal: string) {
    exists h :: h in s.hooks && principal in s.hooks[h]
  }

  /** … and not only that of `h`. */
  predicate AwaitedBesides(s: State, h: nat, principal: string) {
    exists g :: g in s.hooks && g != h && principal in s.hooks[g]
  }

  /** What is cached of the principal, and what a load of it has read, is what it has. */
  predicate Current(s: State, principal: string) {
    && (principal in s.cached ==> s.cached[principal] == Held(s, principal))
    && (principal in s.loads ==> s.loads[principal] == Held(s, principal))
  }

  predicate Settled(s: State, principal: string) { Awaited(s, principal) || Current(s, principal) }

  ghost predicate Inv(s: State) {
    && (forall a | a in s.attachments :: a.0 in s.policies)
    && forall p :: Settled(s, p)
  }

  // ---- What the invariant means ----

  /** Whoever waits for no hook is answered from what it has. */
  ghost predicate IsRight(s: State) {
    forall p | p in s.cached && !Awaited(s, p) :: s.cached[p] == Held(s, p)
  }

  ghost predicate StaysRight(s: State) {
    IsRight(s) && forall p | p in s.loads :: IsRight(After(s, StoreLoad(p)))
  }

  /** The cache is right, and will be whichever load comes in next. */
  lemma InvIsRight(s: State)
    requires forall a | a in s.attachments :: a.0 in s.policies
    ensures Inv(s) <==> StaysRight(s)
  {
    hide Held, Awaited, IsRight;
    if Inv(s) {
      IsRightIf(s);
      forall p | p in s.loads ensures IsRight(After(s, StoreLoad(p))) {
        StoredIsRight(s, p);
      }
    }
    if StaysRight(s) {
      forall p ensures Settled(s, p) {
        IsSettledIf(s, p);
      }
    }
  }

  lemma IsRightIf(s: State)
    requires Inv(s)
    ensures IsRight(s)
  {
    hide Held, Awaited;
    forall p | p in s.cached && !Awaited(s, p) ensures s.cached[p] == Held(s, p) {
      assert Settled(s, p);
    }
  }

  lemma IsSettledIf(s: State, p: string)
    requires IsRight(s) && (p in s.loads ==> IsRight(After(s, StoreLoad(p))))
    ensures Settled(s, p)
  {
    hide Of;
    if p in s.loads && !Awaited(s, p) {
      var s' := After(s, StoreLoad(p));
      SameHooks(s, s');
      assert p in s'.cached && !Awaited(s', p);
    }
  }

  lemma StoredIsRight(s: State, p: string)
    requires Inv(s) && p in s.loads
    ensures IsRight(After(s, StoreLoad(p)))
  {
    hide Of;
    var s' := After(s, StoreLoad(p));
    SameHooks(s, s');
    forall q | q in s'.cached && !Awaited(s', q) ensures s'.cached[q] == Held(s', q) {
      assert Settled(s, q);
    }
  }

  lemma SameHooks(s: State, s': State)
    requires s'.hooks == s.hooks && s'.policies == s.policies && s'.attachments == s.attachments
    ensures forall q :: Awaited(s', q) <==> Awaited(s, q)
    ensures forall q :: Held(s', q) == Held(s, q)
  {}

  // ---- Exactly the steps that keep it ----

  /** Nobody the policy is still attached to is overlooked by its deletion: who is cached, or being loaded, was
      read to be affected, or waits for a hook of its own. */
  predicate NotMissed(s: State, h: nat, principal: string) {
    h in s.deletions && principal in AttachedTo(s, s.deletions[h].policy)
      && (principal in s.cached || principal in s.loads) ==>
      principal in s.deletions[h].affected || Awaited(s, principal)
  }

  predicate ExactFor(s: State, step: Step, p: string) {
    match step
    // The hook undoes what is cached, but not what a load has read.
    case Hook(h, principal) =>
      p == principal ==> AwaitedBesides(s, h, p) || (p in s.loads ==> s.loads[p] == Held(s, p))
    case Delete(h) => NotMissed(s, h, p)
    case LoseHooks(h) => h in s.hooks && p in s.hooks[h] ==> AwaitedBesides(s, h, p) || Current(s, p)
    case _ => true
  }

  ghost predicate Exact(s: State, step: Step) { forall p :: ExactFor(s, step, p) }

  lemma UnattachedKeeps(s: State, policy: string, principal: string)
    requires (policy, principal) !in s.attachments
    ensures Of(s.policies - {policy}, Without(s.attachments, policy), principal) == Held(s, principal)
  {}

  lemma HadThePolicy(s: State, policy: string, principal: string)
    requires (policy, principal) in s.attachments && policy in s.policies
    ensures Of(s.policies - {policy}, Without(s.attachments, policy), principal) != Held(s, principal)
  {
    assert policy in Held(s, principal);
  }

  lemma OtherKeeps(s: State, policy: string, principal: string, other: string)
    requires other != principal
    ensures Of(s.policies, s.attachments + {(policy, principal)}, other) == Held(s, other)
    ensures Of(s.policies, s.attachments - {(policy, principal)}, other) == Held(s, other)
  {}

  lemma CreateKeeps(s: State, policy: string, row: Row, principal: string)
    requires policy !in s.policies && forall a | a in s.attachments :: a.0 in s.policies
    ensures Of(s.policies[policy := row], s.attachments, principal) == Held(s, principal)
  {}

  lemma IsAttached(s: State, policy: string, p: string)
    ensures p in AttachedTo(s, policy) <==> (policy, p) in s.attachments
  {
    assert (policy, p) in s.attachments ==> (policy, p).1 in AttachedTo(s, policy);
  }

  /** Who waits for a hook after hooks of `h` were changed. */
  lemma AwaitedAfter(s: State, s': State, h: nat, p: string)
    requires forall g | g != h :: (g in s'.hooks <==> g in s.hooks) && (g in s.hooks ==> s'.hooks[g] == s.hooks[g])
    ensures Awaited(s, p) <==> AwaitedBesides(s, h, p) || (h in s.hooks && p in s.hooks[h])
    ensures Awaited(s', p) <==> AwaitedBesides(s, h, p) || (h in s'.hooks && p in s'.hooks[h])
  {
    if AwaitedBesides(s, h, p) {
      var g :| g in s.hooks && g != h && p in s.hooks[g];
      assert g in s'.hooks && p in s'.hooks[g];
    }
  }

  /** A change of one principal's attachments, with the hook for it. */
  lemma ChangeSettles(s: State, step: Step, p: string)
    requires Inv(s) && Enabled(s, step) && (step.Attach? || step.Detach?)
    ensures Settled(After(s, step), p)
  {
    hide Of, AwaitedBesides;
    var s' := After(s, step);
    assert Settled(s, p);
    AwaitedAfter(s, s', step.h, p);
    if p != step.principal {
      OtherKeeps(s, step.policy, step.principal, p);
    }
  }

  lemma DeletionSettles(s: State, h: nat, p: string)
    requires Inv(s) && Enabled(s, Delete(h))
    ensures Settled(After(s, Delete(h)), p) <==> NotMissed(s, h, p)
  {
    hide Of, AwaitedBesides, Without, AttachedTo;
    var s', policy := After(s, Delete(h)), s.deletions[h].policy;
    assert Settled(s, p);
    AwaitedAfter(s, s', h, p);
    IsAttached(s, policy, p);
    if (policy, p) in s.attachments {
      HadThePolicy(s, policy, p);
    } else {
      UnattachedKeeps(s, policy, p);
    }
  }

  lemma OtherStepSettles(s: State, step: Step, p: string)
    requires Inv(s) && Enabled(s, step) && !step.Attach? && !step.Detach? && !step.Delete?
    ensures Settled(After(s, step), p) <==> ExactFor(s, step, p)
  {
    hide Of, AwaitedBesides, Awaited, AttachedTo, Without;
    var s' := After(s, step);
    assert Settled(s, p);
    match step {
      case Hook(h, _) => AwaitedAfter(s, s', h, p);
      case LoseHooks(h) => AwaitedAfter(s, s', h, p);
      case Create(policy, row) => SameAwaited(s, s', p); CreateKeeps(s, policy, row, p);
      case _ => SameAwaited(s, s', p);
    }
  }

  lemma SameAwaited(s: State, s': State, p: string)
    requires s'.hooks == s.hooks
    ensures Awaited(s', p) <==> Awaited(s, p)
  {}

  /** A step keeps the invariant if and only if it is exact. */
  lemma StepKeepsIff(s: State, step: Step)
    requires Inv(s) && Enabled(s, step)
    ensures Inv(After(s, step)) <==> Exact(s, step)
  {
    hide Settled, NotMissed;
    forall p ensures Settled(After(s, step), p) <==> ExactFor(s, step, p) {
      if step.Attach? || step.Detach? {
        ChangeSettles(s, step, p);
      } else if step.Delete? {
        DeletionSettles(s, step.h, p);
      } else {
        OtherStepSettles(s, step, p);
      }
    }
    AttachedPoliciesExist(s, step);
  }

  lemma AttachedPoliciesExist(s: State, step: Step)
    requires Enabled(s, step) && forall a | a in s.attachments :: a.0 in s.policies
    ensures forall a | a in After(s, step).attachments :: a.0 in After(s, step).policies
  {}

  // ---- What a load and an entry have read ----

  /** The load of the principal that reads at step `m` is open at `i`. */
  predicate OpenSince(steps: seq<Step>, m: nat, i: nat, principal: string) {
    && m < i <= |steps| && steps[m] == ReadLoad(principal)
    && forall j | m < j < i :: steps[j] != StoreLoad(principal) && steps[j] != RefuseLoad(principal)
  }

  predicate Drops(step: Step, principal: string) {
    step == StoreLoad(principal) || step == Expire(principal) || (step.Hook? && step.principal == principal)
  }

  /** What was read at step `m` and stored at step `n` is cached at `i`. */
  predicate CachedSince(steps: seq<Step>, m: nat, n: nat, i: nat, principal: string) {
    && OpenSince(steps, m, n, principal) && n < i <= |steps| && steps[n] == StoreLoad(principal)
    && forall j | n < j < i :: !Drops(steps[j], principal)
  }

  lemma {:induction false} LoadHasRead(steps: seq<Step>, states: seq<State>, i: nat, p: string) returns (m: nat)
    requires IsRun(steps, states) && i < |states| && p in states[i].loads
    ensures OpenSince(steps, m, i, p) && states[i].loads[p] == Held(states[m], p)
  {
    hide Of, Without, AttachedTo;
    assert i > 0;
    var j := i - 1;
    assert Enabled(states[j], steps[j]) && states[j + 1] == After(states[j], steps[j]);
    if steps[j] == ReadLoad(p) {
      m := j;
    } else {
      m := LoadHasRead(steps, states, j, p);
    }
  }

  lemma {:induction false} OpenLoadHolds(steps: seq<Step>, states: seq<State>, m: nat, i: nat, p: string)
    requires IsRun(steps, states) && OpenSince(steps, m, i, p)
    ensures p in states[i].loads && states[i].loads[p] == Held(states[m], p)
    decreases i
  {
    hide Of, Without, AttachedTo;
    var j := i - 1;
    assert Enabled(states[j], steps[j]) && states[j + 1] == After(states[j], steps[j]);
    if m < j {
      OpenLoadHolds(steps, states, m, j, p);
    }
  }

  lemma {:induction false} EntryHasRead(steps: seq<Step>, states: seq<State>, i: nat, p: string)
    returns (m: nat, n: nat)
    requires IsRun(steps, states) && i < |states| && p in states[i].cached
    ensures CachedSince(steps, m, n, i, p) && states[i].cached[p] == Held(states[m], p)
  {
    hide Of, Without, AttachedTo;
    assert i > 0;
    var j := i - 1;
    assert Enabled(states[j], steps[j]) && states[j + 1] == After(states[j], steps[j]);
    if steps[j] == StoreLoad(p) {
      m := LoadHasRead(steps, states, j, p);
      n := j;
    } else {
      m, n := EntryHasRead(steps, states, j, p);
    }
  }

  lemma {:induction false} EntryHolds(steps: seq<Step>, states: seq<State>, m: nat, n: nat, i: nat, p: string)
    requires IsRun(steps, states) && CachedSince(steps, m, n, i, p)
    ensures p in states[i].cached && states[i].cached[p] == Held(states[m], p)
    decreases i
  {
    hide Of, Without, AttachedTo;
    var j := i - 1;
    assert Enabled(states[j], steps[j]) && states[j + 1] == After(states[j], steps[j]);
    if n < j {
      EntryHolds(steps, states, m, n, j, p);
    } else {
      OpenLoadHolds(steps, states, m, n, p);
    }
  }

  /** A load is open that read when the principal had something else, … */
  ghost predicate OldLoad(steps: seq<Step>, states: seq<State>, i: nat, principal: string)
    requires i <= |steps| < |states|
  {
    exists m: nat :: OpenSince(steps, m, i, principal) && Held(states[m], principal) != Held(states[i], principal)
  }

  /** … or an entry is there that rests on such a load. */
  ghost predicate OldEntry(steps: seq<Step>, states: seq<State>, i: nat, principal: string)
    requires i <= |steps| < |states|
  {
    exists m: nat, n: nat ::
      CachedSince(steps, m, n, i, principal) && Held(states[m], principal) != Held(states[i], principal)
  }

  lemma RunSize(steps: seq<Step>, states: seq<State>)
    requires IsRun(steps, states)
    ensures |states| == |steps| + 1
  {}

  lemma OldMeansStale(steps: seq<Step>, states: seq<State>, i: nat, p: string)
    requires IsRun(steps, states) && i <= |steps|
    ensures OldLoad(steps, states, i, p) <==> p in states[i].loads && states[i].loads[p] != Held(states[i], p)
    ensures OldEntry(steps, states, i, p) <==> p in states[i].cached && states[i].cached[p] != Held(states[i], p)
  {
    hide IsRun, Held;
    RunSize(steps, states);
    if p in states[i].loads {
      var m := LoadHasRead(steps, states, i, p);
    }
    if m: nat :| OpenSince(steps, m, i, p) && Held(states[m], p) != Held(states[i], p) {
      OpenLoadHolds(steps, states, m, i, p);
    }
    if p in states[i].cached {
      var m, n := EntryHasRead(steps, states, i, p);
    }
    if m: nat, n: nat :| CachedSince(steps, m, n, i, p) && Held(states[m], p) != Held(states[i], p) {
      EntryHolds(steps, states, m, n, i, p);
    }
  }

  /** The principal gains or loses a policy. */
  predicate Changes(s: State, step: Step, principal: string) {
    match step
    case Attach(_, _, p) => p == principal
    case Detach(_, _, p) => p == principal
    case Delete(h) => h in s.deletions && (s.deletions[h].policy, principal) in s.attachments
    case _ => false
  }

  lemma {:induction false} RunsAttachPolicies(steps: seq<Step>, states: seq<State>, i: nat)
    requires IsRun(steps, states) && i < |states|
    ensures forall a | a in states[i].attachments :: a.0 in states[i].policies
  {
    hide Enabled, After;
    if i > 0 {
      var j := i - 1;
      RunsAttachPolicies(steps, states, j);
      assert states[j + 1] == After(states[j], steps[j]);
      AttachedPoliciesExist(states[j], steps[j]);
    }
  }

  lemma UnchangedHeld(s: State, step: Step, p: string)
    requires Enabled(s, step) && !Changes(s, step, p) && forall a | a in s.attachments :: a.0 in s.policies
    ensures Held(After(s, step), p) == Held(s, p)
  {
    hide Of, Without, AttachedTo;
    match step {
      case Create(policy, row) => CreateKeeps(s, policy, row, p);
      case Attach(_, policy, principal) => OtherKeeps(s, policy, principal, p);
      case Detach(_, policy, principal) => OtherKeeps(s, policy, principal, p);
      case Delete(h) => UnattachedKeeps(s, s.deletions[h].policy, p);
      case _ =>
    }
  }

  /** What a principal has at two times differs only if something was changed in between. */
  lemma {:induction false} ChangedBetween(steps: seq<Step>, states: seq<State>, m: nat, i: nat, p: string)
    returns (c: nat)
    requires IsRun(steps, states) && m <= i < |states| && Held(states[m], p) != Held(states[i], p)
    ensures m <= c < i && Changes(states[c], steps[c], p)
    decreases i
  {
    hide Enabled, After, Held, Changes;
    var j := i - 1;
    assert Enabled(states[j], steps[j]) && states[j + 1] == After(states[j], steps[j]);
    RunsAttachPolicies(steps, states, j);
    if Changes(states[j], steps[j], p) {
      c := j;
    } else {
      UnchangedHeld(states[j], steps[j], p);
      c := ChangedBetween(steps, states, m, j, p);
    }
  }

  /** An old load spans a change. */
  lemma OldLoadSpansChange(steps: seq<Step>, states: seq<State>, i: nat, p: string) returns (m: nat, c: nat)
    requires IsRun(steps, states) && i <= |steps| && OldLoad(steps, states, i, p)
    ensures OpenSince(steps, m, i, p) && m < c < i && Changes(states[c], steps[c], p)
  {
    hide IsRun, Held;
    RunSize(steps, states);
    m :| OpenSince(steps, m, i, p) && Held(states[m], p) != Held(states[i], p);
    c := ChangedBetween(steps, states, m, i, p);
  }

  // ---- Exactly the runs in which the cache is right ----

  /** What must not happen at step `i`: that the last hook for a principal fires, or is lost, while a load is
      open that read when it had something else; that it is lost while an entry is there that was read then;
      that a policy is deleted while somebody overlooked has it. */
  ghost predicate IsSafe(steps: seq<Step>, states: seq<State>, i: nat)
    requires i < |steps| < |states|
  {
    match steps[i]
    case Hook(h, p) => OldLoad(steps, states, i, p) ==> AwaitedBesides(states[i], h, p)
    case Delete(h) => forall p :: NotMissed(states[i], h, p)
    case LoseHooks(h) =>
      forall p | h in states[i].hooks && p in states[i].hooks[h] && !AwaitedBesides(states[i], h, p) ::
        !OldLoad(steps, states, i, p) && !OldEntry(steps, states, i, p)
    case _ => true
  }

  lemma SafeIsExact(steps: seq<Step>, states: seq<State>, i: nat)
    requires IsRun(steps, states) && i < |steps|
    ensures IsSafe(steps, states, i) <==> Exact(states[i], steps[i])
  {
    hide IsRun, Held, OldLoad, OldEntry, AwaitedBesides, NotMissed;
    RunSize(steps, states);
    forall p ensures Current(states[i], p) <==> !OldLoad(steps, states, i, p) && !OldEntry(steps, states, i, p) {
      OldMeansStale(steps, states, i, p);
    }
    match steps[i] {
      case Hook(h, p) =>
        OldMeansStale(steps, states, i, p);
        assert ExactFor(states[i], steps[i], p) <==> IsSafe(steps, states, i);
      case Delete(h) => assert forall p :: ExactFor(states[i], steps[i], p) <==> NotMissed(states[i], h, p);
      case LoseHooks(h) =>
        if IsSafe(steps, states, i) {
          forall p ensures ExactFor(states[i], steps[i], p) {}
        }
        if Exact(states[i], steps[i]) {
          forall p | h in states[i].hooks && p in states[i].hooks[h] && !AwaitedBesides(states[i], h, p)
            ensures Current(states[i], p)
          {
            assert ExactFor(states[i], steps[i], p);
          }
        }
      case _ =>
    }
  }

  /** In every interleaving: the cache is right all the way if and only if every step was safe. */
  lemma {:induction false} CachedIsCurrentIff(steps: seq<Step>, states: seq<State>, i: nat)
    requires IsRun(steps, states) && i < |states|
    ensures (forall j | 0 <= j <= i :: Inv(states[j])) <==> (forall j | 0 <= j < i :: IsSafe(steps, states, j))
  {
    hide Enabled, After, IsSafe, Exact, Settled;
    if i == 0 {
      NothingCached();
    } else {
      var j := i - 1;
      CachedIsCurrentIff(steps, states, j);
      assert states[j + 1] == After(states[j], steps[j]);
      SafeIsExact(steps, states, j);
      if Inv(states[j]) {
        StepKeepsIff(states[j], steps[j]);
      }
    }
  }

  lemma NothingCached()
    ensures Inv(EMPTY)
  {}

  /** So a deletion, wherever in a run it comes, leaves the cache right exactly if it misses nobody. */
  lemma DeletionIsRightIff(steps: seq<Step>, states: seq<State>, i: nat, h: nat)
    requires IsRun(steps, states) && i < |steps| && steps[i] == Delete(h)
    requires forall j | 0 <= j < i :: IsSafe(steps, states, j)
    ensures StaysRight(states[i + 1]) <==> forall p :: NotMissed(states[i], h, p)
  {
    hide Enabled, After, IsSafe, Exact, NotMissed, StaysRight;
    CachedIsCurrentIff(steps, states, i);
    assert Inv(states[i]) && Enabled(states[i], steps[i]) && states[i + 1] == After(states[i], steps[i]);
    StepKeepsIff(states[i], steps[i]);
    AttachedPoliciesExist(states[i], steps[i]);
    InvIsRight(states[i + 1]);
    OnlyDeletes(states[i], h);
  }

  lemma OnlyDeletes(s: State, h: nat)
    ensures Exact(s, Delete(h)) <==> forall p :: NotMissed(s, h, p)
  {
    assert forall p :: ExactFor(s, Delete(h), p) <==> NotMissed(s, h, p);
  }

  // ---- What is answered ----

  /** The policies held, in whatever order. */
  ghost predicate Lists(held: Holdings, ps: seq<AttachedPolicy>) {
    && (forall p | p in ps :: p.arn in held && p.statements == held[p.arn].document)
    && (forall a | a in held :: AttachedPolicy(a, held[a].document) in ps)
  }

  /** All that is said by the policies a principal is attached to. */
  function SaidTo(s: State, principal: string): set<Statement> {
    set a, st | a in s.policies && (a, principal) in s.attachments && st in s.policies[a].document :: st
  }

  lemma ListingSays(s: State, principal: string, ps: seq<AttachedPolicy>)
    requires Lists(Of(s.policies, s.attachments, principal), ps)
    ensures Said(ps) == SaidTo(s, principal)
  {
    var held := Of(s.policies, s.attachments, principal);
    forall st | st in Said(ps) ensures st in SaidTo(s, principal) {
      var p :| p in ps && st in p.statements;
      assert p.arn in s.policies && (p.arn, principal) in s.attachments && st in s.policies[p.arn].document;
    }
    forall st | st in SaidTo(s, principal) ensures st in Said(ps) {
      var a :| a in s.policies && (a, principal) in s.attachments && st in s.policies[a].document;
      assert a in held && AttachedPolicy(a, held[a].document) in ps;
    }
  }

  /** While every step is safe a request of a principal that waits for no hook is answered as the current
      attachments say, from the cache and from a load that has read. */
  lemma AnswersAreCurrent(steps: seq<Step>, states: seq<State>, i: nat, principal: string, held: Holdings,
                          ps: seq<AttachedPolicy>, req: Policy.Request)
    requires IsRun(steps, states) && i < |states|
    requires forall j | 0 <= j < i :: IsSafe(steps, states, j)
    requires !Awaited(states[i], principal)
    requires var s := states[i];
      || (principal in s.cached && held == s.cached[principal])
      || (principal in s.loads && held == s.loads[principal])
    requires Lists(held, ps)
    ensures Evaluated(ps, req).verdict == Rule(SaidTo(states[i], principal), req)
  {
    hide IsRun, IsSafe, Of, Lists, Evaluated, Rule, Awaited;
    CachedIsCurrentIff(steps, states, i);
    assert Inv(states[i]) && Settled(states[i], principal);
    ListingSays(states[i], principal, ps);
    FollowsTheRules(ps, req);
  }

  /** A caller of DeletePolicy keeps everybody in sight by attaching the policy to nobody meanwhile. */
  lemma {:induction false} NobodyAttaches(steps: seq<Step>, states: seq<State>, j: nat, i: nat, h: nat, policy: string)
    requires IsRun(steps, states) && j < i < |states| && steps[j] == ReadAffected(h, policy)
    requires forall m | j < m < i :: steps[m] != Delete(h) && !(steps[m].Attach? && steps[m].policy == policy)
    ensures h in states[i].deletions && states[i].deletions[h].policy == policy
    ensures AttachedTo(states[i], policy) <= states[i].deletions[h].affected
    ensures forall p :: NotMissed(states[i], h, p)
    decreases i
  {
    var m := i - 1;
    assert Enabled(states[m], steps[m]) && states[m + 1] == After(states[m], steps[m]);
    if j < m {
      NobodyAttaches(steps, states, j, m, h, policy);
    }
  }

  // ---- The deletion that misses somebody ----

  const P := "policy"
  const Q := "principal"
  const GRANT := Statement("", Allow, ["*"], ["*"])
  const ROW := Row("000000000001", [GRANT])

  /** `s` comes at the end of a run that keeps the cache right. */
  ghost predicate EndsIn(steps: seq<Step>, states: seq<State>, s: State) {
    && IsRun(steps, states) && states[|steps|] == s
    && forall j | 0 <= j < |steps| :: Exact(states[j], steps[j])
  }

  lemma Append(steps: seq<Step>, states: seq<State>, s: State, step: Step, s': State)
    requires EndsIn(steps, states, s) && Enabled(s, step) && After(s, step) == s'
    ensures IsRun(steps + [step], states + [s']) && (states + [s'])[|steps|] == s
    ensures forall j | 0 <= j < |steps| :: Exact((states + [s'])[j], (steps + [step])[j])
  {
    hide Enabled, After, Exact;
    var steps', states' := steps + [step], states + [s'];
    forall i | 0 <= i < |steps'|
      ensures Enabled(states'[i], steps'[i]) && states'[i + 1] == After(states'[i], steps'[i])
      ensures i < |steps| ==> Exact(states'[i], steps'[i])
    {
      if i == |steps| {
        assert states'[i] == s && steps'[i] == step;
      } else {
        assert states'[i] == states[i] && states'[i + 1] == states[i + 1] && steps'[i] == steps[i];
      }
    }
  }

  lemma Extend(steps: seq<Step>, states: seq<State>, s: State, step: Step, s': State)
    requires EndsIn(steps, states, s) && Enabled(s, step) && After(s, step) == s' && Exact(s, step)
    ensures EndsIn(steps + [step], states + [s'], s')
  {
    hide Enabled, After, Exact;
    Append(steps, states, s, step, s');
  }

  const HOLDS: Holdings := map[P := ROW]
  const RACE := State(map[P := ROW], {(P, Q)}, map[], map[], map[0 := Deletion(P, {})], map[1 := {}])

  /** A deletion reads that nobody is affected; then the policy is attached, and the hook fires. */
  lemma AttachedBehindIt() returns (steps: seq<Step>, states: seq<State>)
    ensures EndsIn(steps, states, RACE)
  {
    hide IsRun, EndsIn, AttachedTo;
    var s1 := EMPTY.(policies := map[P := ROW]);
    var s2 := s1.(deletions := map[0 := Deletion(P, {})]);
    var s3 := s2.(attachments := {(P, Q)}, hooks := map[1 := {Q}]);
    steps, states := [], [EMPTY];
    Starts();
    Extend(steps, states, EMPTY, Create(P, ROW), s1);
    steps, states := steps + [Create(P, ROW)], states + [s1];
    Nobody(s1);
    Extend(steps, states, s1, ReadAffected(0, P), s2);
    steps, states := steps + [ReadAffected(0, P)], states + [s2];
    Extend(steps, states, s2, Attach(1, P, Q), s3);
    steps, states := steps + [Attach(1, P, Q)], states + [s3];
    assert {Q} - {Q} == {};
    Extend(steps, states, s3, Hook(1, Q), RACE);
    steps, states := steps + [Hook(1, Q)], states + [RACE];
  }

  lemma Starts()
    ensures EndsIn([], [EMPTY], EMPTY)
  {}

  /** It happens: after an attachment between the two statements of a deletion, and a load, a principal
      keeps a policy that is gone, and waits for no hook. */
  lemma DeletionCanMiss() returns (steps: seq<Step>, states: seq<State>, last: State)
    ensures IsRun(steps, states) && |steps| > 0 && steps[|steps| - 1] == Delete(0) && states[|steps|] == last
    ensures forall j | 0 <= j < |steps| - 1 :: IsSafe(steps, states, j)
    ensures P !in last.policies && Q in last.cached && P in last.cached[Q]
    ensures !Awaited(last, Q) && Q !in last.loads && last.deletions == map[]
    ensures forall ps, req | Lists(last.cached[Q], ps) :: Evaluated(ps, req).verdict == Allowed
    ensures forall req :: Rule(SaidTo(last, Q), req) == ImplicitDeny
  {
    hide IsRun, EndsIn, Awaited, Of, Without, AttachedTo, Lists, Evaluated, Rule, IsSafe;
    steps, states := AttachedBehindIt();
    QHasP();
    var loading := RACE.(loads := map[Q := HOLDS]);
    var cached := RACE.(cached := map[Q := HOLDS]);
    last := cached.(policies := map[], attachments := {}, deletions := map[], hooks := map[1 := {}, 0 := {}]);
    Extend(steps, states, RACE, ReadLoad(Q), loading);
    steps, states := steps + [ReadLoad(Q)], states + [loading];
    Extend(steps, states, loading, StoreLoad(Q), cached);
    steps, states := steps + [StoreLoad(Q)], states + [cached];
    Append(steps, states, cached, Delete(0), last);
    EndsAt(steps, states, cached);
    steps, states := steps + [Delete(0)], states + [last];
    forall j | 0 <= j < |steps| - 1 ensures IsSafe(steps, states, j) {
      SafeIsExact(steps, states, j);
    }
    NobodyWaits(last);
    forall ps, req | Lists(last.cached[Q], ps) ensures Evaluated(ps, req).verdict == Allowed {
      StillAllows(ps, req);
    }
    forall req ensures Rule(SaidTo(last, Q), req) == ImplicitDeny {
      NothingSaid(last, req);
    }
  }

  lemma EndsAt(steps: seq<Step>, states: seq<State>, s: State)
    requires EndsIn(steps, states, s)
    ensures |states| == |steps| + 1
  {}

  lemma StillAllows(ps: seq<AttachedPolicy>, req: Policy.Request)
    requires Lists(HOLDS, ps)
    ensures Evaluated(ps, req).verdict == Allowed
  {
    hide Evaluated;
    FollowsTheRules(ps, req);
    assert AttachedPolicy(P, HOLDS[P].document) in ps && GRANT in AttachedPolicy(P, HOLDS[P].document).statements;
    assert forall s | s in Said(ps) :: s == GRANT;
    assert Match("*", req.action) && Match("*", req.resource);
    assert "*" in GRANT.actions && "*" in GRANT.resources;
    assert Told(Said(ps), Allow, req);
  }

  lemma NothingSaid(s: State, req: Policy.Request)
    requires s.policies == map[]
    ensures Rule(SaidTo(s, Q), req) == ImplicitDeny
  {
    assert SaidTo(s, Q) == {};
  }

  lemma NobodyWaits(s: State)
    requires forall h | h in s.hooks :: s.hooks[h] == {}
    ensures !Awaited(s, Q)
  {}

  lemma Nobody(s: State)
    requires s.attachments == {}
    ensures AttachedTo(s, P) == {}
  {}

  lemma QHasP()
    ensures Of(map[P := ROW], {(P, Q)}, Q) == HOLDS
    ensures Without({(P, Q)}, P) == {}
  {}
}
