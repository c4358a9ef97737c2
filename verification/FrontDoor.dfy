/** From a decision at the front door to the Guard of a service: what a service accepts was allowed. */
module FrontDoor {
  import opened Arn
  import opened Capability
  import opened Policy
  import opened Wrappers

  // ---- The decision ----

  datatype Principal = Principal(account: string, arn: string)

  datatype AuthorizeError = Validation | Unreadable

  /** `Authorizer.Authorize`, with what reading the principal's policies came to. */
  function Authorize(principal: string, action: string, resource: string, policies: Option<seq<AttachedPolicy>>)
    : Result<Decision, AuthorizeError>
  {
    if principal == "" || action == "" then Err(Validation)
    else if Parse(resource).Err? || Parse(principal).Err? then Err(Validation)
    // No policy can grant across accounts.
    else if Parse(principal).value.account != Parse(resource).value.account then Ok(Decision(ExplicitDeny, "", ""))
    else if policies.None? then Err(Unreadable)
    else Ok(Evaluated(policies.value, Request(action, resource)))
  }

  /** What is decided: nothing without a principal, an action and two names that parse; a denial across accounts,
      whatever the policies; otherwise what the policies say, if they can be read. */
  lemma AuthorizeIs(principal: string, action: string, resource: string, policies: Option<seq<AttachedPolicy>>)
    ensures var r := Authorize(principal, action, resource, policies);
      var good := principal != "" && action != "" && Parse(resource).Ok? && Parse(principal).Ok?;
      && (r == Err(Validation) <==> !good)
      && (good && Parse(principal).value.account != Parse(resource).value.account ==>
            r.Ok? && r.value.verdict == ExplicitDeny && r.value.policy == "" && r.value.sid == "")
      && (good && Parse(principal).value.account == Parse(resource).value.account ==>
            && (policies.None? ==> r == Err(Unreadable))
            && (policies.Some? ==>
                  r.Ok? && r.value.verdict == Rule(Said(policies.value), Request(action, resource))))
  {
    hide Parse, Evaluated, Rule, Said;
    if policies.Some? {
      FollowsTheRules(policies.value, Request(action, resource));
    }
  }

  // ---- The front door, one request after the other ----

  datatype Config = Config(keyId: string, ttl: nat)

  /** A request that was allowed. */
  datatype Grant = Grant(
    principal: Principal, action: string, resource: string, request: string, policies: seq<AttachedPolicy>, at: int)

  /** What was ever signed; and, as history, what was ever allowed. */
  datatype State = State(minted: set<(Capability, string)>, grants: set<Grant>)

  /** `at` is the clock when a token is minted, if one is. */
  datatype Step = Serve(
    principal: Principal, action: string, resource: string, request: string,
    policies: Option<seq<AttachedPolicy>>, at: int)

  function ClaimsOf(g: Grant): Claims {
    Claims(g.principal.account, "", g.principal.arn, g.action, g.resource, g.request)
  }

  function After(cfg: Config, s: State, step: Step): State {
    var d := Authorize(step.principal.arn, step.action, step.resource, step.policies);
    if d.Ok? && d.value.verdict == Allowed && step.policies.Some? then
      var g := Grant(step.principal, step.action, step.resource, step.request, step.policies.value, step.at);
      State(s.minted + {(Mint(ClaimsOf(g), step.at, cfg.ttl), cfg.keyId)}, s.grants + {g})
    else s
  }

  const EMPTY := State({}, {})

  ghost predicate IsRun(cfg: Config, steps: seq<Step>, states: seq<State>) {
    && |states| == |steps| + 1
    && states[0] == EMPTY
    && forall i | 0 <= i < |steps| :: states[i + 1] == After(cfg, states[i], steps[i])
  }

  // ---- The Guard ----

  datatype Guard = Guard(service: string, region: string, keys: set<string>, skew: nat)

  datatype Header = Missing | Undecodable | Carries(token: Token)

  datatype Intent = Intent(action: string, kind: string, id: string)

  datatype GuardError = Incomplete | NoCapability | BadHeader | BadToken(error: TokenError) | Mismatch

  /** Everything the two entry points share.  Only the account comes from the token. */
  function Check(g: Guard, minted: set<(Capability, string)>, header: Header, action: string,
                 expected: string -> string, now: int): Result<Capability, GuardError>
  {
    match header
    case Missing => Err(NoCapability)
    case Undecodable => Err(BadHeader)
    case Carries(token) =>
      match Verify(minted, g.keys, token, now, g.skew)
      case Err(e) => Err(BadToken(e))
      case Ok(c) =>
        if c.action != action || c.resource != expected(c.account) then Err(Mismatch)
        else
          match Parse(c.resource)
          case Err(_) => Err(Mismatch)
          case Ok(resource) => if resource.account != c.account then Err(Mismatch) else Ok(c)
  }

  /** `Guard.Authorize`, for one named resource. */
  function GuardNamed(g: Guard, minted: set<(Capability, string)>, header: Header, intent: Intent, now: int)
    : Result<Capability, GuardError>
  {
    if intent.action == "" || intent.kind == "" || intent.id == "" then Err(Incomplete)
    else Check(g, minted, header, intent.action,
               account => Format(Arn(g.service, g.region, account, intent.kind, intent.id)), now)
  }

  /** `Guard.AuthorizeAccount`, for the caller's account as a whole. */
  function GuardAccount(g: Guard, minted: set<(Capability, string)>, header: Header, action: string, now: int)
    : Result<Capability, GuardError>
  {
    if action == "" then Err(Incomplete)
    else Check(g, minted, header, action,
               account => Format(Arn(g.service, g.region, account, "account", account)), now)
  }

  /** A Guard accepts exactly a good token for just this action and just this resource of its own account. */
  lemma GuardAcceptsIff(g: Guard, minted: set<(Capability, string)>, header: Header, intent: Intent, now: int,
                        c: Capability)
    ensures GuardNamed(g, minted, header, intent, now) == Ok(c) <==>
      && intent.action != "" && intent.kind != "" && intent.id != ""
      && header.Carries? && Verify(minted, g.keys, header.token, now, g.skew) == Ok(c)
      && c.action == intent.action
      && c.resource == Format(Arn(g.service, g.region, c.account, intent.kind, intent.id))
      && Parse(c.resource).Ok? && Parse(c.resource).value.account == c.account
  {
    hide Parse, Format, Verify;
  }

  lemma GuardAcceptsAccountIff(g: Guard, minted: set<(Capability, string)>, header: Header, action: string, now: int,
                               c: Capability)
    ensures GuardAccount(g, minted, header, action, now) == Ok(c) <==>
      && action != "" && header.Carries? && Verify(minted, g.keys, header.token, now, g.skew) == Ok(c)
      && c.action == action && c.resource == Format(Arn(g.service, g.region, c.account, "account", c.account))
      && Parse(c.resource).Ok? && Parse(c.resource).value.account == c.account
  {
    hide Parse, Format, Verify;
  }

  // ---- What is accepted was allowed ----

  /** A token is the record of a request that was allowed. */
  ghost predicate Recorded(cfg: Config, grants: set<Grant>, c: Capability, keyId: string, g: Grant) {
    && g in grants && keyId == cfg.keyId && c == Mint(ClaimsOf(g), g.at, cfg.ttl)
    && var d := Authorize(g.principal.arn, g.action, g.resource, Some(g.policies));
       d.Ok? && d.value.verdict == Allowed
  }

  ghost predicate Inv(cfg: Config, s: State) {
    forall m | m in s.minted :: exists g :: Recorded(cfg, s.grants, m.0, m.1, g)
  }

  lemma StepKeeps(cfg: Config, s: State, step: Step)
    requires Inv(cfg, s)
    ensures Inv(cfg, After(cfg, s, step))
  {
    hide Authorize, Mint;
    var s' := After(cfg, s, step);
    forall m | m in s'.minted ensures exists g :: Recorded(cfg, s'.grants, m.0, m.1, g) {
      if m in s.minted {
        var g :| Recorded(cfg, s.grants, m.0, m.1, g);
        assert Recorded(cfg, s'.grants, m.0, m.1, g);
      } else {
        var g := Grant(step.principal, step.action, step.resource, step.request, step.policies.value, step.at);
        assert Recorded(cfg, s'.grants, m.0, m.1, g);
      }
    }
  }

  lemma {:induction false} RunsKeep(cfg: Config, steps: seq<Step>, states: seq<State>, i: nat)
    requires IsRun(cfg, steps, states) && i < |states|
    ensures Inv(cfg, states[i])
  {
    hide After;
    if i > 0 {
      RunsKeep(cfg, steps, states, i - 1);
      var j := i - 1;
      assert states[j + 1] == After(cfg, states[j], steps[j]);
      StepKeeps(cfg, states[j], steps[j]);
    }
  }

  lemma RunLength(cfg: Config, steps: seq<Step>, states: seq<State>)
    requires IsRun(cfg, steps, states)
    ensures |states| == |steps| + 1
  {}

  /** The request that a grant records. */
  predicate IsGrantOf(g: Grant, step: Step) {
    && step.principal == g.principal && step.action == g.action && step.resource == g.resource
    && step.policies == Some(g.policies) && step.at == g.at
  }

  lemma {:induction false} GrantHasStep(cfg: Config, steps: seq<Step>, states: seq<State>, i: nat, g: Grant)
    returns (j: nat)
    requires IsRun(cfg, steps, states) && i < |states| && g in states[i].grants
    ensures j < i && IsGrantOf(g, steps[j])
  {
    hide Authorize, Mint;
    assert i > 0;
    var m := i - 1;
    assert states[m + 1] == After(cfg, states[m], steps[m]);
    if g in states[m].grants {
      j := GrantHasStep(cfg, steps, states, m, g);
    } else {
      j := m;
    }
  }

  /** What an acceptance means: a request of a principal of the resource's account, for exactly that
      action and that resource, which its policies allowed and none of them denied. */
  ghost predicate Allowing(g: Grant, action: string, resource: string, account: string) {
    && g.action == action && g.resource == resource
    && Parse(g.principal.arn).Ok? && Parse(g.principal.arn).value.account == account
    && Parse(resource).Ok? && Parse(resource).value.account == account
    && Told(Said(g.policies), Allow, Request(action, resource))
    && !Told(Said(g.policies), Deny, Request(action, resource))
  }

  lemma CheckIsSound(cfg: Config, s: State, guard: Guard, header: Header, action: string,
                     expected: string -> string, now: int) returns (g: Grant)
    requires Inv(cfg, s) && Check(guard, s.minted, header, action, expected, now).Ok?
    ensures var c := Check(guard, s.minted, header, action, expected, now).value;
      && g in s.grants && Allowing(g, action, expected(c.account), c.account)
      && now < g.at + cfg.ttl + guard.skew + MILLI
      && header.Carries? && header.token.keyId in guard.keys
  {
    hide Parse, Said, Told, Evaluated;
    var c := Check(guard, s.minted, header, action, expected, now).value;
    var token := header.token;
    assert (c, token.keyId) in s.minted;
    g :| Recorded(cfg, s.grants, c, token.keyId, g);
    FollowsTheRules(g.policies, Request(g.action, g.resource));
    StillGood(cfg, g, now, guard.skew);
  }

  lemma StillGood(cfg: Config, g: Grant, now: int, skew: nat)
    requires UnixMilli(now - skew) <= Mint(ClaimsOf(g), g.at, cfg.ttl).expiresMs
    ensures now < g.at + cfg.ttl + skew + MILLI
  {}

  /** Whatever policies there are: a named resource is served only on an allow for exactly it. */
  lemma GuardIsSound(cfg: Config, steps: seq<Step>, states: seq<State>, i: nat, guard: Guard, header: Header,
                     intent: Intent, now: int) returns (g: Grant)
    requires IsRun(cfg, steps, states) && i < |states|
    requires GuardNamed(guard, states[i].minted, header, intent, now).Ok?
    ensures var c := GuardNamed(guard, states[i].minted, header, intent, now).value;
      && g in states[i].grants
      && Allowing(g, intent.action,
                  Format(Arn(guard.service, guard.region, c.account, intent.kind, intent.id)), c.account)
      && now < g.at + cfg.ttl + guard.skew + MILLI
      && header.Carries? && header.token.keyId in guard.keys
  {
    hide IsRun, Check, Allowing, Format;
    RunsKeep(cfg, steps, states, i);
    g := CheckIsSound(cfg, states[i], guard, header, intent.action,
                      account => Format(Arn(guard.service, guard.region, account, intent.kind, intent.id)), now);
  }

  lemma AccountGuardIsSound(cfg: Config, steps: seq<Step>, states: seq<State>, i: nat, guard: Guard, header: Header,
                            action: string, now: int) returns (g: Grant)
    requires IsRun(cfg, steps, states) && i < |states|
    requires GuardAccount(guard, states[i].minted, header, action, now).Ok?
    ensures var c := GuardAccount(guard, states[i].minted, header, action, now).value;
      && g in states[i].grants
      && Allowing(g, action, Format(Arn(guard.service, guard.region, c.account, "account", c.account)), c.account)
      && now < g.at + cfg.ttl + guard.skew + MILLI
      && header.Carries? && header.token.keyId in guard.keys
  {
    hide IsRun, Check, Allowing, Format;
    RunsKeep(cfg, steps, states, i);
    g := CheckIsSound(cfg, states[i], guard, header, action,
                      account => Format(Arn(guard.service, guard.region, account, "account", account)), now);
  }

  /** The request a Guard's intent stands for, and allowed. */
  predicate AllowedAs(guard: Guard, intent: Intent, step: Step) {
    && step.action == intent.action
    && step.resource == Format(Arn(guard.service, guard.region, step.principal.account, intent.kind, intent.id))
    && step.policies.Some?
    && var d := Authorize(step.principal.arn, step.action, step.resource, step.policies);
       d.Ok? && d.value.verdict == Allowed
  }

  /** And an allowed request is accepted by the service it is for, while its token lasts. */
  lemma GuardIsComplete(cfg: Config, s: State, guard: Guard, intent: Intent, step: Step, now: int)
    returns (c: Capability)
    requires AllowedAs(guard, intent, step) && cfg.keyId in guard.keys
    requires intent.action != "" && intent.kind != "" && intent.id != ""
    requires IsArn(Arn(guard.service, guard.region, step.principal.account, intent.kind, intent.id))
    requires now <= step.at + cfg.ttl + guard.skew
    ensures GuardNamed(guard, After(cfg, s, step).minted, Carries(TokenOf(c, cfg.keyId)), intent, now) == Ok(c)
    ensures c.principal == step.principal.arn && c.account == step.principal.account
    ensures c.action == step.action && c.resource == step.resource && c.request == step.request
  {
    hide Authorize, Format, Parse, IsArn;
    var g := Grant(step.principal, step.action, step.resource, step.request, step.policies.value, step.at);
    c := Mint(ClaimsOf(g), step.at, cfg.ttl);
    var minted := After(cfg, s, step).minted;
    GoodUntil(ClaimsOf(g), cfg.keyId, minted, guard.keys, step.at, cfg.ttl, now, guard.skew);
    FormatThenParse(Arn(guard.service, guard.region, step.principal.account, intent.kind, intent.id));
  }

  /** The same for an operation on the account as a whole. */
  lemma AccountGuardIsComplete(cfg: Config, s: State, guard: Guard, step: Step, now: int) returns (c: Capability)
    requires step.action != "" && step.policies.Some? && cfg.keyId in guard.keys
    requires step.resource
          == Format(Arn(guard.service, guard.region, step.principal.account, "account", step.principal.account))
    requires IsArn(Arn(guard.service, guard.region, step.principal.account, "account", step.principal.account))
    requires var d := Authorize(step.principal.arn, step.action, step.resource, step.policies);
      d.Ok? && d.value.verdict == Allowed
    requires now <= step.at + cfg.ttl + guard.skew
    ensures GuardAccount(guard, After(cfg, s, step).minted, Carries(TokenOf(c, cfg.keyId)), step.action, now) == Ok(c)
    ensures c.principal == step.principal.arn && c.account == step.principal.account
  {
    hide Authorize, Format, Parse, IsArn;
    var g := Grant(step.principal, step.action, step.resource, step.request, step.policies.value, step.at);
    c := Mint(ClaimsOf(g), step.at, cfg.ttl);
    var minted := After(cfg, s, step).minted;
    GoodUntil(ClaimsOf(g), cfg.keyId, minted, guard.keys, step.at, cfg.ttl, now, guard.skew);
    FormatThenParse(Arn(guard.service, guard.region, step.principal.account, "account", step.principal.account));
  }
}
