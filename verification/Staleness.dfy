/** How old the policies may be that an accepted request rests on. */
module Staleness {
  import opened Capability
  import opened Policy
  import opened TtlCache
  import opened Wrappers
  import Arn
  import Cache = TtlCacheRuns
  import FrontDoor

  /** The answer of the policy cache at `at` leads to a token minted at `mintedAt`, no more than
      `decideToMint` later; a Guard accepts it at `now`.  Then the policies were read from the store more
      recently than the sum of the delays ago, and a change at the store that they miss is more recent
      than that as well. */
  lemma AcceptedPoliciesAreRecent(cfg: Cache.Config, steps: seq<Cache.Step>, states: seq<Cache.State>, i: nat,
                                  h: nat, mintedAt: int, decideToMint: nat, c: Claims, ttl: nat, keyId: string,
                                  minted: set<(Capability, string)>, keys: set<string>, skew: nat, now: int)
    requires Cache.IsRun(cfg, steps, states) && i < |states| && cfg.ttl > 0 && cfg.negativeTtl > 0
    requires h in states[i].gets && states[i].gets[h].pc.Answered? && states[i].gets[h].pc.reading.kind == Good
    requires states[i].gets[h].pc.at <= mintedAt <= states[i].gets[h].pc.at + decideToMint
    requires Verify(minted, keys, TokenOf(Mint(c, mintedAt, ttl), keyId), now, skew).Ok?
    ensures var r := states[i].gets[h].pc.reading;
      var log := Cache.Log(states[i].log, states[i].gets[h].key);
      var delays := cfg.ttl + cfg.maxLoad + decideToMint + ttl + skew + MILLI;
      && r.version < |log| && log[r.version].from <= r.readAt
      && r.readAt > now - delays
      && (r.version + 1 < |log| ==> log[r.version + 1].from > now - delays)
  {
    hide Cache.IsRun, Cache.Log;
    Cache.AnswersAreFresh(cfg, steps, states, i, h);
    assert now < mintedAt + ttl + skew + MILLI by {
      TokenIsGood(c, mintedAt, ttl, now, skew, minted, keys, keyId);
    }
  }

  lemma TokenIsGood(c: Claims, mintedAt: int, ttl: nat, now: int, skew: nat, minted: set<(Capability, string)>,
                    keys: set<string>, keyId: string)
    requires Verify(minted, keys, TokenOf(Mint(c, mintedAt, ttl), keyId), now, skew).Ok?
    ensures now < mintedAt + ttl + skew + MILLI
  {
    GoodUntil(c, keyId, minted, keys, mintedAt, ttl, now, skew);
  }

  // ---- From the store to the service ----

  /** What the store held of a principal, version by version. */
  type Contents = (string, nat) -> seq<AttachedPolicy>

  /** The policies a request was decided by are those a Get of the cache was answered with, at `i`. */
  predicate AnsweredWith(states: seq<Cache.State>, contents: Contents, decideToMint: nat, step: FrontDoor.Step,
                         i: nat, h: nat)
  {
    && i < |states| && h in states[i].gets && states[i].gets[h].key == step.principal.arn
    && states[i].gets[h].pc.Answered? && states[i].gets[h].pc.reading.kind == Good
    && states[i].gets[h].pc.at <= step.at <= states[i].gets[h].pc.at + decideToMint
    && step.policies == Some(contents(step.principal.arn, states[i].gets[h].pc.reading.version))
  }

  /** The front door has its policies from the cache. */
  ghost predicate Fed(states: seq<Cache.State>, contents: Contents, decideToMint: nat, steps: seq<FrontDoor.Step>) {
    forall j | 0 <= j < |steps| && steps[j].policies.Some? ::
      exists i: nat, h: nat :: AnsweredWith(states, contents, decideToMint, steps[j], i, h)
  }

  /** What the cache answered was the store's at `readAt`, and is no older than the delays. */
  lemma ReadIsRecent(cfg: Cache.Config, steps: seq<Cache.Step>, states: seq<Cache.State>, contents: Contents,
                     decideToMint: nat, step: FrontDoor.Step, i: nat, h: nat) returns (r: Cache.Reading)
    requires Cache.IsRun(cfg, steps, states) && cfg.ttl > 0 && cfg.negativeTtl > 0
    requires AnsweredWith(states, contents, decideToMint, step, i, h)
    ensures |states| == |steps| + 1 && Cache.ReadingOk(states[|steps|], step.principal.arn, r)
    ensures step.policies == Some(contents(step.principal.arn, r.version))
    ensures step.at < r.readAt + cfg.ttl + cfg.maxLoad + decideToMint
  {
    hide Cache.IsRun, Cache.ReadingOk, Cache.Log;
    r := states[i].gets[h].pc.reading;
    Cache.RunSize(cfg, steps, states);
    Cache.RunsKeep(cfg, steps, states, i);
    assert Cache.PcOk(cfg, states[i], states[i].gets[h].key, states[i].gets[h].pc);
    Cache.ReadingOn(cfg, steps, states, i, |steps|, step.principal.arn, r);
    Cache.AnswersAreFresh(cfg, steps, states, i, h);
  }

  /** What a grant was decided by was the store's for the principal at a time that is less than the delays before
      its token expired. */
  lemma GrantIsRecent(cacheCfg: Cache.Config, loads: seq<Cache.Step>, caches: seq<Cache.State>, contents: Contents,
                      decideToMint: nat, cfg: FrontDoor.Config, steps: seq<FrontDoor.Step>,
                      states: seq<FrontDoor.State>, i: nat, g: FrontDoor.Grant) returns (r: Cache.Reading)
    requires Cache.IsRun(cacheCfg, loads, caches) && cacheCfg.ttl > 0 && cacheCfg.negativeTtl > 0
    requires FrontDoor.IsRun(cfg, steps, states) && i < |states| && Fed(caches, contents, decideToMint, steps)
    requires g in states[i].grants
    ensures g.policies == contents(g.principal.arn, r.version)
    ensures WasCurrent(loads, caches, g.principal.arn, r)
    ensures g.at < r.readAt + cacheCfg.ttl + cacheCfg.maxLoad + decideToMint
  {
    hide Cache.IsRun, FrontDoor.IsRun, Cache.Log, AnsweredWith;
    var j := FrontDoor.GrantHasStep(cfg, steps, states, i, g);
    FrontDoor.RunLength(cfg, steps, states);
    var k: nat, h: nat :| AnsweredWith(caches, contents, decideToMint, steps[j], k, h);
    r := ReadIsRecent(cacheCfg, loads, caches, contents, decideToMint, steps[j], k, h);
  }

  /** What was read was the store's when it was read. */
  predicate WasCurrent(loads: seq<Cache.Step>, caches: seq<Cache.State>, key: string, r: Cache.Reading) {
    |caches| == |loads| + 1
    && var log := Cache.Log(caches[|loads|].log, key);
       && r.version < |log| && log[r.version].from <= r.readAt
       && (r.version + 1 < |log| ==> r.readAt <= log[r.version + 1].from)
  }

  predicate AllowedBy(policies: seq<AttachedPolicy>, action: string, resource: string) {
    Told(Said(policies), Allow, Request(action, resource)) && !Told(Said(policies), Deny, Request(action, resource))
  }

  function Delays(cacheCfg: Cache.Config, decideToMint: nat, cfg: FrontDoor.Config, guard: FrontDoor.Guard): nat {
    cacheCfg.ttl + cacheCfg.maxLoad + decideToMint + cfg.ttl + guard.skew + MILLI
  }

  /** What a Guard accepts was allowed, and not denied, by policies that were the store's for the principal
      at a time that is less than the delays ago. */
  lemma GuardRestsOnRecentPolicies(
      cacheCfg: Cache.Config, loads: seq<Cache.Step>, caches: seq<Cache.State>, contents: Contents, decideToMint: nat,
      cfg: FrontDoor.Config, steps: seq<FrontDoor.Step>, states: seq<FrontDoor.State>, i: nat,
      guard: FrontDoor.Guard, header: FrontDoor.Header, intent: FrontDoor.Intent, now: int)
    returns (g: FrontDoor.Grant, r: Cache.Reading)
    requires Cache.IsRun(cacheCfg, loads, caches) && cacheCfg.ttl > 0 && cacheCfg.negativeTtl > 0
    requires FrontDoor.IsRun(cfg, steps, states) && i < |states| && Fed(caches, contents, decideToMint, steps)
    requires FrontDoor.GuardNamed(guard, states[i].minted, header, intent, now).Ok?
    ensures var account := FrontDoor.GuardNamed(guard, states[i].minted, header, intent, now).value.account;
      var resource := Arn.Format(Arn.Arn(guard.service, guard.region, account, intent.kind, intent.id));
      && FrontDoor.Allowing(g, intent.action, resource, account)
      && AllowedBy(contents(g.principal.arn, r.version), intent.action, resource)
    ensures WasCurrent(loads, caches, g.principal.arn, r)
    ensures r.readAt > now - Delays(cacheCfg, decideToMint, cfg, guard)
  {
    hide Cache.IsRun, FrontDoor.IsRun, Said, Told, FrontDoor.GuardNamed, Arn.Parse, Arn.Format, WasCurrent, Fed;
    g := FrontDoor.GuardIsSound(cfg, steps, states, i, guard, header, intent, now);
    r := GrantIsRecent(cacheCfg, loads, caches, contents, decideToMint, cfg, steps, states, i, g);
  }

  /** The same for an operation on the account as a whole. */
  lemma AccountGuardRestsOnRecentPolicies(
      cacheCfg: Cache.Config, loads: seq<Cache.Step>, caches: seq<Cache.State>, contents: Contents, decideToMint: nat,
      cfg: FrontDoor.Config, steps: seq<FrontDoor.Step>, states: seq<FrontDoor.State>, i: nat,
      guard: FrontDoor.Guard, header: FrontDoor.Header, action: string, now: int)
    returns (g: FrontDoor.Grant, r: Cache.Reading)
    requires Cache.IsRun(cacheCfg, loads, caches) && cacheCfg.ttl > 0 && cacheCfg.negativeTtl > 0
    requires FrontDoor.IsRun(cfg, steps, states) && i < |states| && Fed(caches, contents, decideToMint, steps)
    requires FrontDoor.GuardAccount(guard, states[i].minted, header, action, now).Ok?
    ensures var account := FrontDoor.GuardAccount(guard, states[i].minted, header, action, now).value.account;
      var resource := Arn.Format(Arn.Arn(guard.service, guard.region, account, "account", account));
      && FrontDoor.Allowing(g, action, resource, account)
      && AllowedBy(contents(g.principal.arn, r.version), action, resource)
    ensures WasCurrent(loads, caches, g.principal.arn, r)
    ensures r.readAt > now - Delays(cacheCfg, decideToMint, cfg, guard)
  {
    hide Cache.IsRun, FrontDoor.IsRun, Said, Told, FrontDoor.GuardAccount, Arn.Parse, Arn.Format, WasCurrent, Fed;
    g := FrontDoor.AccountGuardIsSound(cfg, steps, states, i, guard, header, action, now);
    r := GrantIsRecent(cacheCfg, loads, caches, contents, decideToMint, cfg, steps, states, i, g);
  }
}
