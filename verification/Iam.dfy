/** Policies, what they are attached to, and the cache that every change has to reach. */
module Iam {
  import opened Arn
  import opened ChalaNames
  import opened Policy
  import opened TtlCache
  import opened Wrappers
  import FrontDoor

  datatype IamError = Invalid | NotFound | AlreadyExists

  datatype Row = Row(account: string, document: seq<Statement>)

  type Policies = map<string, Row>

  /** Pairs of a policy's and a principal's ARN. */
  type Attachments = set<(string, string)>

  /** What a read of a principal's policies comes to; `None` if it fails. */
  type Read = Option<seq<AttachedPolicy>>

  /** The order of the database, as positions on a line. */
  type Collation = string -> real

  ghost predicate IsOrder(collation: Collation) {
    forall a, b :: collation(a) == collation(b) ==> a == b
  }

  /** `ORDER BY p.policy_arn` */
  ghost predicate IsListing(collation: Collation, policies: Policies, attachments: Attachments, principal: string,
                            ps: seq<AttachedPolicy>)
  {
    && (forall i, j | 0 <= i < j < |ps| :: collation(ps[i].arn) < collation(ps[j].arn))
    && (forall p | p in ps :: p.arn in policies && (p.arn, principal) in attachments
          && p.statements == policies[p.arn].document)
    && (forall a | a in policies && (a, principal) in attachments :: AttachedPolicy(a, policies[a].document) in ps)
  }

  /** What is cached of a principal is what the store says of it, but for those `awaiting` the hook. */
  ghost predicate Coherent(collation: Collation, policies: Policies, attachments: Attachments, entries: Entries<Read>,
                           awaiting: set<string>)
  {
    forall p | p in entries && p !in awaiting ::
      entries[p].answer.Some? && IsListing(collation, policies, attachments, p, entries[p].answer.value)
  }

  /** A change leaves a principal what it had. */
  ghost predicate SameFor(policies: Policies, attachments: Attachments, policies': Policies,
                          attachments': Attachments, principal: string)
  {
    forall a ::
      && (a in policies && (a, principal) in attachments <==> a in policies' && (a, principal) in attachments')
      && (a in policies && (a, principal) in attachments && a in policies' ==> policies'[a] == policies[a])
  }

  lemma ListingKept(collation: Collation, policies: Policies, attachments: Attachments, policies': Policies,
                    attachments': Attachments, principal: string, ps: seq<AttachedPolicy>)
    requires IsListing(collation, policies, attachments, principal, ps)
    requires SameFor(policies, attachments, policies', attachments', principal)
    ensures IsListing(collation, policies', attachments', principal, ps)
  {}

  lemma CoherentAfter(collation: Collation, policies: Policies, attachments: Attachments, policies': Policies,
                      attachments': Attachments, entries: Entries<Read>, changed: set<string>)
    requires Coherent(collation, policies, attachments, entries, {})
    requires forall p | p !in changed :: SameFor(policies, attachments, policies', attachments', p)
    ensures Coherent(collation, policies', attachments', entries, changed)
  {
    hide IsListing, SameFor;
    forall p | p in entries && p !in changed
      ensures entries[p].answer.Some? && IsListing(collation, policies', attachments', p, entries[p].answer.value)
    {
      ListingKept(collation, policies, attachments, policies', attachments', p, entries[p].answer.value);
    }
  }

  /** The hook for one principal. */
  lemma CoherentWithout(collation: Collation, policies: Policies, attachments: Attachments, entries: Entries<Read>,
                        awaiting: set<string>, principal: string)
    requires Coherent(collation, policies, attachments, entries, awaiting)
    ensures Coherent(collation, policies, attachments, entries - {principal}, awaiting - {principal})
  {
    hide IsListing;
  }

  lemma MoreAwait(collation: Collation, policies: Policies, attachments: Attachments, entries: Entries<Read>,
                  awaiting: set<string>, more: set<string>)
    requires Coherent(collation, policies, attachments, entries, awaiting) && awaiting <= more
    ensures Coherent(collation, policies, attachments, entries, more)
  {
    hide IsListing;
  }

  lemma {:induction false} ListingIsUnique(collation: Collation, policies: Policies, attachments: Attachments,
                                           principal: string, ps: seq<AttachedPolicy>, qs: seq<AttachedPolicy>)
    requires IsListing(collation, policies, attachments, principal, ps)
    requires IsListing(collation, policies, attachments, principal, qs)
    ensures ps == qs
  {
    forall p ensures p in ps <==> p in qs {}
    SameOrder(collation, ps, qs);
  }

  lemma {:induction false} SameOrder(collation: Collation, ps: seq<AttachedPolicy>, qs: seq<AttachedPolicy>)
    requires forall i, j | 0 <= i < j < |ps| :: collation(ps[i].arn) < collation(ps[j].arn)
    requires forall i, j | 0 <= i < j < |qs| :: collation(qs[i].arn) < collation(qs[j].arn)
    requires forall p :: p in ps <==> p in qs
    ensures ps == qs
  {
    BothEmpty(ps, qs);
    if ps != [] {
      FirstIsSame(collation, ps, qs);
      forall p ensures p in ps[1..] <==> p in qs[1..] {
        RestHas(collation, ps, p);
        RestHas(collation, qs, p);
      }
      SameOrder(collation, ps[1..], qs[1..]);
      assert ps == [ps[0]] + ps[1..] && qs == [qs[0]] + qs[1..];
    }
  }

  lemma BothEmpty<T>(ps: seq<T>, qs: seq<T>)
    requires forall p :: p in ps <==> p in qs
    ensures ps == [] <==> qs == []
  {
    assert ps != [] ==> ps[0] in qs;
    assert qs != [] ==> qs[0] in ps;
  }

  lemma FirstIsSame(collation: Collation, ps: seq<AttachedPolicy>, qs: seq<AttachedPolicy>)
    requires forall i, j | 0 <= i < j < |ps| :: collation(ps[i].arn) < collation(ps[j].arn)
    requires forall i, j | 0 <= i < j < |qs| :: collation(qs[i].arn) < collation(qs[j].arn)
    requires ps != [] && qs != [] && ps[0] in qs && qs[0] in ps
    ensures ps[0] == qs[0]
  {
    var i :| 0 <= i < |qs| && qs[i] == ps[0];
    var j :| 0 <= j < |ps| && ps[j] == qs[0];
  }

  lemma RestHas(collation: Collation, ps: seq<AttachedPolicy>, p: AttachedPolicy)
    requires forall i, j | 0 <= i < j < |ps| :: collation(ps[i].arn) < collation(ps[j].arn)
    requires ps != []
    ensures p in ps[1..] <==> p in ps && p != ps[0]
  {
    assert ps == [ps[0]] + ps[1..];
    if p in ps[1..] {
      var i :| 0 <= i < |ps| - 1 && ps[1..][i] == p;
      assert ps[i + 1] == p;
    }
  }

  /** `ValidateDocument` */
  predicate ValidDocument(document: seq<Statement>) {
    && document != []
    && forall s | s in document ::
         && s.effect != Unspecified && s.actions != [] && s.resources != []
         && "" !in s.actions && "" !in s.resources
  }

  /** What is let in: at least one statement, each with an effect, an action and a resource, none of them empty. */
  lemma ValidDocumentIff(document: seq<Statement>)
    ensures ValidDocument(document) <==>
      |document| >= 1 && forall i | 0 <= i < |document| ::
        && !document[i].effect.Unspecified?
        && |document[i].actions| >= 1 && (forall a | a in document[i].actions :: |a| >= 1)
        && |document[i].resources| >= 1 && (forall r | r in document[i].resources :: |r| >= 1)
  {
    if ValidDocument(document) {
      forall i | 0 <= i < |document|
        ensures !document[i].effect.Unspecified? && document[i].actions != [] && document[i].resources != []
        ensures "" !in document[i].actions && "" !in document[i].resources
      {
        assert document[i] in document;
      }
    }
  }

  /** A statement that is let in decides some request if and only if its effect is to allow or to deny:
      `ValidateDocument` refuses an effect that was forgotten, but not a number that means nothing. */
  lemma DocumentSaysSomething(document: seq<Statement>, s: Statement)
    requires ValidDocument(document) && s in document
    ensures Decides(s) <==> s.effect == Allow || s.effect == Deny
  {
    if s.effect == Allow || s.effect == Deny {
      AppliesToSomething(s);
      var req := Policy.Request(s.actions[0], s.resources[0]);
      assert req.action in s.actions && req.resource in s.resources;
      var said: set<Statement> := {};
      assert Applies(s, req) && s in said + {s};
      assert Told(said + {s}, s.effect, req);
      assert Rule(said + {s}, req) != Rule(said, req);
    } else {
      forall said: set<Statement>, req: Policy.Request ensures Rule(said + {s}, req) == Rule(said, req) {
        ReadPast(said, s, req);
      }
    }
  }

  const NUMBERED := Policy.Statement("", Other(7), ["a"], ["b"])

  lemma NumberedIsLetIn()
    ensures ValidDocument([NUMBERED]) && !Decides(NUMBERED)
  {
    assert NUMBERED in [NUMBERED];
    DocumentSaysSomething([NUMBERED], NUMBERED);
  }

  /** The cascade. */
  function Without(attachments: Attachments, policy: string): Attachments {
    set a | a in attachments && a.0 != policy
  }

  function Members(s: seq<string>): set<string> { set p | p in s }

  lemma MembersFrom(s: seq<string>, i: nat)
    requires i < |s|
    ensures Members(s[i..]) - {s[i]} <= Members(s[i + 1..])
  {
    assert s[i..] == [s[i]] + s[i + 1..];
  }

  lemma NoMembers(s: seq<string>)
    ensures Members(s[|s|..]) == {}
  {}

  function PolicyArn(region: string, account: string, name: string): string {
    Format(Arn("iam", region, account, "policy", name))
  }

  function KindOf(r: Read): Kind { if r.Some? then Good else Failure }

  /** A principal policies can be attached to. */
  predicate IsPrincipal(principal: string) {
    && Parse(principal).Ok?
    && Parse(principal).value.service == "iam"
    && (Parse(principal).value.kind == "user" || Parse(principal).value.kind == "role")
  }

  /** Users and roles, and nothing else. */
  lemma IsPrincipalIff(principal: string)
    ensures IsPrincipal(principal) <==> exists a: Arn ::
      IsArn(a) && principal == Format(a) && a.service == "iam" && a.kind in {"user", "role"}
  {
    hide Parse, Format, IsArn;
    if Parse(principal).Ok? {
      ParseThenFormat(principal);
    }
    if a: Arn :| IsArn(a) && principal == Format(a) && a.service == "iam" && a.kind in {"user", "role"} {
      FormatThenParse(a);
    }
  }

  lemma PolicyArnIs(region: string, account: string, name: string)
    ensures PolicyArn(region, account, name) == "arn:dariya:iam:" + region + ":" + account + ":policy/" + name
  {
    FormatIs(Arn("iam", region, account, "policy", name));
  }


  class Server {
    const region: string
    const collation: Collation
    const cache: Cache<Read>
    var policies: Policies
    var attachments: Attachments

    constructor (region: string, collation: Collation, ttl: int, maxEntries: int)
      requires IsOrder(collation)
      ensures Valid() && policies == map[] && attachments == {} && fresh(cache)
    {
      this.region := region;
      this.collation := collation;
      var c := new Cache(ttl, 0, maxEntries, KindOf);
      this.cache := c;
      policies := map[];
      attachments := {};
    }

    /** Whatever the cache holds of a principal is what the store says of it. */
    ghost predicate Valid()
      reads this, cache
    {
      && IsOrder(collation)
      && cache.Valid() && cache.kind == KindOf
      && (forall a | a in attachments :: a.0 in policies)
      && Coherent(collation, policies, attachments, cache.entries, {})
    }

    method CreatePolicy(account: string, name: string, document: seq<Statement>) returns (error: Option<IamError>)
      requires Valid()
      modifies this`policies
      ensures Valid()
      ensures var arn := PolicyArn(region, account, name);
        if !IsAccountId(account) || name == "" || |name| > 64 || !ValidDocument(document) then
          error == Some(Invalid) && policies == old(policies)
        else if arn in old(policies) then error == Some(AlreadyExists) && policies == old(policies)
        else error == None && policies == old(policies)[arn := Row(account, document)]
    {
      hide PolicyArn, IsAccountId, ValidDocument, KindOf, Coherent;
      if !IsAccountId(account) || name == "" || |name| > 64 || !ValidDocument(document) {
        return Some(Invalid);
      }
      var arn := PolicyArn(region, account, name);
      if arn in policies {
        return Some(AlreadyExists);
      }
      ghost var before := policies;
      policies := policies[arn := Row(account, document)];
      CoherentAfter(collation, before, attachments, policies, attachments, cache.entries, {});
      return None;
    }

    method AttachPolicy(policy: string, principal: string) returns (error: Option<IamError>)
      requires Valid()
      modifies this`attachments, cache
      ensures Valid()
      ensures
        if policy !in policies then error == Some(NotFound) && attachments == old(attachments)
        else if !IsPrincipal(principal) || Parse(principal).value.account != policies[policy].account then
          error == Some(Invalid) && attachments == old(attachments)
        else error == None && attachments == old(attachments) + {(policy, principal)}
    {
      hide Parse, KindOf, Coherent;
      if policy !in policies {
        return Some(NotFound);
      }
      if !IsPrincipal(principal) || Parse(principal).value.account != policies[policy].account {
        return Some(Invalid);
      }
      ghost var before := attachments;
      attachments := attachments + {(policy, principal)};
      CoherentAfter(collation, policies, before, policies, attachments, cache.entries, {principal});
      CoherentWithout(collation, policies, attachments, cache.entries, {principal}, principal);
      assert {principal} - {principal} == {};
      PrincipalChanged(principal);
      return None;
    }

    method DetachPolicy(policy: string, principal: string) returns (error: Option<IamError>)
      requires Valid()
      modifies this`attachments, cache
      ensures Valid()
      ensures
        if (policy, principal) !in old(attachments) then error == Some(NotFound) && attachments == old(attachments)
        else error == None && attachments == old(attachments) - {(policy, principal)}
    {
      hide KindOf, Coherent;
      if (policy, principal) !in attachments {
        return Some(NotFound);
      }
      ghost var before := attachments;
      attachments := attachments - {(policy, principal)};
      CoherentAfter(collation, policies, before, policies, attachments, cache.entries, {principal});
      CoherentWithout(collation, policies, attachments, cache.entries, {principal}, principal);
      assert {principal} - {principal} == {};
      PrincipalChanged(principal);
      return None;
    }

    /** Takes every attachment with it; who had one is read first. */
    method DeletePolicy(policy: string) returns (error: Option<IamError>)
      requires Valid()
      modifies this, cache
      ensures Valid()
      ensures
        if policy !in old(policies) then
          error == Some(NotFound) && policies == old(policies) && attachments == old(attachments)
        else
          && error == None && policies == old(policies) - {policy}
          && attachments == Without(old(attachments), policy)
    {
      hide KindOf, Coherent;
      var affected := PrincipalsAttachedTo(policy);
      if policy !in policies {
        return Some(NotFound);
      }
      ghost var before, hadThem := policies, attachments;
      policies := policies - {policy};
      attachments := Without(attachments, policy);
      CoherentAfter(collation, before, hadThem, policies, attachments, cache.entries, Members(affected));
      PrincipalsChanged(affected);
      return None;
    }

    method PrincipalsChanged(affected: seq<string>)
      requires cache.Valid() && Coherent(collation, policies, attachments, cache.entries, Members(affected))
      modifies cache
      ensures cache.Valid() && Coherent(collation, policies, attachments, cache.entries, {})
    {
      hide Coherent, Members;
      assert affected[0..] == affected;
      for i := 0 to |affected|
        invariant cache.Valid()
        invariant Coherent(collation, policies, attachments, cache.entries, Members(affected[i..]))
      {
        ghost var awaiting := Members(affected[i..]);
        CoherentWithout(collation, policies, attachments, cache.entries, awaiting, affected[i]);
        PrincipalChanged(affected[i]);
        MembersFrom(affected, i);
        MoreAwait(collation, policies, attachments, cache.entries, awaiting - {affected[i]},
                  Members(affected[i + 1..]));
      }
      NoMembers(affected);
    }

    method PrincipalsAttachedTo(policy: string) returns (principals: seq<string>)
      ensures forall p :: p in principals <==> (policy, p) in attachments
    {
      principals := [];
      var left := attachments;
      while left != {}
        invariant left <= attachments
        invariant forall p :: p in principals <==> (policy, p) in attachments - left
      {
        var a :| a in left;
        if a.0 == policy {
          principals := principals + [a.1];
        }
        left := left - {a};
      }
    }

    /** Reads the policies of a principal in the order of the database. */
    method PoliciesFor(principal: string) returns (ps: seq<AttachedPolicy>)
      requires IsOrder(collation)
      ensures IsListing(collation, policies, attachments, principal, ps)
    {
      hide IsOrder, Picked, IsListing;
      var left := set a | a in policies && (a, principal) in attachments;
      ps := [];
      NothingPicked(collation, policies, left);
      ghost var all := left;
      while left != {}
        invariant left <= all && Picked(collation, policies, all, left, ps)
      {
        LeastExists(collation, left);
        var a :| a in left && forall b | b in left :: collation(a) <= collation(b);
        PicksLeast(collation, policies, all, left, ps, a);
        ps := ps + [AttachedPolicy(a, policies[a].document)];
        left := left - {a};
      }
      AllPicked(collation, policies, attachments, principal, ps);
    }

    /** `Authorizer.Authorize`.  The cache asks the clock at `asked`, and on a miss at `stamped` and
        `swept`; `readable` says whether a read of the store would succeed. */
    method Authorize(principal: string, action: string, resource: string, readable: bool,
                     asked: int, stamped: int, swept: int)
      returns (r: Result<Decision, FrontDoor.AuthorizeError>)
      requires Valid()
      modifies cache
      ensures Valid()
      ensures readable ==>
        forall ps | IsListing(collation, policies, attachments, principal, ps) ::
          r == FrontDoor.Authorize(principal, action, resource, Some(ps))
      ensures !readable ==>
        || r == FrontDoor.Authorize(principal, action, resource, None)
        || forall ps | IsListing(collation, policies, attachments, principal, ps) ::
             r == FrontDoor.Authorize(principal, action, resource, Some(ps))
    {
      hide Parse, IsListing, Evaluated, Stored, Live;
      if principal == "" || action == "" {
        return Err(FrontDoor.Validation);
      }
      var target, caller := Parse(resource), Parse(principal);
      if target.Err? || caller.Err? {
        return Err(FrontDoor.Validation);
      }
      if caller.value.account != target.value.account {
        return Ok(Decision(ExplicitDeny, "", ""));
      }
      var listing := PoliciesFor(principal);
      forall ps | IsListing(collation, policies, attachments, principal, ps) ensures ps == listing {
        ListingIsUnique(collation, policies, attachments, principal, ps, listing);
      }
      var read := GetPolicies(principal, if readable then Some(listing) else None, asked, stamped, swept);
      if read.None? {
        return Err(FrontDoor.Unreadable);
      }
      var d := Evaluate(read.value, Policy.Request(action, resource));
      return Ok(d);
    }

    method GetPolicies(principal: string, loaded: Read, asked: int, stamped: int, swept: int) returns (r: Read)
      requires Valid()
      requires loaded.Some? ==> IsListing(collation, policies, attachments, principal, loaded.value)
      modifies cache
      ensures Valid()
      ensures r == loaded || (r.Some? && IsListing(collation, policies, attachments, principal, r.value))
    {
      hide IsListing, Stored, IsOrder;
      r := cache.Get(principal, asked, loaded, stamped, swept);
      StoredIsSound(collation, policies, attachments, old(cache.entries), principal, loaded, stamped + cache.ttl,
                    cache.maxEntries, swept);
    }

    /** The hook. */
    method PrincipalChanged(principal: string)
      requires cache.Valid()
      modifies cache
      ensures cache.Valid() && cache.entries == old(cache.entries) - {principal}
    {
      FewerEntries(cache.entries, principal);
      cache.Invalidate(principal);
    }
  }

  lemma FewerEntries<V>(entries: Entries<V>, key: string)
    ensures |entries - {key}| <= |entries|
  {
    assert (entries - {key}).Keys == entries.Keys - {key};
  }

  lemma {:induction false} LeastExists(collation: Collation, s: set<string>)
    requires s != {}
    ensures exists a :: a in s && forall b | b in s :: collation(a) <= collation(b)
  {
    var x :| x in s;
    if s == {x} {
    } else {
      LeastExists(collation, s - {x});
      var a :| a in s - {x} && forall b | b in s - {x} :: collation(a) <= collation(b);
      var least := if collation(x) <= collation(a) then x else a;
      assert forall b | b in s :: b == x || b in s - {x};
      assert least in s && forall b | b in s :: collation(least) <= collation(b);
    }
  }

  /** The rows that have been read: the first ones, in order. */
  ghost predicate Picked(collation: Collation, policies: Policies, all: set<string>, left: set<string>,
                         ps: seq<AttachedPolicy>)
  {
    && (forall i, j | 0 <= i < j < |ps| :: collation(ps[i].arn) < collation(ps[j].arn))
    && (forall p, a | p in ps && a in left :: collation(p.arn) < collation(a))
    && (forall p | p in ps :: p.arn in all && p.arn in policies && p.statements == policies[p.arn].document)
    && (forall a | a in all && a !in left :: a in policies && AttachedPolicy(a, policies[a].document) in ps)
  }

  lemma NothingPicked(collation: Collation, policies: Policies, all: set<string>)
    ensures Picked(collation, policies, all, all, [])
  {}

  lemma PicksLeast(collation: Collation, policies: Policies, all: set<string>, left: set<string>,
                   ps: seq<AttachedPolicy>, a: string)
    requires Picked(collation, policies, all, left, ps) && left <= all && a in left && a in policies
    requires IsOrder(collation) && forall b | b in left :: collation(a) <= collation(b)
    ensures Picked(collation, policies, all, left - {a}, ps + [AttachedPolicy(a, policies[a].document)])
  {
    hide IsOrder;
    LeastIsFirst(collation, left, a);
  }

  lemma AllPicked(collation: Collation, policies: Policies, attachments: Attachments, principal: string,
                  ps: seq<AttachedPolicy>)
    requires Picked(collation, policies, set a | a in policies && (a, principal) in attachments, {}, ps)
    ensures IsListing(collation, policies, attachments, principal, ps)
  {}

  lemma LeastIsFirst(collation: Collation, s: set<string>, a: string)
    requires IsOrder(collation) && a in s && forall b | b in s :: collation(a) <= collation(b)
    ensures forall b | b in s - {a} :: collation(a) < collation(b)
  {}

  /** Keeping what was just read keeps the cache coherent. */
  lemma StoredIsSound(collation: Collation, policies: Policies, attachments: Attachments, entries: Entries<Read>,
                      principal: string, loaded: Read, expiresAt: int, max: nat, now: int)
    requires Coherent(collation, policies, attachments, entries, {}) && |entries| <= max
    requires loaded.Some? ==> IsListing(collation, policies, attachments, principal, loaded.value)
    ensures loaded.Some? ==>
      Coherent(collation, policies, attachments, Stored(entries, principal, Entry(loaded, expiresAt), max, now), {})
  {
    hide IsListing, Stored;
    StoringIsSafe(entries, principal, Entry(loaded, expiresAt), max, now);
  }
}
