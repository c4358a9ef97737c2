/** The policy engine: an explicit deny wins, then an allow, then the answer is no. */
module Policy {
  import opened Wrappers

  /** The enum is open: a client may send any other number. */
  datatype Effect = Unspecified | Allow | Deny | Other(number: int)

  datatype Statement = Statement(sid: string, effect: Effect, actions: seq<string>, resources: seq<string>)

  /** A policy bound to the principal being evaluated. */
  datatype AttachedPolicy = AttachedPolicy(arn: string, statements: seq<Statement>)

  datatype Request = Request(action: string, resource: string)

  datatype Verdict = Allowed | ExplicitDeny | ImplicitDeny

  datatype Decision = Decision(verdict: Verdict, policy: string, sid: string)

  /** An exact string, or a prefix ending in `*`. */
  predicate Match(pattern: string, value: string) {
    if pattern == "*" then true
    else if pattern != "" && pattern[|pattern| - 1] == '*' then pattern[..|pattern| - 1] <= value
    else pattern == value
  }

  /** What a pattern covers: with a final `*` everything that begins as it does, and otherwise itself alone.  A
      `*` elsewhere stands for itself. */
  lemma MatchIff(q: string, v: string)
    ensures Match(q + "*", v) <==> exists rest: string :: v == q + rest
    ensures q == "" || q[|q| - 1] != '*' ==> (Match(q, v) <==> q == v)
  {
    var p := q + "*";
    assert p[..|p| - 1] == q;
    if p[..|p| - 1] <= v {
      assert v == q + v[|q|..];
    }
    if rest: string :| v == q + rest {
      assert v[..|q|] == q;
    }
    if p == "*" {
      assert q == "" && v == q + v;
    }
  }

  predicate MatchesSome(patterns: seq<string>, value: string) {
    exists p :: p in patterns && Match(p, value)
  }

  predicate Applies(s: Statement, req: Request) {
    MatchesSome(s.actions, req.action) && MatchesSome(s.resources, req.resource)
  }

  /** A statement with no action or no resource is dead weight; every other applies to something. */
  lemma AppliesToSomething(s: Statement)
    ensures s.actions != [] && s.resources != [] ==> Applies(s, Request(s.actions[0], s.resources[0]))
    ensures s.actions == [] || s.resources == [] ==> forall req :: !Applies(s, req)
  {
    if s.actions != [] && s.resources != [] {
      assert Match(s.actions[0], s.actions[0]) && Match(s.resources[0], s.resources[0]);
      assert s.actions[0] in s.actions && s.resources[0] in s.resources;
    }
  }

  // ---- What the rules say, without an order ----

  /** Everything that is said, by whichever policy. */
  function Said(policies: seq<AttachedPolicy>): set<Statement> {
    set p, s | p in policies && s in p.statements :: s
  }

  /** Some statement with an effect applies. */
  predicate Told(said: set<Statement>, effect: Effect, req: Request) {
    exists s :: s in said && s.effect == effect && Applies(s, req)
  }

  function Rule(said: set<Statement>, req: Request): Verdict {
    if Told(said, Deny, req) then ExplicitDeny else if Told(said, Allow, req) then Allowed else ImplicitDeny
  }

  /** Some policies would decide some request otherwise without the statement. */
  ghost predicate Decides(s: Statement) {
    exists said: set<Statement>, req: Request ::
      req.action != "" && req.resource != "" && Rule(said + {s}, req) != Rule(said, req)
  }

  /** A statement that is only read past decides nothing, whatever it is read with. */
  lemma ReadPast(said: set<Statement>, s: Statement, req: Request)
    requires s.effect != Allow && s.effect != Deny
    ensures Rule(said + {s}, req) == Rule(said, req)
  {
    hide Applies;
    forall effect | effect == Allow || effect == Deny
      ensures Told(said + {s}, effect, req) <==> Told(said, effect, req)
    {}
  }

  // ---- What the engine does ----

  method MatchesAny(patterns: seq<string>, value: string) returns (r: bool)
    ensures r <==> MatchesSome(patterns, value)
  {
    for i := 0 to |patterns|
      invariant forall j | 0 <= j < i :: !Match(patterns[j], value)
    {
      if Match(patterns[i], value) {
        return true;
      }
    }
    return false;
  }

  /** The statements in the order they are read. */
  function Lines(policies: seq<AttachedPolicy>): seq<(string, Statement)> {
    if policies == [] then [] else LinesOf(policies[0]) + Lines(policies[1..])
  }

  function LinesOf(p: AttachedPolicy): seq<(string, Statement)> {
    seq(|p.statements|, i requires 0 <= i < |p.statements| => (p.arn, p.statements[i]))
  }

  /** Reads on past an allow, stops at a deny.  `allow` is the first allow so far. */
  function Scan(lines: seq<(string, Statement)>, req: Request, allow: Option<Decision>): Decision {
    if lines == [] then
      if allow.Some? then allow.value else Decision(ImplicitDeny, "", "")
    else
      var (arn, s) := lines[0];
      if !Applies(s, req) then Scan(lines[1..], req, allow)
      else
        match s.effect
        case Deny => Decision(ExplicitDeny, arn, s.sid)
        case Allow => Scan(lines[1..], req, if allow.None? then Some(Decision(Allowed, arn, s.sid)) else allow)
        // A field that was forgotten grants nothing, nor does a number nobody knows.
        case _ => Scan(lines[1..], req, allow)
  }

  function Evaluated(policies: seq<AttachedPolicy>, req: Request): Decision { Scan(Lines(policies), req, None) }

  /** `Evaluate` */
  method Evaluate(policies: seq<AttachedPolicy>, req: Request) returns (d: Decision)
    ensures d == Evaluated(policies, req)
  {
    hide Scan, Lines, LinesOf, Applies;
    var allow: Option<Decision> := None;
    assert policies[0..] == policies;
    for i := 0 to |policies|
      invariant Scan(Lines(policies[i..]), req, allow) == Evaluated(policies, req)
    {
      var p := policies[i];
      ghost var rest := Lines(policies[i + 1..]);
      LinesFrom(policies, i);
      for j := 0 to |p.statements|
        invariant |LinesOf(p)| == |p.statements|
        invariant Scan(LinesOf(p)[j..] + rest, req, allow) == Evaluated(policies, req)
      {
        var s := p.statements[j];
        ScanOne(p, j, rest, req, allow);
        var applies := Matches(s, req);
        if !applies {
          continue;
        }
        match s.effect {
          case Deny => return Decision(ExplicitDeny, p.arn, s.sid);
          case Allow =>
            if allow.None? {
              allow := Some(Decision(Allowed, p.arn, s.sid));
            }
          case _ =>
        }
      }
      assert LinesOf(p)[|p.statements|..] + rest == rest;
    }
    ScanNone(req, allow);
    assert policies[|policies|..] == [];
    return if allow.Some? then allow.value else Decision(ImplicitDeny, "", "");
  }

  method Matches(s: Statement, req: Request) returns (r: bool)
    ensures r <==> Applies(s, req)
  {
    r := MatchesAny(s.actions, req.action);
    if r {
      r := MatchesAny(s.resources, req.resource);
    }
  }

  lemma LinesFrom(policies: seq<AttachedPolicy>, i: nat)
    requires i < |policies|
    ensures var p := policies[i];
      && |LinesOf(p)| == |p.statements|
      && Lines(policies[i..]) == LinesOf(p)[0..] + Lines(policies[i + 1..])
  {
    assert policies[i..][1..] == policies[i + 1..];
  }

  lemma ScanNone(req: Request, allow: Option<Decision>)
    ensures Scan(Lines([]), req, allow) == if allow.Some? then allow.value else Decision(ImplicitDeny, "", "")
  {}

  lemma ScanOne(p: AttachedPolicy, j: nat, rest: seq<(string, Statement)>, req: Request, allow: Option<Decision>)
    requires j < |p.statements|
    ensures var s := p.statements[j];
      |LinesOf(p)| == |p.statements| &&
      Scan(LinesOf(p)[j..] + rest, req, allow) ==
        if !Applies(s, req) || (s.effect != Deny && s.effect != Allow) then Scan(LinesOf(p)[j + 1..] + rest, req, allow)
        else if s.effect == Deny then Decision(ExplicitDeny, p.arn, s.sid)
        else Scan(LinesOf(p)[j + 1..] + rest, req,
                  if allow.None? then Some(Decision(Allowed, p.arn, s.sid)) else allow)
  {
    hide Applies;
    var lines := LinesOf(p)[j..] + rest;
    assert lines[0] == (p.arn, p.statements[j]);
    assert lines[1..] == LinesOf(p)[j + 1..] + rest;
  }

  // ---- The engine follows the rules ----

  /** Some line has an effect and applies. */
  predicate SomeLine(lines: seq<(string, Statement)>, effect: Effect, req: Request) {
    exists i :: 0 <= i < |lines| && lines[i].1.effect == effect && Applies(lines[i].1, req)
  }

  lemma {:induction false} ScanFollows(lines: seq<(string, Statement)>, req: Request, allow: Option<Decision>)
    requires allow.Some? ==> allow.value.verdict == Allowed
    ensures Scan(lines, req, allow).verdict ==
      if SomeLine(lines, Deny, req) then ExplicitDeny
      else if allow.Some? || SomeLine(lines, Allow, req) then Allowed
      else ImplicitDeny
  {
    hide Applies;
    if lines != [] {
      var (arn, s) := lines[0];
      var next := if Applies(s, req) && s.effect == Allow && allow.None? then Some(Decision(Allowed, arn, s.sid))
                  else allow;
      ScanFollows(lines[1..], req, next);
      SomeSplits(lines, Deny, req);
      SomeSplits(lines, Allow, req);
    }
  }

  lemma SomeSplits(lines: seq<(string, Statement)>, effect: Effect, req: Request)
    requires lines != []
    ensures SomeLine(lines, effect, req) <==>
      (lines[0].1.effect == effect && Applies(lines[0].1, req)) || SomeLine(lines[1..], effect, req)
  {
    hide Applies;
    if SomeLine(lines[1..], effect, req) {
      var i :| 0 <= i < |lines| - 1 && lines[1..][i].1.effect == effect && Applies(lines[1..][i].1, req);
      assert lines[i + 1] == lines[1..][i];
    }
    if SomeLine(lines, effect, req) {
      var i :| 0 <= i < |lines| && lines[i].1.effect == effect && Applies(lines[i].1, req);
      assert i > 0 ==> lines[1..][i - 1] == lines[i];
    }
  }

  predicate Says(lines: seq<(string, Statement)>, s: Statement) {
    exists i :: 0 <= i < |lines| && lines[i].1 == s
  }

  lemma {:induction false} LinesSay(policies: seq<AttachedPolicy>, s: Statement)
    ensures s in Said(policies) <==> Says(Lines(policies), s)
  {
    if policies != [] {
      var p, rest := policies[0], Lines(policies[1..]);
      LinesSay(policies[1..], s);
      assert Lines(policies) == LinesOf(p) + rest;
      assert policies == [p] + policies[1..];
      assert s in Said(policies) <==> s in p.statements || s in Said(policies[1..]);
      if s in p.statements {
        var i :| 0 <= i < |p.statements| && p.statements[i] == s;
        assert Lines(policies)[i].1 == s;
      }
      if s in Said(policies[1..]) {
        var i :| 0 <= i < |rest| && rest[i].1 == s;
        assert Lines(policies)[|p.statements| + i] == rest[i];
      }
      if i :| 0 <= i < |Lines(policies)| && Lines(policies)[i].1 == s {
        if i < |p.statements| {
          assert p.statements[i] == s;
        } else {
          assert rest[i - |p.statements|].1 == s;
        }
      }
    }
  }

  /** Deny wins, then allow, then no: whatever the order, and whichever policy says it. */
  lemma FollowsTheRules(policies: seq<AttachedPolicy>, req: Request)
    ensures Evaluated(policies, req).verdict == Rule(Said(policies), req)
  {
    hide Applies, Lines, Said, Scan, Says, SomeLine, Told;
    var lines := Lines(policies);
    ScanFollows(lines, req, None);
    forall s ensures s in Said(policies) <==> Says(lines, s) {
      LinesSay(policies, s);
    }
    LinesAreSaid(lines, Said(policies), Deny, req);
    LinesAreSaid(lines, Said(policies), Allow, req);
  }

  lemma LinesAreSaid(lines: seq<(string, Statement)>, said: set<Statement>, effect: Effect, req: Request)
    requires forall s :: s in said <==> Says(lines, s)
    ensures SomeLine(lines, effect, req) <==> Told(said, effect, req)
  {
    hide Applies;
    if SomeLine(lines, effect, req) {
      var i :| 0 <= i < |lines| && lines[i].1.effect == effect && Applies(lines[i].1, req);
      assert lines[i].1 in said;
    }
    if s :| s in said && s.effect == effect && Applies(s, req) {
      var i :| 0 <= i < |lines| && lines[i].1 == s;
      assert lines[i].1.effect == effect;
    }
  }

  /** Reordering policies, or the statements in them, changes no verdict. */
  lemma OrderIsIrrelevant(policies: seq<AttachedPolicy>, policies': seq<AttachedPolicy>, req: Request)
    requires multiset(policies) == multiset(policies')
    ensures Evaluated(policies, req).verdict == Evaluated(policies', req).verdict
  {
    hide Evaluated, Rule;
    FollowsTheRules(policies, req);
    FollowsTheRules(policies', req);
    forall p ensures p in policies <==> p in policies' {
      assert p in multiset(policies) <==> p in multiset(policies');
    }
    assert Said(policies) == Said(policies');
  }

  lemma StatementOrderIsIrrelevant(policies: seq<AttachedPolicy>, policies': seq<AttachedPolicy>, req: Request)
    requires |policies| == |policies'|
    requires forall i | 0 <= i < |policies| :: multiset(policies[i].statements) == multiset(policies'[i].statements)
    ensures Evaluated(policies, req).verdict == Evaluated(policies', req).verdict
  {
    hide Evaluated, Rule;
    FollowsTheRules(policies, req);
    FollowsTheRules(policies', req);
    SaysNoMore(policies, policies');
    SaysNoMore(policies', policies);
    assert Said(policies) == Said(policies');
  }

  lemma SaysNoMore(policies: seq<AttachedPolicy>, policies': seq<AttachedPolicy>)
    requires |policies| == |policies'|
    requires forall i | 0 <= i < |policies| :: multiset(policies[i].statements) == multiset(policies'[i].statements)
    ensures Said(policies) <= Said(policies')
  {
    forall s | s in Said(policies) ensures s in Said(policies') {
      var p :| p in policies && s in p.statements;
      var i :| 0 <= i < |policies| && policies[i] == p;
      assert s in multiset(policies[i].statements);
      assert s in policies'[i].statements;
      assert policies'[i] in policies';
    }
  }

  // ---- What that means for a policy as it is written ----

  /** The pattern covers the value. */
  ghost predicate Covers(pattern: string, value: string) {
    || (exists q: string, rest: string :: pattern == q + "*" && value == q + rest)
    || pattern == value
  }

  lemma MatchIsCovering(pattern: string, value: string)
    ensures Match(pattern, value) <==> Covers(pattern, value)
  {
    if pattern != "" && pattern[|pattern| - 1] == '*' {
      var q := pattern[..|pattern| - 1];
      assert pattern == q + "*";
      MatchIff(q, value);
      if Match(pattern, value) {
        var rest: string :| value == q + rest;
      }
      if q': string, rest: string :| pattern == q' + "*" && value == q' + rest {
        assert pattern[..|pattern| - 1] == q';
      }
      if pattern == value {
        assert value == q + "*";
      }
    } else {
      forall q: string ensures pattern != q + "*" {
        assert (q + "*")[|q|] == '*' && |q + "*"| == |q| + 1;
      }
    }
  }

  /** The statement covers both the action and the resource. */
  ghost predicate CoversBoth(s: Statement, req: Request) {
    && (exists a :: a in s.actions && Covers(a, req.action))
    && (exists r :: r in s.resources && Covers(r, req.resource))
  }

  lemma AppliesIff(s: Statement, req: Request)
    ensures Applies(s, req) <==> CoversBoth(s, req)
  {
    hide Match, Covers;
    forall p, v ensures Match(p, v) <==> Covers(p, v) {
      MatchIsCovering(p, v);
    }
  }

  ghost predicate Written(policies: seq<AttachedPolicy>, effect: Effect, req: Request) {
    exists p, s :: p in policies && s in p.statements && s.effect == effect && CoversBoth(s, req)
  }

  /** The verdict, for every set of policies as they are written. */
  lemma VerdictAsWritten(policies: seq<AttachedPolicy>, req: Request)
    ensures Evaluated(policies, req).verdict ==
      if Written(policies, Deny, req) then ExplicitDeny
      else if Written(policies, Allow, req) then Allowed
      else ImplicitDeny
  {
    hide Applies, Evaluated, CoversBoth;
    FollowsTheRules(policies, req);
    TellsAsWritten(policies, Deny, req);
    TellsAsWritten(policies, Allow, req);
  }

  lemma TellsAsWritten(policies: seq<AttachedPolicy>, effect: Effect, req: Request)
    ensures Told(Said(policies), effect, req) <==> Written(policies, effect, req)
  {
    hide Applies, CoversBoth;
    forall s ensures Applies(s, req) <==> CoversBoth(s, req) {
      AppliesIff(s, req);
    }
    if s :| s in Said(policies) && s.effect == effect && Applies(s, req) {
      var p :| p in policies && s in p.statements;
    }
    if p, s :| p in policies && s in p.statements && s.effect == effect && CoversBoth(s, req) {
      assert s in Said(policies);
    }
  }

  /** One allow for a prefix allows exactly the actions that begin with it. */
  lemma PrefixAllow(arn: string, sid: string, q: string, req: Request)
    ensures var policies := [AttachedPolicy(arn, [Statement(sid, Allow, [q + "*"], ["*"])])];
      Evaluated(policies, req).verdict
        == if q <= req.action then Allowed else ImplicitDeny
  {
    hide Evaluated, Match;
    var s := Statement(sid, Allow, [q + "*"], ["*"]);
    var policies := [AttachedPolicy(arn, [s])];
    FollowsTheRules(policies, req);
    forall t ensures t in Said(policies) <==> t == s {
      assert policies[0] in policies && s in policies[0].statements;
      if t in Said(policies) {
        var p :| p in policies && t in p.statements;
      }
    }
    MatchIff(q, req.action);
    MatchIff("", req.resource);
    assert "" + "*" == "*" && req.resource == "" + req.resource;
    assert q <= req.action <==> exists rest: string :: req.action == q + rest by {
      if q <= req.action {
        assert req.action == q + req.action[|q|..];
      }
    }
    assert s.actions[0] == q + "*" && s.resources[0] == "*";
    assert Applies(s, req) <==> q <= req.action;
  }
}
