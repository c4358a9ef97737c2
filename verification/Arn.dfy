/** Resource names: `arn:dariya:<service>:<region>:<account>:<type>/<id>`. */
module Arn {
  import opened ChalaNames
  import opened Splitting
  import opened Wrappers

  const PARTITION := "dariya"

  datatype Arn = Arn(service: string, region: string, account: string, kind: string, id: string)

  datatype ArnError = Malformed | WrongPartition | EmptyField | BadAccount | NoResource

  /** `strings.SplitN` */
  function SplitN(s: string, sep: char, n: nat): (parts: seq<string>)
    requires n >= 1
    ensures 1 <= |parts| <= n
    decreases n
  {
    var i := IndexOf(s, sep);
    if n == 1 || i == |s| then [s] else [s[..i]] + SplitN(s[i + 1..], sep, n - 1)
  }

  /** `a.String()` */
  function Format(a: Arn): string {
    Join(["arn", PARTITION, a.service, a.region, a.account, a.kind + "/" + a.id], ':')
  }

  function Parse(s: string): Result<Arn, ArnError> {
    var parts := SplitN(s, ':', 6);
    if |parts| != 6 || parts[0] != "arn" then Err(Malformed)
    else if parts[1] != PARTITION then Err(WrongPartition)
    else if parts[2] == "" || parts[3] == "" then Err(EmptyField)
    else if !IsAccountId(parts[4]) then Err(BadAccount)
    else
      var i := IndexOf(parts[5], '/');
      if i == |parts[5]| || i == 0 || i + 1 == |parts[5]| then Err(NoResource)
      else Ok(Arn(parts[2], parts[3], parts[4], parts[5][..i], parts[5][i + 1..]))
  }

  /** `ValidateAccountID`: exactly twelve digits, one byte at a time. */
  method ValidateAccountId(id: string) returns (error: Option<ArnError>)
    ensures error == if IsAccountId(id) then None else Some(BadAccount)
  {
    if |id| != 12 {
      return Some(BadAccount);
    }
    for i := 0 to |id|
      invariant forall j | 0 <= j < i :: IsDigit(id[j])
    {
      if id[i] < '0' || id[i] > '9' {
        return Some(BadAccount);
      }
    }
    return None;
  }

  /** The names there are. */
  predicate IsArn(a: Arn) {
    && a.service != "" && ':' !in a.service
    && a.region != "" && ':' !in a.region
    && IsAccountId(a.account)
    && a.kind != "" && '/' !in a.kind
    && a.id != ""
  }

  lemma {:induction false} JoinSplitN(s: string, sep: char, n: nat)
    requires n >= 1
    ensures Join(SplitN(s, sep, n), sep) == s
    ensures forall i | 0 <= i < |SplitN(s, sep, n)| && i < n - 1 :: sep !in SplitN(s, sep, n)[i]
    decreases n
  {
    var i := IndexOf(s, sep);
    if n == 1 || i == |s| {
      assert i == |s| ==> s[..i] == s;
    } else {
      JoinSplitN(s[i + 1..], sep, n - 1);
      assert s == s[..i] + [sep] + s[i + 1..];
    }
  }

  lemma SplitNStep(first: string, sep: char, rest: string, n: nat)
    requires n >= 2 && sep !in first
    ensures SplitN(first + [sep] + rest, sep, n) == [first] + SplitN(rest, sep, n - 1)
  {
    hide IndexOf;
    var s := first + [sep] + rest;
    IndexOfFirst(first, sep, rest);
    assert s[..|first|] == first && s[|first| + 1..] == rest;
  }

  lemma {:induction false} SplitNJoin(parts: seq<string>, sep: char)
    requires |parts| >= 1 && forall i | 0 <= i < |parts| - 1 :: sep !in parts[i]
    ensures SplitN(Join(parts, sep), sep, |parts|) == parts
    decreases |parts|
  {
    hide SplitN;
    if |parts| == 1 {
      SplitNOnce(parts[0], sep);
    } else {
      SplitNStep(parts[0], sep, Join(parts[1..], sep), |parts|);
      SplitNJoin(parts[1..], sep);
    }
  }

  lemma SplitNOnce(s: string, sep: char)
    ensures SplitN(s, sep, 1) == [s]
  {}

  /** A name that parses is the rendering of what it parses to, … */
  lemma ParseThenFormat(s: string)
    requires Parse(s).Ok?
    ensures IsArn(Parse(s).value) && Format(Parse(s).value) == s
  {
    hide SplitN, Join;
    var parts := SplitN(s, ':', 6);
    JoinSplitN(s, ':', 6);
    var i := IndexOf(parts[5], '/');
    assert parts[5] == parts[5][..i] + "/" + parts[5][i + 1..];
    assert parts == ["arn", PARTITION, parts[2], parts[3], parts[4], parts[5]];
  }

  /** … and every name there is comes back from its rendering. */
  lemma FormatThenParse(a: Arn)
    requires IsArn(a)
    ensures Parse(Format(a)) == Ok(a)
  {
    hide SplitN, Join;
    var resource := a.kind + "/" + a.id;
    var parts := ["arn", PARTITION, a.service, a.region, a.account, resource];
    assert forall i | 0 <= i < 5 :: ':' !in parts[i] by { NoColons(a); }
    SplitNJoin(parts, ':');
    IndexOfFirst(a.kind, '/', a.id);
    assert resource[..|a.kind|] == a.kind && resource[|a.kind| + 1..] == a.id;
  }

  lemma NoColons(a: Arn)
    requires IsArn(a)
    ensures ':' !in a.account && ':' !in "arn" && ':' !in PARTITION
  {}

  lemma FormatInjective(a: Arn, b: Arn)
    requires IsArn(a) && IsArn(b) && Format(a) == Format(b)
    ensures a == b
  {
    hide Format, Parse, IsArn;
    FormatThenParse(a);
    FormatThenParse(b);
  }

  lemma FormatIs(a: Arn)
    ensures Format(a)
         == "arn:dariya:" + (a.service + ":" + (a.region + ":" + (a.account + ":" + (a.kind + "/" + a.id))))
  {
    hide Join;
    var resource := a.kind + "/" + a.id;
    var four := [a.service, a.region, a.account, resource];
    assert four[1..] == [a.region, a.account, resource] && four[1..][1..] == [a.account, resource];
    assert four[1..][1..][1..] == [resource];
    JoinOne(resource);
    JoinFirst([a.account, resource]);
    JoinFirst([a.region, a.account, resource]);
    JoinFirst(four);
    assert ([PARTITION] + four)[1..] == four && (["arn"] + ([PARTITION] + four))[1..] == [PARTITION] + four;
    JoinFirst([PARTITION] + four);
    JoinFirst(["arn"] + ([PARTITION] + four));
    assert ["arn"] + ([PARTITION] + four) == ["arn", PARTITION, a.service, a.region, a.account, resource];
    Regroup(Join(four, ':'));
  }

  lemma Regroup(rest: string)
    ensures "arn" + ":" + (PARTITION + ":" + rest) == "arn:dariya:" + rest
  {
    assert "arn" + ":" + (PARTITION + ":") == "arn:dariya:";
  }

  lemma JoinOne(part: string)
    ensures Join([part], ':') == part
  {}

  lemma JoinFirst(parts: seq<string>)
    requires |parts| > 1
    ensures Join(parts, ':') == parts[0] + ":" + Join(parts[1..], ':')
  {}

  /** What parses is the names there are, and nothing else. */
  lemma ParsesIff(s: string)
    ensures Parse(s).Ok? <==> exists a :: IsArn(a) && s == Format(a)
  {
    hide Parse, Format, IsArn;
    if Parse(s).Ok? {
      ParseThenFormat(s);
    }
    if a :| IsArn(a) && s == Format(a) {
      FormatThenParse(a);
    }
  }
}
