/** Everything chala derives from an account and an instance name, and what it reads back from the
    labels it wrote.  A string here is a Go string: each character stands for one byte. */
module ChalaNames {
  import opened Splitting
  import opened Wrappers

  const LABEL_KIND := "dariya.chala"
  const LABEL_ACCOUNT := "dariya.account"
  const LABEL_INSTANCE := "dariya.instance"
  const LABEL_IMAGE := "dariya.image"
  const LABEL_TAG := "dariya.tag."
  const LABEL_ATTACH_ACCOUNT := "dariya.attach.account"
  const LABEL_ATTACH_ALIASES := "dariya.attach.aliases"

  const MAX_TAGS := 16
  const MAX_TAG_VALUE := 255
  const MAX_ALIASES := 4

  type Labels = map<string, string>

  datatype Error = Validation | AccessDenied

  // ---- The three patterns ----

  predicate IsDigit(c: char) { '0' <= c <= '9' }

  predicate IsLowerAlnum(c: char) { 'a' <= c <= 'z' || IsDigit(c) }

  predicate IsTagChar(c: char) {
    'a' <= c <= 'z' || 'A' <= c <= 'Z' || IsDigit(c) || c == '.' || c == '_' || c == '-'
  }

  /** `^[a-z0-9]([a-z0-9-]{0,61}[a-z0-9])?$` */
  predicate IsInstanceName(s: string) {
    && 1 <= |s| <= 63
    && IsLowerAlnum(s[0]) && IsLowerAlnum(s[|s| - 1])
    && forall i | 0 <= i < |s| :: IsLowerAlnum(s[i]) || s[i] == '-'
  }

  /** `^[A-Za-z0-9._-]{1,63}$` */
  predicate IsTagKey(s: string) {
    1 <= |s| <= 63 && forall i | 0 <= i < |s| :: IsTagChar(s[i])
  }

  /** `^[0-9]{12}$` */
  predicate IsAccountId(s: string) {
    |s| == 12 && forall i | 0 <= i < |s| :: IsDigit(s[i])
  }

  // ---- Names ----

  function ContainerName(account: string, name: string): string { "chala-" + account + "-" + name }

  function NetworkName(account: string): string { "dariya-acct-" + account }

  lemma NamesAre(account: string, name: string)
    ensures ContainerName(account, name) == "chala-" + account + "-" + name
    ensures NetworkName(account) == "dariya-acct-" + account
  {}

  /** A lookup by container name for one account cannot land on another's instance. */
  lemma ContainerNameInjective(account: string, name: string, account': string, name': string)
    requires IsAccountId(account) && IsAccountId(account')
    requires ContainerName(account, name) == ContainerName(account', name')
    ensures account == account' && name == name'
  {
    var n, n' := ContainerName(account, name), ContainerName(account', name');
    assert n[6..18] == account && n'[6..18] == account';
    assert n[19..] == name && n'[19..] == name';
  }

  lemma NetworkNameInjective(a: string, b: string)
    requires NetworkName(a) == NetworkName(b)
    ensures a == b
  {
    assert NetworkName(a)[12..] == a && NetworkName(b)[12..] == b;
  }

  // ---- Tags and labels ----

  predicate ValidTags(tags: map<string, string>) {
    |tags| <= MAX_TAGS && forall k | k in tags :: IsTagKey(k) && |tags[k]| <= MAX_TAG_VALUE
  }

  /** At most sixteen tags; keys of 1 to 63 letters, digits, points, hyphens and underscores; values of up to 255
      bytes. */
  lemma ValidTagsIff(tags: map<string, string>)
    ensures ValidTags(tags) <==>
      && |tags| <= 16
      && forall k | k in tags :: 1 <= |k| <= 63 && |tags[k]| <= 255 && forall c | c in k ::
           'a' <= c <= 'z' || 'A' <= c <= 'Z' || '0' <= c <= '9' || c == '.' || c == '_' || c == '-'
  {
    forall k: string ensures (forall c | c in k :: IsTagChar(c)) <==> forall i | 0 <= i < |k| :: IsTagChar(k[i]) {}
  }

  /** `validateTags` */
  method ValidateTags(tags: map<string, string>) returns (valid: bool)
    ensures valid <==> ValidTags(tags)
  {
    if |tags| > MAX_TAGS {
      return false;
    }
    var left := tags.Keys;
    while left != {}
      invariant left <= tags.Keys
      invariant forall k :: k in tags.Keys - left ==> IsTagKey(k) && |tags[k]| <= MAX_TAG_VALUE
    {
      var k :| k in left;
      if !IsTagKey(k) || |tags[k]| > MAX_TAG_VALUE {
        return false;
      }
      left := left - {k};
    }
    return true;
  }

  /** The labels of a new container, before an attachment is added. */
  function InstanceLabels(account: string, name: string, image: string, tags: map<string, string>): Labels {
    FixedLabels(account, name, image) + TagLabels(tags)
  }

  function FixedLabels(account: string, name: string, image: string): Labels {
    map[LABEL_KIND := "instance", LABEL_ACCOUNT := account, LABEL_INSTANCE := name, LABEL_IMAGE := image]
  }

  function TagLabels(tags: map<string, string>): (r: Labels)
    ensures forall k :: k in tags ==> LABEL_TAG + k in r && r[LABEL_TAG + k] == tags[k]
    ensures forall l :: l in r ==> LABEL_TAG <= l && l[|LABEL_TAG|..] in tags
  {
    map l | l in (set k | k in tags :: LABEL_TAG + k) :: tags[l[|LABEL_TAG|..]]
  }

  /** The keys of the tags among the labels. */
  function TagKeys(labels: Labels): (r: set<string>)
    ensures forall t :: t in r <==> LABEL_TAG + t in labels
  {
    var r := set l | l in labels && LABEL_TAG <= l :: l[|LABEL_TAG|..];
    assert forall t :: t in r <==> LABEL_TAG + t in labels by {
      forall t ensures t in r <==> LABEL_TAG + t in labels {
        assert (LABEL_TAG + t)[|LABEL_TAG|..] == t;
        if t in r {
          var l :| l in labels && LABEL_TAG <= l && l[|LABEL_TAG|..] == t;
          assert l == LABEL_TAG + t;
        }
      }
    }
    r
  }

  /** `tagsFrom` */
  function TagsFrom(labels: Labels): map<string, string> {
    map t | t in TagKeys(labels) :: labels[LABEL_TAG + t]
  }

  /** `instanceLabels`, one tag at a time. */
  method BuildLabels(account: string, name: string, image: string, tags: map<string, string>)
    returns (labels: Labels)
    ensures labels == InstanceLabels(account, name, image, tags)
  {
    hide FixedLabels, TagLabels;
    labels := FixedLabels(account, name, image);
    NoTags();
    var left := tags.Keys;
    ghost var added: map<string, string> := map[];
    while left != {}
      invariant left <= tags.Keys
      invariant added.Keys == tags.Keys - left && forall k :: k in added ==> added[k] == tags[k]
      invariant labels == FixedLabels(account, name, image) + TagLabels(added)
    {
      var k :| k in left;
      AddTag(added, k, tags[k]);
      labels := labels[LABEL_TAG + k := tags[k]];
      added := added[k := tags[k]];
      left := left - {k};
    }
    assert added == tags;
  }

  lemma NoTags()
    ensures TagLabels(map[]) == map[]
  {}

  lemma AddTag(tags: map<string, string>, k: string, v: string)
    ensures TagLabels(tags[k := v]) == TagLabels(tags)[LABEL_TAG + k := v]
  {
    var more := TagLabels(tags[k := v]);
    var tagged := TagLabels(tags)[LABEL_TAG + k := v];
    forall l
      ensures l in more <==> l in tagged
      ensures l in more ==> more[l] == tagged[l]
    {
      if l in more || l in tagged {
        assert l == LABEL_TAG + l[|LABEL_TAG|..];
      }
      assert LABEL_TAG + k in more;
    }
  }

  /** `tagsFrom`, one label at a time. */
  method ReadTags(labels: Labels) returns (tags: map<string, string>)
    ensures tags == TagsFrom(labels)
  {
    tags := map[];
    var left := labels.Keys;
    while left != {}
      invariant left <= labels.Keys
      invariant forall t :: t in tags <==> LABEL_TAG + t in labels && LABEL_TAG + t !in left
      invariant forall t :: t in tags ==> tags[t] == labels[LABEL_TAG + t]
    {
      var l :| l in left;
      if LABEL_TAG <= l {
        assert l == LABEL_TAG + l[|LABEL_TAG|..];
        tags := tags[l[|LABEL_TAG|..] := labels[l]];
      }
      left := left - {l};
    }
  }

  /** `sameTags` */
  method SameTags(a: map<string, string>, b: map<string, string>) returns (same: bool)
    ensures same <==> a == b
  {
    if |a| != |b| {
      return false;
    }
    var left := a.Keys;
    while left != {}
      invariant left <= a.Keys
      invariant forall k :: k in a.Keys - left ==> k in b && b[k] == a[k]
    {
      var k :| k in left;
      if k !in b || b[k] != a[k] {
        return false;
      }
      left := left - {k};
    }
    SubsetOfSameSize(a.Keys, b.Keys);
    return true;
  }

  lemma {:induction false} SubsetOfSameSize<T>(a: set<T>, b: set<T>)
    requires a <= b && |a| >= |b|
    ensures a == b
  {
    if a != {} {
      var x :| x in a;
      SubsetOfSameSize(a - {x}, b - {x});
    }
  }

  // ---- What a RunInstance asks for ----

  datatype Request = Request(
    account: string, name: string, image: string, tags: map<string, string>,
    attach: string, aliases: seq<string>)

  function AliasSuffix(attach: string, service: string): string {
    "." + attach + "." + service + ".dariya.internal"
  }

  predicate ValidAlias(alias: string, suffix: string) {
    && |alias| >= |suffix|
    && alias[|alias| - |suffix|..] == suffix
    && IsInstanceName(alias[..|alias| - |suffix|])
  }

  /** `validateAttach`: what is refused, and why. */
  function AttachError(caller: string, service: string, attach: string, aliases: seq<string>): Option<Error> {
    if attach == "" then (if |aliases| > 0 then Some(Validation) else None)
    else if service == "" then Some(AccessDenied)
    else if !IsAccountId(attach) || attach == caller || |aliases| > MAX_ALIASES then Some(Validation)
    else if forall a :: a in aliases ==> ValidAlias(a, AliasSuffix(attach, service)) then None
    else Some(Validation)
  }

  lemma AliasIs(alias: string, attach: string, service: string)
    ensures ValidAlias(alias, AliasSuffix(attach, service)) <==>
      exists host :: IsInstanceName(host) && alias == host + "." + attach + "." + service + ".dariya.internal"
  {
    hide IsInstanceName;
    var suffix := AliasSuffix(attach, service);
    if ValidAlias(alias, suffix) {
      var host := alias[..|alias| - |suffix|];
      assert alias == host + "." + attach + "." + service + ".dariya.internal";
    }
    if host :| IsInstanceName(host) && alias == host + "." + attach + "." + service + ".dariya.internal" {
      assert alias == host + suffix;
    }
  }

  /** What may be attached: nothing, with no names; or by a service, to another's account, under up to four names
      that end in that account and that service. */
  lemma AttachIff(caller: string, service: string, attach: string, aliases: seq<string>)
    ensures AttachError(caller, service, attach, aliases) == None <==>
      || (attach == "" && aliases == [])
      || (attach != "" && service != "" && IsAccountId(attach) && attach != caller && |aliases| <= 4
          && forall a | a in aliases :: exists host ::
               IsInstanceName(host) && a == host + "." + attach + "." + service + ".dariya.internal")
    ensures AttachError(caller, service, attach, aliases) == Some(AccessDenied) <==> attach != "" && service == ""
  {
    hide IsInstanceName, ValidAlias, AliasSuffix, IsAccountId;
    forall a ensures ValidAlias(a, AliasSuffix(attach, service)) <==> exists host ::
      IsInstanceName(host) && a == host + "." + attach + "." + service + ".dariya.internal"
    {
      AliasIs(a, attach, service);
    }
  }

  function Owned(attach: string, service: string): string {
    attach + ['.'] + (service + ['.'] + "dariya.internal")
  }

  lemma AliasParts(alias: string, attach: string, service: string) returns (host: string)
    requires ValidAlias(alias, AliasSuffix(attach, service))
    ensures '.' !in host && alias == host + ['.'] + Owned(attach, service)
  {
    host := alias[..|alias| - |AliasSuffix(attach, service)|];
    assert AliasSuffix(attach, service) == ['.'] + Owned(attach, service);
  }

  /** So no name can be claimed for two accounts or by two services. */
  lemma AliasOwner(alias: string, attach: string, service: string, attach': string, service': string)
    requires ValidAlias(alias, AliasSuffix(attach, service)) && ValidAlias(alias, AliasSuffix(attach', service'))
    requires '.' !in attach && '.' !in service && '.' !in attach' && '.' !in service'
    ensures attach == attach' && service == service'
  {
    hide ValidAlias, AliasSuffix, Owned;
    var host := AliasParts(alias, attach, service);
    var host' := AliasParts(alias, attach', service');
    FirstSeparator(host, Owned(attach, service), host', Owned(attach', service'), '.');
    OwnedBy(attach, service, attach', service');
  }

  lemma OwnedBy(attach: string, service: string, attach': string, service': string)
    requires '.' !in attach && '.' !in service && '.' !in attach' && '.' !in service'
    requires Owned(attach, service) == Owned(attach', service')
    ensures attach == attach' && service == service'
  {
    var tail := "dariya.internal";
    FirstSeparator(attach, service + ['.'] + tail, attach', service' + ['.'] + tail, '.');
    FirstSeparator(service, tail, service', tail, '.');
  }

  method ValidateAttach(caller: string, service: string, attach: string, aliases: seq<string>)
    returns (error: Option<Error>)
    ensures error == AttachError(caller, service, attach, aliases)
  {
    if attach == "" {
      if |aliases| > 0 {
        return Some(Validation);
      }
      return None;
    }
    if service == "" {
      return Some(AccessDenied);
    }
    if !IsAccountId(attach) || attach == caller || |aliases| > MAX_ALIASES {
      return Some(Validation);
    }
    var suffix := AliasSuffix(attach, service);
    for i := 0 to |aliases|
      invariant forall j :: 0 <= j < i ==> ValidAlias(aliases[j], suffix)
    {
      if !ValidAlias(aliases[i], suffix) {
        return Some(Validation);
      }
    }
    return None;
  }

  /** A request that passed validation, from a caller configured as `service` (or not at all). */
  ghost predicate Validated(r: Request, service: string) {
    && IsAccountId(r.account) && IsInstanceName(r.name)
    && ValidTags(r.tags)
    && (service == "" || IsInstanceName(service))
    && AttachError(r.account, service, r.attach, r.aliases) == None
  }

  /** The labels of the container a request creates. */
  function LabelsFor(r: Request): Labels {
    InstanceLabels(r.account, r.name, r.image, r.tags)
    + if r.attach == "" then map[]
      else map[LABEL_ATTACH_ACCOUNT := r.attach, LABEL_ATTACH_ALIASES := Join(r.aliases, ',')]
  }

  /** A missing label reads as the empty string. */
  function Label(labels: Labels, key: string): string {
    if key in labels then labels[key] else ""
  }

  /** The comparison `adopt` makes between an existing container and a request. */
  predicate Adopts(labels: Labels, r: Request) {
    && Label(labels, LABEL_IMAGE) == r.image
    && TagsFrom(labels) == r.tags
    && Label(labels, LABEL_ATTACH_ACCOUNT) == r.attach
    && Label(labels, LABEL_ATTACH_ALIASES) == Join(r.aliases, ',')
  }

  // ---- adopt accepts exactly the request that made the container ----

  lemma LabelsAreDistinct()
    ensures |LABEL_TAG| == 11
    ensures !(LABEL_TAG <= LABEL_KIND) && !(LABEL_TAG <= LABEL_ACCOUNT) && !(LABEL_TAG <= LABEL_INSTANCE)
    ensures !(LABEL_TAG <= LABEL_IMAGE) && !(LABEL_TAG <= LABEL_ATTACH_ACCOUNT)
    ensures !(LABEL_TAG <= LABEL_ATTACH_ALIASES)
    ensures LABEL_IMAGE != LABEL_ATTACH_ACCOUNT && LABEL_IMAGE != LABEL_ATTACH_ALIASES
    ensures LABEL_ATTACH_ACCOUNT != LABEL_ATTACH_ALIASES
    ensures LABEL_ATTACH_ACCOUNT !in {LABEL_KIND, LABEL_ACCOUNT, LABEL_INSTANCE}
    ensures LABEL_ATTACH_ALIASES !in {LABEL_KIND, LABEL_ACCOUNT, LABEL_INSTANCE}
  {
    assert LABEL_TAG[7] == 't' && LABEL_KIND[7] == 'c' && LABEL_ACCOUNT[7] == 'a';
    assert LABEL_INSTANCE[7] == 'i' && LABEL_IMAGE[7] == 'i';
    assert LABEL_ATTACH_ACCOUNT[7] == 'a' && LABEL_ATTACH_ALIASES[7] == 'a';
    assert |LABEL_KIND| == 12 && |LABEL_ACCOUNT| == 14 && |LABEL_INSTANCE| == 15;
    assert |LABEL_ATTACH_ACCOUNT| == 21 && |LABEL_ATTACH_ALIASES| == 21;
    assert LABEL_ATTACH_ACCOUNT[15] == 'c' && LABEL_ATTACH_ALIASES[15] == 'l';
  }

  /** `tagsFrom` undoes `instanceLabels`, attached or not. */
  lemma TagsFromUndoes(r: Request)
    ensures TagsFrom(LabelsFor(r)) == r.tags
  {
    hide LABEL_TAG, LABEL_KIND, LABEL_ACCOUNT, LABEL_INSTANCE, LABEL_IMAGE, LABEL_ATTACH_ACCOUNT,
      LABEL_ATTACH_ALIASES, TagLabels, TagKeys;
    LabelsAreDistinct();
    var labels := LabelsFor(r);
    forall t
      ensures LABEL_TAG + t in labels <==> t in r.tags
      ensures t in r.tags ==> labels[LABEL_TAG + t] == r.tags[t]
    {
      assert LABEL_TAG <= LABEL_TAG + t;
      assert (LABEL_TAG + t)[|LABEL_TAG|..] == t;
    }
  }

  /** The labels nothing is compared by: what it is, whose, and its name. */
  lemma LabelsAre(r: Request)
    ensures var labels := LabelsFor(r);
      && Label(labels, LABEL_KIND) == "instance" && Label(labels, LABEL_ACCOUNT) == r.account
      && Label(labels, LABEL_INSTANCE) == r.name
  {
    hide LABEL_TAG, LABEL_KIND, LABEL_ACCOUNT, LABEL_INSTANCE, LABEL_IMAGE, LABEL_ATTACH_ACCOUNT,
      LABEL_ATTACH_ALIASES, TagLabels, Join;
    LabelsAreDistinct();
    FixedDiffer();
  }

  lemma LabelNamesAre()
    ensures LABEL_KIND == "dariya.chala" && LABEL_ACCOUNT == "dariya.account" && LABEL_INSTANCE == "dariya.instance"
    ensures LABEL_IMAGE == "dariya.image" && LABEL_TAG == "dariya.tag."
    ensures LABEL_ATTACH_ACCOUNT == "dariya.attach.account" && LABEL_ATTACH_ALIASES == "dariya.attach.aliases"
  {}

  lemma FixedDiffer()
    ensures LABEL_KIND !in {LABEL_ACCOUNT, LABEL_INSTANCE, LABEL_IMAGE}
    ensures LABEL_ACCOUNT !in {LABEL_INSTANCE, LABEL_IMAGE} && LABEL_INSTANCE != LABEL_IMAGE
    ensures LABEL_KIND !in {LABEL_ATTACH_ACCOUNT, LABEL_ATTACH_ALIASES}
  {
    assert |LABEL_KIND| == 12 && |LABEL_ACCOUNT| == 14 && |LABEL_INSTANCE| == 15 && |LABEL_IMAGE| == 12;
    assert LABEL_KIND[7] == 'c' && LABEL_IMAGE[7] == 'i';
  }

  lemma FixedLabelsRead(r: Request)
    ensures Label(LabelsFor(r), LABEL_IMAGE) == r.image
    ensures Label(LabelsFor(r), LABEL_ATTACH_ACCOUNT) == r.attach
    ensures Label(LabelsFor(r), LABEL_ATTACH_ALIASES) == if r.attach == "" then "" else Join(r.aliases, ',')
  {
    hide LABEL_TAG, LABEL_KIND, LABEL_ACCOUNT, LABEL_INSTANCE, LABEL_IMAGE, LABEL_ATTACH_ACCOUNT,
      LABEL_ATTACH_ALIASES, TagLabels, Join;
    LabelsAreDistinct();
  }

  lemma AliasHasNoComma(alias: string, attach: string, service: string)
    requires IsAccountId(attach) && IsInstanceName(service)
    requires ValidAlias(alias, AliasSuffix(attach, service))
    ensures ',' !in alias && alias != ""
  {
    var suffix := AliasSuffix(attach, service);
    var cut := |alias| - |suffix|;
    assert ',' !in attach && ',' !in service;
    assert ',' !in ".dariya.internal" by {
      var tail := ".dariya.internal";
      assert forall i | 0 <= i < |tail| :: tail[i] != ',';
    }
    assert ',' !in suffix;
    assert alias == alias[..cut] + suffix;
  }

  /** Joining validated aliases with commas loses nothing. */
  lemma AliasesInjective(a: seq<string>, b: seq<string>)
    requires forall s :: s in a ==> ',' !in s && s != ""
    requires forall s :: s in b ==> ',' !in s && s != ""
    requires Join(a, ',') == Join(b, ',')
    ensures a == b
  {
    if a != [] { SplitJoin(a, ','); assert a[0] in a; }
    if b != [] { SplitJoin(b, ','); assert b[0] in b; }
    assert a == [] <==> Join(a, ',') == "";
    assert b == [] <==> Join(b, ',') == "";
  }

  lemma ValidatedAliases(r: Request, service: string)
    requires Validated(r, service)
    ensures forall s :: s in r.aliases ==> ',' !in s && s != ""
    ensures r.attach == "" ==> r.aliases == []
  {
    hide ValidAlias, AliasSuffix, IsInstanceName, IsAccountId;
    forall s | s in r.aliases ensures ',' !in s && s != "" {
      AliasHasNoComma(s, r.attach, service);
    }
  }

  /** The same request, apart from where it is addressed. */
  predicate SameAsk(a: Request, b: Request) {
    a.image == b.image && a.tags == b.tags && a.attach == b.attach && a.aliases == b.aliases
  }

  lemma AdoptsExactly(made: Request, service: string, asked: Request, service': string)
    requires Validated(made, service) && Validated(asked, service')
    ensures Adopts(LabelsFor(made), asked) <==> SameAsk(made, asked)
  {
    hide LabelsFor, TagsFrom, Validated;
    TagsFromUndoes(made);
    FixedLabelsRead(made);
    ValidatedAliases(made, service);
    ValidatedAliases(asked, service');
    assert Join(made.aliases, ',') == Join(asked.aliases, ',') <==> made.aliases == asked.aliases by {
      if Join(made.aliases, ',') == Join(asked.aliases, ',') {
        AliasesInjective(made.aliases, asked.aliases);
      }
    }
    assert made.attach == "" ==> Join(made.aliases, ',') == "";
  }
}
