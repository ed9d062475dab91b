/** The loaders and the loading of configuration files (mods/simpledata/src), step by step as they run. */
module SimpleData {
  import opened Wrappers
  import opened Resources
  import opened ReferenceCycles
  import Text

  // ---------------------------------------------------------------- loaders

  /** The fresh object of a configuration, before any reference is resolved. */
  function Mapped(config: UserConfig): Resource {
    var maxContacts := if config.kind == AGENT || config.kind == PEER then config.spec.maxContacts else None;
    Resource(config.kind, config.ref, maxContacts, [])
  }

  function Assigned(resource: Resource, link: Link, target: Option<Resource>): Resource {
    resource.(fields := resource.fields + [Field(link.name, link.ref, target)])
  }

  function Limited(resource: Resource): Resource {
    if resource.maxContacts == None || resource.maxContacts == Some(0) then resource.(maxContacts := Some(-1))
    else resource
  }

  lemma {:induction false} FieldsInTwoParts(depth: nat, links: seq<Link>, more: seq<Link>, list: seq<UserConfig>)
    ensures Fields(depth, links + more, list) ==
            match Fields(depth, links, list)
            case Err(e) => Err(e)
            case Ok(fields) =>
              (match Fields(depth, more, list) case Err(e) => Err(e) case Ok(rest) => Ok(fields + rest))
    decreases |links|
  {
    if links == [] {
      assert links + more == more;
      if Fields(depth, more, list).Ok? {
        assert [] + Fields(depth, more, list).value == Fields(depth, more, list).value;
      }
    } else {
      assert (links + more)[1..] == links[1..] + more;
      FieldsInTwoParts(depth, links[1..], more, list);
      if FindByRef(depth, links[0].ref, list).Ok? && Fields(depth, links[1..], list).Ok?
        && Fields(depth, more, list).Ok? {
        var first := [Field(links[0].name, links[0].ref, FindByRef(depth, links[0].ref, list).value)];
        assert first + (Fields(depth, links[1..], list).value + Fields(depth, more, list).value)
            == first + Fields(depth, links[1..], list).value + Fields(depth, more, list).value;
      }
    }
  }

  /** The fields of `done`, the first of `links`, are resolved; what is left are the fields of the others. */
  ghost predicate SoFar(depth: nat, links: seq<Link>, done: nat, fields: seq<Field>, list: seq<UserConfig>) {
    done <= |links| && Fields(depth, links[..done], list) == Ok(fields)
  }

  lemma OneField(depth: nat, links: seq<Link>, done: nat, fields: seq<Field>, list: seq<UserConfig>)
    requires SoFar(depth, links, done, fields, list) && done < |links|
    ensures match FindByRef(depth, links[done].ref, list)
            case Err(e) => Fields(depth, links, list) == Err(e)
            case Ok(target) =>
              SoFar(depth, links, done + 1, fields + [Field(links[done].name, links[done].ref, target)], list)
  {
    var one := [links[done]];
    assert links[..done + 1] == links[..done] + one;
    FieldsInTwoParts(depth, links[..done], one, list);
    assert links == links[..done + 1] + links[done + 1..];
    FieldsInTwoParts(depth, links[..done + 1], links[done + 1..], list);
    assert one[1..] == [];
    assert Fields(depth, one[1..], list) == Ok([]);
    if FindByRef(depth, links[done].ref, list).Ok? {
      var field := Field(links[done].name, links[done].ref, FindByRef(depth, links[done].ref, list).value);
      assert [field] + [] == [field];
    }
  }

  lemma NoFieldYet(depth: nat, links: seq<Link>, list: seq<UserConfig>)
    ensures SoFar(depth, links, 0, [], list)
  {
    assert links[..0] == [];
  }

  lemma AllFields(depth: nat, links: seq<Link>, fields: seq<Field>, list: seq<UserConfig>)
    requires SoFar(depth, links, |links|, fields, list)
    ensures Fields(depth, links, list) == Ok(fields)
  {
    assert links[..|links|] == links;
  }

  method FindRef(depth: nat, ref: Option<string>, list: seq<UserConfig>) returns (r: Outcome<Option<Resource>>)
    ensures r == FindByRef(depth, ref, list)
    decreases depth, 0
  {
    var config := if ref.Some? then Find(list, ref.value) else None;
    if ref.Some? && config.None? {
      return Err(Missing(ref.value));
    }
    if config.None? {
      return Ok(None);
    }
    if depth == 0 {
      return Err(RangeError);
    }
    var resource :- LoaderOf(depth - 1, config.value, list);
    return Ok(Some(resource));
  }

  /** The loader that the kind of the resource selects. */
  method LoaderOf(depth: nat, config: UserConfig, list: seq<UserConfig>) returns (r: Outcome<Resource>)
    ensures r == Load(depth, config, list)
    decreases depth, 2
  {
    match config.kind
    case AGENT => r := AgentsLoader(depth, config, list);
    case DOMAIN => r := DomainsLoader(depth, config, list);
    case PEER => r := PeersLoader(depth, config, list);
    case NUMBER => r := NumbersLoader(depth, config, list);
    case TRUNK => r := TrunksLoader(depth, config, list);
    case CREDENTIALS => r := CredentialsLoader(depth, config, list);
    case ACL => r := AclLoader(depth, config, list);
    case UNKNOWN => r := Err(TypeError);
  }

  method AgentsLoader(depth: nat, config: UserConfig, list: seq<UserConfig>) returns (r: Outcome<Resource>)
    ensures r == if config.kind == AGENT then Load(depth, config, list) else Err(InvalidType)
    decreases depth, 1
  {
    if config.kind != AGENT {
      return Err(InvalidType);
    }
    var agent, links := Mapped(config), Links(config);
    NoFieldYet(depth, links, list);
    OneField(depth, links, 0, agent.fields, list);
    var domain :- FindRef(depth, config.spec.domainRef, list);
    agent := Assigned(agent, Link(DomainField, config.spec.domainRef), domain);
    OneField(depth, links, 1, agent.fields, list);
    var credentials :- FindRef(depth, config.spec.credentialsRef, list);
    agent := Assigned(agent, Link(CredentialsField, config.spec.credentialsRef), credentials);
    AllFields(depth, links, agent.fields, list);
    agent := Limited(agent);
    return Ok(agent);
  }

  method PeersLoader(depth: nat, config: UserConfig, list: seq<UserConfig>) returns (r: Outcome<Resource>)
    ensures r == if config.kind == PEER then Load(depth, config, list) else Err(InvalidType)
    decreases depth, 1
  {
    if config.kind != PEER {
      return Err(InvalidType);
    }
    var peer, links := Mapped(config), Links(config);
    NoFieldYet(depth, links, list);
    OneField(depth, links, 0, peer.fields, list);
    var credentials :- FindRef(depth, config.spec.credentialsRef, list);
    peer := Assigned(peer, Link(CredentialsField, config.spec.credentialsRef), credentials);
    AllFields(depth, links, peer.fields, list);
    peer := Limited(peer);
    return Ok(peer);
  }

  method NumbersLoader(depth: nat, config: UserConfig, list: seq<UserConfig>) returns (r: Outcome<Resource>)
    ensures r == if config.kind == NUMBER then Load(depth, config, list) else Err(InvalidType)
    decreases depth, 1
  {
    if config.kind != NUMBER {
      return Err(InvalidType);
    }
    var number, links := Mapped(config), Links(config);
    NoFieldYet(depth, links, list);
    OneField(depth, links, 0, number.fields, list);
    var trunk :- FindRef(depth, config.spec.trunkRef, list);
    number := Assigned(number, Link(TrunkField, config.spec.trunkRef), trunk);
    AllFields(depth, links, number.fields, list);
    return Ok(number);
  }

  method TrunksLoader(depth: nat, config: UserConfig, list: seq<UserConfig>) returns (r: Outcome<Resource>)
    ensures r == if config.kind == TRUNK then Load(depth, config, list) else Err(InvalidType)
    decreases depth, 1
  {
    if config.kind != TRUNK {
      return Err(InvalidType);
    }
    var trunk, links := Mapped(config), Links(config);
    NoFieldYet(depth, links, list);
    OneField(depth, links, 0, trunk.fields, list);
    var inbound :- FindRef(depth, config.spec.inboundCredentialsRef, list);
    trunk := Assigned(trunk, Link(InboundCredentials, config.spec.inboundCredentialsRef), inbound);
    OneField(depth, links, 1, trunk.fields, list);
    var outbound :- FindRef(depth, config.spec.outboundCredentialsRef, list);
    trunk := Assigned(trunk, Link(OutboundCredentials, config.spec.outboundCredentialsRef), outbound);
    OneField(depth, links, 2, trunk.fields, list);
    var acl :- FindRef(depth, config.spec.inboundAccessControlListRef, list);
    trunk := Assigned(trunk, Link(AccessControlListField, config.spec.inboundAccessControlListRef), acl);
    AllFields(depth, links, trunk.fields, list);
    return Ok(trunk);
  }

  lemma {:induction false} PolicyLinkAt(policies: seq<EgressPolicy>, i: nat)
    requires i < |policies|
    ensures |PolicyLinks(policies)| == |policies|
    ensures PolicyLinks(policies)[i] == Link(EgressNumber(policies[i].rule), policies[i].numberRef)
  {
    if i > 0 {
      PolicyLinkAt(policies[1..], i - 1);
    } else if |policies| > 1 {
      PolicyLinkAt(policies[1..], 0);
    }
  }

  method DomainsLoader(depth: nat, config: UserConfig, list: seq<UserConfig>) returns (r: Outcome<Resource>)
    ensures r == if config.kind == DOMAIN then Load(depth, config, list) else Err(InvalidType)
    decreases depth, 1
  {
    if config.kind != DOMAIN {
      return Err(InvalidType);
    }
    var links := Links(config);
    var domain := Mapped(config);
    NoFieldYet(depth, links, list);
    if config.spec.egressPolicies.Some? {
      var policies := config.spec.egressPolicies.value;
      for i := 0 to |policies|
        invariant domain == Mapped(config).(fields := domain.fields)
        invariant SoFar(depth, links, i, domain.fields, list)
      {
        var policy := policies[i];
        PolicyLinkAt(policies, i);
        OneField(depth, links, i, domain.fields, list);
        var number :- FindRef(depth, policy.numberRef, list);
        domain := Assigned(domain, Link(EgressNumber(policy.rule), policy.numberRef), number);
      }
      if policies != [] {
        PolicyLinkAt(policies, 0);
      }
    }
    OneField(depth, links, |links| - 1, domain.fields, list);
    var acl :- FindRef(depth, config.spec.accessControlListRef, list);
    domain := Assigned(domain, Link(AccessControlListField, config.spec.accessControlListRef), acl);
    AllFields(depth, links, domain.fields, list);
    return Ok(domain);
  }

  method CredentialsLoader(depth: nat, config: UserConfig, list: seq<UserConfig>) returns (r: Outcome<Resource>)
    ensures r == if config.kind == CREDENTIALS then Load(depth, config, list) else Err(InvalidType)
  {
    r := if config.kind == CREDENTIALS then Ok(Mapped(config)) else Err(InvalidType);
  }

  method AclLoader(depth: nat, config: UserConfig, list: seq<UserConfig>) returns (r: Outcome<Resource>)
    ensures r == if config.kind == ACL then Load(depth, config, list) else Err(InvalidType)
  {
    r := if config.kind == ACL then Ok(Mapped(config)) else Err(InvalidType);
  }

  // ---------------------------------------------------------------- files

  /** A resource as a file holds it. */
  datatype RawConfig = RawConfig(kind: string, ref: string, spec: Spec)

  function KindOf(lower: string): Kind {
    if lower == "agent" then AGENT
    else if lower == "domain" then DOMAIN
    else if lower == "peer" then PEER
    else if lower == "number" then NUMBER
    else if lower == "trunk" then TRUNK
    else if lower == "credentials" then CREDENTIALS
    else if lower == "accesscontrollist" then ACL
    else UNKNOWN
  }

  function Parsed(raw: RawConfig): UserConfig {
    UserConfig(KindOf(Text.ToLower(raw.kind)), raw.ref, raw.spec)
  }

  predicate DistinctRefs(resources: seq<UserConfig>) {
    forall i, j :: 0 <= i < j < |resources| ==> resources[i].ref != resources[j].ref
  }

  /** The references that have come before, in order. */
  function Repeated(resources: seq<UserConfig>, n: nat): seq<string>
    requires n <= |resources|
  {
    if n == 0 then []
    else
      var before := Repeated(resources, n - 1);
      var ref := resources[n - 1].ref;
      if exists i :: 0 <= i < n - 1 && resources[i].ref == ref then before + [ref] else before
  }

  lemma {:induction false} NoneRepeatedIffDistinct(resources: seq<UserConfig>, n: nat)
    requires n <= |resources|
    ensures Repeated(resources, n) == [] <==> DistinctRefs(resources[..n])
    decreases n
  {
    if n > 0 {
      NoneRepeatedIffDistinct(resources, n - 1);
      var before, all := resources[..n - 1], resources[..n];
      assert forall i :: 0 <= i < n - 1 ==> all[i] == before[i] == resources[i];
      assert all[n - 1] == resources[n - 1];
    }
  }

  /** The index of the first resource with this reference. */
  method IndexOf(resources: seq<UserConfig>, ref: string) returns (index: int)
    ensures if index < 0 then forall i :: 0 <= i < |resources| ==> resources[i].ref != ref
            else
              && index < |resources| && resources[index].ref == ref
              && forall i :: 0 <= i < index ==> resources[i].ref != ref
  {
    for i := 0 to |resources|
      invariant forall j :: 0 <= j < i ==> resources[j].ref != ref
    {
      if resources[i].ref == ref {
        return i;
      }
    }
    return -1;
  }

  /** Accepts exactly the lists without a repeated reference. */
  method CheckReferences(resources: seq<UserConfig>) returns (failure: Option<Failure>)
    ensures failure == None <==> DistinctRefs(resources)
    ensures failure != None ==> failure == Some(Duplicated(Repeated(resources, |resources|)))
  {
    var duplicates: seq<string> := [];
    for i := 0 to |resources|
      invariant duplicates == Repeated(resources, i)
    {
      var first := IndexOf(resources, resources[i].ref);
      if first != i {
        duplicates := duplicates + [resources[i].ref];
      }
    }
    NoneRepeatedIffDistinct(resources, |resources|);
    assert resources[..|resources|] == resources;
    failure := if |duplicates| > 0 then Some(Duplicated(duplicates)) else None;
  }

  function Flatten(files: seq<seq<RawConfig>>): seq<RawConfig> {
    if files == [] then [] else files[0] + Flatten(files[1..])
  }

  predicate HasSpace(raw: RawConfig) {
    ' ' in raw.ref
  }

  function ParsedAll(raws: seq<RawConfig>): seq<UserConfig> {
    seq(|raws|, i requires 0 <= i < |raws| => Parsed(raws[i]))
  }

  function OfKind(resources: seq<UserConfig>, kind: Option<Kind>): seq<UserConfig> {
    if resources == [] then []
    else if kind == None || resources[0].kind == kind.value then [resources[0]] + OfKind(resources[1..], kind)
    else OfKind(resources[1..], kind)
  }

  function LoadEach(depth: nat, resources: seq<UserConfig>, list: seq<UserConfig>): Outcome<seq<Resource>> {
    if resources == [] then Ok([])
    else
      var first :- Load(depth, resources[0], list);
      var rest :- LoadEach(depth, resources[1..], list);
      Ok([first] + rest)
  }

  /** The files hold `raws` in order, none up to `n` of them with a space in its reference. */
  ghost predicate ReadSoFar(raws: seq<RawConfig>, n: nat, all: seq<UserConfig>) {
    && n <= |raws| && all == ParsedAll(raws[..n])
    && forall i :: 0 <= i < n ==> !HasSpace(raws[i])
  }

  ghost predicate SpaceAt(raws: seq<RawConfig>, i: int, e: Failure) {
    0 <= i < |raws| && HasSpace(raws[i]) && e == SpacesIn(raws[i].ref) && forall j :: 0 <= j < i ==> !HasSpace(raws[j])
  }

  /** The failure names the first reference with a space. */
  ghost predicate FirstSpace(raws: seq<RawConfig>, e: Failure) {
    exists i :: SpaceAt(raws, i, e)
  }

  /**
   How loading ends: at the first reference with a space, or at repeated references, or with what the loaders give.
   */
  ghost predicate Loaded(depth: nat, raws: seq<RawConfig>, kind: Option<Kind>, r: Outcome<seq<Resource>>) {
    if exists i :: 0 <= i < |raws| && HasSpace(raws[i]) then r.Err? && FirstSpace(raws, r.error)
    else
      var all := ParsedAll(raws);
      if DistinctRefs(all) then r == LoadEach(depth, OfKind(all, kind), all)
      else r == Err(Duplicated(Repeated(all, |all|)))
  }

  /** Reads resource after resource, up to the first whose reference has a space. */
  method ReadResources(files: seq<seq<RawConfig>>) returns (r: Outcome<seq<UserConfig>>)
    ensures match r
            case Ok(all) => ReadSoFar(Flatten(files), |Flatten(files)|, all)
            case Err(e) => FirstSpace(Flatten(files), e)
  {
    var all: seq<UserConfig> := [];
    ghost var raws, n := Flatten(files), 0;
    for f := 0 to |files|
      invariant ReadSoFar(raws, n, all) && raws[n..] == Flatten(files[f..])
    {
      var resources := files[f];
      assert files[f..][0] == resources && files[f..][1..] == files[f + 1..];
      for i := 0 to |resources|
        invariant ReadSoFar(raws, n, all) && raws[n..] == resources[i..] + Flatten(files[f + 1..])
      {
        var resource := Parsed(resources[i]);
        assert raws[n] == raws[n..][0] == resources[i];
        if HasSpace(resources[i]) {
          assert SpaceAt(raws, n, SpacesIn(resource.ref));
          return Err(SpacesIn(resource.ref));
        }
        OneMoreRead(raws, n, all);
        assert raws[n + 1..] == raws[n..][1..] == resources[i + 1..] + Flatten(files[f + 1..]);
        all, n := all + [resource], n + 1;
      }
    }
    return Ok(all);
  }

  method LoadResources(depth: nat, files: seq<seq<RawConfig>>, kind: Option<Kind>) returns (r: Outcome<seq<Resource>>)
    ensures Loaded(depth, Flatten(files), kind, r)
  {
    ghost var raws := Flatten(files);
    var all :- ReadResources(files);
    assert raws[..|raws|] == raws;
    var failure := CheckReferences(all);
    if failure.Some? {
      return Err(failure.value);
    }
    r := LoadSelected(depth, OfKind(all, kind), all);
  }

  method LoadSelected(depth: nat, selected: seq<UserConfig>, list: seq<UserConfig>) returns (r: Outcome<seq<Resource>>)
    ensures r == LoadEach(depth, selected, list)
  {
    var loaded: seq<Resource> := [];
    LoadedSoFar(depth, selected, list, 0, loaded);
    for i := 0 to |selected|
      invariant LoadEach(depth, selected[..i], list) == Ok(loaded)
    {
      LoadedSoFar(depth, selected, list, i, loaded);
      var resource :- LoaderOf(depth, selected[i], list);
      loaded := loaded + [resource];
    }
    assert selected[..|selected|] == selected;
    return Ok(loaded);
  }

  lemma {:induction false} EachInTwoParts(depth: nat, front: seq<UserConfig>, back: seq<UserConfig>,
                                          list: seq<UserConfig>)
    ensures LoadEach(depth, front + back, list) ==
            match LoadEach(depth, front, list)
            case Err(e) => Err(e)
            case Ok(first) =>
              (match LoadEach(depth, back, list) case Err(e) => Err(e) case Ok(rest) => Ok(first + rest))
    decreases |front|
  {
    if front == [] {
      assert front + back == back;
      if LoadEach(depth, back, list).Ok? {
        assert [] + LoadEach(depth, back, list).value == LoadEach(depth, back, list).value;
      }
    } else {
      assert (front + back)[1..] == front[1..] + back;
      EachInTwoParts(depth, front[1..], back, list);
      if Load(depth, front[0], list).Ok? && LoadEach(depth, front[1..], list).Ok? && LoadEach(depth, back, list).Ok? {
        var first := [Load(depth, front[0], list).value];
        assert first + (LoadEach(depth, front[1..], list).value + LoadEach(depth, back, list).value)
            == first + LoadEach(depth, front[1..], list).value + LoadEach(depth, back, list).value;
      }
    }
  }

  lemma LoadedSoFar(depth: nat, selected: seq<UserConfig>, list: seq<UserConfig>, i: nat, loaded: seq<Resource>)
    requires i <= |selected| && (i == 0 ==> loaded == [])
    requires i > 0 ==> LoadEach(depth, selected[..i], list) == Ok(loaded)
    ensures LoadEach(depth, selected[..i], list) == Ok(loaded)
    ensures i < |selected| ==> match Load(depth, selected[i], list)
              case Err(e) => LoadEach(depth, selected, list) == Err(e)
              case Ok(resource) => LoadEach(depth, selected[..i + 1], list) == Ok(loaded + [resource])
  {
    if i < |selected| {
      var one := [selected[i]];
      assert selected[..i + 1] == selected[..i] + one;
      EachInTwoParts(depth, selected[..i], one, list);
      assert selected == selected[..i + 1] + selected[i + 1..];
      EachInTwoParts(depth, selected[..i + 1], selected[i + 1..], list);
      assert one[1..] == [];
      assert LoadEach(depth, one[1..], list) == Ok([]);
      if Load(depth, selected[i], list).Ok? {
        var resource := Load(depth, selected[i], list).value;
        assert [resource] + [] == [resource];
      }
    }
  }

  lemma OneMoreRead(raws: seq<RawConfig>, n: nat, all: seq<UserConfig>)
    requires n < |raws| && ReadSoFar(raws, n, all) && !HasSpace(raws[n])
    ensures ReadSoFar(raws, n + 1, all + [Parsed(raws[n])])
  {
    assert raws[..n + 1] == raws[..n] + [raws[n]];
    assert ParsedAll(raws[..n + 1]) == ParsedAll(raws[..n]) + [Parsed(raws[n])];
  }

  // ---------------------------------------------------------------- what files mean

  /** The name that a file gives each kind. */
  function NameOf(kind: Kind): string {
    match kind
    case AGENT => "Agent"
    case DOMAIN => "Domain"
    case PEER => "Peer"
    case NUMBER => "Number"
    case TRUNK => "Trunk"
    case CREDENTIALS => "Credentials"
    case ACL => "AccessControlList"
    case UNKNOWN => ""
  }

  /** A resource is of the kind that its file names, in whatever letter case, and otherwise as its file has it. */
  lemma KindsGoByTheirNames(raw: RawConfig, kind: Kind)
    ensures Parsed(raw) == UserConfig(Parsed(raw).kind, raw.ref, raw.spec)
    ensures kind != UNKNOWN ==> (Parsed(raw).kind == kind <==> Text.SameText(raw.kind, NameOf(kind)))
  {
    if kind != UNKNOWN {
      Text.ComparesLetterByLetter(raw.kind, NameOf(kind));
      OneNameForEach(kind, Text.ToLower(raw.kind));
      hide Text.ToLower, Text.SameText;
    }
  }

  lemma OneNameForEach(kind: Kind, lower: string)
    requires kind != UNKNOWN
    ensures KindOf(lower) == kind <==> lower == Text.ToLower(NameOf(kind))
  {
    if kind == CREDENTIALS || kind == ACL {
      assert Text.ToLower("Credentials") == "credentials";
      assert Text.ToLower("AccessControlList") == "accesscontrollist";
      hide Text.ToLower;
      LongKinds(lower);
    } else {
      assert Text.ToLower("Agent") == "agent" && Text.ToLower("Domain") == "domain" && Text.ToLower("Peer") == "peer";
      assert Text.ToLower("Number") == "number" && Text.ToLower("Trunk") == "trunk";
      hide Text.ToLower;
      ShortKinds(lower);
    }
  }

  lemma LongKinds(lower: string)
    ensures KindOf(lower) == CREDENTIALS <==> lower == "credentials"
    ensures KindOf(lower) == ACL <==> lower == "accesscontrollist"
  {
  }

  lemma ShortKinds(lower: string)
    ensures KindOf(lower) == AGENT <==> lower == "agent"
    ensures KindOf(lower) == DOMAIN <==> lower == "domain"
    ensures KindOf(lower) == PEER <==> lower == "peer"
    ensures KindOf(lower) == NUMBER <==> lower == "number"
    ensures KindOf(lower) == TRUNK <==> lower == "trunk"
  {
  }

  /** Loading ends at the first reference with a space in it. */
  lemma EndsAtTheFirstSpace(depth: nat, raws: seq<RawConfig>, kind: Option<Kind>, r: Outcome<seq<Resource>>, n: nat)
    requires Loaded(depth, raws, kind, r) && n < |raws|
    requires ' ' in raws[n].ref && forall i :: 0 <= i < n ==> ' ' !in raws[i].ref
    ensures r == Err(SpacesIn(raws[n].ref))
  {
    assert HasSpace(raws[n]);
    var i :| SpaceAt(raws, i, r.error);
    assert HasSpace(raws[i]);
  }

  /** What is reported as repeated is exactly what two resources have for their reference. */
  lemma {:induction false} RepeatedIff(resources: seq<UserConfig>, n: nat, ref: string)
    requires n <= |resources|
    ensures ref in Repeated(resources, n) <==>
              exists i, j :: 0 <= i < j < n && resources[i].ref == resources[j].ref == ref
  {
    if n > 0 {
      RepeatedIff(resources, n - 1, ref);
    }
  }

  /** Of two lists in a row each is searched by itself, and of one resource its kind decides: the order is kept. */
  lemma {:induction false} SelectedInOrder(front: seq<UserConfig>, back: seq<UserConfig>, kind: Option<Kind>)
    ensures OfKind(front + back, kind) == OfKind(front, kind) + OfKind(back, kind)
    ensures |front| == 1 ==> OfKind(front, kind) == if kind == None || kind == Some(front[0].kind) then front else []
  {
    if front == [] {
      assert front + back == back;
    } else {
      var all, rest := front + back, front[1..] + back;
      assert all[0] == front[0] && all[1..] == rest;
      SelectedInOrder(front[1..], back, kind);
      if kind == None || front[0].kind == kind.value {
        assert OfKind(all, kind) == [front[0]] + OfKind(rest, kind);
      } else {
        assert OfKind(all, kind) == OfKind(rest, kind);
      }
    }
  }

  // ---------------------------------------------------------------- what loading gives

  lemma {:induction false} EachIsLoaded(depth: nat, resources: seq<UserConfig>, list: seq<UserConfig>)
    requires WellKinded(list) && Rank(AGENT) <= depth && forall c :: c in resources ==> c in list
    ensures LoadEach(depth, resources, list).Ok?
    ensures var loaded := LoadEach(depth, resources, list).value;
            |loaded| == |resources| && forall i :: 0 <= i < |loaded| ==> Built(list, resources[i], loaded[i])
  {
    if resources != [] {
      assert resources[0] in list;
      WellKindedLoads(depth, resources[0], list);
      LoadsWhatIsNamed(depth, resources[0], list);
      EachIsLoaded(depth, resources[1..], list);
      var loaded := LoadEach(depth, resources, list).value;
      assert forall i :: 1 <= i < |loaded| ==> loaded[i] == loaded[1..][i - 1] && resources[i] == resources[1..][i - 1];
    }
  }

  lemma {:induction false} SelectedAreListed(resources: seq<UserConfig>, kind: Option<Kind>)
    ensures forall c :: c in OfKind(resources, kind) <==> c in resources && (kind == None || c.kind == kind.value)
  {
    if resources != [] {
      SelectedAreListed(resources[1..], kind);
    }
  }

  /**
   Files whose references have no spaces, differ, and name resources of the right kind load with a stack of a few
   calls: one object for each resource of the wanted kind, in order, each the tree that its references name.
   */
  lemma GoodFilesLoad(depth: nat, raws: seq<RawConfig>, kind: Option<Kind>, r: Outcome<seq<Resource>>)
    requires Loaded(depth, raws, kind, r) && Rank(AGENT) <= depth
    requires forall i :: 0 <= i < |raws| ==> !HasSpace(raws[i])
    requires DistinctRefs(ParsedAll(raws)) && WellKinded(ParsedAll(raws))
    ensures r.Ok? && |r.value| == |OfKind(ParsedAll(raws), kind)|
    ensures forall i :: 0 <= i < |r.value| ==> Built(ParsedAll(raws), OfKind(ParsedAll(raws), kind)[i], r.value[i])
  {
    SelectedAreListed(ParsedAll(raws), kind);
    EachIsLoaded(depth, OfKind(ParsedAll(raws), kind), ParsedAll(raws));
  }

  /** With different references, a resource that names another gets that one and no other. */
  lemma {:induction false} DistinctRefsFindTheirOwn(list: seq<UserConfig>, i: nat)
    requires DistinctRefs(list) && i < |list|
    ensures Find(list, list[i].ref) == Some(list[i])
  {
    if i > 0 {
      assert list[0].ref != list[i].ref;
      assert forall j, k :: 0 <= j < k < |list[1..]| ==>
               list[1..][j].ref == list[j + 1].ref && list[1..][k].ref == list[k + 1].ref;
      DistinctRefsFindTheirOwn(list[1..], i - 1);
    }
  }
}
