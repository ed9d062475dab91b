/**
 Resources of a configuration and the objects their references resolve to (mods/simpledata/src/loaders). Loaders and
 `findByRef` call each other; `depth` is how many nested `findByRef` calls the stack still takes, so running out of
 it is the RangeError of the original. Configurations are taken as their schema accepts them.
 */
module Resources {
  import opened Wrappers

  datatype Kind = AGENT | DOMAIN | PEER | NUMBER | TRUNK | CREDENTIALS | ACL | UNKNOWN

  datatype EgressPolicy = EgressPolicy(rule: string, numberRef: Option<string>)

  datatype Spec = Spec(
    domainRef: Option<string>,
    credentialsRef: Option<string>,
    trunkRef: Option<string>,
    accessControlListRef: Option<string>,
    egressPolicies: Option<seq<EgressPolicy>>,
    inboundCredentialsRef: Option<string>,
    outboundCredentialsRef: Option<string>,
    inboundAccessControlListRef: Option<string>,
    maxContacts: Option<int>)

  datatype UserConfig = UserConfig(kind: Kind, ref: string, spec: Spec)

  datatype FieldName =
    | DomainField
    | CredentialsField
    | EgressNumber(rule: string)
    | AccessControlListField
    | TrunkField
    | InboundCredentials
    | OutboundCredentials

  /** A field that holds the object its reference names. */
  datatype Field = Field(name: FieldName, ref: Option<string>, target: Option<Resource>)

  datatype Resource = Resource(kind: Kind, ref: string, maxContacts: Option<int>, fields: seq<Field>)

  /** The first three end the process. */
  datatype Failure =
    | Missing(ref: string)
    | SpacesIn(ref: string)
    | Duplicated(refs: seq<string>)
    | InvalidType
    | TypeError
    | RangeError

  type Outcome<T> = Result<T, Failure>

  datatype Link = Link(name: FieldName, ref: Option<string>)

  function PolicyLinks(policies: seq<EgressPolicy>): seq<Link> {
    if policies == [] then []
    else [Link(EgressNumber(policies[0].rule), policies[0].numberRef)] + PolicyLinks(policies[1..])
  }

  /** What the loader of its kind resolves, in the order it does. */
  function Links(config: UserConfig): seq<Link> {
    match config.kind
    case AGENT => [Link(DomainField, config.spec.domainRef), Link(CredentialsField, config.spec.credentialsRef)]
    case DOMAIN =>
      (match config.spec.egressPolicies case None => [] case Some(policies) => PolicyLinks(policies))
      + [Link(AccessControlListField, config.spec.accessControlListRef)]
    case PEER => [Link(CredentialsField, config.spec.credentialsRef)]
    case NUMBER => [Link(TrunkField, config.spec.trunkRef)]
    case TRUNK =>
      [Link(InboundCredentials, config.spec.inboundCredentialsRef),
       Link(OutboundCredentials, config.spec.outboundCredentialsRef),
       Link(AccessControlListField, config.spec.inboundAccessControlListRef)]
    case _ => []
  }

  /** Agents and peers without a limit, or with a limit of none, get -1, which stands for no limit. */
  function MaxContacts(config: UserConfig): Option<int> {
    if config.kind != AGENT && config.kind != PEER then None
    else if config.spec.maxContacts == None || config.spec.maxContacts == Some(0) then Some(-1)
    else config.spec.maxContacts
  }

  function Find(list: seq<UserConfig>, ref: string): Option<UserConfig> {
    if list == [] then None else if list[0].ref == ref then Some(list[0]) else Find(list[1..], ref)
  }

  // ---------------------------------------------------------------- resolution

  function FindByRef(depth: nat, ref: Option<string>, list: seq<UserConfig>): Outcome<Option<Resource>>
    decreases depth, 0
  {
    match ref
    case None => Ok(None)
    case Some(name) =>
      match Find(list, name)
      case None => Err(Missing(name))
      case Some(config) =>
        if depth == 0 then Err(RangeError)
        else
          var resource :- Load(depth - 1, config, list);
          Ok(Some(resource))
  }

  /** The loader is that of the resource's own kind, whatever the field it is loaded for. */
  function Load(depth: nat, config: UserConfig, list: seq<UserConfig>): Outcome<Resource>
    decreases depth, |Links(config)| + 2
  {
    if config.kind == UNKNOWN then Err(TypeError)
    else
      var fields :- Fields(depth, Links(config), list);
      Ok(Resource(config.kind, config.ref, MaxContacts(config), fields))
  }

  function Fields(depth: nat, links: seq<Link>, list: seq<UserConfig>): Outcome<seq<Field>>
    decreases depth, |links| + 1
  {
    if links == [] then Ok([])
    else
      var target :- FindByRef(depth, links[0].ref, list);
      var rest :- Fields(depth, links[1..], list);
      Ok([Field(links[0].name, links[0].ref, target)] + rest)
  }

  // ---------------------------------------------------------------- what the references name

  /** `target` is the tree that `ref` names in `list`; nothing here says how it is found. */
  predicate Names(list: seq<UserConfig>, ref: Option<string>, target: Option<Resource>)
    decreases target
  {
    match target
    case None => ref == None
    case Some(resource) =>
      && ref.Some?
      && Find(list, ref.value).Some?
      && Built(list, Find(list, ref.value).value, resource)
  }

  predicate Built(list: seq<UserConfig>, config: UserConfig, resource: Resource)
    decreases resource
  {
    && config.kind != UNKNOWN
    && resource.kind == config.kind && resource.ref == config.ref && resource.maxContacts == MaxContacts(config)
    && |resource.fields| == |Links(config)|
    && forall i :: 0 <= i < |resource.fields| ==>
         && resource.fields[i].name == Links(config)[i].name && resource.fields[i].ref == Links(config)[i].ref
         && Names(list, resource.fields[i].ref, resource.fields[i].target)
  }

  predicate NamesAll(list: seq<UserConfig>, links: seq<Link>, fields: seq<Field>) {
    && |fields| == |links|
    && forall i :: 0 <= i < |fields| ==>
         && fields[i].name == links[i].name && fields[i].ref == links[i].ref
         && Names(list, fields[i].ref, fields[i].target)
  }

  lemma {:induction false} FoundByItsRef(list: seq<UserConfig>, ref: string)
    ensures Find(list, ref).Some? ==> Find(list, ref).value in list && Find(list, ref).value.ref == ref
    ensures Find(list, ref).None? <==> forall i :: 0 <= i < |list| ==> list[i].ref != ref
  {
    if list != [] {
      FoundByItsRef(list[1..], ref);
      assert forall i :: 1 <= i < |list| ==> list[i] == list[1..][i - 1];
    }
  }

  /** An object in a field is there because a reference names it, and carries that reference. */
  lemma NamedCarriesItsReference(list: seq<UserConfig>, ref: Option<string>, target: Option<Resource>)
    requires Names(list, ref, target)
    ensures ref == match target case None => None case Some(resource) => Some(resource.ref)
  {
    if ref.Some? {
      FoundByItsRef(list, ref.value);
    }
  }

  lemma {:induction false} LoadsWhatIsNamed(depth: nat, config: UserConfig, list: seq<UserConfig>)
    ensures Load(depth, config, list).Ok? ==> Built(list, config, Load(depth, config, list).value)
    decreases depth, |Links(config)| + 2
  {
    FieldsAreNamed(depth, Links(config), list);
  }

  lemma {:induction false} FieldsAreNamed(depth: nat, links: seq<Link>, list: seq<UserConfig>)
    ensures Fields(depth, links, list).Ok? ==> NamesAll(list, links, Fields(depth, links, list).value)
    decreases depth, |links| + 1
  {
    if links != [] {
      FindsWhatIsNamed(depth, links[0].ref, list);
      FieldsAreNamed(depth, links[1..], list);
    }
  }

  lemma {:induction false} FindsWhatIsNamed(depth: nat, ref: Option<string>, list: seq<UserConfig>)
    ensures FindByRef(depth, ref, list).Ok? ==> Names(list, ref, FindByRef(depth, ref, list).value)
    decreases depth, 0
  {
    if ref.Some? && Find(list, ref.value).Some? && depth > 0 {
      LoadsWhatIsNamed(depth - 1, Find(list, ref.value).value, list);
    }
  }

  /** At most `depth` objects are nested in each other. */
  predicate Fits(target: Option<Resource>, depth: nat)
    decreases depth, 0
  {
    target == None || (depth > 0 && FieldsFit(target.value.fields, depth - 1))
  }

  predicate FieldsFit(fields: seq<Field>, depth: nat)
    decreases depth, 1
  {
    forall i :: 0 <= i < |fields| ==> Fits(fields[i].target, depth)
  }

  lemma {:induction false} FitsDeeper(target: Option<Resource>, depth: nat)
    requires Fits(target, depth)
    ensures Fits(target, depth + 1)
    decreases depth
  {
    if target.Some? {
      var fields := target.value.fields;
      forall i | 0 <= i < |fields| ensures Fits(fields[i].target, depth) {
        FitsDeeper(fields[i].target, depth - 1);
      }
    }
  }

  lemma {:induction false} FitsFrom(target: Option<Resource>, depth: nat, deeper: nat)
    requires Fits(target, depth) && depth <= deeper
    ensures Fits(target, deeper)
    decreases deeper
  {
    if depth < deeper {
      FitsFrom(target, depth, deeper - 1);
      FitsDeeper(target, deeper - 1);
    }
  }

  lemma {:induction false} FitsSomewhere(target: Option<Resource>) returns (depth: nat)
    ensures Fits(target, depth)
    decreases target
  {
    depth := 0;
    if target.Some? {
      var fields := target.value.fields;
      for i := 0 to |fields|
        invariant FieldsFit(fields[..i], depth)
      {
        var more := FitsSomewhere(fields[i].target);
        var most := if more > depth then more else depth;
        FitsFrom(fields[i].target, more, most);
        forall j | 0 <= j < i ensures Fits(fields[j].target, most) {
          assert fields[..i][j] == fields[j];
          FitsFrom(fields[j].target, depth, most);
        }
        depth := most;
      }
      assert fields[..|fields|] == fields;
      depth := depth + 1;
    }
  }

  lemma {:induction false} NamedIsFound(depth: nat, ref: Option<string>, list: seq<UserConfig>,
                                        target: Option<Resource>)
    requires Names(list, ref, target) && Fits(target, depth)
    ensures FindByRef(depth, ref, list) == Ok(target)
    decreases depth, 0
  {
    match target
    case None =>
    case Some(resource) => BuiltIsLoaded(depth - 1, Find(list, ref.value).value, list, resource);
  }

  lemma {:induction false} BuiltIsLoaded(depth: nat, config: UserConfig, list: seq<UserConfig>, resource: Resource)
    requires Built(list, config, resource) && FieldsFit(resource.fields, depth)
    ensures Load(depth, config, list) == Ok(resource)
    decreases depth, |Links(config)| + 2
  {
    NamedFieldsAreFound(depth, Links(config), list, resource.fields);
  }

  lemma {:induction false} NamedFieldsAreFound(depth: nat, links: seq<Link>, list: seq<UserConfig>, fields: seq<Field>)
    requires NamesAll(list, links, fields) && FieldsFit(fields, depth)
    ensures Fields(depth, links, list) == Ok(fields)
    decreases depth, |links| + 1
  {
    if links != [] {
      NamedIsFound(depth, links[0].ref, list, fields[0].target);
      NamedFieldsAreFound(depth, links[1..], list, fields[1..]);
      assert fields == [fields[0]] + fields[1..];
    }
  }

  /** A reference resolves to an object, given stack enough, exactly when the object is the tree it names. */
  lemma ResolvesToWhatItNames(list: seq<UserConfig>, ref: Option<string>, target: Option<Resource>)
    ensures Names(list, ref, target) <==> exists depth :: FindByRef(depth, ref, list) == Ok(target)
  {
    if Names(list, ref, target) {
      var depth := FitsSomewhere(target);
      NamedIsFound(depth, ref, list, target);
    }
    if depth :| FindByRef(depth, ref, list) == Ok(target) {
      FindsWhatIsNamed(depth, ref, list);
    }
  }
}
