/**
 What a loaded resource holds, kind by kind, in the references of its own specification
 (mods/simpledata/src/loaders).
 */
module LoadedResources {
  import opened Wrappers
  import opened Resources

  /** The field of that name holds what the reference names, and nothing when there is no reference. */
  predicate Holds(list: seq<UserConfig>, field: Field, name: FieldName, ref: Option<string>) {
    && field.name == name && field.ref == ref && Names(list, ref, field.target)
    && (field.target == None <==> ref == None)
    && (ref.Some? ==> field.target.Some? && field.target.value.ref == ref.value)
  }

  /** What an agent, peer, number, trunk, domain, credentials or access control list holds, in the order of loading. */
  predicate HoldsItsReferences(list: seq<UserConfig>, kind: Kind, spec: Spec, fields: seq<Field>) {
    match kind
    case AGENT =>
      && |fields| == 2 && Holds(list, fields[0], DomainField, spec.domainRef)
      && Holds(list, fields[1], CredentialsField, spec.credentialsRef)
    case PEER => |fields| == 1 && Holds(list, fields[0], CredentialsField, spec.credentialsRef)
    case NUMBER => |fields| == 1 && Holds(list, fields[0], TrunkField, spec.trunkRef)
    case TRUNK =>
      && |fields| == 3 && Holds(list, fields[0], InboundCredentials, spec.inboundCredentialsRef)
      && Holds(list, fields[1], OutboundCredentials, spec.outboundCredentialsRef)
      && Holds(list, fields[2], AccessControlListField, spec.inboundAccessControlListRef)
    case DOMAIN =>
      var n := if spec.egressPolicies.Some? then |spec.egressPolicies.value| else 0;
      && |fields| == n + 1
      && (forall i :: 0 <= i < n ==>
            Holds(list, fields[i], EgressNumber(spec.egressPolicies.value[i].rule),
                  spec.egressPolicies.value[i].numberRef))
      && Holds(list, fields[n], AccessControlListField, spec.accessControlListRef)
    case CREDENTIALS => fields == []
    case ACL => fields == []
    case UNKNOWN => false
  }

  /** Only agents and peers have a limit, and none or zero of it reads as -1. */
  predicate HasItsLimit(kind: Kind, spec: Spec, maxContacts: Option<int>) {
    if kind == AGENT || kind == PEER then
      maxContacts == Some(if spec.maxContacts.Some? && spec.maxContacts.value != 0 then spec.maxContacts.value else -1)
    else maxContacts == None
  }

  lemma {:induction false} PolicyLinksAreInOrder(policies: seq<EgressPolicy>)
    ensures |PolicyLinks(policies)| == |policies|
    ensures forall i :: 0 <= i < |policies| ==>
              PolicyLinks(policies)[i] == Link(EgressNumber(policies[i].rule), policies[i].numberRef)
  {
    if policies != [] {
      PolicyLinksAreInOrder(policies[1..]);
      assert forall i :: 1 <= i < |policies| ==> policies[i] == policies[1..][i - 1];
    }
  }

  lemma {:induction false} BuiltHolds(list: seq<UserConfig>, config: UserConfig, resource: Resource)
    requires Built(list, config, resource)
    ensures HoldsItsReferences(list, config.kind, config.spec, resource.fields)
    ensures HasItsLimit(config.kind, config.spec, resource.maxContacts)
  {
    if config.spec.egressPolicies.Some? {
      PolicyLinksAreInOrder(config.spec.egressPolicies.value);
    }
    var fields, links := resource.fields, Links(config);
    hide PolicyLinks, Names;
    forall i | 0 <= i < |fields| ensures Holds(list, fields[i], links[i].name, links[i].ref) {
      NamedCarriesItsReference(list, fields[i].ref, fields[i].target);
    }
    hide Holds, MaxContacts, Built;
    assert |fields| == |links|;
  }

  /** A resource that loads is of its own kind and reference, holds what its own references name, and has its limit. */
  lemma LoadedHoldsItsReferences(depth: nat, config: UserConfig, list: seq<UserConfig>)
    requires Load(depth, config, list).Ok?
    ensures var resource := Load(depth, config, list).value;
            && resource.kind == config.kind && resource.ref == config.ref
            && HoldsItsReferences(list, config.kind, config.spec, resource.fields)
            && HasItsLimit(config.kind, config.spec, resource.maxContacts)
  {
    LoadsWhatIsNamed(depth, config, list);
    BuiltHolds(list, config, Load(depth, config, list).value);
  }
}
