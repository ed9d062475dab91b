/** When resolving references ends: by kinds, and exactly, by cycles. */
module ReferenceCycles {
  import opened Wrappers
  import opened Resources

  // ---------------------------------------------------------------- references of the right kind

  function Expected(name: FieldName): Kind {
    match name
    case DomainField => DOMAIN
    case CredentialsField => CREDENTIALS
    case InboundCredentials => CREDENTIALS
    case OutboundCredentials => CREDENTIALS
    case EgressNumber(_) => NUMBER
    case TrunkField => TRUNK
    case AccessControlListField => ACL
  }

  /** How many loads nest below a resource of this kind, at most, when references are of the right kind. */
  function Rank(kind: Kind): nat {
    match kind
    case AGENT => 4
    case DOMAIN => 3
    case NUMBER => 2
    case TRUNK => 1
    case PEER => 1
    case _ => 0
  }

  /** Every reference names a resource, of the kind of its field. */
  predicate WellKinded(list: seq<UserConfig>) {
    forall i :: 0 <= i < |list| ==> list[i].kind != UNKNOWN && WellKindedLinks(list, Links(list[i]))
  }

  predicate WellKindedLinks(list: seq<UserConfig>, links: seq<Link>) {
    forall i :: 0 <= i < |links| && links[i].ref.Some? ==>
      Find(list, links[i].ref.value).Some? && Find(list, links[i].ref.value).value.kind == Expected(links[i].name)
  }

  lemma {:induction false} PolicyLinksAreNumbers(policies: seq<EgressPolicy>, i: nat)
    requires i < |PolicyLinks(policies)|
    ensures PolicyLinks(policies)[i].name.EgressNumber?
  {
    if i > 0 {
      PolicyLinksAreNumbers(policies[1..], i - 1);
    }
  }

  /** The field of a resource expects a resource of a lower rank. */
  lemma FieldsRankLower(config: UserConfig, i: nat)
    requires i < |Links(config)|
    ensures Rank(Expected(Links(config)[i].name)) < Rank(config.kind)
  {
    if config.kind == DOMAIN && config.spec.egressPolicies.Some? && i < |Links(config)| - 1 {
      PolicyLinksAreNumbers(config.spec.egressPolicies.value, i);
    }
  }

  /** With references of the right kind every resource loads, nesting no deeper than its rank. */
  lemma {:induction false} WellKindedLoads(depth: nat, config: UserConfig, list: seq<UserConfig>)
    requires WellKinded(list) && config in list && Rank(config.kind) <= depth
    ensures Load(depth, config, list).Ok?
    decreases depth, |Links(config)| + 2
  {
    forall i | 0 <= i < |Links(config)| ensures Rank(Expected(Links(config)[i].name)) < depth {
      FieldsRankLower(config, i);
    }
    WellKindedFields(depth, Links(config), list);
  }

  lemma {:induction false} WellKindedFields(depth: nat, links: seq<Link>, list: seq<UserConfig>)
    requires WellKinded(list) && WellKindedLinks(list, links)
    requires forall i :: 0 <= i < |links| ==> Rank(Expected(links[i].name)) < depth
    ensures Fields(depth, links, list).Ok?
    decreases depth, |links| + 1
  {
    if links != [] {
      if links[0].ref.Some? {
        FoundByItsRef(list, links[0].ref.value);
        WellKindedLoads(depth - 1, Find(list, links[0].ref.value).value, list);
      }
      assert forall i :: 0 <= i < |links[1..]| ==> links[1..][i] == links[i + 1];
      WellKindedFields(depth, links[1..], list);
    }
  }

  // ---------------------------------------------------------------- cycles

  /** Every reference names a resource, of whatever kind. */
  predicate Closed(list: seq<UserConfig>) {
    forall i :: 0 <= i < |list| ==> list[i].kind != UNKNOWN && ClosedLinks(list, Links(list[i]))
  }

  predicate ClosedLinks(list: seq<UserConfig>, links: seq<Link>) {
    forall i :: 0 <= i < |links| && links[i].ref.Some? ==> Find(list, links[i].ref.value).Some?
  }

  /** A field of `a` resolves to `b`. */
  predicate RefersTo(list: seq<UserConfig>, a: UserConfig, b: UserConfig) {
    exists i :: 0 <= i < |Links(a)| && Points(list, Links(a)[i], b)
  }

  predicate Points(list: seq<UserConfig>, link: Link, b: UserConfig) {
    link.ref.Some? && Find(list, link.ref.value) == Some(b)
  }

  predicate Chain(list: seq<UserConfig>, path: seq<UserConfig>) {
    forall i :: 0 <= i < |path| - 1 ==> RefersTo(list, path[i], path[i + 1])
  }

  /** References lead from `config` through `n` more resources. */
  ghost predicate ChainOf(list: seq<UserConfig>, config: UserConfig, n: nat) {
    exists path: seq<UserConfig> :: |path| == n + 1 && path[0] == config && Chain(list, path)
  }

  lemma OneMoreInFront(list: seq<UserConfig>, a: UserConfig, b: UserConfig, n: nat)
    requires RefersTo(list, a, b) && ChainOf(list, b, n)
    ensures ChainOf(list, a, n + 1)
  {
    var path :| |path| == n + 1 && path[0] == b && Chain(list, path);
    var longer := [a] + path;
    forall i | 0 <= i < |longer| - 1 ensures RefersTo(list, longer[i], longer[i + 1]) {
      if i > 0 {
        assert RefersTo(list, path[i - 1], path[i]);
      }
    }
    assert Chain(list, longer);
  }

  /** In a closed configuration a resource fails to load at a depth exactly when some chain from it is longer. */
  lemma {:induction false} LoadsUnlessChainIsLonger(depth: nat, config: UserConfig, list: seq<UserConfig>)
    requires Closed(list) && config in list
    ensures Load(depth, config, list).Ok? || Load(depth, config, list) == Err(RangeError)
    ensures Load(depth, config, list) == Err(RangeError) <==> ChainOf(list, config, depth + 1)
    decreases depth, |Links(config)| + 2
  {
    FieldsUnlessChainIsLonger(depth, Links(config), list);
    if Load(depth, config, list) == Err(RangeError) {
      var b :| PointsFrom(list, Links(config), b) && ChainOf(list, b, depth);
      assert RefersTo(list, config, b);
      OneMoreInFront(list, config, b, depth);
    }
    if ChainOf(list, config, depth + 1) {
      var path :| |path| == depth + 2 && path[0] == config && Chain(list, path);
      assert RefersTo(list, path[0], path[1]);
      assert forall i :: 0 <= i < |path[1..]| ==> path[1..][i] == path[i + 1];
      assert Chain(list, path[1..]);
      assert ChainOf(list, path[1], depth);
      assert PointsFrom(list, Links(config), path[1]);
    }
  }

  /** One of `links` resolves to `b`. */
  predicate PointsFrom(list: seq<UserConfig>, links: seq<Link>, b: UserConfig) {
    exists i :: 0 <= i < |links| && Points(list, links[i], b)
  }

  lemma FirstOrLater(list: seq<UserConfig>, links: seq<Link>, b: UserConfig)
    requires links != []
    ensures PointsFrom(list, links, b) <==> Points(list, links[0], b) || PointsFrom(list, links[1..], b)
  {
    if PointsFrom(list, links[1..], b) {
      var i :| 0 <= i < |links[1..]| && Points(list, links[1..][i], b);
      assert Points(list, links[i + 1], b);
    }
    if i :| 0 < i < |links| && Points(list, links[i], b) {
      assert Points(list, links[1..][i - 1], b);
    }
  }

  lemma {:induction false} FieldsUnlessChainIsLonger(depth: nat, links: seq<Link>, list: seq<UserConfig>)
    requires Closed(list) && ClosedLinks(list, links)
    ensures Fields(depth, links, list).Ok? || Fields(depth, links, list) == Err(RangeError)
    ensures Fields(depth, links, list) == Err(RangeError) <==>
              exists b :: PointsFrom(list, links, b) && ChainOf(list, b, depth)
    decreases depth, |links| + 1
  {
    if links != [] {
      assert forall i :: 0 <= i < |links[1..]| ==> links[1..][i] == links[i + 1];
      FieldsUnlessChainIsLonger(depth, links[1..], list);
      TargetUnlessChainIsLonger(depth, links[0], list);
      forall b ensures PointsFrom(list, links, b) <==> Points(list, links[0], b) || PointsFrom(list, links[1..], b) {
        FirstOrLater(list, links, b);
      }
      hide FindByRef, PointsFrom, Points, ChainOf, ClosedLinks, Closed;
    }
  }

  lemma {:induction false} TargetUnlessChainIsLonger(depth: nat, link: Link, list: seq<UserConfig>)
    requires Closed(list) && (link.ref.Some? ==> Find(list, link.ref.value).Some?)
    ensures FindByRef(depth, link.ref, list).Ok? || FindByRef(depth, link.ref, list) == Err(RangeError)
    ensures FindByRef(depth, link.ref, list) == Err(RangeError) <==>
              exists b :: Points(list, link, b) && ChainOf(list, b, depth)
    decreases depth, 0
  {
    hide ChainOf;
    if link.ref.Some? {
      FoundByItsRef(list, link.ref.value);
      var b := Find(list, link.ref.value).value;
      if depth > 0 {
        LoadsUnlessChainIsLonger(depth - 1, b, list);
      } else {
        ChainOfNone(list, b);
      }
    }
  }

  lemma ChainOfNone(list: seq<UserConfig>, b: UserConfig)
    ensures ChainOf(list, b, 0)
  {
    assert Chain(list, [b]);
  }

  /** From `config`, references lead to some resource and from there back to it. */
  ghost predicate ReachesACycle(list: seq<UserConfig>, config: UserConfig) {
    exists path, i, j :: CycleAt(list, config, path, i, j)
  }

  predicate CycleAt(list: seq<UserConfig>, config: UserConfig, path: seq<UserConfig>, i: int, j: int) {
    && 0 <= i < j < |path| && path[0] == config && path[i] == path[j]
    && Chain(list, path)
  }

  lemma {:induction false} Without<T>(path: seq<T>, x: T, k: nat)
    requires k < |path| && path[k] == x
    requires forall i, j :: 0 <= i < j < |path| ==> path[i] != path[j]
    ensures var rest := path[..k] + path[k + 1..];
            && x !in rest && (forall y :: y in rest ==> y in path)
            && forall i, j :: 0 <= i < j < |rest| ==> rest[i] != rest[j]
  {
    var rest := path[..k] + path[k + 1..];
    assert forall i :: 0 <= i < |rest| ==> rest[i] == path[if i < k then i else i + 1];
  }

  /** A longer sequence over the elements of a shorter one repeats an element. */
  lemma {:induction false} Repeats<T>(path: seq<T>, list: seq<T>)
    requires (forall x :: x in path ==> x in list) && |path| > |list|
    ensures exists i, j :: 0 <= i < j < |path| && path[i] == path[j]
    decreases |list|
  {
    if forall i, j :: 0 <= i < j < |path| ==> path[i] != path[j] {
      if list == [] {
        assert path[0] in list;
      } else {
        var x, fewer := list[|list| - 1], list[..|list| - 1];
        assert list == fewer + [x];
        if x in path {
          var k :| 0 <= k < |path| && path[k] == x;
          Without(path, x, k);
          Repeats(path[..k] + path[k + 1..], fewer);
        } else {
          Repeats(path, fewer);
        }
      }
    }
  }

  lemma {:induction false} ChainStaysInTheList(list: seq<UserConfig>, path: seq<UserConfig>, k: nat)
    requires Chain(list, path) && k < |path| && path[0] in list
    ensures path[k] in list
    decreases k
  {
    if k > 0 {
      assert RefersTo(list, path[k - 1], path[k]);
      var i :| 0 <= i < |Links(path[k - 1])| && Points(list, Links(path[k - 1])[i], path[k]);
      FoundByItsRef(list, Links(path[k - 1])[i].ref.value);
    }
  }

  /** A chain with a cycle in it can go round once more. */
  lemma OnceMoreRound(list: seq<UserConfig>, config: UserConfig, path: seq<UserConfig>, i: int, j: int)
    requires CycleAt(list, config, path, i, j)
    ensures |path[..j] + path[i..]| > |path| && CycleAt(list, config, path[..j] + path[i..], i, j)
  {
    var longer := path[..j] + path[i..];
    forall k | 0 <= k < |longer| - 1 ensures RefersTo(list, longer[k], longer[k + 1]) {
      if k < j - 1 {
        assert RefersTo(list, path[k], path[k + 1]);
      } else if k == j - 1 {
        assert RefersTo(list, path[j - 1], path[j]);
      } else {
        assert RefersTo(list, path[k - j + i], path[k - j + i + 1]);
      }
    }
  }

  lemma {:induction false} CyclesGiveAnyLength(list: seq<UserConfig>, config: UserConfig, path: seq<UserConfig>,
                                               i: int, j: int,
                                               n: nat)
    requires CycleAt(list, config, path, i, j)
    ensures ChainOf(list, config, n)
    decreases n + 1 - |path|
  {
    if |path| <= n {
      OnceMoreRound(list, config, path, i, j);
      CyclesGiveAnyLength(list, config, path[..j] + path[i..], i, j, n);
    } else {
      var front := path[..n + 1];
      assert forall k :: 0 <= k < |front| - 1 ==> RefersTo(list, path[k], path[k + 1]);
      assert |front| == n + 1 && front[0] == config && Chain(list, front);
    }
  }

  lemma LongChainsHaveCycles(list: seq<UserConfig>, config: UserConfig)
    requires config in list && ChainOf(list, config, |list|)
    ensures ReachesACycle(list, config)
  {
    var path :| |path| == |list| + 1 && path[0] == config && Chain(list, path);
    forall x | x in path ensures x in list {
      var k :| 0 <= k < |path| && path[k] == x;
      ChainStaysInTheList(list, path, k);
    }
    Repeats(path, list);
    var i, j :| 0 <= i < j < |path| && path[i] == path[j];
    assert CycleAt(list, config, path, i, j);
  }

  /**
   When every reference names a resource, loading one overflows every stack exactly when its references lead into a
   cycle; otherwise as many nested calls as there are resources are enough.
   */
  lemma NeverEndsIffCycle(list: seq<UserConfig>, config: UserConfig)
    requires Closed(list) && config in list
    ensures (forall depth: nat :: Load(depth, config, list) == Err(RangeError)) <==> ReachesACycle(list, config)
    ensures !ReachesACycle(list, config) ==> Load(|list|, config, list).Ok?
  {
    hide Load, Closed, CycleAt, ChainOf;
    if ReachesACycle(list, config) {
      var path, i, j :| CycleAt(list, config, path, i, j);
      forall depth: nat ensures Load(depth, config, list) == Err(RangeError) {
        CyclesGiveAnyLength(list, config, path, i, j, depth + 1);
        LoadsUnlessChainIsLonger(depth, config, list);
      }
    } else {
      LoadsUnlessChainIsLonger(|list|, config, list);
      if Load(|list|, config, list) == Err(RangeError) {
        ShorterChain(list, config, |list|);
        LongChainsHaveCycles(list, config);
      }
    }
  }

  lemma ShorterChain(list: seq<UserConfig>, config: UserConfig, n: nat)
    requires ChainOf(list, config, n + 1)
    ensures ChainOf(list, config, n)
  {
    var path :| |path| == n + 2 && path[0] == config && Chain(list, path);
    assert forall k :: 0 <= k < n ==> RefersTo(list, path[k], path[k + 1]);
    assert Chain(list, path[..n + 1]);
  }

  /** References of the right kind lead into no cycle. */
  lemma WellKindedHasNoCycle(list: seq<UserConfig>, config: UserConfig)
    requires WellKinded(list) && config in list
    ensures !ReachesACycle(list, config)
  {
    WellKindedLoads(Rank(config.kind), config, list);
    NeverEndsIffCycle(list, config);
  }

  predicate HasKindOf(list: seq<UserConfig>, ref: Option<string>, target: Option<Resource>) {
    && (ref.Some? <==> target.Some?)
    && (ref.Some? ==> Find(list, ref.value).Some? && target.value.kind == Find(list, ref.value).value.kind)
  }

  lemma NamedHasItsKind(list: seq<UserConfig>, ref: Option<string>, target: Option<Resource>)
    requires Names(list, ref, target)
    ensures HasKindOf(list, ref, target)
  {
    if target.Some? {
      assert Built(list, Find(list, ref.value).value, target.value);
    }
  }

  /**
   No loader looks at the kind of what it is given: the objects are of the kinds of their fields only if the
   references are.
   */
  lemma KindsAreAsReferenced(list: seq<UserConfig>, config: UserConfig, resource: Resource)
    requires Built(list, config, resource)
    ensures WellKindedLinks(list, Links(config)) <==>
              forall i :: 0 <= i < |resource.fields| && resource.fields[i].target.Some? ==>
                resource.fields[i].target.value.kind == Expected(resource.fields[i].name)
  {
    var links, fields := Links(config), resource.fields;
    hide Links;
    forall i | 0 <= i < |links|
      ensures fields[i].name == links[i].name && HasKindOf(list, links[i].ref, fields[i].target)
    {
      NamedHasItsKind(list, fields[i].ref, fields[i].target);
    }
  }

  /** An agent that names itself as its domain passes every check before loading and never loads. */
  lemma SelfReferenceNeverEnds(agent: UserConfig, depth: nat)
    requires agent.kind == AGENT && agent.spec.domainRef == Some(agent.ref) && agent.spec.credentialsRef == None
    ensures Closed([agent]) && Load(depth, agent, [agent]) == Err(RangeError)
  {
    var path := [agent, agent];
    assert Points([agent], Links(agent)[0], agent);
    assert RefersTo([agent], path[0], path[1]);
    assert CycleAt([agent], agent, path, 0, 1);
    NeverEndsIffCycle([agent], agent);
  }
}
