/** Extension headers through the local pipeline (mods/connect/src/tailor.ts, mods/connect/src/router.ts). */
module HeaderRewriting {
  import opened Wrappers
  import opened CommonTypes
  import opened Sip
  import opened Text
  import opened EdgeInterface
  import opened Alterations
  import OwnRoutes

  /** The extensions of that name, in whatever letter case, in order. */
  function Named(extensions: seq<Extension>, name: string): seq<Extension> {
    if extensions == [] then []
    else if EqualsIgnoreCase(extensions[0].name, name) then [extensions[0]] + Named(extensions[1..], name)
    else Named(extensions[1..], name)
  }

  lemma {:induction false} NamedConcat(a: seq<Extension>, b: seq<Extension>, name: string)
    ensures Named(a + b, name) == Named(a, name) + Named(b, name)
  {
    if a == [] {
      assert a + b == b;
    } else {
      NamedConcat(a[1..], b, name);
      assert (a + b)[0] == a[0] && (a + b)[1..] == a[1..] + b;
    }
  }

  lemma {:induction false} KeptNamed(extensions: seq<Extension>, names: seq<string>, name: string)
    ensures Named(Kept(extensions, names), name) == if ToLower(name) in names then [] else Named(extensions, name)
  {
    if extensions != [] {
      KeptNamed(extensions[1..], names, name);
    }
  }

  lemma {:induction false} HeaderValueIsFirst(extensions: seq<Extension>, name: string)
    ensures HeaderValue(extensions, name) ==
            var found := Named(extensions, name);
            if found == [] || found[0].value == "" then None else Some(found[0].value)
  {
    if extensions != [] {
      HeaderValueIsFirst(extensions[1..], name);
    }
  }

  /** A name is removed if and only if some modifier removes it, in whatever letter case. */
  lemma {:induction false} RemovedIff(headers: seq<HeaderModifier>, name: string)
    ensures ToLower(name) in NamesToRemove(headers) <==>
              exists i :: 0 <= i < |headers| && headers[i].action == REMOVE && SameText(headers[i].name, name)
  {
    if headers != [] {
      RemovedIff(headers[1..], name);
      ComparesLetterByLetter(headers[0].name, name);
      hide SameText, ToLower;
      assert forall i :: 1 <= i < |headers| ==> headers[i] == headers[1..][i - 1];
      if i :| 0 <= i < |headers[1..]| && headers[1..][i].action == REMOVE && SameText(headers[1..][i].name, name) {
        assert headers[i + 1] == headers[1..][i];
      }
    }
  }

  /** Each modifier that adds adds one extension, after those of the modifiers before it; no other adds any. */
  lemma {:induction false} AddedOneByOne(headers: seq<HeaderModifier>, h: HeaderModifier)
    ensures ExtensionsToAdd(headers + [h]) ==
            ExtensionsToAdd(headers) + if h.action == ADD then [Extension(h.name, h.value)] else []
  {
    if headers == [] {
      assert headers + [h] == [h] && [h][1..] == [];
      assert ExtensionsToAdd([h][1..]) == [];
    } else {
      AddedOneByOne(headers[1..], h);
      assert (headers + [h])[0] == headers[0] && (headers + [h])[1..] == headers[1..] + [h];
    }
  }

  /** All removals come before all additions, whatever order the route lists them in. */
  lemma ApplyXHeadersByName(route: Route, req: Request, name: string)
    requires route.headers != []
    ensures Named(ApplyXHeaders(route, req).message.extensions, name) ==
            (if ToLower(name) in NamesToRemove(route.headers) then [] else Named(req.message.extensions, name))
            + Named(ExtensionsToAdd(route.headers), name)
  {
    KeptNamed(req.message.extensions, NamesToRemove(route.headers), name);
    NamedConcat(Kept(req.message.extensions, NamesToRemove(route.headers)), ExtensionsToAdd(route.headers), name);
  }

  /** The headers of a route to the public network: Privacy is removed and set again, then come others. */
  function PstnHeaders(privacy: string, others: seq<HeaderModifier>): seq<HeaderModifier> {
    [HeaderModifier("Privacy", "", REMOVE), HeaderModifier("Privacy", privacy, ADD)] + others
  }

  predicate OtherNames(others: seq<HeaderModifier>, name: string) {
    forall i :: 0 <= i < |others| ==> !EqualsIgnoreCase(others[i].name, name)
  }

  lemma {:induction false} OthersDoNotMatter(others: seq<HeaderModifier>, name: string)
    requires OtherNames(others, name)
    ensures Named(ExtensionsToAdd(others), name) == []
    ensures ToLower(name) !in NamesToRemove(others)
  {
    if others != [] {
      OthersDoNotMatter(others[1..], name);
      var head := if others[0].action == ADD then [Extension(others[0].name, others[0].value)] else [];
      NamedConcat(head, ExtensionsToAdd(others[1..]), name);
    }
  }

  lemma PstnHeadersUnfold(privacy: string, others: seq<HeaderModifier>)
    ensures NamesToRemove(PstnHeaders(privacy, others)) == [ToLower("Privacy")] + NamesToRemove(others)
    ensures ExtensionsToAdd(PstnHeaders(privacy, others)) == [Extension("Privacy", privacy)] + ExtensionsToAdd(others)
  {
    var headers := PstnHeaders(privacy, others);
    var second := headers[1..];
    assert second[1..] == others;
    assert NamesToRemove(second) == NamesToRemove(others);
    assert ExtensionsToAdd(headers) == ExtensionsToAdd(second);
  }

  /** The comparison in `removeXEdgePortRef` is of a lower-cased name with a mixed-case one: it removes nothing. */
  lemma {:induction false} RemoveXEdgePortRefRemovesNothing(req: Request)
    ensures RemoveXEdgePortRef(req) == req
  {
    KeepsAll(req.message.extensions);
  }

  lemma {:induction false} KeepsAll(extensions: seq<Extension>)
    ensures NotNamed(extensions, EDGEPORT_REF) == extensions
  {
    if extensions != [] {
      KeepsAll(extensions[1..]);
      LowerIsNotMixed(extensions[0].name, EDGEPORT_REF, 0);
    }
  }

  /** What the local pipeline makes of the request URI and the extensions. */
  lemma TailorResult(route: Route, req: Request, hasIp: Subnets)
    requires Tailor(route, req, hasIp).Ok?
    ensures var after := Tailor(route, req, hasIp).value.message;
            && after.requestUri.host == route.host
            && after.requestUri.port == route.port
            && after.requestUri.transportParam == route.transport
            && after.requestUri.user == req.message.requestUri.user
            && after.extensions == ApplyXHeaders(route, req).message.extensions
            && after.authorization == None
            && after.body == req.message.body
  {
    hide InterfaceTowards, Foreign, RemoveXEdgePortRef, NamesToRemove, ExtensionsToAdd, Kept;
    var r2 := RemoveSelfRoutes(RemoveAuthorization(DecreaseMaxForwards(req))).value;
    RemoveXEdgePortRefRemovesNothing(r2);
  }

  /**
   Tailored for a route to the public network a message has exactly one Privacy header, whichever and however
   many arrived, and it reads the route's value. The request URI names the next hop, so no Route entry does.
   */
  lemma PrivacyIsReplaced(route: Route, req: Request, hasIp: Subnets, privacy: string, others: seq<HeaderModifier>)
    requires Tailor(route, req, hasIp).Ok?
    requires route.headers == PstnHeaders(privacy, others) && OtherNames(others, "Privacy") && privacy != ""
    ensures var after := Tailor(route, req, hasIp).value.message;
            && Named(after.extensions, "Privacy") == [Extension("Privacy", privacy)]
            && HeaderValue(after.extensions, "privacy") == Some(privacy)
            && Foreign(req.edgePort, req.message.route) == Ok(after.route)
  {
    hide Tailor;
    TailorResult(route, req, hasIp);
    OwnRoutes.TailoredRoutes(route, req, hasIp);
    PstnHeadersUnfold(privacy, others);
    OthersDoNotMatter(others, "Privacy");
    ApplyXHeadersByName(route, req, "Privacy");
    var after := Tailor(route, req, hasIp).value.message;
    var added := ExtensionsToAdd(route.headers);
    assert added[0] == Extension("Privacy", privacy) && added[1..] == ExtensionsToAdd(others);
    SameNameReadsTheSame(after.extensions, "Privacy", "privacy");
    HeaderValueIsFirst(after.extensions, "Privacy");
  }

  lemma {:induction false} SameNameReadsTheSame(extensions: seq<Extension>, a: string, b: string)
    requires EqualsIgnoreCase(a, b)
    ensures HeaderValue(extensions, a) == HeaderValue(extensions, b)
  {
    if extensions != [] {
      SameNameReadsTheSame(extensions[1..], a, b);
    }
  }

  /** Extensions whose names the route does not mention survive, all of them and in order, before the added ones. */
  lemma SurvivorsKeepTheirOrder(route: Route, req: Request, hasIp: Subnets)
    requires Tailor(route, req, hasIp).Ok? && route.headers != []
    ensures var after := Tailor(route, req, hasIp).value.message.extensions;
            var kept := Kept(req.message.extensions, NamesToRemove(route.headers));
            && after == kept + ExtensionsToAdd(route.headers)
            && Subsequence(kept, req.message.extensions)
            && (forall e :: e in kept <==>
                  e in req.message.extensions && ToLower(e.name) !in NamesToRemove(route.headers))
  {
    TailorResult(route, req, hasIp);
    KeptIsSubsequence(req.message.extensions, NamesToRemove(route.headers));
  }

  predicate Subsequence(a: seq<Extension>, b: seq<Extension>) {
    if a == [] then true
    else if b == [] then false
    else if a[0] == b[0] then Subsequence(a[1..], b[1..])
    else Subsequence(a, b[1..])
  }

  lemma {:induction false} KeptIsSubsequence(extensions: seq<Extension>, names: seq<string>)
    ensures Subsequence(Kept(extensions, names), extensions)
    ensures forall e :: e in Kept(extensions, names) <==> e in extensions && ToLower(e.name) !in names
  {
    if extensions != [] {
      KeptIsSubsequence(extensions[1..], names);
      var rest := Kept(extensions[1..], names);
      assert rest != [] ==> rest[0] in rest;
    }
  }
}
