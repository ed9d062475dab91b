/**
 The contents of the in-memory location store and the meaning of its operations
 (mods/location/src/memory_store.ts, mods/location/src/utils.ts).

 A list that holds `undefined` can only be the one-element list: storing `undefined` next to a live
 route raises, and everything that later filters that list raises too. `Undefined` stands for it.
 */
module BindingStore {
  import opened Wrappers
  import opened CommonTypes

  datatype Bucket = Routes(routes: seq<Route>) | Undefined

  type Collections = map<string, Bucket>

  datatype Error = UnsupportedSchema(aor: string) | TooManyContacts(limit: int) | TypeError

  // ---------------------------------------------------------------- filters

  /** `expires - (now - registeredOn) / 1000 > 0`, on milliseconds. */
  predicate Live(r: Route, now: int) {
    now - r.registeredOn < 1000 * r.expires
  }

  /** Two routes are one binding when host, port and transport agree; the user is not compared. */
  predicate SameBinding(a: Route, b: Route) {
    a.host == b.host && a.port == b.port && a.transport == b.transport
  }

  function LiveOf(s: seq<Route>, now: int): seq<Route> {
    if s == [] then []
    else if Live(s[0], now) then [s[0]] + LiveOf(s[1..], now)
    else LiveOf(s[1..], now)
  }

  function Without(s: seq<Route>, r: Route): seq<Route> {
    if s == [] then []
    else if SameBinding(s[0], r) then Without(s[1..], r)
    else [s[0]] + Without(s[1..], r)
  }

  // ---------------------------------------------------------------- operations

  function Lookup(c: Collections, key: string, now: int): Result<seq<Route>, Error> {
    if key !in c then Ok([])
    else match c[key]
      case Undefined => Err(TypeError)
      case Routes(s) => Ok(LiveOf(s, now))
  }

  function Store(c: Collections, key: string, route: Option<Route>, now: int): Result<Collections, Error> {
    var current :- Lookup(c, key, now);
    match route
    case Some(r) => Ok(c[key := Routes([r] + Without(current, r))])
    case None => if current == [] then Ok(c[key := Undefined]) else Err(TypeError)
  }

  function Delete(c: Collections, key: string): Collections {
    c - {key}
  }

  /** The pass of `cleanup` over the keys in `visited`; a pass that raises has visited only some keys. */
  function Prune(c: Collections, visited: set<string>, now: int): Collections {
    map k | k in c && (k in visited && c[k].Routes? ==> LiveOf(c[k].routes, now) != []) ::
      if k in visited && c[k].Routes? then Routes(LiveOf(c[k].routes, now)) else c[k]
  }

  // ---------------------------------------------------------------- facts about the filters

  lemma LiveOfMembers(s: seq<Route>, now: int)
    ensures forall r :: r in LiveOf(s, now) <==> r in s && Live(r, now)
  {}

  lemma WithoutMembers(s: seq<Route>, r: Route)
    ensures forall q :: q in Without(s, r) <==> q in s && !SameBinding(q, r)
  {}

  lemma LengthBounds(s: seq<Route>, r: Route, now: int)
    ensures |LiveOf(s, now)| <= |s|
    ensures |Without(s, r)| <= |s|
    ensures (exists q :: q in s && SameBinding(q, r)) ==> |Without(s, r)| < |s|
  {}

  /** Filtering now and again later is filtering later: liveness is only ever lost. */
  lemma {:induction false} LiveOfLater(s: seq<Route>, now: int, later: int)
    requires now <= later
    ensures LiveOf(LiveOf(s, now), later) == LiveOf(s, later)
  {
    if s != [] {
      LiveOfLater(s[1..], now, later);
    }
  }

  lemma {:induction false} LiveOfConcat(a: seq<Route>, b: seq<Route>, now: int)
    ensures LiveOf(a + b, now) == LiveOf(a, now) + LiveOf(b, now)
  {
    hide Live;
    if a == [] {
      assert a + b == b;
    } else {
      LiveOfConcat(a[1..], b, now);
      assert (a + b)[0] == a[0] && (a + b)[1..] == a[1..] + b;
    }
  }

  lemma {:induction false} LiveOfWithout(s: seq<Route>, r: Route, now: int)
    ensures LiveOf(Without(s, r), now) == Without(LiveOf(s, now), r)
  {
    if s != [] {
      LiveOfWithout(s[1..], r, now);
    }
  }

  // ---------------------------------------------------------------- how operations show through later lookups

  lemma LookupLater(c: Collections, key: string, now: int, later: int)
    requires now <= later
    ensures Lookup(c, key, now).Err? <==> Lookup(c, key, later).Err?
    ensures Lookup(c, key, now).Ok? ==> Lookup(c, key, later) == Ok(LiveOf(Lookup(c, key, now).value, later))
  {
    if key in c && c[key].Routes? {
      LiveOfLater(c[key].routes, now, later);
    }
  }

  /** After a store the key answers the new route first, then the routes it did not replace. */
  lemma LookupAfterStore(c: Collections, key: string, r: Route, now: int, k: string, later: int)
    requires now <= later
    requires Store(c, key, Some(r), now).Ok?
    ensures Lookup(Store(c, key, Some(r), now).value, k, later) ==
            if k != key then Lookup(c, k, later)
            else Ok(LiveOf([r], later) + Without(Lookup(c, key, later).value, r))
  {
    if k == key {
      var current := Lookup(c, key, now).value;
      LookupLater(c, key, now, later);
      LiveOfConcat([r], Without(current, r), later);
      LiveOfWithout(current, r, later);
    }
  }

  /** A cleanup pass, complete or cut short, is invisible to every later lookup. */
  lemma LookupAfterPrune(c: Collections, visited: set<string>, now: int, k: string, later: int)
    requires now <= later
    ensures Lookup(Prune(c, visited, now), k, later) == Lookup(c, k, later)
  {
    if k in c && c[k].Routes? {
      LiveOfLater(c[k].routes, now, later);
    }
  }

  /** The keys that answer some route. */
  ghost function Answering(c: Collections, now: int): set<string> {
    set k | k in c && Lookup(c, k, now).Ok? && Lookup(c, k, now).value != []
  }

  /** After a complete cleanup the store's size is the number of keys that answer a route, before it as after it. */
  lemma SizeAfterCleanup(c: Collections, now: int)
    requires forall k :: k in c ==> c[k].Routes?
    ensures |Prune(c, c.Keys, now)| == |Answering(c, now)| == |Answering(Prune(c, c.Keys, now), now)|
  {
    var pruned := Prune(c, c.Keys, now);
    forall k ensures Lookup(pruned, k, now) == Lookup(c, k, now) {
      LookupAfterPrune(c, c.Keys, now, k, now);
    }
    assert Answering(pruned, now) == Answering(c, now);
    assert pruned.Keys == Answering(c, now);
  }
}
