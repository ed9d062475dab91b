/**
 The store with lazy pruning and cleanup against a reference that never discards anything: per key, the
 log of all puts since the last delete, newest first. A put answers as long as it is live and no later put
 has the same host, port and transport.
 */
module StoreRefinement {
  import opened Wrappers
  import opened CommonTypes
  import opened BindingStore

  // ---------------------------------------------------------------- the reference

  /** `Broken` once `undefined` was put on a key that had no live route. */
  datatype Log = Puts(log: seq<Route>) | Broken

  type Logs = map<string, Log>

  /** No put more recent than the i-th one has its binding. */
  predicate Latest(log: seq<Route>, i: nat)
    requires i < |log|
  {
    forall j :: 0 <= j < i ==> !SameBinding(log[j], log[i])
  }

  function Current(log: seq<Route>, from: nat, now: int): seq<Route>
    requires from <= |log|
    decreases |log| - from
  {
    if from == |log| then []
    else if Latest(log, from) && Live(log[from], now) then [log[from]] + Current(log, from + 1, now)
    else Current(log, from + 1, now)
  }

  function Answer(ls: Logs, key: string, now: int): Result<seq<Route>, Error> {
    if key !in ls then Ok([])
    else match ls[key]
      case Broken => Err(TypeError)
      case Puts(log) => Ok(Current(log, 0, now))
  }

  function Append(ls: Logs, key: string, route: Option<Route>, now: int): Result<Logs, Error> {
    var current :- Answer(ls, key, now);
    match route
    case Some(r) => Ok(ls[key := Puts([r] + if key in ls then ls[key].log else [])])
    case None => if current == [] then Ok(ls[key := Broken]) else Err(TypeError)
  }

  // ---------------------------------------------------------------- runs

  datatype StoreOp =
    | Put(key: string, route: Option<Route>)
    | Get(key: string)
    | Remove(key: string)
    | Cleanup(visited: set<string>)

  datatype Event = At(now: int, op: StoreOp)

  ghost predicate Chronological(events: seq<Event>) {
    forall i, j :: 0 <= i < j < |events| ==> events[i].now <= events[j].now
  }

  function StoreStep(c: Collections, e: Event): (Collections, Result<seq<Route>, Error>) {
    match e.op
    case Put(key, route) =>
      (match Store(c, key, route, e.now)
       case Ok(c') => (c', Ok([]))
       case Err(error) => (c, Err(error)))
    case Get(key) => (c, Lookup(c, key, e.now))
    case Remove(key) => (Delete(c, key), Ok([]))
    case Cleanup(visited) => (Prune(c, visited, e.now), Ok([]))
  }

  function LogStep(ls: Logs, e: Event): (Logs, Result<seq<Route>, Error>) {
    match e.op
    case Put(key, route) =>
      (match Append(ls, key, route, e.now)
       case Ok(ls') => (ls', Ok([]))
       case Err(error) => (ls, Err(error)))
    case Get(key) => (ls, Answer(ls, key, e.now))
    case Remove(key) => (ls - {key}, Ok([]))
    case Cleanup(_) => (ls, Ok([]))
  }

  function StoreRun(c: Collections, events: seq<Event>): seq<Result<seq<Route>, Error>>
    decreases |events|
  {
    if events == [] then []
    else var (c', reply) := StoreStep(c, events[0]); [reply] + StoreRun(c', events[1..])
  }

  function LogRun(ls: Logs, events: seq<Event>): seq<Result<seq<Route>, Error>>
    decreases |events|
  {
    if events == [] then []
    else var (ls', reply) := LogStep(ls, events[0]); [reply] + LogRun(ls', events[1..])
  }

  // ---------------------------------------------------------------- refinement

  /** From `now` on no lookup tells the two apart. */
  ghost predicate Agree(c: Collections, ls: Logs, now: int) {
    forall key, t :: now <= t ==> Lookup(c, key, t) == Answer(ls, key, t)
  }

  /** A new put hides the older puts of its binding and nothing else. */
  lemma {:induction false} CurrentAfterAppend(log: seq<Route>, r: Route, from: nat, now: int)
    requires from <= |log|
    ensures Current([r] + log, from + 1, now) == Without(Current(log, from, now), r)
    decreases |log| - from
  {
    if from < |log| {
      CurrentAfterAppend(log, r, from + 1, now);
      var longer := [r] + log;
      assert longer[from + 1] == log[from];
      assert Latest(longer, from + 1) <==> !SameBinding(r, log[from]) && Latest(log, from) by {
        assert forall j :: 0 <= j < from ==> longer[j + 1] == log[j];
        if Latest(longer, from + 1) {
          assert longer[0] == r;
          forall j | 0 <= j < from ensures !SameBinding(log[j], log[from]) {
            assert longer[j + 1] == log[j];
          }
        }
      }
    }
  }

  lemma AnswerAfterAppend(ls: Logs, key: string, r: Route, now: int, k: string, t: int)
    requires Append(ls, key, Some(r), now).Ok?
    ensures Answer(Append(ls, key, Some(r), now).value, k, t) ==
            if k != key then Answer(ls, k, t)
            else Ok(LiveOf([r], t) + Without(Answer(ls, key, t).value, r))
  {
    var log := if key in ls then ls[key].log else [];
    CurrentAfterAppend(log, r, 0, t);
    var longer := [r] + log;
    assert longer[0] == r && Latest(longer, 0);
    assert Current(longer, 0, t) == (if Live(r, t) then [r] else []) + Current(longer, 1, t);
    assert LiveOf([r], t) == if Live(r, t) then [r] else [];
  }

  lemma StepAgrees(c: Collections, ls: Logs, e: Event)
    requires Agree(c, ls, e.now)
    ensures StoreStep(c, e).1 == LogStep(ls, e).1
    ensures Agree(StoreStep(c, e).0, LogStep(ls, e).0, e.now)
  {
    var c', ls' := StoreStep(c, e).0, LogStep(ls, e).0;
    forall key, t | e.now <= t ensures Lookup(c', key, t) == Answer(ls', key, t) {
      assert Lookup(c, key, t) == Answer(ls, key, t);
      match e.op
      case Get(_) =>
      case Remove(_) =>
      case Cleanup(visited) => LookupAfterPrune(c, visited, e.now, key, t);
      case Put(k, None) =>
      case Put(k, Some(r)) =>
        assert Lookup(c, k, e.now) == Answer(ls, k, e.now);
        assert Lookup(c, k, t) == Answer(ls, k, t);
        if Store(c, k, Some(r), e.now).Ok? {
          LookupAfterStore(c, k, r, e.now, key, t);
          AnswerAfterAppend(ls, k, r, e.now, key, t);
        }
    }
  }

  lemma {:induction false} RunsAgree(c: Collections, ls: Logs, events: seq<Event>, now: int)
    requires Agree(c, ls, now) && Chronological(events)
    requires events != [] ==> now <= events[0].now
    ensures StoreRun(c, events) == LogRun(ls, events)
    decreases |events|
  {
    if events != [] {
      StepAgrees(c, ls, events[0]);
      RunsAgree(StoreStep(c, events[0]).0, LogStep(ls, events[0]).0, events[1..], events[0].now);
    }
  }

  /** Every sequence of puts, gets, deletes and cleanups answers as the store that never prunes. */
  lemma LazyStoreRefinesLog(c: Collections, ls: Logs, events: seq<Event>)
    requires c == map[] && ls == map[]
    requires Chronological(events)
    ensures StoreRun(c, events) == LogRun(ls, events)
  {
    if events != [] {
      RunsAgree(c, ls, events, events[0].now);
    }
  }
}
