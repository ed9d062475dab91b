/**
 The registry's ticks when they overlap: the timer does not wait for the answers of a tick, so answers are stored in
 any order and at any time, also after later ticks (mods/registry/src/service.ts). What survives is told by the
 answer stored last.
 */
module OverlappingTicks {
  import opened Wrappers
  import opened RegistrationStore

  /** A tick looks at the trunks and sends; an answer to the REGISTER of some tick is stored; a cleanup happens. */
  datatype Event =
    | Tick(trunks: Option<seq<string>>)
    | Stored(tick: nat, trunk: string, answer: Outcome)
    | Cleaned(visited: set<string>)

  datatype Timed = At(now: int, event: Event)

  function Next(interval: int, m: Entries, e: Timed): Entries {
    match e.event
    case Tick(_) => m
    case Stored(_, trunk, answer) => if answer.Answer? then m[trunk := answer.EntryFor(trunk, e.now, interval)] else m
    case Cleaned(visited) => Clean(m, visited, e.now)
  }

  /** The entries after the first `n` events. */
  function After(interval: int, m: Entries, events: seq<Timed>, n: nat): Entries
    requires n <= |events|
  {
    if n == 0 then m else Next(interval, After(interval, m, events, n - 1), events[n - 1])
  }

  /** The trunks that the k-th event sends a REGISTER to. */
  function Sent(interval: int, m: Entries, events: seq<Timed>, k: nat): seq<string>
    requires k < |events|
  {
    if !events[k].event.Tick? || events[k].event.trunks.None? then []
    else Due(After(interval, m, events, k), events[k].event.trunks.value, events[k].now)
  }

  ghost predicate Chronological(events: seq<Timed>) {
    forall i, j :: 0 <= i < j < |events| ==> events[i].now <= events[j].now
  }

  predicate Lists(event: Event, trunk: string) {
    event.Tick? && event.trunks.Some? && trunk in event.trunks.value
  }

  predicate Stores(event: Event, trunk: string) {
    event.Stored? && event.trunk == trunk && event.answer.Answer?
  }

  /** It stores an answer that grants `expires` seconds. */
  predicate StoresGrant(event: Event, trunk: string, expires: int) {
    Stores(event, trunk) && Grants(event.answer, expires)
  }

  /** Every answer that is stored is the answer to a REGISTER that an earlier tick sent. */
  ghost predicate AnswersWereSent(interval: int, m: Entries, events: seq<Timed>) {
    forall i :: 0 <= i < |events| && events[i].event.Stored? ==>
      events[i].event.tick < i && events[i].event.trunk in Sent(interval, m, events, events[i].event.tick)
  }

  // ---------------------------------------------------------------- what survives

  lemma {:induction false} HeldByTheLast(interval: int, m: Entries, events: seq<Timed>, i: nat, j: nat, trunk: string,
                                         expires: int, t: int)
    requires Chronological(events) && i < j <= |events| && StoresGrant(events[i].event, trunk, expires)
    requires forall k :: i < k < j ==> !Stores(events[k].event, trunk)
    requires events[j - 1].now <= t
    ensures Held(After(interval, m, events, j), trunk, t) <==>
              t - events[i].now <= 1000 * (expires - interval)
  {
    if j > i + 1 {
      HeldByTheLast(interval, m, events, i, j - 1, trunk, expires, t);
    }
  }

  /**
   A listed trunk is sent a REGISTER at a tick if and only if the retention time of the answer stored last is over,
   whichever REGISTER that was the answer to, and however many others are still on their way.
   */
  lemma SentIffTheLastIsOver(interval: int, m: Entries, events: seq<Timed>, i: nat, j: nat, trunk: string, expires: int)
    requires Chronological(events) && i < j < |events| && StoresGrant(events[i].event, trunk, expires)
    requires events[j].event.Tick?
    requires forall k :: i < k < j ==> !Stores(events[k].event, trunk)
    ensures trunk in Sent(interval, m, events, j) <==>
              Lists(events[j].event, trunk)
              && events[j].now - events[i].now > 1000 * (expires - interval)
  {
    HeldByTheLast(interval, m, events, i, j, trunk, expires, events[j].now);
    if events[j].event.trunks.Some? {
      DueMembers(After(interval, m, events, j), events[j].event.trunks.value, events[j].now);
    }
  }

  /** A trunk that no answer has been stored for is sent a REGISTER at every tick that lists it. */
  lemma SentWhileNoneIsStored(interval: int, m: Entries, events: seq<Timed>, j: nat, trunk: string)
    requires j < |events| && trunk !in m && Lists(events[j].event, trunk)
    requires forall k :: 0 <= k < j ==> !Stores(events[k].event, trunk)
    ensures trunk in Sent(interval, m, events, j)
  {
    NoEntryYet(interval, m, events, j, trunk);
    DueMembers(After(interval, m, events, j), events[j].event.trunks.value, events[j].now);
  }

  lemma {:induction false} NoEntryYet(interval: int, m: Entries, events: seq<Timed>, n: nat, trunk: string)
    requires n <= |events| && trunk !in m && forall k :: 0 <= k < n ==> !Stores(events[k].event, trunk)
    ensures trunk !in After(interval, m, events, n)
  {
    if n > 0 {
      NoEntryYet(interval, m, events, n - 1, trunk);
    }
  }

  /** `p` is the tick before the tick `j`, one interval earlier. */
  predicate TickBefore(interval: int, events: seq<Timed>, p: nat, j: nat)
    requires p < j < |events|
  {
    && events[p].event.Tick? && events[j].event.Tick? && events[j].now == events[p].now + 1000 * interval
    && forall k :: p < k < j ==> !events[k].event.Tick?
  }

  /**
   With a tick every interval, the first REGISTER after the answer stored last still goes out more than
   `expires - interval` and at most `expires` seconds after it was stored.
   */
  lemma WindowAfterTheLast(interval: int, m: Entries, events: seq<Timed>, i: nat, p: nat, j: nat, trunk: string,
                           expires: int)
    requires Chronological(events) && i < j < |events| && p < j && StoresGrant(events[i].event, trunk, expires)
    requires forall k :: i < k < j ==> !Stores(events[k].event, trunk)
    requires interval <= expires && TickBefore(interval, events, p, j)
    requires p > i ==> Lists(events[p].event, trunk) && trunk !in Sent(interval, m, events, p)
    requires trunk in Sent(interval, m, events, j)
    ensures var waited := events[j].now - events[i].now;
            1000 * (expires - interval) < waited <= 1000 * expires
  {
    SentIffTheLastIsOver(interval, m, events, i, j, trunk, expires);
    if p > i {
      SentIffTheLastIsOver(interval, m, events, i, p, trunk, expires);
    } else {
      assert p != i;
    }
  }

  // ---------------------------------------------------------------- what does not

  /** A slow answer granted 60 seconds is stored after a fast one that a later tick got and that grants 600. */
  function OvertakenRun(trunk: string): seq<Timed> {
    [At(0, Tick(Some([trunk]))), At(60000, Tick(Some([trunk]))),
     At(61000, Stored(1, trunk, Answer(Some(600), None, true))),
     At(62000, Stored(0, trunk, Answer(Some(60), None, true))),
     At(120000, Tick(Some([trunk])))]
  }

  /**
   A second REGISTER goes out while the first is still on its way, and the older answer replaces the newer one: the
   trunk is sent a REGISTER again after 59 seconds, though it was granted ten minutes.
   */
  lemma OlderAnswerReplacesNewer(m: Entries, trunk: string)
    requires m == map[]
    ensures var events := OvertakenRun(trunk);
            && Chronological(events) && AnswersWereSent(60, m, events)
            && trunk in Sent(60, m, events, 0) && trunk in Sent(60, m, events, 1) && trunk in Sent(60, m, events, 4)
  {
    var events := OvertakenRun(trunk);
    SentWhileNoneIsStored(60, m, events, 0, trunk);
    SentWhileNoneIsStored(60, m, events, 1, trunk);
    SentIffTheLastIsOver(60, m, events, 3, 4, trunk, 60);
  }

  /** Until the answer to a REGISTER is stored, every tick that lists the trunk sends another one. */
  lemma SentAgainUntilStored(interval: int, m: Entries, events: seq<Timed>, first: nat, second: nat, trunk: string)
    requires Chronological(events) && first < second < |events|
    requires trunk in Sent(interval, m, events, first) && Lists(events[second].event, trunk)
    requires forall k :: first <= k < second ==> !Stores(events[k].event, trunk)
    ensures trunk in Sent(interval, m, events, second)
  {
    DueMembers(After(interval, m, events, first), events[first].event.trunks.value, events[first].now);
    StaysUnheld(interval, m, events, first, second, trunk);
    DueMembers(After(interval, m, events, second), events[second].event.trunks.value, events[second].now);
  }

  /** What is not held stays so until an answer is stored. */
  lemma {:induction false} StaysUnheld(interval: int, m: Entries, events: seq<Timed>, i: nat, j: nat, trunk: string)
    requires Chronological(events) && i <= j < |events|
    requires forall k :: i <= k < j ==> !Stores(events[k].event, trunk)
    requires !Held(After(interval, m, events, i), trunk, events[i].now)
    ensures !Held(After(interval, m, events, j), trunk, events[j].now)
  {
    if i < j {
      StaysUnheld(interval, m, events, i, j - 1, trunk);
    }
  }
}
