/**
 When a trunk gets its next REGISTER, over every run of ticks `interval` seconds apart in which each tick's
 results are written before the next tick (mods/registry/src/service.ts, mods/registry/src/memory_store.ts).
 */
module RegistrationTiming {
  import opened Wrappers
  import opened RegistrationStore

  /** What surrounds one tick. Results are written `delay` ms after it; `cleaned` are the keys a cleanup looked at. */
  datatype Round = Round(trunks: Option<seq<string>>, outcome: nat -> Outcome, delay: int, cleaned: set<string>)

  /** The k-th tick, in milliseconds. */
  function TickTime(interval: int, k: nat): int {
    (1000 * interval) * k
  }

  function Settled(interval: int, rounds: seq<Round>, k: nat): int
    requires k < |rounds|
  {
    TickTime(interval, k) + rounds[k].delay
  }

  /** The trunks sent a REGISTER at the k-th tick. */
  function Sent(interval: int, m: Entries, rounds: seq<Round>, k: nat): seq<string>
    requires k < |rounds|
    decreases k, 1
  {
    if rounds[k].trunks.None? then []
    else Due(Before(interval, m, rounds, k), rounds[k].trunks.value, TickTime(interval, k))
  }

  /** The entries at the k-th tick. */
  function Before(interval: int, m: Entries, rounds: seq<Round>, k: nat): Entries
    requires k <= |rounds|
    decreases k, 0
  {
    if k == 0 then m
    else
      var r, sent := rounds[k - 1], Sent(interval, m, rounds, k - 1);
      var settled := Settled(interval, rounds, k - 1);
      Clean(Recorded(Before(interval, m, rounds, k - 1), sent, r.outcome, settled, interval, |sent|), r.cleaned,
        settled)
  }

  ghost predicate WellTimed(interval: int, rounds: seq<Round>) {
    && 1 <= interval
    && forall k :: 0 <= k < |rounds| ==>
         && 0 <= rounds[k].delay < 1000 * interval
         && (rounds[k].trunks.Some? ==> NoDuplicates(rounds[k].trunks.value))
  }

  /** The REGISTER of the i-th tick was answered, and the answer granted `expires` seconds. */
  ghost predicate Granted(interval: int, m: Entries, rounds: seq<Round>, i: nat, trunk: string, expires: int)
    requires i < |rounds|
  {
    exists n :: 0 <= n < |Sent(interval, m, rounds, i)| && Sent(interval, m, rounds, i)[n] == trunk &&
      Grants(rounds[i].outcome(n), expires)
  }

  predicate Listed(rounds: seq<Round>, k: nat, trunk: string)
    requires k < |rounds|
  {
    rounds[k].trunks.Some? && trunk in rounds[k].trunks.value
  }

  /** From `now` on the trunk is held exactly until `expires - interval` seconds after `settled`. */
  ghost predicate HeldUntil(m: Entries, trunk: string, settled: int, retention: int, now: int) {
    forall t :: now <= t ==> (Held(m, trunk, t) <==> t - settled <= 1000 * retention)
  }

  lemma CleanKeepsHeld(m: Entries, visited: set<string>, now: int, trunk: string, t: int)
    requires now <= t
    ensures Held(Clean(m, visited, now), trunk, t) <==> Held(m, trunk, t)
  {}

  lemma GrantedIsHeld(interval: int, m: Entries, rounds: seq<Round>, i: nat, trunk: string, expires: int)
    requires WellTimed(interval, rounds) && i < |rounds|
    requires Granted(interval, m, rounds, i, trunk, expires)
    ensures HeldUntil(Before(interval, m, rounds, i + 1), trunk, Settled(interval, rounds, i), expires - interval,
                      Settled(interval, rounds, i))
  {
    var sent, settled, r := Sent(interval, m, rounds, i), Settled(interval, rounds, i), rounds[i];
    var before := Before(interval, m, rounds, i);
    DueNoDuplicates(before, r.trunks.value, TickTime(interval, i));
    RecordedEntry(before, sent, r.outcome, settled, interval, |sent|, trunk);
    var written := Recorded(before, sent, r.outcome, settled, interval, |sent|);
    forall t | settled <= t
      ensures Held(Clean(written, r.cleaned, settled), trunk, t) <==> t - settled <= 1000 * (expires - interval)
    {
      CleanKeepsHeld(written, r.cleaned, settled, trunk, t);
    }
  }

  /** The k-th tick got no answer for the trunk: it sent none, or it was rejected, or the service was unavailable. */
  ghost predicate Unanswered(interval: int, m: Entries, rounds: seq<Round>, k: nat, trunk: string)
    requires k < |rounds|
  {
    forall expires :: !Granted(interval, m, rounds, k, trunk, expires)
  }

  lemma UnsentIsUnanswered(interval: int, m: Entries, rounds: seq<Round>, k: nat, trunk: string)
    requires k < |rounds| && trunk !in Sent(interval, m, rounds, k)
    ensures Unanswered(interval, m, rounds, k, trunk)
  {}

  lemma NoAnswerAmongTheSent(interval: int, m: Entries, rounds: seq<Round>, k: nat, trunk: string)
    requires k < |rounds| && Unanswered(interval, m, rounds, k, trunk)
    ensures forall n :: 0 <= n < |Sent(interval, m, rounds, k)| && Sent(interval, m, rounds, k)[n] == trunk ==>
              !rounds[k].outcome(n).Answer?
  {
    hide Sent;
    var sent, outcome := Sent(interval, m, rounds, k), rounds[k].outcome;
    assert forall n :: 0 <= n < |sent| && sent[n] == trunk && outcome(n).Answer? ==>
             Granted(interval, m, rounds, k, trunk, outcome(n).GrantedExpires());
  }

  lemma UnansweredIsKept(interval: int, m: Entries, rounds: seq<Round>, k: nat, trunk: string, settled: int,
                         retention: int, now: int)
    requires WellTimed(interval, rounds) && k < |rounds|
    requires Unanswered(interval, m, rounds, k, trunk)
    requires now <= Settled(interval, rounds, k)
    requires HeldUntil(Before(interval, m, rounds, k), trunk, settled, retention, now)
    ensures HeldUntil(Before(interval, m, rounds, k + 1), trunk, settled, retention, Settled(interval, rounds, k))
  {
    var sent, r, at := Sent(interval, m, rounds, k), rounds[k], Settled(interval, rounds, k);
    var before := Before(interval, m, rounds, k);
    if r.trunks.Some? {
      DueNoDuplicates(before, r.trunks.value, TickTime(interval, k));
    }
    RecordedEntry(before, sent, r.outcome, at, interval, |sent|, trunk);
    NoAnswerAmongTheSent(interval, m, rounds, k, trunk);
    var written := Recorded(before, sent, r.outcome, at, interval, |sent|);
    forall t | at <= t ensures Held(Clean(written, r.cleaned, at), trunk, t) <==> t - settled <= 1000 * retention {
      CleanKeepsHeld(written, r.cleaned, at, trunk, t);
      assert Held(before, trunk, t) <==> t - settled <= 1000 * retention;
    }
  }

  lemma TicksFollow(interval: int, rounds: seq<Round>, i: nat, j: nat)
    requires WellTimed(interval, rounds) && i < j && i < |rounds|
    ensures Settled(interval, rounds, i) < TickTime(interval, j)
    ensures TickTime(interval, j) == TickTime(interval, i) + 1000 * interval * (j - i)
  {
    AtLeastOnePeriod(1000 * interval, j - i);
    Distribute(1000 * interval, i, j - i);
  }

  lemma Distribute(p: int, a: int, b: int)
    ensures p * (a + b) == p * a + p * b
  {}

  lemma AtLeastOnePeriod(p: int, n: int)
    requires 0 < p && 1 <= n
    ensures p <= p * n
  {
    Distribute(p, 1, n - 1);
    assert p * (n - 1) >= 0;
  }

  lemma {:induction false} HeldAtTick(interval: int, m: Entries, rounds: seq<Round>, i: nat, j: nat, trunk: string,
                                      expires: int)
    requires WellTimed(interval, rounds) && i < j <= |rounds|
    requires Granted(interval, m, rounds, i, trunk, expires)
    requires forall k :: i < k < j ==> Unanswered(interval, m, rounds, k, trunk)
    ensures HeldUntil(Before(interval, m, rounds, j), trunk, Settled(interval, rounds, i), expires - interval,
                      Settled(interval, rounds, j - 1))
  {
    if j == i + 1 {
      GrantedIsHeld(interval, m, rounds, i, trunk, expires);
    } else {
      HeldAtTick(interval, m, rounds, i, j - 1, trunk, expires);
      TicksFollow(interval, rounds, j - 2, j - 1);
      UnansweredIsKept(interval, m, rounds, j - 1, trunk, Settled(interval, rounds, i), expires - interval,
                       Settled(interval, rounds, j - 2));
    }
  }

  /**
   As long as no other REGISTER has been answered since, a listed trunk gets a REGISTER at a tick if and only if the
   retention time of the last answer is over.
   */
  lemma SentWhenRetentionIsOver(interval: int, m: Entries, rounds: seq<Round>, i: nat, j: nat, trunk: string,
                                expires: int)
    requires WellTimed(interval, rounds) && i < j < |rounds|
    requires Granted(interval, m, rounds, i, trunk, expires)
    requires forall k :: i < k < j ==> Unanswered(interval, m, rounds, k, trunk)
    ensures trunk in Sent(interval, m, rounds, j) <==>
              Listed(rounds, j, trunk)
              && TickTime(interval, j) - Settled(interval, rounds, i) > 1000 * (expires - interval)
  {
    HeldAtTick(interval, m, rounds, i, j, trunk, expires);
    TicksFollow(interval, rounds, j - 1, j);
    var before, now := Before(interval, m, rounds, j), TickTime(interval, j);
    assert Held(before, trunk, now) <==> now - Settled(interval, rounds, i) <= 1000 * (expires - interval);
    if rounds[j].trunks.Some? {
      DueMembers(before, rounds[j].trunks.value, now);
    }
  }

  /** From the end of the retention time a listed trunk is sent a REGISTER at every tick until one is answered. */
  lemma RepeatedUntilAnswered(interval: int, m: Entries, rounds: seq<Round>, i: nat, last: nat, trunk: string,
                              expires: int)
    requires WellTimed(interval, rounds) && i < last < |rounds|
    requires Granted(interval, m, rounds, i, trunk, expires)
    requires forall k :: i < k < last ==> Unanswered(interval, m, rounds, k, trunk)
    requires forall k :: i < k <= last ==> Listed(rounds, k, trunk)
    ensures forall k :: i < k <= last ==>
              (trunk in Sent(interval, m, rounds, k) <==>
                 TickTime(interval, k) - Settled(interval, rounds, i) > 1000 * (expires - interval))
  {
    forall k | i < k <= last
      ensures trunk in Sent(interval, m, rounds, k) <==>
                TickTime(interval, k) - Settled(interval, rounds, i) > 1000 * (expires - interval)
    {
      SentWhenRetentionIsOver(interval, m, rounds, i, k, trunk, expires);
    }
  }

  /** A listed trunk that has never been registered is sent a REGISTER at every tick until one is answered. */
  lemma {:induction false} SentUntilFirstAnswered(interval: int, m: Entries, rounds: seq<Round>, k: nat, trunk: string)
    requires WellTimed(interval, rounds) && k < |rounds| && trunk !in m
    requires forall i :: 0 <= i < k ==> Unanswered(interval, m, rounds, i, trunk)
    requires Listed(rounds, k, trunk)
    ensures trunk in Sent(interval, m, rounds, k)
  {
    NoEntryWithoutAnswer(interval, m, rounds, k, trunk);
    DueMembers(Before(interval, m, rounds, k), rounds[k].trunks.value, TickTime(interval, k));
  }

  lemma {:induction false} NoEntryWithoutAnswer(interval: int, m: Entries, rounds: seq<Round>, k: nat, trunk: string)
    requires WellTimed(interval, rounds) && k <= |rounds| && trunk !in m
    requires forall i :: 0 <= i < k ==> Unanswered(interval, m, rounds, i, trunk)
    ensures trunk !in Before(interval, m, rounds, k)
  {
    if k > 0 {
      NoEntryWithoutAnswer(interval, m, rounds, k - 1, trunk);
      var sent, r, at := Sent(interval, m, rounds, k - 1), rounds[k - 1], Settled(interval, rounds, k - 1);
      var before := Before(interval, m, rounds, k - 1);
      if r.trunks.Some? {
        DueNoDuplicates(before, r.trunks.value, TickTime(interval, k - 1));
      }
      RecordedEntry(before, sent, r.outcome, at, interval, |sent|, trunk);
      NoAnswerAmongTheSent(interval, m, rounds, k - 1, trunk);
    }
  }

  /**
   The next REGISTER goes out more than `expires - interval` and at most `expires` seconds after the answer was
   stored.
   */
  lemma NextRegisterWindow(interval: int, m: Entries, rounds: seq<Round>, i: nat, j: nat, trunk: string, expires: int)
    requires WellTimed(interval, rounds) && i < j < |rounds| && interval <= expires
    requires Granted(interval, m, rounds, i, trunk, expires)
    requires forall k :: i < k < j ==> Listed(rounds, k, trunk) && trunk !in Sent(interval, m, rounds, k)
    requires trunk in Sent(interval, m, rounds, j)
    ensures 1000 * (expires - interval) < TickTime(interval, j) - Settled(interval, rounds, i) <= 1000 * expires
  {
    forall k | i < k < j ensures Unanswered(interval, m, rounds, k, trunk) {
      UnsentIsUnanswered(interval, m, rounds, k, trunk);
    }
    SentWhenRetentionIsOver(interval, m, rounds, i, j, trunk, expires);
    TicksFollow(interval, rounds, i, j);
    if j > i + 1 {
      SentWhenRetentionIsOver(interval, m, rounds, i, j - 1, trunk, expires);
      assert TickTime(interval, j) == TickTime(interval, j - 1) + 1000 * interval;
    }
  }

  /** When the answer carries two expiries, that of its contact decides when the next REGISTER goes out. */
  lemma ContactDecidesTheWindow(interval: int, m: Entries, rounds: seq<Round>, i: nat, j: nat, n: nat, trunk: string,
                                contact: int, message: int, ok: bool)
    requires WellTimed(interval, rounds) && i < j < |rounds| && interval <= contact
    requires n < |Sent(interval, m, rounds, i)| && Sent(interval, m, rounds, i)[n] == trunk
    requires rounds[i].outcome(n) == Answer(Some(contact), Some(message), ok)
    requires forall k :: i < k < j ==> Listed(rounds, k, trunk) && trunk !in Sent(interval, m, rounds, k)
    requires trunk in Sent(interval, m, rounds, j)
    ensures 1000 * (contact - interval) < TickTime(interval, j) - Settled(interval, rounds, i) <= 1000 * contact
  {
    assert Grants(rounds[i].outcome(n), contact);
    hide Sent;
    NextRegisterWindow(interval, m, rounds, i, j, trunk, contact);
  }

  /** A trunk that stays listed does get that REGISTER. */
  lemma NextRegisterComes(interval: int, m: Entries, rounds: seq<Round>, i: nat, last: nat, trunk: string, expires: int)
    returns (j: nat)
    requires WellTimed(interval, rounds) && i < last < |rounds|
    requires Granted(interval, m, rounds, i, trunk, expires)
    requires forall k :: i < k <= last ==> Listed(rounds, k, trunk)
    requires TickTime(interval, last) - Settled(interval, rounds, i) > 1000 * (expires - interval)
    ensures i < j <= last && trunk in Sent(interval, m, rounds, j)
    ensures forall k :: i < k < j ==> trunk !in Sent(interval, m, rounds, k)
  {
    j := i + 1;
    while j < last && trunk !in Sent(interval, m, rounds, j)
      invariant i < j <= last
      invariant forall k :: i < k < j ==> trunk !in Sent(interval, m, rounds, k)
    {
      j := j + 1;
    }
    forall k | i < k < j ensures Unanswered(interval, m, rounds, k, trunk) {
      UnsentIsUnanswered(interval, m, rounds, k, trunk);
    }
    SentWhenRetentionIsOver(interval, m, rounds, i, j, trunk, expires);
  }

  // ---------------------------------------------------------------- before the last registration expires?

  /**
   The ticks from one REGISTER to the next depend only on the granted time and the delay of the answer, in
   milliseconds and rounded down.
   */
  function TicksToRenewal(interval: int, expires: int, delay: int): int
    requires 1 <= interval
  {
    (1000 * expires + delay) / (1000 * interval)
  }

  lemma Division(a: int, d: int, q: int)
    requires 0 < d && d * q <= a < d * q + d
    ensures a / d == q
  {
    var e := a / d - q;
    assert d * e == d * (a / d) - d * q;
    assert d * e < d && d * e > -d;
    assert e == 0;
  }

  lemma RenewalGap(interval: int, m: Entries, rounds: seq<Round>, i: nat, j: nat, trunk: string, expires: int)
    requires WellTimed(interval, rounds) && i < j < |rounds| && interval <= expires
    requires Granted(interval, m, rounds, i, trunk, expires)
    requires forall k :: i < k < j ==> Listed(rounds, k, trunk) && trunk !in Sent(interval, m, rounds, k)
    requires trunk in Sent(interval, m, rounds, j)
    ensures j - i == TicksToRenewal(interval, expires, rounds[i].delay)
  {
    NextRegisterWindow(interval, m, rounds, i, j, trunk, expires);
    TicksFollow(interval, rounds, i, j);
    var delay, period := rounds[i].delay, 1000 * interval;
    assert period * (j - i) - delay <= 1000 * expires < period * (j - i) - delay + period;
    Division(1000 * expires + delay, period, j - i);
  }

  /**
   The next REGISTER goes out before the last registration expires if and only if this holds. The registrar counts
   the granted time from some moment between the sending of the REGISTER and the storing of its answer: `lag` is
   that moment, in milliseconds after the sending.
   */
  lemma RenewedBeforeExpiry(interval: int, m: Entries, rounds: seq<Round>, i: nat, j: nat, trunk: string, expires: int,
                            lag: int)
    requires WellTimed(interval, rounds) && i < j < |rounds| && interval <= expires && 0 <= lag <= rounds[i].delay
    requires Granted(interval, m, rounds, i, trunk, expires)
    requires forall k :: i < k < j ==> Listed(rounds, k, trunk) && trunk !in Sent(interval, m, rounds, k)
    requires trunk in Sent(interval, m, rounds, j)
    ensures TickTime(interval, j) < TickTime(interval, i) + lag + 1000 * expires <==>
              rounds[i].delay - lag < (1000 * expires + rounds[i].delay) % (1000 * interval)
  {
    RenewalGap(interval, m, rounds, i, j, trunk, expires);
    TicksFollow(interval, rounds, i, j);
    var total, period := 1000 * expires + rounds[i].delay, 1000 * interval;
    assert total == period * (total / period) + total % period;
  }

  /**
   Counted from the sending: the next REGISTER goes out before the granted time is over if and only if the granted
   time is no whole number of intervals and the answer's delay and the part beyond whole intervals fit into one.
   */
  lemma RenewedInTime(interval: int, m: Entries, rounds: seq<Round>, i: nat, j: nat, trunk: string, expires: int)
    requires WellTimed(interval, rounds) && i < j < |rounds| && interval <= expires
    requires Granted(interval, m, rounds, i, trunk, expires)
    requires forall k :: i < k < j ==> Listed(rounds, k, trunk) && trunk !in Sent(interval, m, rounds, k)
    requires trunk in Sent(interval, m, rounds, j)
    ensures TickTime(interval, j) - TickTime(interval, i) < 1000 * expires <==>
              && 0 < 1000 * expires % (1000 * interval)
              && rounds[i].delay + 1000 * expires % (1000 * interval) < 1000 * interval
  {
    RenewedBeforeExpiry(interval, m, rounds, i, j, trunk, expires, 0);
    RemainderWithDelay(1000 * expires, rounds[i].delay, 1000 * interval);
  }

  lemma RemainderWithDelay(granted: int, delay: int, period: int)
    requires 0 < period && 0 <= delay < period
    ensures delay < (granted + delay) % period <==> 0 < granted % period && delay + granted % period < period
  {
    var whole, part := granted / period, granted % period;
    assert granted == period * whole + part;
    if delay + part < period {
      Division(granted + delay, period, whole);
    } else {
      assert period * (whole + 1) == period * whole + period;
      Division(granted + delay, period, whole + 1);
    }
  }

  /** A granted time shorter than the interval is over before the next tick, which always sends a REGISTER. */
  lemma ShortGrantRenewsAtTheNextTick(interval: int, m: Entries, rounds: seq<Round>, i: nat, trunk: string,
                                      expires: int)
    requires WellTimed(interval, rounds) && i + 1 < |rounds| && expires < interval
    requires Granted(interval, m, rounds, i, trunk, expires) && Listed(rounds, i + 1, trunk)
    ensures trunk in Sent(interval, m, rounds, i + 1)
    ensures TickTime(interval, i + 1) - TickTime(interval, i) > 1000 * expires
  {
    SentWhenRetentionIsOver(interval, m, rounds, i, i + 1, trunk, expires);
    TicksFollow(interval, rounds, i, i + 1);
  }

  /**
   With the shipped interval and default expiry, 60 and 600 seconds, the next REGISTER goes out at the very moment
   the granted time, counted from the sending, is over: not before it, whatever the delay.
   */
  lemma DefaultsRenewAtExpiry(rounds: seq<Round>, m: Entries, i: nat, j: nat, trunk: string)
    requires WellTimed(60, rounds) && i < j < |rounds|
    requires Granted(60, m, rounds, i, trunk, 600)
    requires forall k :: i < k < j ==> Listed(rounds, k, trunk) && trunk !in Sent(60, m, rounds, k)
    requires trunk in Sent(60, m, rounds, j)
    ensures TickTime(60, j) - TickTime(60, i) == 1000 * 600
  {
    hide Sent, Granted, TickTime, Listed;
    RenewalGap(60, m, rounds, i, j, trunk, 600);
    Division(1000 * 600 + rounds[i].delay, 60000, 10);
    TicksFollow(60, rounds, i, j);
  }

  /** Every REGISTER is answered 40 seconds later and granted 90 seconds. */
  function SlowRegistrar(trunk: string): Round {
    Round(Some([trunk]), _ => Answer(Some(90), None, true), 40000, {})
  }

  /** A run that is late: with a tick every 60 seconds, the REGISTER after the first one goes out after 120. */
  lemma LateRenewal(m: Entries, trunk: string)
    requires m == map[]
    ensures var rounds := [SlowRegistrar(trunk), SlowRegistrar(trunk), SlowRegistrar(trunk)];
            && trunk in Sent(60, m, rounds, 0) && trunk !in Sent(60, m, rounds, 1) && trunk in Sent(60, m, rounds, 2)
            && Granted(60, m, rounds, 0, trunk, 90)
            && TickTime(60, 2) - TickTime(60, 0) == 120000 > 1000 * 90
  {
    var rounds := [SlowRegistrar(trunk), SlowRegistrar(trunk), SlowRegistrar(trunk)];
    SentUntilFirstAnswered(60, m, rounds, 0, trunk);
    var n :| 0 <= n < |Sent(60, m, rounds, 0)| && Sent(60, m, rounds, 0)[n] == trunk;
    assert Granted(60, m, rounds, 0, trunk, 90);
    SentWhenRetentionIsOver(60, m, rounds, 0, 1, trunk, 90);
    UnsentIsUnanswered(60, m, rounds, 1, trunk);
    SentWhenRetentionIsOver(60, m, rounds, 0, 2, trunk, 90);
  }
}
