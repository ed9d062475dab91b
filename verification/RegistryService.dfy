/**
 The registry's store and its periodic tick, with fields updated in place (mods/registry/src/memory_store.ts,
 service.ts).
 */
module RegistryService {
  import opened Wrappers
  import opened RegistrationStore
  import opened CleanupCounter

  class MemoryStore {
    var entries: Entries
    var cleanupCount: Counter
    const maxCyclesBeforeCleanup: int

    constructor (maxCyclesBeforeCleanup: int := MAX_CYCLES_BEFORE_CLEANUP)
      ensures entries == map[] && cleanupCount.NaN?
    {
      entries := map[];
      cleanupCount := NaN;
      this.maxCyclesBeforeCleanup := maxCyclesBeforeCleanup;
    }

    method Put(key: string, entry: Entry, now: int)
      modifies this
      ensures old(cleanupCount).NaN? ==> cleanupCount.NaN? && entries == old(entries)[key := entry]
      ensures forall t, later :: now <= later ==> Held(entries, t, later) == Held(old(entries)[key := entry], t, later)
    {
      entries := entries[key := entry];
      cleanupCount := cleanupCount.Next();
      if cleanupCount.AtLeast(maxCyclesBeforeCleanup) {
        cleanupCount := Count(0);
        Cleanup(now);
      }
    }

    method List(now: int) returns (listed: seq<Entry>)
      ensures forall e :: e in listed <==> exists k :: k in entries && entries[k] == e && NotExpired(e, now)
    {
      listed := [];
      var pending := entries.Keys;
      while pending != {}
        invariant pending <= entries.Keys
        invariant forall e :: e in listed <==>
                    exists k :: k in entries.Keys - pending && entries[k] == e && NotExpired(e, now)
        decreases pending
      {
        var key :| key in pending;
        pending := pending - {key};
        if NotExpired(entries[key], now) {
          listed := listed + [entries[key]];
        }
      }
    }

    method Get(key: string, now: int) returns (entry: Option<Entry>)
      ensures entry == if Held(entries, key, now) then Some(entries[key]) else None
    {
      if key in entries && NotExpired(entries[key], now) {
        return Some(entries[key]);
      }
      return None;
    }

    method Delete(key: string)
      modifies this`entries
      ensures entries == old(entries) - {key}
    {
      entries := entries - {key};
    }

    method Cleanup(now: int)
      modifies this`entries
      ensures entries == Clean(old(entries), old(entries).Keys, now)
    {
      ghost var before := entries;
      var pending := entries.Keys;
      while pending != {}
        invariant pending <= before.Keys
        invariant entries == Clean(before, before.Keys - pending, now)
        decreases pending
      {
        var key :| key in pending;
        pending := pending - {key};
        if !NotExpired(entries[key], now) {
          entries := entries - {key};
        }
      }
    }
  }

  class Registry {
    const store: MemoryStore
    const registerInterval: int

    /** Every entry is stored under its own trunk, and the automatic cleanup never starts. */
    ghost predicate Valid()
      reads this, store
    {
      && store.cleanupCount.NaN?
      && forall k :: k in store.entries ==> store.entries[k].trunkRef == k
    }

    constructor (store: MemoryStore, registerInterval: int)
      requires store.cleanupCount.NaN? && store.entries == map[]
      ensures Valid() && this.store == store && this.registerInterval == registerInterval
    {
      this.store := store;
      this.registerInterval := registerInterval;
    }

    /**
     One tick: `trunks` is absent when the data service fails, `outcome(i)` is how the i-th REGISTER ended,
     and all results are written at `settled`. Returns the trunks that were sent a REGISTER.
     */
    method Tick(trunks: Option<seq<string>>, outcome: nat -> Outcome, now: int, settled: int)
      returns (sent: seq<string>)
      requires Valid()
      modifies store
      ensures Valid()
      ensures trunks.None? ==> sent == [] && store.entries == old(store.entries)
      ensures trunks.Some? ==>
                && sent == Due(old(store.entries), trunks.value, now)
                && store.entries == Recorded(old(store.entries), sent, outcome, settled, registerInterval, |sent|)
      ensures trunks.Some? && NoDuplicates(trunks.value) ==>
                forall i :: 0 <= i < |sent| && outcome(i).Answer? ==>
                  && sent[i] in store.entries
                  && Records(store.entries[sent[i]], sent[i], outcome(i), settled, registerInterval)
    {
      sent := [];
      if trunks.None? {
        return;
      }
      ghost var before := store.entries;
      var listed := store.List(now);
      var trunksInStore := seq(|listed|, i requires 0 <= i < |listed| => listed[i].trunkRef);
      var rest := trunks.value;
      while rest != []
        invariant Valid() && store.entries == before
        invariant sent + Due(before, rest, now) == Due(before, trunks.value, now)
        decreases |rest|
      {
        ListedIsHeld(before, listed, trunksInStore, rest[0], now);
        if rest[0] !in trunksInStore {
          sent := sent + [rest[0]];
        }
        rest := rest[1..];
      }
      for i := 0 to |sent|
        invariant Valid()
        invariant store.entries == Recorded(before, sent, outcome, settled, registerInterval, i)
      {
        match outcome(i)
        case Rejected =>
        case Unavailable =>
        case Answer(contactExpires, messageExpires, ok) =>
          var expires := if contactExpires.Some? then contactExpires.value
                         else if messageExpires.Some? then messageExpires.value
                         else DEFAULT_EXPIRES;
          var retentionTime := expires - registerInterval;
          var status := if ok then REGISTERED else QUARANTINE;
          store.Put(sent[i], Entry(sent[i], settled, retentionTime, status), settled);
      }
      if NoDuplicates(trunks.value) {
        AllAnswersAreRecorded(before, trunks.value, outcome, now, settled, registerInterval);
      }
    }
  }

  lemma ListedIsHeld(m: Entries, listed: seq<Entry>, refs: seq<string>, trunk: string, now: int)
    requires forall k :: k in m ==> m[k].trunkRef == k
    requires forall e :: e in listed <==> exists k :: k in m && m[k] == e && NotExpired(e, now)
    requires |refs| == |listed| && forall i :: 0 <= i < |refs| ==> refs[i] == listed[i].trunkRef
    ensures trunk in refs <==> Held(m, trunk, now)
  {
    if Held(m, trunk, now) {
      assert m[trunk] in listed;
      var i :| 0 <= i < |listed| && listed[i] == m[trunk];
      assert refs[i] == trunk;
    }
    if trunk in refs {
      var i :| 0 <= i < |refs| && refs[i] == trunk;
      assert listed[i] in listed;
    }
  }
}
