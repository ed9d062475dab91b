/** Which trunks count as registered, and what a tick of the registry writes (mods/registry/src). */
module RegistrationStore {
  import opened Wrappers

  datatype Status = REGISTERED | QUARANTINE

  /** `timeOfEntry` is in milliseconds. */
  datatype Entry = Entry(trunkRef: string, timeOfEntry: int, retentionTimeInSeconds: int, status: Status)

  type Entries = map<string, Entry>

  const DEFAULT_EXPIRES := 600

  predicate NotExpired(e: Entry, now: int) {
    now - e.timeOfEntry <= 1000 * e.retentionTimeInSeconds
  }

  /** The trunk has an entry that has not expired. */
  predicate Held(m: Entries, trunk: string, now: int) {
    trunk in m && NotExpired(m[trunk], now)
  }

  function Clean(m: Entries, visited: set<string>, now: int): Entries {
    map k | k in m && (k in visited ==> NotExpired(m[k], now)) :: m[k]
  }

  /** How one REGISTER ended. An answer may carry the expiry of its contact, of the message, or none. */
  datatype Outcome =
    | Rejected
    | Unavailable
    | Answer(contactExpires: Option<int>, messageExpires: Option<int>, ok: bool)
  {
    function GrantedExpires(): int
      requires Answer?
    {
      if contactExpires.Some? then contactExpires.value
      else if messageExpires.Some? then messageExpires.value
      else DEFAULT_EXPIRES
    }

    function EntryFor(trunk: string, settled: int, interval: int): Entry
      requires Answer?
    {
      Entry(trunk, settled, GrantedExpires() - interval, if ok then REGISTERED else QUARANTINE)
    }
  }

  /** The listed trunks that get a REGISTER at this tick. */
  function Due(m: Entries, trunks: seq<string>, now: int): seq<string> {
    if trunks == [] then []
    else if Held(m, trunks[0], now) then Due(m, trunks[1..], now)
    else [trunks[0]] + Due(m, trunks[1..], now)
  }

  /** The entries after the first `n` results have been written. */
  function Recorded(m: Entries, due: seq<string>, outcome: nat -> Outcome, settled: int, interval: int, n: nat): Entries
    requires n <= |due|
  {
    if n == 0 then m
    else
      var earlier := Recorded(m, due, outcome, settled, interval, n - 1);
      if outcome(n - 1).Answer?
      then earlier[due[n - 1] := outcome(n - 1).EntryFor(due[n - 1], settled, interval)]
      else earlier
  }

  lemma {:induction false} DueMembers(m: Entries, trunks: seq<string>, now: int)
    ensures forall t :: t in Due(m, trunks, now) <==> t in trunks && !Held(m, t, now)
  {
    if trunks != [] {
      DueMembers(m, trunks[1..], now);
    }
  }

  predicate NoDuplicates(s: seq<string>) {
    forall i, j :: 0 <= i < j < |s| ==> s[i] != s[j]
  }

  lemma {:induction false} DueNoDuplicates(m: Entries, trunks: seq<string>, now: int)
    requires NoDuplicates(trunks)
    ensures NoDuplicates(Due(m, trunks, now))
  {
    if trunks != [] {
      DueNoDuplicates(m, trunks[1..], now);
      DueMembers(m, trunks[1..], now);
      assert trunks[0] !in trunks[1..];
    }
  }

  /** The expiry an answer grants: its contact's whenever that has one, else the message's, else 600 seconds. */
  predicate Grants(answer: Outcome, expires: int) {
    && answer.Answer?
    && (answer.contactExpires.Some? ==> expires == answer.contactExpires.value)
    && (answer.contactExpires.None? && answer.messageExpires.Some? ==> expires == answer.messageExpires.value)
    && (answer.contactExpires.None? && answer.messageExpires.None? ==> expires == 600)
  }

  /** The entry an answer leaves: retained for the interval less than what is granted, and REGISTERED when it is OK. */
  predicate Records(e: Entry, trunk: string, answer: Outcome, settled: int, interval: int) {
    && e.trunkRef == trunk && e.timeOfEntry == settled
    && Grants(answer, e.retentionTimeInSeconds + interval)
    && (e.status == REGISTERED <==> answer.ok)
  }

  lemma AnswersRecord(trunk: string, answer: Outcome, settled: int, interval: int)
    requires answer.Answer?
    ensures Records(answer.EntryFor(trunk, settled, interval), trunk, answer, settled, interval)
  {
  }

  /** An answered trunk has the entry of its answer; every other trunk keeps what it had. */
  lemma {:induction false} RecordedEntry(m: Entries, due: seq<string>, outcome: nat -> Outcome, settled: int,
                                         interval: int, n: nat, trunk: string)
    requires n <= |due| && NoDuplicates(due)
    ensures var after := Recorded(m, due, outcome, settled, interval, n);
            if exists i :: 0 <= i < n && due[i] == trunk && outcome(i).Answer? then
              var i :| 0 <= i < n && due[i] == trunk && outcome(i).Answer?;
              trunk in after && Records(after[trunk], trunk, outcome(i), settled, interval)
            else (trunk in after <==> trunk in m) && (trunk in m ==> after[trunk] == m[trunk])
  {
    if n > 0 {
      RecordedEntry(m, due, outcome, settled, interval, n - 1, trunk);
      if outcome(n - 1).Answer? {
        AnswersRecord(due[n - 1], outcome(n - 1), settled, interval);
      }
    }
  }

  lemma AllAnswersAreRecorded(m: Entries, trunks: seq<string>, outcome: nat -> Outcome, now: int, settled: int,
                              interval: int)
    requires NoDuplicates(trunks)
    ensures var sent := Due(m, trunks, now);
            var after := Recorded(m, sent, outcome, settled, interval, |sent|);
            forall i :: 0 <= i < |sent| && outcome(i).Answer? ==>
              sent[i] in after && Records(after[sent[i]], sent[i], outcome(i), settled, interval)
  {
    DueNoDuplicates(m, trunks, now);
    var sent := Due(m, trunks, now);
    var after := Recorded(m, sent, outcome, settled, interval, |sent|);
    hide Due, Recorded, Records;
    forall i | 0 <= i < |sent| && outcome(i).Answer?
      ensures sent[i] in after && Records(after[sent[i]], sent[i], outcome(i), settled, interval)
    {
      RecordedEntry(m, sent, outcome, settled, interval, |sent|, sent[i]);
    }
  }

  /**
   One tick, in the fields of the entries and of the answers. A trunk gets a REGISTER if and only if it is listed and
   has no entry younger than its retention time; an answer leaves its entry; and nothing else changes.
   */
  lemma WhatATickStores(m: Entries, trunks: seq<string>, outcome: nat -> Outcome, now: int, settled: int, interval: int,
                        trunk: string)
    requires NoDuplicates(trunks)
    ensures var sent := Due(m, trunks, now);
            var after := Recorded(m, sent, outcome, settled, interval, |sent|);
            && (trunk in sent <==>
                  && trunk in trunks
                  && (trunk in m ==> m[trunk].timeOfEntry + 1000 * m[trunk].retentionTimeInSeconds < now))
            && if exists i :: 0 <= i < |sent| && sent[i] == trunk && outcome(i).Answer? then
                 var i :| 0 <= i < |sent| && sent[i] == trunk && outcome(i).Answer?;
                 trunk in after && Records(after[trunk], trunk, outcome(i), settled, interval)
               else (trunk in after <==> trunk in m) && (trunk in m ==> after[trunk] == m[trunk])
  {
    DueMembers(m, trunks, now);
    DueNoDuplicates(m, trunks, now);
    var sent := Due(m, trunks, now);
    RecordedEntry(m, sent, outcome, settled, interval, |sent|, trunk);
  }
}
