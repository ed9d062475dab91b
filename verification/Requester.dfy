/**
 The requester's rendezvous (mods/requester/src/main/java/io/routr/requester/RequesterService.java,
 ResponseCallable.java): a gRPC thread sends a request and waits for a pool thread that polls its slot; SIP threads
 find the slot in a map by call id and fill it. Every access to shared state is one step, so a run is any
 interleaving of senders and events. Two sends are different senders even when their call ids are equal.
 */
module Requester {
  import opened Wrappers

  datatype Sender = Sender(id: nat, callId: string)

  /** A response or a timeout; `message` is None when the response to a timeout could not be built. */
  datatype Event = Event(id: nat, callId: string, message: Option<string>)

  datatype Step =
    | Send(sender: Sender)
    | Submit(sender: Sender)
    | Insert(sender: Sender)
    | Lookup(event: Event)
    | Fill(event: Event)
    | Drop(event: Event)
    | Finish(sender: Sender)
    | Return(sender: Sender)

  datatype SenderPhase = Sent | Submitted | Waiting | Returned(message: string)

  datatype EventPhase = Found(slot: Option<Sender>) | Filled | Ended

  const POOL_SIZE := 2

  /** The thread pool: what its two threads run, those that wait for one, and the results of the rest. */
  datatype Pool = Pool(running: set<Sender>, queue: seq<Sender>, done: map<Sender, string>)

  /** A slot is named after its sender; `value` holds the slots that are not null. */
  datatype State = State(
    senders: map<Sender, SenderPhase>,
    responseMap: map<string, Sender>,
    value: map<Sender, string>,
    events: map<Event, EventPhase>,
    pool: Pool)

  const INITIAL := State(map[], map[], map[], map[], Pool({}, [], map[]))

  function Submitting(pool: Pool, x: Sender): Pool {
    if |pool.running| < POOL_SIZE then pool.(running := pool.running + {x}) else pool.(queue := pool.queue + [x])
  }

  /** The thread of a finished task takes the next one. */
  function Finishing(pool: Pool, x: Sender, result: string): Pool {
    if pool.queue == [] then Pool(pool.running - {x}, [], pool.done[x := result])
    else Pool(pool.running - {x} + {pool.queue[0]}, pool.queue[1..], pool.done[x := result])
  }

  predicate Enabled(s: State, step: Step) {
    match step
    case Send(x) => x !in s.senders
    case Submit(x) => x in s.senders && s.senders[x] == Sent
    case Insert(x) => x in s.senders && s.senders[x] == Submitted
    case Lookup(e) => e !in s.events
    case Fill(e) => e in s.events && s.events[e].Found?
    case Drop(e) => e in s.events && s.events[e] == Filled
    case Finish(x) => x in s.pool.running && x in s.value
    case Return(x) => x in s.senders && s.senders[x] == Waiting && x in s.pool.done
  }

  function Apply(s: State, step: Step): State
    requires Enabled(s, step)
  {
    match step
    case Send(x) => s.(senders := s.senders[x := Sent])
    case Submit(x) =>
      s.(senders := s.senders[x := Submitted], pool := Submitting(s.pool, x))
    case Insert(x) => s.(senders := s.senders[x := Waiting], responseMap := s.responseMap[x.callId := x])
    case Lookup(e) =>
      s.(events := s.events[e := Found(if e.callId in s.responseMap then Some(s.responseMap[e.callId]) else None)])
    case Fill(e) =>
      var t := s.(events := s.events[e := Filled]);
      var slot := s.events[e].slot;
      if slot.Some? && e.message.Some? then t.(value := s.value[slot.value := e.message.value]) else t
    case Drop(e) => s.(events := s.events[e := Ended], responseMap := s.responseMap - {e.callId})
    case Finish(x) =>
      s.(pool := Finishing(s.pool, x, s.value[x]))
    case Return(x) => s.(senders := s.senders[x := Returned(s.pool.done[x])])
  }

  function Front(run: seq<Step>): seq<Step>
    requires run != []
  {
    run[..|run| - 1]
  }

  function Last(run: seq<Step>): Step
    requires run != []
  {
    run[|run| - 1]
  }

  ghost predicate Legal(run: seq<Step>)
    decreases |run|, 0
  {
    run == [] || (Legal(Front(run)) && Enabled(After(Front(run)), Last(run)))
  }

  ghost function After(run: seq<Step>): State
    requires Legal(run)
    decreases |run|, 1
  {
    if run == [] then INITIAL else Apply(After(Front(run)), Last(run))
  }

  lemma LastStep(run: seq<Step>)
    requires Legal(run) && run != []
    ensures Legal(Front(run)) && Enabled(After(Front(run)), Last(run))
    ensures After(run) == Apply(After(Front(run)), Last(run))
  {
  }

  lemma OneMoreStep(run: seq<Step>, step: Step)
    requires Legal(run) && Enabled(After(run), step)
    ensures Legal(run + [step]) && After(run + [step]) == Apply(After(run), step)
  {
    assert Front(run + [step]) == run;
  }

  lemma {:induction false} PrefixIsLegal(run: seq<Step>, n: nat)
    requires Legal(run) && n <= |run|
    ensures Legal(run[..n])
  {
    if n < |run| {
      PrefixIsLegal(Front(run), n);
      assert Front(run)[..n] == run[..n];
    } else {
      assert run[..n] == run;
    }
  }

  // ---------------------------------------------------------------- what the map holds

  predicate Writes(step: Step, callId: string) {
    || (step.Insert? && step.sender.callId == callId)
    || (step.Drop? && step.event.callId == callId)
  }

  /** `x` was inserted at `p` and its call id has been neither inserted nor dropped since. */
  predicate HeldSince(run: seq<Step>, x: Sender, p: int) {
    && 0 <= p < |run| && run[p] == Insert(x)
    && forall i :: p < i < |run| ==> !Writes(run[i], x.callId)
  }

  ghost predicate Holds(run: seq<Step>, x: Sender) {
    exists p :: HeldSince(run, x, p)
  }

  lemma HeldOneMore(run: seq<Step>, x: Sender, p: int)
    requires run != []
    ensures HeldSince(run, x, p) <==>
              if p == |run| - 1 then Last(run) == Insert(x)
              else HeldSince(Front(run), x, p) && !Writes(Last(run), x.callId)
  {
    if p != |run| - 1 && HeldSince(Front(run), x, p) && !Writes(Last(run), x.callId) {
      forall i | p < i < |run| ensures !Writes(run[i], x.callId) {
        if i < |run| - 1 {
          assert run[i] == Front(run)[i];
        }
      }
    }
    if p != |run| - 1 && HeldSince(run, x, p) {
      assert run[p] == Front(run)[p];
      assert forall i :: p < i < |run| - 1 ==> Front(run)[i] == run[i];
    }
  }

  lemma HoldsOneMore(run: seq<Step>, x: Sender)
    requires run != []
    ensures Holds(run, x) <==> Last(run) == Insert(x) || (Holds(Front(run), x) && !Writes(Last(run), x.callId))
  {
    forall p ensures HeldSince(run, x, p) <==>
              if p == |run| - 1 then Last(run) == Insert(x)
              else HeldSince(Front(run), x, p) && !Writes(Last(run), x.callId)
    {
      HeldOneMore(run, x, p);
    }
    if Holds(Front(run), x) {
      var p :| HeldSince(Front(run), x, p);
      if !Writes(Last(run), x.callId) {
        assert HeldSince(run, x, p);
      }
    }
    if Last(run) == Insert(x) {
      assert HeldSince(run, x, |run| - 1);
    }
  }

  lemma MapStep(s: State, step: Step, callId: string)
    requires Enabled(s, step)
    ensures var m, n := s.responseMap, Apply(s, step).responseMap;
            if step.Insert? && step.sender.callId == callId then callId in n && n[callId] == step.sender
            else if step.Drop? && step.event.callId == callId then callId !in n
            else (callId in n <==> callId in m) && (callId in m ==> n[callId] == m[callId])
  {
  }

  /** The map sends a call id to exactly the sender whose insertion it holds. */
  lemma {:induction false} MapHolds(run: seq<Step>, x: Sender)
    requires Legal(run)
    ensures var m := After(run).responseMap; (x.callId in m && m[x.callId] == x) <==> Holds(run, x)
  {
    if run != [] {
      LastStep(run);
      hide After, Legal, Apply, Enabled;
      MapHolds(Front(run), x);
      HoldsOneMore(run, x);
      MapStep(After(Front(run)), Last(run), x.callId);
    }
  }

  // ---------------------------------------------------------------- who fills a slot

  /** The event looked at the map at `g` and found the slot of `x`, and filled it at `t`. */
  ghost predicate FedAt(run: seq<Step>, x: Sender, e: Event, g: int, t: int) {
    && 0 <= g < t < |run|
    && run[g] == Lookup(e) && run[t] == Fill(e)
    && e.callId == x.callId && Holds(run[..g], x)
  }

  ghost predicate Fed(run: seq<Step>, x: Sender, message: string) {
    exists e, g, t :: FedAt(run, x, e, g, t) && e.message == Some(message)
  }

  /** What was fed stays fed. */
  lemma FedLater(run: seq<Step>, n: nat, x: Sender, message: string)
    requires n <= |run| && Fed(run[..n], x, message)
    ensures Fed(run, x, message)
  {
    var e, g, t :| FedAt(run[..n], x, e, g, t) && e.message == Some(message);
    assert run[..n][..g] == run[..g];
    assert FedAt(run, x, e, g, t);
  }

  /** An event in the table has looked the map up once, and its slot is what the map held then. */
  ghost predicate LookedUpAt(run: seq<Step>, e: Event, g: int) {
    0 <= g < |run| && run[g] == Lookup(e)
  }

  lemma EventTableStep(s: State, step: Step, e: Event)
    requires Enabled(s, step)
    ensures e in Apply(s, step).events <==> e in s.events || step == Lookup(e)
    ensures step == Lookup(e) ==> e !in s.events
  {
  }

  lemma {:induction false} EventsHaveLookedUp(run: seq<Step>, e: Event)
    requires Legal(run)
    ensures e in After(run).events <==> exists g :: LookedUpAt(run, e, g)
    ensures forall g, h :: LookedUpAt(run, e, g) && LookedUpAt(run, e, h) ==> g == h
  {
    if run != [] {
      LastStep(run);
      EventTableStep(After(Front(run)), Last(run), e);
      hide After, Legal, Apply, Enabled;
      EventsHaveLookedUp(Front(run), e);
      assert forall g :: LookedUpAt(Front(run), e, g) <==> LookedUpAt(run, e, g) && g < |run| - 1;
      assert LookedUpAt(run, e, |run| - 1) <==> Last(run) == Lookup(e);
    }
  }

  lemma EventPhaseStep(s: State, step: Step, e: Event)
    requires Enabled(s, step) && e in s.events
    ensures e in Apply(s, step).events
    ensures Apply(s, step).events[e].Found? ==> Apply(s, step).events[e] == s.events[e]
    ensures Apply(s, step).events[e].Found? <==> s.events[e].Found? && step != Fill(e)
    ensures s.events[e] == Ended ==> Apply(s, step).events[e] == Ended
  {
  }

  ghost predicate FilledAfter(run: seq<Step>, e: Event, g: nat) {
    exists t :: g < t < |run| && run[t] == Fill(e)
  }

  /** What an event found is what the map held when it looked, until it fills the slot. */
  lemma {:induction false} FoundWhatTheMapHeld(run: seq<Step>, e: Event, g: int, x: Sender)
    requires Legal(run) && LookedUpAt(run, e, g)
    ensures e in After(run).events
    ensures After(run).events[e].Found? ==>
              (After(run).events[e].slot == Some(x) <==> Holds(run[..g], x) && e.callId == x.callId)
    ensures After(run).events[e].Found? <==> !FilledAfter(run, e, g)
  {
    hide Holds;
    var before, step := Front(run), Last(run);
    assert After(run) == Apply(After(before), step);
    if g == |run| - 1 {
      assert run[..g] == before;
      MapHolds(before, x);
      FoundIsInTheMap(before, e.callId);
    } else {
      assert LookedUpAt(before, e, g) && before[..g] == run[..g];
      FoundWhatTheMapHeld(before, e, g, x);
      EventPhaseStep(After(before), step, e);
      FilledOneMore(run, e, g);
    }
  }

  lemma FilledOneMore(run: seq<Step>, e: Event, g: int)
    requires 0 <= g < |run| - 1
    ensures FilledAfter(run, e, g) <==> FilledAfter(Front(run), e, g) || Last(run) == Fill(e)
  {
    assert forall t :: g < t < |run| - 1 ==> Front(run)[t] == run[t];
    if FilledAfter(Front(run), e, g) {
      var t :| g < t < |run| - 1 && Front(run)[t] == Fill(e);
      assert run[t] == Fill(e);
    }
    if FilledAfter(run, e, g) && Last(run) != Fill(e) {
      var t :| g < t < |run| && run[t] == Fill(e);
      assert Front(run)[t] == Fill(e);
    }
  }

  lemma {:induction false} FoundIsInTheMap(run: seq<Step>, callId: string)
    requires Legal(run)
    ensures var m := After(run).responseMap; callId in m ==> m[callId].callId == callId
  {
    if run != [] {
      LastStep(run);
      MapStep(After(Front(run)), Last(run), callId);
      hide After, Legal, Apply, Enabled;
      FoundIsInTheMap(Front(run), callId);
    }
  }

  lemma SlotStep(s: State, step: Step, x: Sender)
    requires Enabled(s, step)
    ensures var t := Apply(s, step);
            && (x in s.value ==> x in t.value)
            && (step.Fill? && step.event.message.Some? && s.events[step.event].slot == Some(x) ==>
                  x in t.value && Some(t.value[x]) == step.event.message)
            && (x in t.value && !(x in s.value && s.value[x] == t.value[x]) ==>
                  step.Fill? && s.events[step.event].slot == Some(x) && step.event.message == Some(t.value[x]))
            && (x in s.pool.done ==> x in t.pool.done)
            && (x in t.pool.done && !(x in s.pool.done && s.pool.done[x] == t.pool.done[x]) ==>
                  x in s.value && s.value[x] == t.pool.done[x])
  {
  }

  lemma {:induction false} SlotIsFed(run: seq<Step>, x: Sender)
    requires Legal(run)
    ensures x in After(run).value ==> Fed(run, x, After(run).value[x])
    ensures x in After(run).pool.done ==> Fed(run, x, After(run).pool.done[x])
  {
    hide Fed, Holds;
    if run != [] {
      var s, step := After(Front(run)), Last(run);
      assert After(run) == Apply(s, step);
      SlotIsFed(Front(run), x);
      SlotStep(s, step, x);
      if x in s.value {
        FedLater(run, |run| - 1, x, s.value[x]);
      }
      if x in s.pool.done {
        FedLater(run, |run| - 1, x, s.pool.done[x]);
      }
      if step.Fill? && s.events[step.event].slot == Some(x) && step.event.message.Some? {
        FillFeeds(run, x);
      }
    }
  }

  lemma FillFeeds(run: seq<Step>, x: Sender)
    requires Legal(run) && run != [] && Last(run).Fill? && Last(run).event.message.Some?
    requires After(Front(run)).events[Last(run).event].slot == Some(x)
    ensures Fed(run, x, Last(run).event.message.value)
  {
    var e := Last(run).event;
    EventsHaveLookedUp(Front(run), e);
    var g :| LookedUpAt(Front(run), e, g);
    FoundWhatTheMapHeld(Front(run), e, g, x);
    assert Front(run)[..g] == run[..g];
    assert FedAt(run, x, e, g, |run| - 1);
  }

  lemma {:induction false} FedSlotIsFilled(run: seq<Step>, x: Sender, e: Event, g: int, t: int)
    requires Legal(run) && FedAt(run, x, e, g, t) && e.message.Some?
    ensures x in After(run).value
  {
    hide Holds;
    var s, step := After(Front(run)), Last(run);
    assert After(run) == Apply(s, step);
    SlotStep(s, step, x);
    assert Front(run)[..g] == run[..g];
    if t < |run| - 1 {
      FedSlotIsFilled(Front(run), x, e, g, t);
    } else {
      assert LookedUpAt(Front(run), e, g);
      FoundWhatTheMapHeld(Front(run), e, g, x);
    }
  }

  // ---------------------------------------------------------------- the rendezvous

  /** Whether `x` has been put into the map. */
  predicate Inserted(s: State, x: Sender) {
    x in s.senders && (s.senders[x] == Waiting || s.senders[x].Returned?)
  }

  lemma SenderStep(s: State, step: Step, x: Sender)
    requires Enabled(s, step)
    ensures Inserted(s, x) ==> Inserted(Apply(s, step), x) && step != Insert(x)
    ensures step == Insert(x) ==> Inserted(Apply(s, step), x)
    ensures x in Apply(s, step).senders && Apply(s, step).senders[x].Returned? ==>
              if step == Return(x) then x in s.pool.done && s.pool.done[x] == Apply(s, step).senders[x].message
              else x in s.senders && s.senders[x] == Apply(s, step).senders[x]
  {
  }

  /**
   A send that has returned a message returned one of an event with its own call id, which found its slot in the map.
   */
  lemma {:induction false} ReturnsItsOwnMessage(run: seq<Step>, x: Sender)
    requires Legal(run) && x in After(run).senders && After(run).senders[x].Returned?
    ensures Fed(run, x, After(run).senders[x].message)
  {
    LastStep(run);
    SenderStep(After(Front(run)), Last(run), x);
    hide Fed, Holds, After, Legal, Apply, Enabled;
    if Last(run) == Return(x) {
      SlotIsFed(Front(run), x);
    } else {
      ReturnsItsOwnMessage(Front(run), x);
    }
    FedLater(run, |run| - 1, x, After(run).senders[x].message);
  }

  /** A slot is filled exactly when an event with a message looked at the map while the slot was in it. */
  lemma FilledIffFoundInTheMap(run: seq<Step>, x: Sender)
    requires Legal(run)
    ensures x in After(run).value <==> exists message :: Fed(run, x, message)
  {
    if x in After(run).value {
      SlotIsFed(run, x);
    }
    if message :| Fed(run, x, message) {
      var e, g, t :| FedAt(run, x, e, g, t) && e.message == Some(message);
      FedSlotIsFilled(run, x, e, g, t);
    }
  }

  // ---------------------------------------------------------------- answers lost and found

  lemma {:induction false} InsertsOnce(run: seq<Step>, x: Sender, p: int)
    requires Legal(run) && 0 <= p < |run| && run[p] == Insert(x)
    ensures Inserted(After(run), x)
    ensures forall i :: 0 <= i < |run| && run[i] == Insert(x) ==> i == p
  {
    LastStep(run);
    SenderStep(After(Front(run)), Last(run), x);
    hide After, Legal, Apply, Enabled;
    if p < |run| - 1 {
      InsertsOnce(Front(run), x, p);
      assert forall i :: 0 <= i < |run| - 1 ==> Front(run)[i] == run[i];
    } else if i :| 0 <= i < |run| - 1 && run[i] == Insert(x) {
      assert Front(run)[i] == run[i];
      InsertsOnce(Front(run), x, i);
    }
  }

  /**
   The event found the slot after its insertion at `p`, before anything else was done to its call id, and filled it.
   */
  predicate AnsweredAt(run: seq<Step>, x: Sender, p: nat, e: Event, g: int, t: int) {
    && p < g < t < |run|
    && run[g] == Lookup(e) && run[t] == Fill(e) && e.callId == x.callId && e.message.Some?
    && forall i :: p < i < g ==> !Writes(run[i], x.callId)
  }

  lemma FedIsAnswered(run: seq<Step>, x: Sender, p: nat, message: string)
    requires Legal(run) && p < |run| && run[p] == Insert(x) && Fed(run, x, message)
    ensures exists e, g, t :: AnsweredAt(run, x, p, e, g, t)
  {
    hide Legal;
    var e, g, t :| FedAt(run, x, e, g, t) && e.message == Some(message);
    var q :| HeldSince(run[..g], x, q);
    InsertsOnce(run, x, p);
    assert run[q] == Insert(x);
    assert forall i :: p < i < g ==> run[..g][i] == run[i];
    assert AnsweredAt(run, x, p, e, g, t);
  }

  /**
   A send is answered if and only if an event with a message looks at the map between its insertion and the next
   insertion or drop of its call id.
   */
  lemma AnsweredIffFoundInTime(run: seq<Step>, x: Sender, p: nat)
    requires Legal(run) && p < |run| && run[p] == Insert(x)
    ensures x in After(run).value <==> exists e, g, t :: AnsweredAt(run, x, p, e, g, t)
  {
    if x in After(run).value {
      SlotIsFed(run, x);
      FedIsAnswered(run, x, p, After(run).value[x]);
    }
    if e, g, t :| AnsweredAt(run, x, p, e, g, t) {
      assert forall i :: p <= i < g ==> run[..g][i] == run[i];
      assert HeldSince(run[..g], x, p);
      assert FedAt(run, x, e, g, t);
      FedSlotIsFilled(run, x, e, g, t);
    }
  }

  lemma UnansweredWaits(run: seq<Step>, x: Sender, p: nat)
    requires Legal(run) && p < |run| && run[p] == Insert(x)
    requires forall e, g, t :: !AnsweredAt(run, x, p, e, g, t)
    ensures x in After(run).senders && After(run).senders[x] == Waiting && x !in After(run).value
  {
    hide Legal, After, AnsweredAt, Fed;
    AnsweredIffFoundInTime(run, x, p);
    InsertsOnce(run, x, p);
    if After(run).senders[x].Returned? {
      var message := After(run).senders[x].message;
      ReturnsItsOwnMessage(run, x);
      FedIsAnswered(run, x, p, message);
    }
  }

  /** When no event looks at the map after the insertion, the send never returns. */
  lemma NoEventAfterTheInsertion(run: seq<Step>, x: Sender, p: nat)
    requires Legal(run) && p < |run| && run[p] == Insert(x)
    requires forall i :: p < i < |run| && run[i].Lookup? ==> run[i].event.callId != x.callId
    ensures x in After(run).senders && After(run).senders[x] == Waiting && x !in After(run).value
  {
    UnansweredWaits(run, x, p);
  }

  /** Once its call id is dropped or inserted again before an event has found the slot, the send never returns. */
  lemma LosingTheSlotIsFinal(run: seq<Step>, x: Sender, p: nat, w: nat)
    requires Legal(run) && p < w < |run| && run[p] == Insert(x) && Writes(run[w], x.callId)
    requires forall i :: p < i < w && run[i].Lookup? ==> run[i].event.callId != x.callId
    ensures x in After(run).senders && After(run).senders[x] == Waiting && x !in After(run).value
  {
    UnansweredWaits(run, x, p);
  }

  /**
   The insertion comes after the request has been sent, so the answer can come first: an event that looked at the
   map before the insertion has its message lost and takes the slot out of the map when it drops the call id. From
   then on no event can find the slot, and the send never returns, whatever happens next.
   */
  lemma AnswerBeforeTheInsertionIsLost(run: seq<Step>, x: Sender, e: Event)
    requires Legal(run) && 6 <= |run| && run[..6] == Race(x, e)
    requires e.callId == x.callId && e.message.Some?
    ensures x in After(run).senders && After(run).senders[x] == Waiting && x !in After(run).value
  {
    hide Legal, After;
    assert run[3] == run[..6][3] && run[4] == run[..6][4] && run[5] == run[..6][5];
    LosingTheSlotIsFinal(run, x, 3, 5);
  }

  function Race(x: Sender, e: Event): seq<Step> {
    [Send(x), Submit(x), Lookup(e), Insert(x), Fill(e), Drop(e)]
  }

  /** Not even a second answer with the call id, coming after all that, is received. */
  lemma SecondAnswerIsLostToo(x: Sender, e: Event, f: Event)
    requires e.callId == f.callId == x.callId && e != f && e.message.Some? && f.message.Some?
    ensures var run := Race(x, e) + [Lookup(f), Fill(f), Drop(f)];
            && Legal(run)
            && x in After(run).senders && After(run).senders[x] == Waiting && x !in After(run).value
  {
    var race := Race(x, e);
    RaceHappens(x, e);
    assert Enabled(After(race), Lookup(f)) by { NotYetLookedUp(race, f); }
    hide Legal, After;
    OneMoreStep(race, Lookup(f));
    OneMoreStep(race + [Lookup(f)], Fill(f));
    OneMoreStep(race + [Lookup(f)] + [Fill(f)], Drop(f));
    var run := race + [Lookup(f), Fill(f), Drop(f)];
    assert run == race + [Lookup(f)] + [Fill(f)] + [Drop(f)];
    assert run[..6] == race;
    AnswerBeforeTheInsertionIsLost(run, x, e);
  }

  lemma NotYetLookedUp(run: seq<Step>, f: Event)
    requires Legal(run) && forall i :: 0 <= i < |run| ==> run[i] != Lookup(f)
    ensures f !in After(run).events
  {
    EventsHaveLookedUp(run, f);
  }

  /** The race can happen, also when the answer is the only one there will ever be. */
  lemma RaceHappens(x: Sender, e: Event)
    ensures Legal(Race(x, e))
  {
    var s0: seq<Step> := [];
    OneMoreStep(s0, Send(x));
    var s1 := s0 + [Send(x)];
    OneMoreStep(s1, Submit(x));
    var s2 := s1 + [Submit(x)];
    OneMoreStep(s2, Lookup(e));
    var s3 := s2 + [Lookup(e)];
    OneMoreStep(s3, Insert(x));
    var s4 := s3 + [Insert(x)];
    OneMoreStep(s4, Fill(e));
    OneMoreStep(s4 + [Fill(e)], Drop(e));
    assert Race(x, e) == s4 + [Fill(e)] + [Drop(e)];
  }

  lemma {:induction false} EndedStays(run: seq<Step>, n: nat, e: Event)
    requires Legal(run) && n <= |run| && Legal(run[..n])
    requires e in After(run[..n]).events && After(run[..n]).events[e] == Ended
    ensures e in After(run).events && After(run).events[e] == Ended
  {
    if n < |run| {
      assert Front(run)[..n] == run[..n];
      LastStep(run);
      hide After, Legal, Apply, Enabled;
      EndedStays(Front(run), n, e);
      EventPhaseStep(After(Front(run)), Last(run), e);
    } else {
      assert run[..n] == run;
    }
  }

  /** No event of the call id is between its look at the map and its drop. */
  ghost predicate NoneUnderWay(s: State, callId: string) {
    forall e :: e in s.events && e.callId == callId ==> s.events[e] == Ended
  }

  lemma EarlierLooksHaveEnded(run: seq<Step>, p: nat, e: Event, h: int)
    requires Legal(run) && p <= |run| && LookedUpAt(run, e, h) && h < p
    requires Legal(run[..p]) && NoneUnderWay(After(run[..p]), e.callId)
    ensures e in After(run).events && After(run).events[e] == Ended
  {
    hide Legal, After;
    assert LookedUpAt(run[..p], e, h);
    EventsHaveLookedUp(run[..p], e);
    EndedStays(run, p, e);
  }

  lemma DropNeedsALookup(run: seq<Step>, p: nat, i: nat, e: Event)
    requires Legal(run) && p < i < |run| && run[i] == Drop(e) && run[p].Insert?
    requires Legal(run[..p]) && NoneUnderWay(After(run[..p]), e.callId)
    ensures exists h :: p < h < i && run[h] == Lookup(e)
  {
    hide Legal, After, NoneUnderWay;
    PrefixIsLegal(run, i + 1);
    assert Front(run[..i + 1]) == run[..i] && Last(run[..i + 1]) == Drop(e);
    LastStep(run[..i + 1]);
    EventsHaveLookedUp(run[..i], e);
    var h :| LookedUpAt(run[..i], e, h);
    assert run[h] == Lookup(e);
    if h < p {
      assert run[..i][..p] == run[..p];
      EarlierLooksHaveEnded(run[..i], p, e, h);
    }
  }

  /**
   With the call id to itself, and no event of it under way when its slot goes into the map, a send gets the
   first answer that comes after.
   */
  lemma FirstEventAfterTheInsertionFills(run: seq<Step>, x: Sender, e: Event, p: nat, g: nat, t: nat)
    requires Legal(run) && p < g < t < |run|
    requires run[p] == Insert(x) && run[g] == Lookup(e) && run[t] == Fill(e)
    requires e.callId == x.callId && e.message.Some?
    requires forall i :: p < i < g ==> !(run[i].Insert? && run[i].sender.callId == x.callId)
    requires forall i :: p < i < g ==> !(run[i].Lookup? && run[i].event.callId == x.callId)
    requires Legal(run[..p]) && NoneUnderWay(After(run[..p]), x.callId)
    ensures x in After(run).value
  {
    forall i | p < i < g ensures !Writes(run[i], x.callId) {
      if run[i].Drop? && run[i].event.callId == x.callId {
        DropNeedsALookup(run, p, i, run[i].event);
      }
    }
    assert HeldSince(run[..g], x, p);
    assert FedAt(run, x, e, g, t);
    FedSlotIsFilled(run, x, e, g, t);
  }
}
