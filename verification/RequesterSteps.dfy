/**
 What can happen next at the requester, told by what has happened
 (mods/requester/src/main/java/io/routr/requester/RequesterService.java).
 */
module RequesterSteps {
  import opened Wrappers
  import opened Requester

  /** The sender has gone through exactly the steps that it takes one after another. */
  ghost predicate SenderHas(s: State, x: Sender, run: seq<Step>) {
    && (x in s.senders <==> Send(x) in run)
    && (x in s.senders && s.senders[x] != Sent <==> Submit(x) in run)
    && (x in s.senders && (s.senders[x] == Waiting || s.senders[x].Returned?) <==> Insert(x) in run)
    && (x in s.senders && s.senders[x].Returned? <==> Return(x) in run)
    && (x in s.pool.done <==> Finish(x) in run)
  }

  ghost predicate EventHas(s: State, e: Event, run: seq<Step>) {
    && (e in s.events <==> Lookup(e) in run)
    && (e in s.events && !s.events[e].Found? <==> Fill(e) in run)
    && (e in s.events && s.events[e] == Ended <==> Drop(e) in run)
  }

  lemma SenderGoesOn(s: State, step: Step, x: Sender, run: seq<Step>)
    requires Enabled(s, step) && SenderHas(s, x, run)
    ensures SenderHas(Apply(s, step), x, run + [step])
  {
    assert forall other :: other in run + [step] <==> other in run || other == step;
  }

  lemma EventGoesOn(s: State, step: Step, e: Event, run: seq<Step>)
    requires Enabled(s, step) && EventHas(s, e, run)
    ensures EventHas(Apply(s, step), e, run + [step])
  {
    assert forall other :: other in run + [step] <==> other in run || other == step;
  }

  lemma {:induction false} StateTellsWhatWasDone(run: seq<Step>, x: Sender, e: Event)
    requires Legal(run)
    ensures SenderHas(After(run), x, run) && EventHas(After(run), e, run)
  {
    if run != [] {
      var front := Front(run);
      LastStep(run);
      hide After, Legal, Apply, Enabled, SenderHas, EventHas;
      StateTellsWhatWasDone(front, x, e);
      assert run == front + [Last(run)];
      SenderGoesOn(After(front), Last(run), x, front);
      EventGoesOn(After(front), Last(run), e, front);
    }
  }

  /** Its sender or event has taken the steps that come before it. */
  predicate ItsTurn(run: seq<Step>, step: Step) {
    match step
    case Send(_) => true
    case Submit(x) => Send(x) in run
    case Insert(x) => Submit(x) in run
    case Return(x) => Insert(x) in run && Finish(x) in run
    case Lookup(_) => true
    case Fill(e) => Lookup(e) in run
    case Drop(e) => Fill(e) in run
    case Finish(x) => Submit(x) in run
  }

  /**
   What can happen next, told by what has happened: a sender sends, submits, inserts and returns, each once and in that
   order, and returns only when its task is finished; an event looks up, fills and drops, each once and in that order.
   Nothing else holds either of them up, whatever the others have done in between.
   */
  lemma EnabledByWhatHasHappened(run: seq<Step>, step: Step)
    requires Legal(run) && !step.Finish?
    ensures Enabled(After(run), step) <==> step !in run && ItsTurn(run, step)
  {
    hide Legal, After;
    if step.Lookup? || step.Fill? || step.Drop? {
      StateTellsWhatWasDone(run, Sender(0, ""), step.event);
    } else {
      StateTellsWhatWasDone(run, step.sender, Event(0, "", None));
    }
  }
}
