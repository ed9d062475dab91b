/**
 The thread pool of the requester (mods/requester/src/main/java/io/routr/requester/RequesterService.java): which sends
 get a thread, over every interleaving.
 */
module RequesterPool {
  import opened Requester

  // ---------------------------------------------------------------- the pool

  predicate InPool(pool: Pool, x: Sender) {
    x in pool.running || x in pool.queue
  }

  /** Two threads at most; tasks queue only while both are taken; no task is in two places. */
  ghost predicate PoolValid(pool: Pool) {
    && |pool.running| <= POOL_SIZE
    && (|pool.running| < POOL_SIZE ==> pool.queue == [])
    && (forall i, j :: 0 <= i < j < |pool.queue| ==> pool.queue[i] != pool.queue[j])
    && (forall x :: x in pool.running ==> x !in pool.queue)
    && (forall x :: InPool(pool, x) ==> x !in pool.done)
  }

  /** Every submitted task is in the pool until it is done, and no other is. */
  ghost predicate PoolInvariant(s: State) {
    && PoolValid(s.pool)
    && forall x :: x in s.senders && s.senders[x] != Sent <==> InPool(s.pool, x) || x in s.pool.done
  }

  lemma SubmittingKeeps(pool: Pool, x: Sender)
    requires PoolValid(pool) && !InPool(pool, x) && x !in pool.done
    ensures PoolValid(Submitting(pool, x)) && Submitting(pool, x).done == pool.done
    ensures forall y :: InPool(Submitting(pool, x), y) <==> InPool(pool, y) || y == x
  {
    var next := Submitting(pool, x);
    assert forall y :: InPool(next, y) <==> InPool(pool, y) || y == x;
  }

  lemma FinishingKeeps(pool: Pool, x: Sender, result: string)
    requires PoolValid(pool) && x in pool.running
    ensures PoolValid(Finishing(pool, x, result)) && Finishing(pool, x, result).done == pool.done[x := result]
    ensures forall y :: InPool(Finishing(pool, x, result), y) <==> InPool(pool, y) && y != x
  {
    var next := Finishing(pool, x, result);
    if pool.queue != [] {
      assert pool.queue == [pool.queue[0]] + next.queue;
      assert forall i :: 0 <= i < |next.queue| ==> next.queue[i] == pool.queue[i + 1];
    }
    assert forall y :: InPool(next, y) <==> InPool(pool, y) && y != x;
  }

  lemma InRunning(pool: Pool, x: Sender)
    requires x in pool.running
    ensures InPool(pool, x)
  {
  }

  lemma PoolStep(s: State, step: Step)
    requires PoolInvariant(s) && Enabled(s, step)
    ensures PoolInvariant(Apply(s, step))
  {
    hide PoolValid, InPool, Submitting, Finishing;
    match step
    case Submit(x) => SubmittingKeeps(s.pool, x);
    case Finish(x) =>
      assert InPool(s.pool, x) by { InRunning(s.pool, x); }
      FinishingKeeps(s.pool, x, s.value[x]);
    case _ =>
  }

  lemma {:induction false} PoolInvariantHolds(run: seq<Step>)
    requires Legal(run)
    ensures PoolInvariant(After(run))
  {
    if run != [] {
      LastStep(run);
      PoolInvariantHolds(Front(run));
      PoolStep(After(Front(run)), Last(run));
    }
  }

  /** Two tasks run at most, and while any waits there are two that run. */
  lemma TwoRunAtMost(run: seq<Step>)
    requires Legal(run)
    ensures var pool := After(run).pool; |pool.running| <= 2 && (pool.queue != [] ==> |pool.running| == 2)
  {
    PoolInvariantHolds(run);
  }

  // ---------------------------------------------------------------- who gets a thread

  /** `u` has its thread, or stands in the queue before `x`. */
  predicate AheadOf(pool: Pool, u: Sender, x: Sender) {
    u in pool.running || exists i, j :: 0 <= i < j < |pool.queue| && pool.queue[i] == u && pool.queue[j] == x
  }

  /** `x` comes after both: it is in the queue behind them, or has not been submitted yet. */
  predicate Behind(pool: Pool, x: Sender, u: Sender, v: Sender) {
    && u != v && InPool(pool, u) && InPool(pool, v) && x !in pool.running && x !in pool.done
    && (x in pool.queue ==> AheadOf(pool, u, x) && AheadOf(pool, v, x))
  }

  lemma TwoOfTwo(running: set<Sender>, u: Sender, v: Sender)
    requires u in running && v in running && u != v && |running| <= POOL_SIZE
    ensures running == {u, v}
  {
    var others := running - {u, v};
    assert running == others + {u, v};
  }

  /** A newcomer comes after both as well, since both are there before it and leave it no thread. */
  lemma SubmittingStaysBehind(pool: Pool, y: Sender, x: Sender, u: Sender, v: Sender)
    requires PoolValid(pool) && Behind(pool, x, u, v) && !InPool(pool, y) && y !in pool.done
    ensures Behind(Submitting(pool, y), x, u, v)
  {
    if |pool.running| < POOL_SIZE {
      TwoOfTwo(pool.running, u, v);
    } else {
      var queue := pool.queue + [y];
      assert queue[|pool.queue|] == y;
      assert forall i :: 0 <= i < |pool.queue| ==> queue[i] == pool.queue[i];
    }
  }

  /** Neither of the two is finished, so the thread that is freed cannot be for what comes after both. */
  lemma FinishingStaysBehind(pool: Pool, y: Sender, result: string, x: Sender, u: Sender, v: Sender)
    requires PoolValid(pool) && Behind(pool, x, u, v) && y in pool.running && y != u && y != v
    ensures Behind(Finishing(pool, y, result), x, u, v)
  {
    if pool.queue != [] {
      if pool.queue[0] == x {
        TwoOfTwo(pool.running, u, v);
      }
      var next := pool.queue[1..];
      assert forall i :: 0 <= i < |next| ==> next[i] == pool.queue[i + 1];
      if x in next {
        StillAhead(pool, y, result, u, x);
        StillAhead(pool, y, result, v, x);
      }
      assert pool.queue == [pool.queue[0]] + next;
    } else {
      TwoOfTwo(pool.running, u, v);
    }
  }

  lemma StillAhead(pool: Pool, y: Sender, result: string, u: Sender, x: Sender)
    requires PoolValid(pool) && AheadOf(pool, u, x) && u != y && y in pool.running && pool.queue != []
    ensures AheadOf(Finishing(pool, y, result), u, x)
  {
    var next := pool.queue[1..];
    if u !in pool.running && u != pool.queue[0] {
      var i, j :| 0 <= i < j < |pool.queue| && pool.queue[i] == u && pool.queue[j] == x;
      assert next[i - 1] == u && next[j - 1] == x;
    }
  }

  lemma StepStaysBehind(s: State, step: Step, x: Sender, u: Sender, v: Sender)
    requires PoolInvariant(s) && Enabled(s, step) && Behind(s.pool, x, u, v)
    requires u !in s.value && v !in s.value
    ensures Behind(Apply(s, step).pool, x, u, v)
  {
    hide PoolValid, Submitting, Finishing, Behind, InPool;
    match step
    case Submit(y) => SubmittingStaysBehind(s.pool, y, x, u, v);
    case Finish(y) => FinishingStaysBehind(s.pool, y, s.value[y], x, u, v);
    case _ =>
  }

  /**
   Two sends that stay without an answer block every send that comes after both, whether they run already or one of
   them, or both, still wait in the queue; whatever else happens, and however well that send is answered.
   */
  lemma {:induction false} TwoUnansweredSendsBlockTheRest(run: seq<Step>, rest: seq<Step>, x: Sender, u: Sender,
                                                          v: Sender)
    requires Legal(run) && Legal(run + rest) && Behind(After(run).pool, x, u, v)
    requires u !in After(run + rest).value && v !in After(run + rest).value
    ensures Behind(After(run + rest).pool, x, u, v) && x !in After(run + rest).pool.done
    decreases |rest|
  {
    if rest == [] {
      assert run + rest == run;
    } else {
      var all, before := run + rest, rest[..|rest| - 1];
      assert Front(all) == run + before;
      LastStep(all);
      var s, step := After(Front(all)), Last(all);
      PoolInvariantHolds(Front(all));
      hide After, Legal, Apply, Enabled, PoolInvariant, AheadOf, InPool;
      SlotStep(s, step, u);
      SlotStep(s, step, v);
      TwoUnansweredSendsBlockTheRest(run, before, x, u, v);
      StepStaysBehind(s, step, x, u, v);
    }
  }

  /** The sends without an answer among those that run and the first `k` of the queue. */
  function UnansweredAhead(s: State, k: nat): set<Sender>
    requires k <= |s.pool.queue|
  {
    (set y | y in s.pool.running && y !in s.value) + (set y | y in s.pool.queue[..k] && y !in s.value)
  }

  predicate OnlyFinishes(rest: seq<Step>) {
    forall i :: 0 <= i < |rest| ==> rest[i].Finish?
  }

  lemma FinishNext(run: seq<Step>, y: Sender)
    requires Legal(run) && y in After(run).pool.running && y in After(run).value
    ensures var next, pool := run + [Finish(y)], After(run).pool;
            && Legal(next) && After(next).value == After(run).value
            && After(next).pool == Finishing(pool, y, After(run).value[y])
  {
    var next := run + [Finish(y)];
    assert Front(next) == run && Last(next) == Finish(y);
  }

  lemma RunningAreAhead(s: State, k: nat)
    requires k <= |s.pool.queue| && forall z :: z in s.pool.running ==> z !in s.value
    ensures |UnansweredAhead(s, k)| >= |s.pool.running|
  {
    assert s.pool.running <= UnansweredAhead(s, k);
    var others := UnansweredAhead(s, k) - s.pool.running;
    assert UnansweredAhead(s, k) == s.pool.running + others;
  }

  /** As long as fewer sends ahead are unanswered than there are threads, some running one is answered. */
  lemma SomeRunningIsAnswered(s: State, k: nat) returns (y: Sender)
    requires PoolValid(s.pool) && k < |s.pool.queue| && |UnansweredAhead(s, k)| < POOL_SIZE
    ensures y in s.pool.running && y in s.value
  {
    hide UnansweredAhead;
    if forall z :: z in s.pool.running ==> z !in s.value {
      RunningAreAhead(s, k);
    }
    y :| y in s.pool.running && y in s.value;
  }

  /** Finishing one that is answered brings the next one nearer and leaves the same sends unanswered ahead of it. */
  lemma OneNearer(s: State, y: Sender, k: nat, next: State)
    requires 0 < k < |s.pool.queue| && y in s.pool.running && y in s.value
    requires next.value == s.value && next.pool == Finishing(s.pool, y, s.value[y])
    ensures next.pool.queue == s.pool.queue[1..] && UnansweredAhead(next, k - 1) == UnansweredAhead(s, k)
  {
    var queue := s.pool.queue;
    assert next.pool.queue[..k - 1] == queue[1..k] && queue[..k] == [queue[0]] + queue[1..k];
  }

  /** One finish on the way to the k-th in the queue. */
  lemma OneFinish(run: seq<Step>, k: nat) returns (y: Sender)
    requires Legal(run) && k < |After(run).pool.queue| && |UnansweredAhead(After(run), k)| < POOL_SIZE
    ensures var s, next := After(run), run + [Finish(y)];
            && Legal(next) && After(next).value == s.value
            && s.pool.queue[0] in After(next).pool.running
            && (k > 0 ==> k - 1 < |After(next).pool.queue| && After(next).pool.queue[k - 1] == s.pool.queue[k]
                          && UnansweredAhead(After(next), k - 1) == UnansweredAhead(s, k))
  {
    PoolInvariantHolds(run);
    var s := After(run);
    y := SomeRunningIsAnswered(s, k);
    var next := run + [Finish(y)];
    FinishNext(run, y);
    hide After, Legal, Apply, Enabled, UnansweredAhead, PoolValid;
    if k > 0 {
      OneNearer(s, y, k, After(next));
    }
  }

  /** Then finishing tasks alone gets to the k-th in the queue. */
  lemma {:induction false} OneThreadGetsThrough(run: seq<Step>, k: nat) returns (rest: seq<Step>)
    requires Legal(run) && k < |After(run).pool.queue| && After(run).pool.queue[k] in After(run).value
    requires |UnansweredAhead(After(run), k)| < POOL_SIZE
    ensures OnlyFinishes(rest) && Legal(run + rest) && After(run).pool.queue[k] in After(run + rest).pool.done
    decreases k
  {
    hide After, Legal, Apply, Enabled, UnansweredAhead;
    var x := After(run).pool.queue[k];
    var y := OneFinish(run, k);
    var next := run + [Finish(y)];
    if k == 0 {
      FinishNext(next, x);
      FinishedIsDone(After(next).pool, x, After(next).value[x]);
      rest := [Finish(y), Finish(x)];
      assert run + rest == next + [Finish(x)];
    } else {
      var more := OneThreadGetsThrough(next, k - 1);
      rest := [Finish(y)] + more;
      assert run + rest == next + more;
    }
  }

  lemma FinishedIsDone(pool: Pool, x: Sender, result: string)
    ensures x in Finishing(pool, x, result).done
  {
  }

  lemma {:induction false} FinishesFillNothing(run: seq<Step>, rest: seq<Step>)
    requires Legal(run) && Legal(run + rest) && OnlyFinishes(rest)
    ensures After(run + rest).value == After(run).value
    decreases |rest|
  {
    if rest == [] {
      assert run + rest == run;
    } else {
      var all, before := run + rest, rest[..|rest| - 1];
      assert Front(all) == run + before && Last(all) == rest[|rest| - 1];
      LastStep(all);
      assert Apply(After(Front(all)), Last(all)).value == After(Front(all)).value;
      hide After, Legal, Apply, Enabled;
      FinishesFillNothing(run, before);
    }
  }

  lemma TwoAmong(sends: set<Sender>) returns (u: Sender, v: Sender)
    requires |sends| >= 2
    ensures u in sends && v in sends && u != v
  {
    u :| u in sends;
    var others := sends - {u};
    assert |others| >= 1;
    v :| v in others;
  }

  lemma AheadInTheQueue(s: State, k: nat, u: Sender)
    requires PoolValid(s.pool) && k < |s.pool.queue| && u in UnansweredAhead(s, k)
    ensures InPool(s.pool, u) && AheadOf(s.pool, u, s.pool.queue[k]) && u !in s.value
  {
    if u !in s.pool.running {
      var i :| 0 <= i < k && s.pool.queue[..k][i] == u;
      assert s.pool.queue[i] == u;
    }
  }

  /**
   An answered send that waits for a thread can complete without any more answers if and only if fewer sends are
   unanswered among those that run and those before it in the queue than there are threads.
   */
  lemma CompletesIffAThreadGetsThrough(run: seq<Step>, k: nat)
    requires Legal(run) && k < |After(run).pool.queue| && After(run).pool.queue[k] in After(run).value
    ensures (exists rest :: OnlyFinishes(rest) && Legal(run + rest)
                            && After(run).pool.queue[k] in After(run + rest).pool.done)
            <==> |UnansweredAhead(After(run), k)| < POOL_SIZE
  {
    var s := After(run);
    var x := s.pool.queue[k];
    PoolInvariantHolds(run);
    if |UnansweredAhead(s, k)| < POOL_SIZE {
      var rest := OneThreadGetsThrough(run, k);
    } else {
      var u, v := TwoAmong(UnansweredAhead(s, k));
      AheadInTheQueue(s, k, u);
      AheadInTheQueue(s, k, v);
      assert InPool(s.pool, x);
      forall rest | OnlyFinishes(rest) && Legal(run + rest) ensures x !in After(run + rest).pool.done {
        FinishesFillNothing(run, rest);
        TwoUnansweredSendsBlockTheRest(run, rest, x, u, v);
      }
    }
  }
}
