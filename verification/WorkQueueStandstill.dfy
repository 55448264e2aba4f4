/** Runs into a standstill, for every queue that is not set up or used soundly (src/workqueue.h). */
module WorkQueueStandstill {
  import opened Strings
  import opened Counting
  import opened WorkQueue
  import opened WorkQueueLiveness
  import opened WorkQueueBound

  lemma {:induction false} ExecAppend<T>(s: State<T>, a: seq<Action<T>>, b: seq<Action<T>>)
    requires Exec(s, a).Some?
    ensures Exec(s, a + b) == Exec(Exec(s, a).value, b)
    decreases |a|
  {
    if a == [] {
      assert a + b == b;
    } else {
      assert (a + b)[1..] == a[1..] + b;
      ExecAppend(Next(s, a[0]), a[1..], b);
    }
  }

  /** acts is a run of allowed steps from s to r. */
  ghost predicate Path<T>(cfg: Config, s: State<T>, acts: seq<Action<T>>, r: State<T>) {
    Exec(s, acts) == Some(r) && forall a :: a in acts ==> Allowed(cfg, a)
  }

  ghost predicate Leads<T(!new)>(cfg: Config, s: State<T>, r: State<T>) {
    exists acts: seq<Action<T>> :: Path(cfg, s, acts, r)
  }

  lemma LeadsStep<T(!new)>(cfg: Config, s: State<T>, q: State<T>, a: Action<T>, r: State<T>)
    requires Leads(cfg, s, q) && Enabled(q, a) && Allowed(cfg, a) && r == Next(q, a)
    ensures Leads(cfg, s, r)
  {
    var acts :| Path(cfg, s, acts, q);
    ExecAppend(s, acts, [a]);
    assert Exec(q, [a]) == Some(r);
    assert Path(cfg, s, acts + [a], r);
  }

  lemma LeadsStart<T(!new)>(cfg: Config, s: State<T>)
    ensures Leads(cfg, s, s)
  {
    assert Path(cfg, s, [], s);
  }

  /** A queue in ordinary operation: the first k workers sleep, the others are free. */
  predicate Napping<T>(s: State<T>, k: nat) {
    && s.mok && s.workersExited == 0 && s.low > 0
    && k <= |s.workers| && s.workersWaiting == k && |s.queue| <= |s.accepted|
    && forall w :: 0 <= w < |s.workers| ==> s.workers[w] == if w < k then Asleep else Free
  }

  /** With too few tasks for the low mark all the workers go to sleep, and tell nobody. */
  lemma {:induction false} AllNap<T(!new)>(cfg: Config, s0: State<T>, s: State<T>, k: nat, pick: nat)
    returns (r: State<T>)
    requires Leads(cfg, s0, s) && Napping(s, k) && |s.workers| > 0
    requires |s.queue| < s.low && CanPickC(s, pick) && (s.queue == [] ==> forall c :: c in s.clients ==> c.Away?)
    ensures Leads(cfg, s0, r) && Napping(r, |s.workers|)
    ensures r == s.(workers := r.workers, workersWaiting := |s.workers|) && |r.workers| == |s.workers|
    decreases |s.workers| - k
  {
    if k == |s.workers| {
      r := s;
    } else {
      var a: Action<T> := ATake(k, pick);
      var q := Next(s, a);
      assert forall i :: 0 <= i < |s.clients| ==> s.clients[i] in s.clients && q.clients[i] == s.clients[i];
      assert q == s.(workers := s.workers[k := Asleep], workersWaiting := k + 1);
      LeadsStep(cfg, s0, s, a, q);
      r := AllNap(cfg, s0, q, k + 1, pick);
    }
  }

  /** A client puts n tasks while the workers are busy elsewhere. */
  lemma {:induction false} Fill<T(!new)>(cfg: Config, s0: State<T>, s: State<T>, t: T, n: nat) returns (r: State<T>)
    requires Leads(cfg, s0, s) && Napping(s, 0) && |s.workers| > 0
    requires |s.clients| > 0 && s.clients[0].Away?
    requires s.high > 0 ==> |s.queue| + n <= s.high
    ensures Leads(cfg, s0, r) && Napping(r, 0)
    ensures r == s.(queue := r.queue, accepted := r.accepted) && |r.queue| == |s.queue| + n
    decreases n
  {
    if n == 0 {
      r := s;
    } else {
      var a: Action<T> := APut(0, t, false, 0);
      var q := Next(s, a);
      assert q == s.(queue := s.queue + [t], accepted := s.accepted + [t]);
      LeadsStep(cfg, s0, s, a, q);
      r := Fill(cfg, s0, q, t, n - 1);
    }
  }

  lemma StuckFinal<T>(s: State<T>, c: nat)
    requires Napping(s, |s.workers|) && c < |s.clients| && s.clients[c].Sleeping?
    requires forall d :: 0 <= d < |s.clients| ==> !s.clients[d].Woken?
    ensures Stuck(s)
  {
  }

  /** waitIdle() with a task left below the low mark. */
  lemma IdleStuck<T(!new)>(cfg: Config, workers: nat, clients: nat, t: T) returns (r: State<T>)
    requires cfg.low > 1 && cfg.idle && workers > 0 && clients > 0
    ensures Leads(cfg, Start<T>(cfg.low, cfg.high, workers, clients), r) && Stuck(r)
  {
    var s0 := Start<T>(cfg.low, cfg.high, workers, clients);
    LeadsStart(cfg, s0);
    var s1 := Fill(cfg, s0, s0, t, 1);
    var s2 := AllNap(cfg, s0, s1, 0, 0);
    var a: Action<T> := AIdle(0);
    r := Next(s2, a);
    LeadsStep(cfg, s0, s2, a, r);
    assert r.clients[0].Sleeping?;
    StuckFinal(r, 0);
  }

  /** A full queue that is still below the low mark. */
  lemma FullStuck<T(!new)>(cfg: Config, workers: nat, clients: nat, t: T) returns (r: State<T>)
    requires 0 < cfg.high < cfg.low && workers > 0 && clients > 0
    ensures Leads(cfg, Start<T>(cfg.low, cfg.high, workers, clients), r) && Stuck(r)
  {
    var s0 := Start<T>(cfg.low, cfg.high, workers, clients);
    LeadsStart(cfg, s0);
    var s1 := Fill(cfg, s0, s0, t, cfg.high);
    var s2 := AllNap(cfg, s0, s1, 0, 0);
    var a: Action<T> := APut(0, t, false, 0);
    r := Next(s2, a);
    LeadsStep(cfg, s0, s2, a, r);
    assert r.clients[0].Sleeping?;
    StuckFinal(r, 0);
  }

  /** Two producers wait at the high mark. One is woken and flushes: nobody wakes the other. */
  lemma FlushStuck<T(!new)>(cfg: Config, workers: nat, clients: nat, t: T) returns (r: State<T>)
    requires 1 < cfg.low <= cfg.high && cfg.flush && workers > 0 && clients > 1
    ensures Leads(cfg, Start<T>(cfg.low, cfg.high, workers, clients), r) && Stuck(r)
  {
    var s0 := Start<T>(cfg.low, cfg.high, workers, clients);
    LeadsStart(cfg, s0);
    var s1 := Fill(cfg, s0, s0, t, cfg.high);
    var s2 := BothSleep(cfg, s0, s1, t);
    var s3 := FlushAfterTake(cfg, s0, s2, t);
    r := AllNap(cfg, s0, s3, 0, 1);
    StuckFinal(r, 1);
  }

  lemma BothSleep<T(!new)>(cfg: Config, s0: State<T>, s: State<T>, t: T) returns (r: State<T>)
    requires Leads(cfg, s0, s) && Napping(s, 0) && |s.workers| > 0 && cfg.flush
    requires 0 < s.high == |s.queue| && |s.clients| > 1 && forall c :: c in s.clients ==> c.Away?
    requires s.clientsWaiting == 0
    ensures Leads(cfg, s0, r) && Napping(r, 0) && r.clientsWaiting == 2
    ensures r == s.(clients := r.clients, clientsWaiting := 2) && |r.clients| == |s.clients|
    ensures r.clients[0] == r.clients[1] == Sleeping(InPut(t, true))
    ensures forall c :: 1 < c < |r.clients| ==> r.clients[c].Away?
  {
    var a: Action<T> := APut(0, t, true, 0);
    var q := Next(s, a);
    LeadsStep(cfg, s0, s, a, q);
    var b: Action<T> := APut(1, t, true, 0);
    assert q.clients[1].Away?;
    r := Next(q, b);
    LeadsStep(cfg, s0, q, b, r);
  }

  lemma FlushAfterTake<T(!new)>(cfg: Config, s0: State<T>, s: State<T>, t: T) returns (r: State<T>)
    requires Leads(cfg, s0, s) && Napping(s, 0) && |s.workers| > 0 && s.clientsWaiting == 2
    requires s.low <= s.high == |s.queue| && 1 < s.high && |s.clients| > 1
    requires s.clients[0] == s.clients[1] == Sleeping(InPut(t, true))
    requires forall c :: 1 < c < |s.clients| ==> s.clients[c].Away?
    ensures Leads(cfg, s0, r) && Napping(r, 0) && |r.workers| == |s.workers|
    ensures |r.queue| == 1 && r.low == s.low && r.high == s.high && |r.clients| == |s.clients|
    ensures r.clients[1] == Sleeping(InPut(t, true)) && forall c :: 0 <= c < |r.clients| ==> !r.clients[c].Woken?
  {
    var a: Action<T> := ATake(0, 0);
    var q := Next(s, a);
    LeadsStep(cfg, s0, s, a, q);
    assert q.workers[0].Busy? && q.clients[0] == Woken(InPut(t, true));
    var b: Action<T> := AWakeClient(0, 0);
    var q2 := Next(q, b);
    LeadsStep(cfg, s0, q, b, q2);
    assert q2.queue == [t] && q2.workers == q.workers;
    var d: Action<T> := AFinish(0);
    r := Next(q2, d);
    LeadsStep(cfg, s0, q2, d, r);
  }

  /** A worker takes a first task and fails. The one that is woken for the next task exits when it finds the
      queue down, the others sleep on over it, and so does the client in waitIdle(). */
  lemma FailStuck<T(!new)>(cfg: Config, workers: nat, clients: nat, t: T) returns (r: State<T>)
    requires cfg.low == 1 && cfg.idle && cfg.fail && workers > 2 && clients > 0
    ensures Leads(cfg, Start<T>(cfg.low, cfg.high, workers, clients), r) && Stuck(r)
    ensures !r.mok && |r.queue| == 1
  {
    var s0 := Start<T>(cfg.low, cfg.high, workers, clients);
    LeadsStart(cfg, s0);
    var s1 := AllNap(cfg, s0, s0, 0, 0);
    var s2 := OneBusy(cfg, s0, s1, t);
    var s3 := OneFailed(cfg, s0, s2, t);
    r := OneLeft(cfg, s0, s3);
  }

  /** The states of the first two workers, while the others sleep. */
  predicate TwoOf(ws: seq<Worker>, x: Worker, y: Worker) {
    |ws| > 2 && ws[0] == x && ws[1] == y && forall w :: 2 <= w < |ws| ==> ws[w] == Asleep
  }

  predicate NobodyIn<T>(s: State<T>) {
    |s.clients| > 0 && s.clientsWaiting == 0 && forall c :: 0 <= c < |s.clients| ==> s.clients[c].Away?
  }

  lemma OneBusy<T(!new)>(cfg: Config, s0: State<T>, s: State<T>, t: T) returns (r: State<T>)
    requires Leads(cfg, s0, s) && Napping(s, |s.workers|) && s.low == 1 && |s.workers| > 2
    requires s.queue == [] && NobodyIn(s)
    ensures Leads(cfg, s0, r) && TwoOf(r.workers, Busy(|s.accepted|), Asleep)
    ensures r == s.(workers := r.workers, workersWaiting := |s.workers| - 1, accepted := r.accepted, taken := r.taken)
  {
    var a: Action<T> := APut(0, t, false, 0);
    var q := Next(s, a);
    LeadsStep(cfg, s0, s, a, q);
    assert q.queue == [t] && q.workers[0] == Signalled;
    var b: Action<T> := AWakeWorker(0, 0);
    r := Next(q, b);
    LeadsStep(cfg, s0, q, b, r);
  }

  lemma OneFailed<T(!new)>(cfg: Config, s0: State<T>, s: State<T>, t: T) returns (r: State<T>)
    requires Leads(cfg, s0, s) && s.mok && s.workersExited == 0 && s.low == 1 && cfg.fail
    requires |s.workers| > 0 && s.workers[0].Busy? && TwoOf(s.workers, s.workers[0], Asleep) && s.workersWaiting > 0
    requires s.queue == [] && NobodyIn(s)
    ensures Leads(cfg, s0, r) && !r.mok && TwoOf(r.workers, Exited, Signalled) && r.workersExited == 1
    ensures |r.queue| == 1 && |r.accepted| > 0 && r.low == 1 && NobodyIn(r) && |r.workers| == |s.workers|
  {
    var a: Action<T> := APut(0, t, false, 1);
    var q := Next(s, a);
    LeadsStep(cfg, s0, s, a, q);
    assert q.queue == [t] && q.workers == s.workers[1 := Signalled];
    var b: Action<T> := AFail(0);
    var q2 := Next(q, b);
    LeadsStep(cfg, s0, q, b, q2);
    var d: Action<T> := AExit(0);
    r := Next(q2, d);
    LeadsStep(cfg, s0, q2, d, r);
  }

  lemma OneLeft<T(!new)>(cfg: Config, s0: State<T>, s: State<T>) returns (r: State<T>)
    requires Leads(cfg, s0, s) && !s.mok && TwoOf(s.workers, Exited, Signalled) && s.workersExited == 1
    requires |s.queue| == 1 && |s.accepted| > 0 && s.low == 1 && NobodyIn(s) && cfg.idle
    ensures Leads(cfg, s0, r) && Stuck(r) && !r.mok && |r.queue| == 1
  {
    var a: Action<T> := AWakeWorker(1, 0);
    var q := Next(s, a);
    LeadsStep(cfg, s0, s, a, q);
    assert q.workers[1] == Leaving;
    var b: Action<T> := AExit(1);
    var q2 := Next(q, b);
    LeadsStep(cfg, s0, q, b, q2);
    var d: Action<T> := AIdle(0);
    r := Next(q2, d);
    LeadsStep(cfg, s0, q2, d, r);
    assert r.clients[0].Sleeping? && TwoOf(r.workers, Exited, Exited);
  }

  /** Every reachable state of a configuration is guarded. */
  lemma LeadsGuarded<T(!new)>(cfg: Config, workers: nat, clients: nat, r: State<T>)
    requires cfg.low > 0 && workers > 0 && Leads(cfg, Start<T>(cfg.low, cfg.high, workers, clients), r)
    ensures Guarded(cfg, r) && |r.clients| == clients && |r.workers| == workers
  {
    var s0 := Start<T>(cfg.low, cfg.high, workers, clients);
    var acts :| Path(cfg, s0, acts, r);
    StartGuarded<T>(cfg, workers, clients);
    ExecGuarded(cfg, s0, acts);
  }

  /** Exactly these queues never come to a standstill, whatever their users do. */
  lemma NeverStuckIff<T(!new)>(cfg: Config, workers: nat, clients: nat, t: T)
    requires cfg.low > 0 && workers > 0 && clients > 0
    ensures Sound(cfg, workers, clients) <==>
            forall r :: Leads(cfg, Start<T>(cfg.low, cfg.high, workers, clients), r) ==> !Stuck(r)
  {
    var s0 := Start<T>(cfg.low, cfg.high, workers, clients);
    if Sound(cfg, workers, clients) {
      forall r | Leads(cfg, s0, r) ensures !Stuck(r) {
        LeadsGuarded(cfg, workers, clients, r);
        SoundNotStuck(cfg, r);
      }
    } else {
      var r;
      if cfg.low == 1 {
        r := FailStuck(cfg, workers, clients, t);
      } else if cfg.idle {
        r := IdleStuck(cfg, workers, clients, t);
      } else if cfg.high < cfg.low {
        r := FullStuck(cfg, workers, clients, t);
      } else {
        r := FlushStuck(cfg, workers, clients, t);
      }
      assert Leads(cfg, s0, r) && Stuck(r);
    }
  }

  // ---------- the bound on sleeping producers ----------

  /** One wake-up for two waits: take() wakes the client in waitIdle(), which goes to sleep again. The producer
      sleeps on below the high mark, with nobody woken. */
  lemma IdleTakesSignal<T(!new)>(cfg: Config, workers: nat, clients: nat, t: T) returns (r: State<T>)
    requires 0 < cfg.low <= cfg.high && cfg.idle && workers > 0 && clients > 1
    ensures Leads(cfg, Start<T>(cfg.low, cfg.high, workers, clients), r) && !Bound(r)
    ensures |r.queue| == cfg.high - 1 && forall c :: 0 <= c < |r.clients| ==> !r.clients[c].Woken?
  {
    var s0 := Start<T>(cfg.low, cfg.high, workers, clients);
    LeadsStart(cfg, s0);
    var s1 := Fill(cfg, s0, s0, t, cfg.high);
    var a: Action<T> := APut(0, t, false, 0);
    var s2 := Next(s1, a);
    LeadsStep(cfg, s0, s1, a, s2);
    var b: Action<T> := AIdle(1);
    var s3 := Next(s2, b);
    LeadsStep(cfg, s0, s2, b, s3);
    assert s3.clients[0] == Sleeping(InPut(t, false)) && s3.clients[1] == Sleeping(InIdle);
    var d: Action<T> := ATake(0, 1);
    var s4 := Next(s3, d);
    LeadsStep(cfg, s0, s3, d, s4);
    assert s4.clients[0] == Sleeping(InPut(t, false)) && s4.clients[1] == Woken(InIdle);
    var e: Action<T> := AWakeClient(1, 0);
    r := Next(s4, e);
    LeadsStep(cfg, s0, s4, e, r);
    assert r.clients[0] == Sleeping(InPut(t, false)) && r.clients[1] == Sleeping(InIdle);
    assert forall c :: 1 < c < |r.clients| ==> r.clients[c].Away?;
    CountNone(r.clients, IsWokenProducer<T>());
  }

  /** The woken producer flushes, and the other one sleeps on over a single task. */
  lemma FlushBreaksBound<T(!new)>(cfg: Config, workers: nat, clients: nat, t: T) returns (r: State<T>)
    requires 0 < cfg.low <= cfg.high && 1 < cfg.high && cfg.flush && workers > 0 && clients > 1
    ensures Leads(cfg, Start<T>(cfg.low, cfg.high, workers, clients), r) && !Bound(r)
  {
    var s0 := Start<T>(cfg.low, cfg.high, workers, clients);
    LeadsStart(cfg, s0);
    var s1 := Fill(cfg, s0, s0, t, cfg.high);
    var s2 := BothSleep(cfg, s0, s1, t);
    r := FlushAfterTake(cfg, s0, s2, t);
    CountNone(r.clients, IsWokenProducer<T>());
    assert r.clients[1].Sleeping? && r.clients[1].why.InPut?;
  }

  /** Exactly for these queues it holds in every reachable state that, while a producer sleeps, the tasks and the
      woken producers together reach the high mark. */
  lemma ProducersBoundIff<T(!new)>(cfg: Config, workers: nat, clients: nat, t: T)
    requires cfg.low > 0 && workers > 0 && clients > 0
    ensures Bounding(cfg, clients) <==>
            forall r :: Leads(cfg, Start<T>(cfg.low, cfg.high, workers, clients), r) ==> Bound(r)
  {
    var s0 := Start<T>(cfg.low, cfg.high, workers, clients);
    if Bounding(cfg, clients) {
      forall r | Leads(cfg, s0, r) ensures Bound(r) {
        LeadsGuarded(cfg, workers, clients, r);
        GuardedBound(cfg, r);
      }
    } else {
      var r;
      if cfg.idle {
        r := IdleTakesSignal(cfg, workers, clients, t);
      } else {
        r := FlushBreaksBound(cfg, workers, clients, t);
      }
      assert Leads(cfg, s0, r) && !Bound(r);
    }
  }
}
