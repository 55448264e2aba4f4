/** While a producer sleeps the queue is full, but for the producers that were woken to fill it
    (src/workqueue.h). */
module WorkQueueBound {
  import opened Strings
  import opened Counting
  import opened WorkQueue
  import opened WorkQueueSafety
  import opened WorkQueueLiveness
  import opened WorkQueueLate

  function IsWokenProducer<T>(): Client<T> -> bool { (c: Client<T>) => c.Woken? && c.why.InPut? }

  ghost predicate ProducerSleeps<T>(s: State<T>) {
    exists c :: 0 <= c < |s.clients| && s.clients[c].Sleeping? && s.clients[c].why.InPut?
  }

  /** The tasks and the woken producers together reach the high mark. */
  ghost predicate Bound<T>(s: State<T>) {
    s.mok && ProducerSleeps(s) ==> |s.queue| + Count(s.clients, IsWokenProducer<T>()) >= s.high
  }

  /** A client that is alone; no high mark, or one that take() never gets past; or only producers, that flush at
      most a queue of one. */
  predicate Bounding(cfg: Config, clients: nat) {
    clients == 1 || cfg.high == 0 || cfg.high < cfg.low || (!cfg.idle && (!cfg.flush || cfg.high == 1))
  }

  /** The only client sleeps in put() on a full queue. */
  ghost predicate Alone<T>(s: State<T>) {
    |s.clients| == 1 && (s.mok && ProducerSleeps(s) ==> |s.queue| >= s.high)
  }

  /** No task is ever taken, and so a full queue stays full. */
  ghost predicate Untaken<T>(s: State<T>) {
    |s.queue| <= s.high < s.low && (s.mok && ProducerSleeps(s) ==> |s.queue| >= s.high)
  }

  lemma PutFull<T>(s: State<T>, c: nat, t: T, flush: bool, pick: nat, r: State<T>)
    requires c < |s.clients| && |s.queue| <= |s.accepted| && s.clients[c].Away? && r == Put(s, c, t, flush, pick)
    ensures Alone(s) ==> Alone(r)
    ensures Untaken(s) && (s.mok ==> Ok(s)) && s.high > 0 ==> Untaken(r)
  {
    if Alone(s) && ProducerSleeps(r) {
      assert r.clients[0].Sleeping?;
    }
    if Ok(s) && |s.queue| < s.high {
      assert r.clients == s.clients;
    }
  }

  /** A client back from its wait does not make another one sleep. */
  lemma ResumedFull<T>(s: State<T>, c: nat, r: State<T>)
    requires c < |s.clients| && s.clients[c].Woken? && r == Resumed(s, c)
    ensures ProducerSleeps(r) ==> ProducerSleeps(s)
  {
    if ProducerSleeps(r) {
      var d :| 0 <= d < |r.clients| && r.clients[d].Sleeping? && r.clients[d].why.InPut?;
      assert s.clients[d].Sleeping?;
    }
  }

  lemma OthersFull<T>(s: State<T>, a: Action<T>, r: State<T>)
    requires Enabled(s, a) && r == Next(s, a) && Counted(s) && Phases(s)
    requires a.AFinish? || a.AFail? || a.AExit? || a.AIdle? || a.ATerminate? || a.ASpuriousW? || a.ASpuriousC?
    ensures r.queue == s.queue && r.high == s.high && r.low == s.low && |r.clients| == |s.clients|
    ensures r.mok ==> s.mok && (ProducerSleeps(r) ==> ProducerSleeps(s))
  {
    if r.mok && ProducerSleeps(r) {
      var d :| 0 <= d < |r.clients| && r.clients[d].Sleeping? && r.clients[d].why.InPut?;
      assert s.clients[d] == r.clients[d];
    }
  }

  /** take() of the last resort: the only client is told. */
  lemma TakeAlone<T>(s: State<T>, w: nat, pick: nat, r: State<T>)
    requires w < |s.workers| && |s.queue| <= |s.accepted| && s.low > 0 && CanPickC(s, pick)
    requires Counted(s) && Alone(s) && r == Take(s, w, pick)
    ensures Alone(r)
  {
    CountNone(s.clients, Waits<T>());
    if r.mok && ProducerSleeps(r) {
      assert r.clients[0].Sleeping? && s.clients[0] == r.clients[0];
    }
  }

  lemma TakeUntaken<T>(s: State<T>, w: nat, pick: nat, r: State<T>)
    requires w < |s.workers| && |s.queue| <= |s.accepted| && s.low > 0 && Untaken(s) && r == Take(s, w, pick)
    ensures Untaken(r)
  {
    if r.mok && ProducerSleeps(r) {
      var d :| 0 <= d < |r.clients| && r.clients[d].Sleeping? && r.clients[d].why.InPut?;
      assert s.clients[d] == r.clients[d];
    }
  }

  lemma WakeClientFull<T>(s: State<T>, c: nat, pick: nat, r: State<T>)
    requires c < |s.clients| && s.clients[c].Woken? && |s.queue| <= |s.accepted| && Counted(s) && Phases(s)
    requires r == WakeClient(s, c, pick)
    ensures Alone(s) ==> Alone(r)
    ensures Untaken(s) && s.high > 0 ==> Untaken(r)
  {
    var s1, why := Resumed(s, c), s.clients[c].why;
    PhaseOk(s);
    ResumedFull(s, c, s1);
    if why.InPut? {
      PutFull(s1, c, why.task, why.flush, pick, r);
    } else if r.mok && ProducerSleeps(r) {
      var d :| 0 <= d < |r.clients| && r.clients[d].Sleeping? && r.clients[d].why.InPut?;
      assert s1.clients[d] == r.clients[d];
    }
  }

  lemma NextFull<T>(s: State<T>, a: Action<T>, r: State<T>)
    requires Enabled(s, a) && r == Next(s, a) && Counted(s) && Phases(s)
    ensures Alone(s) ==> Alone(r)
    ensures Untaken(s) && s.high > 0 ==> Untaken(r)
  {
    PhaseOk(s);
    if a.APut? { PutFull(s, a.c, a.t, a.flush, a.pick, r); }
    else if a.AWakeClient? { WakeClientFull(s, a.c, a.pick, r); }
    else if a.ATake? || a.AWakeWorker? {
      var s1 := if a.ATake? then s else SetWorker(s, a.w, Free).(workersWaiting := s.workersWaiting - 1);
      if a.AWakeWorker? { SetWorkerCounts(s, a.w, Free); }
      if Alone(s) { TakeAlone(s1, a.w, a.pick, r); }
      if Untaken(s) { TakeUntaken(s1, a.w, a.pick, r); }
    } else {
      OthersFull(s, a, r);
    }
  }

  /** What holds in all the states that a configuration reaches. */
  ghost predicate Guarded<T>(cfg: Config, s: State<T>) {
    && ConfigInv(cfg, s) && LateInv(cfg, s)
    && (|s.clients| == 1 ==> Alone(s)) && (0 < cfg.high < cfg.low ==> Untaken(s))
  }

  lemma NextClients<T>(s: State<T>, a: Action<T>, r: State<T>)
    requires Enabled(s, a) && r == Next(s, a)
    ensures |r.clients| == |s.clients|
  {
  }

  lemma NextGuarded<T>(cfg: Config, s: State<T>, a: Action<T>, r: State<T>)
    requires Guarded(cfg, s) && Enabled(s, a) && Allowed(cfg, a) && r == Next(s, a)
    ensures Guarded(cfg, r) && |r.clients| == |s.clients| && |r.workers| == |s.workers|
  {
    NextConfig(cfg, s, a, r);
    NextLateInv(cfg, s, a, r);
    NextFull(s, a, r);
    NextClients(s, a, r);
  }

  lemma {:induction false} ExecGuarded<T>(cfg: Config, s: State<T>, acts: seq<Action<T>>)
    requires Guarded(cfg, s) && Exec(s, acts).Some? && forall a :: a in acts ==> Allowed(cfg, a)
    ensures Guarded(cfg, Exec(s, acts).value)
    ensures |Exec(s, acts).value.clients| == |s.clients| && |Exec(s, acts).value.workers| == |s.workers|
    decreases |acts|
  {
    if acts != [] {
      var r := Next(s, acts[0]);
      NextGuarded(cfg, s, acts[0], r);
      ExecGuarded(cfg, r, acts[1..]);
    }
  }

  lemma StartGuarded<T>(cfg: Config, workers: nat, clients: nat)
    requires cfg.low > 0 && workers > 0
    ensures Guarded(cfg, Start<T>(cfg.low, cfg.high, workers, clients))
  {
    StartConfig<T>(cfg, workers, clients);
  }

  lemma GuardedBound<T>(cfg: Config, s: State<T>)
    requires Guarded(cfg, s) && Bounding(cfg, |s.clients|)
    ensures Bound(s)
  {
    if s.mok && ProducerSleeps(s) && |s.clients| != 1 && cfg.high >= cfg.low && cfg.high > 0 {
      assert SomeSleeping(s);
      CountSame(s.clients, s.clients, IsWoken<T>(), IsWokenProducer<T>());
    }
  }

  // ---------- standstill ----------

  /** Low mark 1; or only producers, with no bound, or with a bound that reaches the low mark and no flushing
      under another producer. If workers may fail there are at most two of them, or only producers. */
  predicate Sound(cfg: Config, workers: nat, clients: nat) {
    && (cfg.low == 1 || (!cfg.idle && (cfg.high == 0 || ((!cfg.flush || clients == 1) && cfg.low <= cfg.high))))
    && (!cfg.fail || !cfg.idle || workers <= 2)
  }

  lemma OnlyProducersSleep<T>(cfg: Config, s: State<T>)
    requires !cfg.idle && ProducersHeard(cfg, s) && s.mok && SomeSleeping(s)
    ensures ProducerSleeps(s)
  {
  }

  /** As long as the queue is up. */
  lemma UpNotStuck<T>(cfg: Config, s: State<T>)
    requires Sound(cfg, |s.workers|, |s.clients|) && Guarded(cfg, s) && s.mok
    ensures !Stuck(s)
  {
    if Stuck(s) {
      if !cfg.idle { OnlyProducersSleep(cfg, s); }
      CountNone(s.workers, IsSignalled());
      CountNone(s.clients, IsWoken<T>());
      CountMost(s.workers, InWait());
      assert false;
    }
  }

  /** And when it is down, because it is being terminated or because a worker failed. */
  lemma DownNotStuck<T>(cfg: Config, s: State<T>)
    requires Sound(cfg, |s.workers|, |s.clients|) && Guarded(cfg, s) && !s.mok
    ensures !Stuck(s)
  {
    if Stuck(s) {
      CountMost(s.workers, HasExited());
      assert false;
    }
  }

  lemma SoundNotStuck<T>(cfg: Config, s: State<T>)
    requires Sound(cfg, |s.workers|, |s.clients|) && Guarded(cfg, s)
    ensures !Stuck(s)
  {
    if s.mok { UpNotStuck(cfg, s); } else { DownNotStuck(cfg, s); }
  }
}
