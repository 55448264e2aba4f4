/** Who is woken when: no lost wake-ups as long as the queue is up, even when workers fail
    (src/workqueue.h). */
module WorkQueueLiveness {
  import opened Counting
  import opened WorkQueue
  import opened WorkQueueSafety

  ghost predicate SomeAsleep<T>(s: State<T>) {
    exists w :: 0 <= w < |s.workers| && s.workers[w].Asleep?
  }

  ghost predicate SomeSleeping<T>(s: State<T>) {
    exists c :: 0 <= c < |s.clients| && s.clients[c].Sleeping?
  }

  function Signals<T>(s: State<T>): nat {
    Count(s.workers, IsSignalled())
  }

  function Wakes<T>(s: State<T>): nat {
    Count(s.clients, IsWoken<T>())
  }

  /** The queue is up until it is terminated or a worker exits. */
  ghost predicate Phases<T>(s: State<T>) {
    && s.low > 0 && |s.workers| > 0
    && (s.mok ==> forall w :: 0 <= w < |s.workers| ==> !s.workers[w].Exited?)
  }

  /** While a worker sleeps, the tasks beyond the low mark are covered by signalled workers. */
  ghost predicate WorkersHeard<T>(s: State<T>) {
    s.mok && SomeAsleep(s) ==> |s.queue| < s.low + Signals(s)
  }

  /** While a client sleeps there is work queued, or a worker that is not waiting for any. */
  ghost predicate ClientsHeard<T>(s: State<T>) {
    s.mok && SomeSleeping(s) ==> |s.queue| > 0 || s.workersWaiting < |s.workers|
  }

  lemma PhaseOk<T>(s: State<T>)
    requires Phases(s) && Counted(s)
    ensures s.mok ==> Ok(s)
  {
    CountNone(s.workers, HasExited());
  }

  lemma NapHeard<T>(s: State<T>, w: nat, t: State<T>)
    requires w < |s.workers| && s.mok && |s.queue| < s.low && t == Nap(s, w)
    ensures WorkersHeard(t) && ClientsHeard(t)
  {
  }

  lemma TakeHeadHeard<T>(s: State<T>, w: nat, pick: nat, t: State<T>)
    requires w < |s.workers| && s.mok && s.queue != [] && |s.queue| <= |s.accepted| && s.workers[w] == Free
    requires Counted(s) && t == TakeHead(s, w, pick)
    requires SomeAsleep(s) ==> |s.queue| <= s.low + Signals(s)
    ensures WorkersHeard(t) && ClientsHeard(t)
  {
    CountUpdate(s.workers, w, Busy(|s.accepted| - |s.queue|), IsSignalled());
    CountMost(s.workers, InWait());
    if SomeAsleep(t) {
      var v :| 0 <= v < |t.workers| && t.workers[v].Asleep?;
      assert s.workers[v].Asleep?;
    }
  }

  lemma TakeHeard<T>(s: State<T>, w: nat, pick: nat, t: State<T>)
    requires w < |s.workers| && |s.queue| <= |s.accepted| && s.workers[w] == Free && Counted(s)
    requires Phases(s) && t == Take(s, w, pick)
    requires s.mok && SomeAsleep(s) ==> |s.queue| <= s.low + Signals(s)
    ensures Phases(t) && WorkersHeard(t) && ClientsHeard(t)
  {
    PhaseOk(s);
    if s.mok {
      if |s.queue| < s.low { NapHeard(s, w, t); } else { TakeHeadHeard(s, w, pick, t); }
    }
  }

  lemma WakeWorkerHeard<T>(s: State<T>, w: nat, pick: nat, t: State<T>)
    requires w < |s.workers| && |s.queue| <= |s.accepted| && s.workers[w] == Signalled && Counted(s)
    requires Phases(s) && WorkersHeard(s) && t == WakeWorker(s, w, pick)
    ensures Phases(t) && WorkersHeard(t) && ClientsHeard(t)
  {
    var s1 := SetWorker(s, w, Free).(workersWaiting := s.workersWaiting - 1);
    SetWorkerCounts(s, w, Free);
    CountUpdate(s.workers, w, Free, IsSignalled());
    if SomeAsleep(s1) {
      var v :| 0 <= v < |s1.workers| && s1.workers[v].Asleep?;
      assert s.workers[v].Asleep?;
    }
    TakeHeard(s1, w, pick, t);
  }

  lemma PushHeard<T>(s: State<T>, t: T, flush: bool, pick: nat, r: State<T>)
    requires |s.queue| <= |s.accepted| && Counted(s) && Phases(s) && WorkersHeard(s) && CanPickW(s, pick)
    requires r == Push(if flush then Flush(s) else s, t, pick)
    ensures Phases(r) && WorkersHeard(r) && ClientsHeard(r)
  {
    CountNone(s.workers, InWait());
    if SomeAsleep(s) {
      CountUpdate(s.workers, pick, Signalled, IsSignalled());
    }
    if SomeAsleep(r) {
      var v :| 0 <= v < |r.workers| && r.workers[v].Asleep?;
      assert s.workers[v].Asleep?;
    }
  }

  lemma PutHeard<T>(s: State<T>, c: nat, t: T, flush: bool, pick: nat, r: State<T>)
    requires c < |s.clients| && |s.queue| <= |s.accepted| && Counted(s) && CanPickW(s, pick)
    requires Phases(s) && WorkersHeard(s) && ClientsHeard(s) && r == Put(s, c, t, flush, pick)
    ensures Phases(r) && WorkersHeard(r) && ClientsHeard(r)
  {
    if Ok(s) && !(s.high > 0 && |s.queue| >= s.high) {
      PushHeard(s, t, flush, pick, r);
    }
  }

  lemma IdleHeard<T>(s: State<T>, c: nat, r: State<T>)
    requires c < |s.clients| && Counted(s)
    requires Phases(s) && WorkersHeard(s) && ClientsHeard(s) && r == WaitIdle(s, c)
    ensures Phases(r) && WorkersHeard(r) && ClientsHeard(r)
  {
    PhaseOk(s);
  }

  lemma TerminateHeard<T>(s: State<T>, c: nat, r: State<T>)
    requires c < |s.clients| && Counted(s) && Phases(s) && r == Terminate(s, c)
    ensures Phases(r) && WorkersHeard(r) && ClientsHeard(r)
  {
    CountNone(s.workers, HasExited());
    CountMost(s.workers, HasExited());
  }

  /** A woken client has left the wait and runs on. */
  function Resumed<T>(s: State<T>, c: nat): State<T>
    requires c < |s.clients|
  {
    SetClient(s, c, Away).(clientsWaiting := s.clientsWaiting - 1)
  }

  lemma ResumedHeard<T>(s: State<T>, c: nat, r: State<T>)
    requires c < |s.clients| && s.clients[c].Woken? && Counted(s) && r == Resumed(s, c)
    requires Phases(s) && WorkersHeard(s) && ClientsHeard(s)
    ensures Counted(r) && Phases(r) && WorkersHeard(r) && ClientsHeard(r)
  {
    SetClientCounts(s, c, Away);
    if SomeSleeping(r) {
      var d :| 0 <= d < |r.clients| && r.clients[d].Sleeping?;
      assert s.clients[d].Sleeping?;
    }
  }

  lemma WakeClientHeard<T>(s: State<T>, c: nat, pick: nat, r: State<T>)
    requires c < |s.clients| && s.clients[c].Woken? && |s.queue| <= |s.accepted| && Counted(s) && CanPickW(s, pick)
    requires Phases(s) && WorkersHeard(s) && ClientsHeard(s) && r == WakeClient(s, c, pick)
    ensures Phases(r) && WorkersHeard(r) && ClientsHeard(r)
  {
    var s1 := Resumed(s, c);
    ResumedHeard(s, c, s1);
    var why := s.clients[c].why;
    if why.InPut? { PutHeard(s1, c, why.task, why.flush, pick, r); }
    else if why.InIdle? { IdleHeard(s1, c, r); }
    else { TerminateHeard(s1, c, r); }
  }

  lemma SpuriousHeard<T>(s: State<T>, w: nat, r: State<T>)
    requires w < |s.workers| && s.workers[w].Asleep? && r == SetWorker(s, w, Signalled)
    requires Phases(s) && WorkersHeard(s) && ClientsHeard(s)
    ensures Phases(r) && WorkersHeard(r) && ClientsHeard(r)
  {
    CountUpdate(s.workers, w, Signalled, IsSignalled());
  }

  lemma OtherHeard<T>(s: State<T>, a: Action<T>, r: State<T>)
    requires a.AFinish? || a.AFail? || a.AExit? || a.ASpuriousC?
    requires Enabled(s, a) && Counted(s) && Phases(s) && WorkersHeard(s) && ClientsHeard(s) && r == Next(s, a)
    ensures Phases(r) && WorkersHeard(r) && ClientsHeard(r)
  {
    if a.AFinish? || a.AFail? {
      CountUpdate(s.workers, a.w, r.workers[a.w], IsSignalled());
      if SomeAsleep(r) {
        var v :| 0 <= v < |r.workers| && r.workers[v].Asleep?;
        assert s.workers[v].Asleep?;
      }
    } else if a.ASpuriousC? {
      if SomeSleeping(r) {
        var d :| 0 <= d < |r.clients| && r.clients[d].Sleeping?;
        assert s.clients[d].Sleeping?;
      }
    }
  }

  /** No step loses a wake-up. */
  lemma NextHeard<T>(s: State<T>, a: Action<T>, r: State<T>)
    requires Enabled(s, a) && r == Next(s, a)
    requires Counted(s) && Phases(s) && WorkersHeard(s) && ClientsHeard(s)
    ensures Counted(r) && Phases(r) && WorkersHeard(r) && ClientsHeard(r)
  {
    NextCounted(s, a);
    if a.ATake? { TakeHeard(s, a.w, a.pick, r); }
    else if a.AWakeWorker? { WakeWorkerHeard(s, a.w, a.pick, r); }
    else if a.APut? { PutHeard(s, a.c, a.t, a.flush, a.pick, r); }
    else if a.AIdle? { IdleHeard(s, a.c, r); }
    else if a.ATerminate? { TerminateHeard(s, a.c, r); }
    else if a.AWakeClient? { WakeClientHeard(s, a.c, a.pick, r); }
    else if a.ASpuriousW? { SpuriousHeard(s, a.w, r); }
    else { OtherHeard(s, a, r); }
  }

  // ---------- standstill ----------

  /** A worker that is not in a wait, or was woken. */
  ghost predicate Active<T>(s: State<T>) {
    exists w :: 0 <= w < |s.workers| && !s.workers[w].Asleep? && !s.workers[w].Exited?
  }

  /** Everybody inside the queue sleeps unnoticed, and a client is among them: only a new call from
      outside could set anything in motion. */
  ghost predicate Stuck<T>(s: State<T>) {
    && SomeSleeping(s) && !Active(s)
    && (forall c :: 0 <= c < |s.clients| ==> !s.clients[c].Woken?)
  }

  /** How a queue is set up and used: whether there are idle waits, flushing puts, and workers that fail. */
  datatype Config = Config(low: nat, high: nat, idle: bool, flush: bool, fail: bool)

  predicate Allowed<T>(cfg: Config, a: Action<T>) {
    (a.AFail? ==> cfg.fail) && (a.AIdle? ==> cfg.idle) && (a.APut? && a.flush ==> cfg.flush)
  }

  /** Only producers are inside waits; while one sleeps, the tasks and the woken producers together reach the
      high mark, unless a flush may empty a queue of more than one. */
  ghost predicate ProducersHeard<T>(cfg: Config, s: State<T>) {
    s.mok ==>
      && (forall c :: 0 <= c < |s.clients| && !s.clients[c].Away? ==>
            s.clients[c].why.InPut? && (s.clients[c].why.flush ==> cfg.flush) && s.high > 0)
      && (SomeSleeping(s) && (!cfg.flush || s.high == 1) ==> |s.queue| + Wakes(s) >= s.high)
  }

  ghost predicate ConfigInv<T>(cfg: Config, s: State<T>) {
    && s.low == cfg.low && s.high == cfg.high
    && Counted(s) && Phases(s) && WorkersHeard(s) && ClientsHeard(s)
    && (!cfg.idle ==> ProducersHeard(cfg, s))
  }

  lemma NotifyWakes<T>(s: State<T>, pick: nat, r: State<T>)
    requires CanPickC(s, pick) && r == NotifyOneC(s, pick)
    ensures SomeSleeping(s) ==> Wakes(r) == Wakes(s) + 1
    ensures !SomeSleeping(s) ==> !SomeSleeping(r) && Wakes(r) == Wakes(s)
    ensures SomeSleeping(r) ==> SomeSleeping(s)
  {
    if pick < |s.clients| {
      CountUpdate(s.clients, pick, WakeC(s.clients[pick]), IsWoken<T>());
      if SomeSleeping(r) {
        var d :| 0 <= d < |r.clients| && r.clients[d].Sleeping?;
        assert s.clients[d].Sleeping?;
      }
    }
  }

  lemma TakeProducers<T>(cfg: Config, s: State<T>, w: nat, pick: nat, r: State<T>)
    requires w < |s.workers| && |s.queue| <= |s.accepted| && s.low > 0 && Counted(s) && CanPickC(s, pick)
    requires ProducersHeard(cfg, s) && r == Take(s, w, pick)
    ensures ProducersHeard(cfg, r)
  {
    if Ok(s) && |s.queue| >= s.low {
      var i := |s.accepted| - |s.queue|;
      var s1 := SetWorker(s, w, Busy(i)).(queue := s.queue[1..], taken := s.taken + [i]);
      NotifyWakes(s1, pick, NotifyOneC(s1, pick));
      CountNone(s.clients, Waits<T>());
      assert SomeSleeping(s1) <==> SomeSleeping(s);
    }
  }

  lemma PutProducers<T>(cfg: Config, s: State<T>, c: nat, t: T, flush: bool, pick: nat, r: State<T>)
    requires c < |s.clients| && |s.queue| <= |s.accepted| && s.clients[c].Away? && (flush ==> cfg.flush)
    requires s.mok ==> forall d :: 0 <= d < |s.clients| && !s.clients[d].Away? ==>
      s.clients[d].why.InPut? && (s.clients[d].why.flush ==> cfg.flush) && s.high > 0
    requires s.mok && SomeSleeping(s) && (!cfg.flush || s.high == 1) ==> |s.queue| + Wakes(s) + 1 >= s.high
    requires s.mok ==> Ok(s)
    requires r == Put(s, c, t, flush, pick)
    ensures ProducersHeard(cfg, r)
  {
    if s.mok {
      if s.high > 0 && |s.queue| >= s.high {
      } else {
        assert r.clients == s.clients;
        if SomeSleeping(r) { assert SomeSleeping(s); }
      }
    }
  }

  lemma WakeClientProducers<T>(cfg: Config, s: State<T>, c: nat, pick: nat, r: State<T>)
    requires c < |s.clients| && s.clients[c].Woken? && |s.queue| <= |s.accepted|
    requires Counted(s) && Phases(s) && ProducersHeard(cfg, s) && r == WakeClient(s, c, pick)
    ensures ProducersHeard(cfg, r)
  {
    if s.mok {
      var s1 := Resumed(s, c);
      PhaseOk(s);
      CountUpdate(s.clients, c, Away, IsWoken<T>());
      if SomeSleeping(s1) {
        var d :| 0 <= d < |s1.clients| && s1.clients[d].Sleeping?;
        assert s.clients[d].Sleeping?;
      }
      var why := s.clients[c].why;
      PutProducers(cfg, s1, c, why.task, why.flush, pick, r);
    } else {
      assert !r.mok;
    }
  }

  lemma SpuriousProducers<T>(cfg: Config, s: State<T>, c: nat, r: State<T>)
    requires c < |s.clients| && s.clients[c].Sleeping? && ProducersHeard(cfg, s)
    requires r == SetClient(s, c, Woken(s.clients[c].why))
    ensures ProducersHeard(cfg, r)
  {
    CountUpdate(s.clients, c, Woken(s.clients[c].why), IsWoken<T>());
  }

  lemma NextConfig<T>(cfg: Config, s: State<T>, a: Action<T>, r: State<T>)
    requires ConfigInv(cfg, s) && Enabled(s, a) && Allowed(cfg, a) && r == Next(s, a)
    ensures ConfigInv(cfg, r)
  {
    NextHeard(s, a, r);
    SameMarks(s, a, r);
    if !cfg.idle { NextProducers(cfg, s, a, r); }
  }

  lemma SameMarks<T>(s: State<T>, a: Action<T>, r: State<T>)
    requires Enabled(s, a) && r == Next(s, a)
    ensures r.low == s.low && r.high == s.high
  {
  }

  lemma NextProducers<T>(cfg: Config, s: State<T>, a: Action<T>, r: State<T>)
    requires ConfigInv(cfg, s) && Enabled(s, a) && Allowed(cfg, a) && r == Next(s, a) && !cfg.idle
    ensures ProducersHeard(cfg, r)
  {
    PhaseOk(s);
    if a.ATake? { TakeProducers(cfg, s, a.w, a.pick, r); }
    else if a.AWakeWorker? { WakeWorkerProducers(cfg, s, a.w, a.pick, r); }
    else if a.APut? { PutProducers(cfg, s, a.c, a.t, a.flush, a.pick, r); }
    else if a.AWakeClient? { WakeClientProducers(cfg, s, a.c, a.pick, r); }
    else if a.ASpuriousC? { SpuriousProducers(cfg, s, a.c, r); }
    else if a.AFinish? || a.AFail? || a.ASpuriousW? { SameClients(cfg, s, r); }
    else { assert !r.mok; }
  }

  lemma SameClients<T>(cfg: Config, s: State<T>, r: State<T>)
    requires ProducersHeard(cfg, s) && r.clients == s.clients && r.queue == s.queue
    requires r.mok == s.mok && r.high == s.high
    ensures ProducersHeard(cfg, r)
  {
  }

  lemma WakeWorkerProducers<T>(cfg: Config, s: State<T>, w: nat, pick: nat, r: State<T>)
    requires w < |s.workers| && s.workers[w] == Signalled && |s.queue| <= |s.accepted| && s.low > 0
    requires Counted(s) && CanPickC(s, pick) && ProducersHeard(cfg, s) && r == WakeWorker(s, w, pick)
    ensures ProducersHeard(cfg, r)
  {
    var s1 := SetWorker(s, w, Free).(workersWaiting := s.workersWaiting - 1);
    SetWorkerCounts(s, w, Free);
    SameClients(cfg, s, s1);
    TakeProducers(cfg, s1, w, pick, r);
  }

  lemma StartConfig<T>(cfg: Config, workers: nat, clients: nat)
    requires cfg.low > 0 && workers > 0
    ensures ConfigInv(cfg, Start<T>(cfg.low, cfg.high, workers, clients))
  {
    var s := Start<T>(cfg.low, cfg.high, workers, clients);
    CountNone(s.workers, InWait());
    CountNone(s.workers, HasExited());
    CountNone(s.clients, Waits<T>());
  }
}
