/** The queue once it is being terminated or a worker has failed (src/workqueue.h). */
module WorkQueueLate {
  import opened Counting
  import opened WorkQueue
  import opened WorkQueueSafety
  import opened WorkQueueLiveness

  // ---------- sleeping clients ----------

  /** A sleeping client still has workers to hear from. */
  ghost predicate SleepersHeard<T>(s: State<T>) {
    SomeSleeping(s) ==> s.workersExited < |s.workers|
  }

  /** What the workers do to the clients: they wake them; an exit wakes them all, and while the queue is down
      every other step leaves its worker active. */
  lemma WorkerOnlyWakes<T>(s: State<T>, a: Action<T>, r: State<T>)
    requires Enabled(s, a) && ByWorker(a) && r == Next(s, a)
    ensures |r.clients| == |s.clients| && |r.workers| == |s.workers|
    ensures forall c :: 0 <= c < |s.clients| ==> r.clients[c] == s.clients[c] || r.clients[c] == WakeC(s.clients[c])
    ensures forall v :: 0 <= v < |s.workers| && v != a.w ==> r.workers[v] == s.workers[v]
    ensures a.AExit? ==> !SomeSleeping(r) && !r.mok
    ensures !a.AExit? ==> r.workersExited == s.workersExited && r.mok == s.mok
    ensures !a.AExit? && !s.mok ==> !r.workers[a.w].Asleep? && !r.workers[a.w].Exited? && r.queue == s.queue
  {
  }

  lemma NextSleepers<T>(s: State<T>, a: Action<T>, r: State<T>)
    requires Counted(s) && SleepersHeard(s) && Enabled(s, a) && r == Next(s, a)
    ensures SleepersHeard(r)
  {
    if ByWorker(a) {
      WorkerOnlyWakes(s, a, r);
      assert forall c :: 0 <= c < |r.clients| && r.clients[c].Sleeping? ==> s.clients[c].Sleeping?;
    } else {
      ClientSleepers(s, a, r);
    }
  }

  lemma ClientSleepers<T>(s: State<T>, a: Action<T>, r: State<T>)
    requires Counted(s) && SleepersHeard(s) && Enabled(s, a) && !ByWorker(a) && r == Next(s, a)
    ensures SleepersHeard(r)
  {
    ClientOnlyWakes(s, a, r);
    if r.workersExited >= |r.workers| {
      forall c | 0 <= c < |r.clients| ensures !r.clients[c].Sleeping? {
        assert !s.clients[c].Sleeping?;
      }
    }
  }

  ghost predicate IdleAllowed<T>(cfg: Config, s: State<T>) {
    forall c :: 0 <= c < |s.clients| && !s.clients[c].Away? && s.clients[c].why.InIdle? ==> cfg.idle
  }

  /** When the queue is down, a client sleeps only while some worker is on its way out, or in waitIdle() over
      tasks that nobody takes. */
  ghost predicate LateHeard<T>(cfg: Config, s: State<T>) {
    !s.mok && SomeSleeping(s) ==> Active(s) || (cfg.idle && s.queue != [])
  }

  ghost predicate ClientsLate<T>(cfg: Config, s: State<T>) {
    IdleAllowed(cfg, s) && LateHeard(cfg, s)
  }

  /** Workers that neither wait nor have exited are active. */
  lemma NotAllWaiting<T>(s: State<T>)
    requires Counted(s) && s.workersWaiting + s.workersExited < |s.workers|
    ensures Active(s)
  {
    var inOrOut := (w: Worker) => InWait()(w) || HasExited()(w);
    CountSum(s.workers, InWait(), HasExited(), inOrOut);
    CountMost(s.workers, inOrOut);
    var w :| 0 <= w < |s.workers| && !inOrOut(s.workers[w]);
    assert !s.workers[w].Asleep? && !s.workers[w].Exited?;
  }

  lemma IdleLate<T>(cfg: Config, s: State<T>, c: nat, r: State<T>)
    requires c < |s.clients| && cfg.idle && Counted(s) && ClientsLate(cfg, s) && r == WaitIdle(s, c)
    ensures ClientsLate(cfg, r)
  {
    if NotIdle(s) && s.workersWaiting + s.workersExited < |s.workers| {
      NotAllWaiting(s);
      var w :| 0 <= w < |s.workers| && !s.workers[w].Asleep? && !s.workers[w].Exited?;
      assert r.workers[w] == s.workers[w];
    }
  }

  lemma TerminateLate<T>(cfg: Config, s: State<T>, c: nat, r: State<T>)
    requires c < |s.clients| && Counted(s) && SleepersHeard(s) && ClientsLate(cfg, s) && r == Terminate(s, c)
    ensures ClientsLate(cfg, r)
  {
    CountMost(s.workers, HasExited());
    if s.workersExited < |s.workers| {
      var w :| 0 <= w < |s.workers| && !HasExited()(s.workers[w]);
      assert !r.workers[w].Asleep? && !r.workers[w].Exited?;
    }
  }

  lemma PutLate<T>(cfg: Config, s: State<T>, c: nat, t: T, flush: bool, pick: nat, r: State<T>)
    requires c < |s.clients| && |s.queue| <= |s.accepted| && ClientsLate(cfg, s)
    requires r == Put(s, c, t, flush, pick)
    ensures ClientsLate(cfg, r)
  {
    assert Ok(s) ==> r.mok;
  }

  lemma ResumedLate<T>(cfg: Config, s: State<T>, c: nat, r: State<T>)
    requires c < |s.clients| && s.clients[c].Woken? && Counted(s) && SleepersHeard(s) && ClientsLate(cfg, s)
    requires r == Resumed(s, c)
    ensures Counted(r) && SleepersHeard(r) && ClientsLate(cfg, r)
  {
    SetClientCounts(s, c, Away);
    if SomeSleeping(r) {
      var d :| 0 <= d < |r.clients| && r.clients[d].Sleeping?;
      assert s.clients[d].Sleeping?;
    }
    assert Active(s) ==> Active(r);
  }

  lemma ClientLate<T>(cfg: Config, s: State<T>, a: Action<T>, r: State<T>)
    requires Counted(s) && SleepersHeard(s) && ClientsLate(cfg, s)
    requires Enabled(s, a) && !ByWorker(a) && Allowed(cfg, a) && r == Next(s, a)
    ensures ClientsLate(cfg, r)
  {
    if a.APut? { PutLate(cfg, s, a.c, a.t, a.flush, a.pick, r); }
    else if a.AIdle? { IdleLate(cfg, s, a.c, r); }
    else if a.ATerminate? { TerminateLate(cfg, s, a.c, r); }
    else if a.AWakeClient? {
      var s1, why := Resumed(s, a.c), s.clients[a.c].why;
      ResumedLate(cfg, s, a.c, s1);
      if why.InPut? { PutLate(cfg, s1, a.c, why.task, why.flush, a.pick, r); }
      else if why.InIdle? { IdleLate(cfg, s1, a.c, r); }
      else { TerminateLate(cfg, s1, a.c, r); }
    } else {
      SpuriousLate(cfg, s, a.c, r);
    }
  }

  lemma SpuriousLate<T>(cfg: Config, s: State<T>, c: nat, r: State<T>)
    requires c < |s.clients| && s.clients[c].Sleeping? && ClientsLate(cfg, s)
    requires r == SetClient(s, c, Woken(s.clients[c].why))
    ensures ClientsLate(cfg, r)
  {
    assert Active(s) ==> Active(r);
  }

  lemma WorkerLate<T>(cfg: Config, s: State<T>, a: Action<T>, r: State<T>)
    requires ClientsLate(cfg, s) && Enabled(s, a) && ByWorker(a) && r == Next(s, a)
    ensures ClientsLate(cfg, r)
  {
    WorkerOnlyWakes(s, a, r);
    if SomeSleeping(r) {
      var c :| 0 <= c < |r.clients| && r.clients[c].Sleeping?;
      assert s.clients[c].Sleeping?;
    }
  }

  lemma NextLate<T>(cfg: Config, s: State<T>, a: Action<T>, r: State<T>)
    requires Counted(s) && SleepersHeard(s) && ClientsLate(cfg, s)
    requires Enabled(s, a) && Allowed(cfg, a) && r == Next(s, a)
    ensures ClientsLate(cfg, r)
  {
    if ByWorker(a) { WorkerLate(cfg, s, a, r); } else { ClientLate(cfg, s, a, r); }
  }

  // ---------- sleeping workers ----------

  /** Nobody has failed: no worker leaves before the queue is terminated, and none sleeps afterwards. */
  ghost predicate Orderly<T>(s: State<T>) {
    && (s.mok ==> forall w :: 0 <= w < |s.workers| ==> !s.workers[w].Leaving?)
    && (!s.mok ==> !SomeAsleep(s))
  }

  /** The queue is down and every worker knows. */
  ghost predicate Closing<T>(s: State<T>) {
    !s.mok && !SomeAsleep(s)
  }

  /** Whatever happens then, also when workers fail, no worker goes to sleep any more. */
  lemma NextClosing<T>(s: State<T>, a: Action<T>, r: State<T>)
    requires Closing(s) && Enabled(s, a) && r == Next(s, a)
    ensures Closing(r) && (!ByWorker(a) ==> r.workers == s.workers)
  {
    if ByWorker(a) {
      WorkerClosing(s, a, r);
    } else {
      ClientClosing(s, a, r);
    }
  }

  lemma WorkerClosing<T>(s: State<T>, a: Action<T>, r: State<T>)
    requires Closing(s) && Enabled(s, a) && ByWorker(a) && r == Next(s, a)
    ensures Closing(r)
  {
    WorkerOnlyWakes(s, a, r);
    assert forall v :: 0 <= v < |s.workers| ==> !s.workers[v].Asleep?;
  }

  lemma ClientClosing<T>(s: State<T>, a: Action<T>, r: State<T>)
    requires Closing(s) && Enabled(s, a) && !ByWorker(a) && r == Next(s, a)
    ensures Closing(r) && r.workers == s.workers
  {
    ClientOnlyWakes(s, a, r);
    assert forall w :: 0 <= w < |s.workers| ==> !s.workers[w].Asleep?;
  }

  lemma NextOrderly<T>(s: State<T>, a: Action<T>, r: State<T>)
    requires Counted(s) && Phases(s) && Orderly(s) && Enabled(s, a) && !a.AFail? && r == Next(s, a)
    ensures Orderly(r)
  {
    PhaseOk(s);
    if !s.mok {
      NextClosing(s, a, r);
    } else if ByWorker(a) {
      WorkerOrderly(s, a, r);
    } else {
      ClientOnlyWakes(s, a, r);
      if !r.mok { TerminateWakes(s, a, r); }
    }
  }

  lemma WorkerOrderly<T>(s: State<T>, a: Action<T>, r: State<T>)
    requires s.mok && Ok(s) && Orderly(s) && Enabled(s, a) && ByWorker(a) && !a.AFail? && r == Next(s, a)
    ensures Orderly(r)
  {
    assert !a.AExit?;
    assert forall v :: 0 <= v < |s.workers| && v != a.w ==> r.workers[v] == s.workers[v];
  }

  /** Only a termination takes the queue down for the clients, and it wakes all the workers. */
  lemma TerminateWakes<T>(s: State<T>, a: Action<T>, r: State<T>)
    requires s.mok && Ok(s) && Enabled(s, a) && !ByWorker(a) && r == Next(s, a) && !r.mok
    ensures !SomeAsleep(r)
  {
  }

  /** With two workers and a low mark of one, no task is left to a worker that sleeps on. */
  ghost predicate LateQuiet<T>(s: State<T>) {
    !s.mok && SomeAsleep(s) ==> s.queue == []
  }

  lemma ExitQuiet<T>(s: State<T>, w: nat, r: State<T>)
    requires |s.workers| <= 2 && s.low == 1 && w < |s.workers| && s.workers[w] == Leaving
    requires WorkersHeard(s) && LateQuiet(s) && r == WorkerExit(s, w)
    ensures LateQuiet(r)
  {
    if v :| 0 <= v < |r.workers| && r.workers[v].Asleep? {
      assert s.workers[v].Asleep?;
      CountNone(s.workers, IsSignalled());
      assert forall u :: 0 <= u < |s.workers| ==> s.workers[u] == s.workers[v] || s.workers[u] == s.workers[w];
    }
  }

  lemma NextQuiet<T>(s: State<T>, a: Action<T>, r: State<T>)
    requires |s.workers| <= 2 && s.low == 1 && Counted(s) && Phases(s) && WorkersHeard(s) && LateQuiet(s)
    requires Enabled(s, a) && r == Next(s, a)
    ensures LateQuiet(r)
  {
    PhaseOk(s);
    if a.AExit? {
      ExitQuiet(s, a.w, r);
    } else if s.mok {
      if ByWorker(a) { WorkerOnlyWakes(s, a, r); } else if !r.mok { TerminateWakes(s, a, r); }
    } else {
      DownQuiet(s, a, r);
    }
  }

  lemma DownQuiet<T>(s: State<T>, a: Action<T>, r: State<T>)
    requires !s.mok && LateQuiet(s) && Enabled(s, a) && !a.AExit? && r == Next(s, a)
    ensures LateQuiet(r)
  {
    if ByWorker(a) { WorkerOnlyWakes(s, a, r); } else { ClientOnlyWakes(s, a, r); }
    assert r.queue == s.queue;
    if v :| 0 <= v < |r.workers| && r.workers[v].Asleep? {
      assert s.workers[v].Asleep?;
    }
  }

  // ---------- all of it ----------

  ghost predicate LateInv<T>(cfg: Config, s: State<T>) {
    && SleepersHeard(s) && ClientsLate(cfg, s)
    && (!cfg.fail ==> Orderly(s))
    && (|s.workers| <= 2 && s.low == 1 ==> LateQuiet(s))
  }

  lemma NextLateInv<T>(cfg: Config, s: State<T>, a: Action<T>, r: State<T>)
    requires Counted(s) && Phases(s) && WorkersHeard(s) && LateInv(cfg, s)
    requires Enabled(s, a) && Allowed(cfg, a) && r == Next(s, a)
    ensures |r.workers| == |s.workers|
    ensures r.low == s.low ==> LateInv(cfg, r)
  {
    NextSleepers(s, a, r);
    NextLate(cfg, s, a, r);
    if !cfg.fail { NextOrderly(s, a, r); }
    if ByWorker(a) { WorkerOnlyWakes(s, a, r); } else { ClientOnlyWakes(s, a, r); }
    if |s.workers| <= 2 && s.low == 1 { NextQuiet(s, a, r); }
  }
}
