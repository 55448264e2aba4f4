/** What waitIdle() and setTerminateAndWait() achieve, and the metadata saver that uses the queue
    (src/workqueue.h, src/ohmetacache.cxx). */
module WorkQueueShutdown {
  import opened Strings
  import opened Counting
  import opened WorkQueue
  import opened WorkQueueSafety
  import opened WorkQueueLiveness
  import opened WorkQueueLate
  import opened WorkQueueStandstill

  /** A single worker writes what it takes, in that order. */
  ghost predicate InOrder<T>(s: State<T>) {
    |s.workers| == 1 ==>
      s.taken == s.completed + (if s.workers[0].Busy? then [s.workers[0].task] else []) + s.lost
  }

  ghost predicate Reached<T>(s: State<T>) {
    && s.low > 0 && |s.workers| > 0
    && Counted(s) && Conserved(s) && Executed(s) && LossBounded(s) && InOrder(s) && SleepersHeard(s)
  }

  lemma TakeInOrder<T>(s: State<T>, w: nat, pick: nat, r: State<T>)
    requires w < |s.workers| && |s.queue| <= |s.accepted| && s.low > 0 && InOrder(s) && s.workers[w] == Free
    requires LossBounded(s) && r == Take(s, w, pick)
    ensures InOrder(r)
  {
    if |s.workers| == 1 { NothingLost(s); }
  }

  /** As long as the only worker is there. */
  lemma NothingLost<T>(s: State<T>)
    requires LossBounded(s) && forall w :: 0 <= w < |s.workers| ==> !IsGone()(s.workers[w])
    ensures s.lost == []
  {
    CountNone(s.workers, IsGone());
  }

  lemma NextInOrder<T>(s: State<T>, a: Action<T>, r: State<T>)
    requires InOrder(s) && LossBounded(s) && Enabled(s, a) && r == Next(s, a)
    ensures InOrder(r)
  {
    if a.ATake? { TakeInOrder(s, a.w, a.pick, r); }
    else if a.AWakeWorker? {
      var s1 := SetWorker(s, a.w, Free).(workersWaiting := s.workersWaiting - 1);
      SetGone(s, a.w, s1);
      TakeInOrder(s1, a.w, a.pick, r);
    } else if a.AFinish? || a.AFail? {
      if |s.workers| == 1 { NothingLost(s); }
    } else if a.AExit? || a.ASpuriousW? {
    } else {
      ClientOnlyWakes(s, a, r);
    }
  }

  lemma NextSize<T>(s: State<T>, a: Action<T>, r: State<T>)
    requires Enabled(s, a) && r == Next(s, a)
    ensures |r.workers| == |s.workers| && r.low == s.low
  {
    SameMarks(s, a, r);
  }

  lemma NextReached<T>(s: State<T>, a: Action<T>, r: State<T>)
    requires Reached(s) && Enabled(s, a) && r == Next(s, a)
    ensures Reached(r) && |r.workers| == |s.workers|
  {
    NextCounted(s, a);
    NextConserved(s, a);
    NextExecuted(s, a);
    NextLoss(s, a, r);
    NextSize(s, a, r);
    NextInOrder(s, a, r);
    NextSleepers(s, a, r);
  }

  lemma {:induction false} ExecReached<T>(s: State<T>, acts: seq<Action<T>>)
    requires Reached(s) && Exec(s, acts).Some?
    ensures Reached(Exec(s, acts).value) && |Exec(s, acts).value.workers| == |s.workers|
    decreases |acts|
  {
    if acts != [] {
      NextReached(s, acts[0], Next(s, acts[0]));
      ExecReached(Next(s, acts[0]), acts[1..]);
    }
  }

  lemma LeadsReached<T(!new)>(cfg: Config, workers: nat, clients: nat, r: State<T>)
    requires cfg.low > 0 && workers > 0
    requires Leads(cfg, Start<T>(cfg.low, cfg.high, workers, clients), r)
    ensures Reached(r) && |r.workers| == workers
  {
    var s0 := Start<T>(cfg.low, cfg.high, workers, clients);
    StartReached<T>(cfg, workers, clients);
    var acts :| Path(cfg, s0, acts, r);
    ExecReached(s0, acts);
  }

  lemma StartReached<T>(cfg: Config, workers: nat, clients: nat)
    requires cfg.low > 0 && workers > 0
    ensures Reached(Start<T>(cfg.low, cfg.high, workers, clients))
  {
    StartConfig<T>(cfg, workers, clients);
    StartDone(Start<T>(cfg.low, cfg.high, workers, clients), workers, clients);
  }

  lemma StartDone<T>(s: State<T>, workers: nat, clients: nat)
    requires s == Start(s.low, s.high, workers, clients) && workers > 0 && s.low > 0
    ensures Conserved(s) && Executed(s) && LossBounded(s) && InOrder(s) && SleepersHeard(s) && |s.workers| == workers
  {
  }

  /** In every reachable state where waitIdle() would return true: nothing is queued or being
      executed, every accepted task was executed or freed by a flush, and the newest was executed. */
  lemma IdleMeansDone<T(!new)>(cfg: Config, workers: nat, clients: nat, r: State<T>)
    requires cfg.low > 0 && workers > 0
    requires Leads(cfg, Start<T>(cfg.low, cfg.high, workers, clients), r)
    requires !NotIdle(r) && Ok(r)
    ensures r.queue == [] && forall w :: 0 <= w < |r.workers| ==> InWait()(r.workers[w])
    ensures forall k :: 0 <= k < |r.accepted| ==> (k in r.completed) != (k in r.freed)
    ensures r.accepted != [] ==> |r.accepted| - 1 in r.completed
  {
    LeadsReached(cfg, workers, clients, r);
    CountMost(r.workers, InWait());
    NothingLost(r);
    forall k | 0 <= k < |r.accepted| ensures (k in r.completed) != (k in r.freed) {
      if k in r.taken && k !in r.completed {
        assert false;
      }
    }
  }

  /** The saver thread: one worker, puts that flush. When it is idle, the last file it wrote is the
      last snapshot that was put. */
  lemma LastSaved<T(!new)>(cfg: Config, clients: nat, r: State<T>)
    requires cfg.low > 0 && Leads(cfg, Start<T>(cfg.low, cfg.high, 1, clients), r)
    requires !NotIdle(r) && Ok(r) && r.accepted != []
    ensures r.completed != [] && r.completed[|r.completed| - 1] == |r.accepted| - 1
  {
    LeadsReached(cfg, 1, clients, r);
    IdleMeansDone(cfg, 1, clients, r);
    assert InWait()(r.workers[0]);
    NothingLost(r);
    assert r.completed == r.taken;
    var i :| 0 <= i < |r.taken| && r.taken[i] == |r.accepted| - 1;
    assert r.taken[|r.taken| - 1] in r.taken;
  }

  // ---------- what it means that a call returns ----------

  /** Client c takes a step of the call why: its first one, or the one after a wake-up. */
  predicate StepOf<T(==)>(s: State<T>, a: Action<T>, c: nat, why: Wait<T>) {
    && c < |s.clients|
    && match a
       case AWakeClient(d, _) => d == c && s.clients[c] == Woken(why)
       case APut(d, t, flush, _) => d == c && why == InPut(t, flush)
       case AIdle(d) => d == c && why == InIdle
       case ATerminate(d) => d == c && why == InTerminate
       case _ => false
  }

  /** When put() returns, its task is the newest of the queue, and with flush the only one, the others being freed; or
      the queue is down and nothing happened. */
  lemma PutReturns<T>(s: State<T>, a: Action<T>, c: nat, t: T, flush: bool, r: State<T>)
    requires Enabled(s, a) && StepOf(s, a, c, InPut(t, flush)) && r == Next(s, a) && r.clients[c].Away?
    ensures Ok(s) ==> r.accepted == s.accepted + [t] && (s.high > 0 ==> |s.queue| < s.high)
    ensures Ok(s) && flush ==>
              r.queue == [t] && forall k ::
                k in r.freed <==> k in s.freed || |s.accepted| - |s.queue| <= k < |s.accepted|
    ensures Ok(s) && !flush ==> r.queue == s.queue + [t] && r.freed == s.freed
    ensures !Ok(s) ==> r.accepted == s.accepted && r.queue == s.queue && r.freed == s.freed
    ensures r.taken == s.taken && r.completed == s.completed && r.lost == s.lost
  {
    ClientOnlyWakes(s, a, r);
  }

  /** Until then it sleeps, when the queue is up and full, and has done nothing. */
  lemma PutSleeps<T>(s: State<T>, a: Action<T>, c: nat, t: T, flush: bool, r: State<T>)
    requires Enabled(s, a) && StepOf(s, a, c, InPut(t, flush)) && r == Next(s, a) && !r.clients[c].Away?
    ensures Ok(s) && 0 < s.high <= |s.queue| && r.clients[c] == Sleeping(InPut(t, flush))
    ensures r == s.(clients := r.clients, clientsWaiting := r.clientsWaiting)
  {
  }

  lemma {:induction false} CountBoth(ws: seq<Worker>)
    ensures Count(ws, InWait()) + Count(ws, HasExited()) <= |ws|
    ensures Count(ws, InWait()) + Count(ws, HasExited()) == |ws|
       <==> forall w :: 0 <= w < |ws| ==> InWait()(ws[w]) || ws[w].Exited?
  {
    if ws != [] {
      CountBoth(ws[1..]);
      assert forall i :: 1 <= i < |ws| ==> ws[i] == ws[1..][i - 1];
      assert forall i :: 0 <= i < |ws[1..]| ==> ws[1..][i] == ws[i + 1];
    }
  }

  /** waitIdle() returns exactly when every worker waits for work or has exited, and nothing is queued unless all of
      them have; otherwise it sleeps. It changes nothing. */
  lemma IdleReturns<T>(s: State<T>, a: Action<T>, c: nat, r: State<T>)
    requires Counted(s) && Enabled(s, a) && StepOf(s, a, c, InIdle) && r == Next(s, a)
    ensures r.clients[c].Away? <==>
              && (forall w :: 0 <= w < |s.workers| ==> InWait()(s.workers[w]) || s.workers[w].Exited?)
              && (s.queue == [] || forall w :: 0 <= w < |s.workers| ==> s.workers[w].Exited?)
    ensures !r.clients[c].Away? ==> r.clients[c] == Sleeping(InIdle)
    ensures r == s.(clients := r.clients, clientsWaiting := r.clientsWaiting)
  {
    CountBoth(s.workers);
    CountMost(s.workers, HasExited());
    assert forall w :: 0 <= w < |s.workers| ==> (HasExited()(s.workers[w]) <==> s.workers[w].Exited?);
  }

  /** setTerminateAndWait() goes on to join the threads exactly when all of them have exited; otherwise it sleeps, and
      no worker does. Either way the queue is down. */
  lemma TerminateReturns<T>(s: State<T>, a: Action<T>, c: nat, r: State<T>)
    requires Counted(s) && Enabled(s, a) && StepOf(s, a, c, InTerminate) && r == Next(s, a)
    ensures r.clients[c].Away? <==> forall w :: 0 <= w < |s.workers| ==> s.workers[w].Exited?
    ensures !r.clients[c].Away? ==>
              r.clients[c] == Sleeping(InTerminate) && forall w :: 0 <= w < |r.workers| ==> !r.workers[w].Asleep?
    ensures !r.mok && r.queue == s.queue && r.accepted == s.accepted && r.completed == s.completed && r.lost == s.lost
  {
    CountMost(s.workers, HasExited());
    assert forall w :: 0 <= w < |s.workers| ==> (HasExited()(s.workers[w]) <==> s.workers[w].Exited?);
  }

  /** take() gives the oldest task to the worker when the queue is up and has enough of them, gives up when it is down,
      and else sleeps. */
  lemma TakeReturns<T>(s: State<T>, a: Action<T>, w: nat, pick: nat, r: State<T>)
    requires Conserved(s) && Enabled(s, a) && (a == ATake(w, pick) || a == AWakeWorker(w, pick)) && r == Next(s, a)
    ensures r.workers[w].Leaving? <==> !Ok(s)
    ensures r.workers[w].Asleep? <==> Ok(s) && |s.queue| < s.low
    ensures !r.workers[w].Leaving? && !r.workers[w].Asleep? ==>
              && r.workers[w].Busy? && r.workers[w].task < |s.accepted| && r.taken == s.taken + [r.workers[w].task]
              && s.queue == [s.accepted[r.workers[w].task]] + r.queue
  {
    var s1 := if a.ATake? then s else SetWorker(s, w, Free).(workersWaiting := s.workersWaiting - 1);
    if Ok(s) && |s.queue| >= s.low { HeadTaken(s1, w, pick, r); }
  }

  lemma HeadTaken<T>(s: State<T>, w: nat, pick: nat, r: State<T>)
    requires Conserved(s) && w < |s.workers| && s.queue != [] && r == TakeHead(s, w, pick)
    ensures |r.workers| == |s.workers| && r.workers[w].Busy? && r.workers[w].task < |s.accepted|
    ensures r.taken == s.taken + [r.workers[w].task] && s.queue == [s.accepted[r.workers[w].task]] + r.queue
  {
  }

  // ---------- termination ----------

  function Rank(w: Worker): nat {
    match w
    case Busy(_) => 3
    case Asleep => 3
    case Free => 2
    case Signalled => 2
    case Leaving => 1
    case Exited => 0
  }

  /** The steps left to the workers before they have all exited. */
  function StepsLeft(ws: seq<Worker>): nat {
    if ws == [] then 0 else Rank(ws[0]) + StepsLeft(ws[1..])
  }

  lemma {:induction false} StepsUpdate(ws: seq<Worker>, i: nat, x: Worker)
    requires i < |ws|
    ensures StepsLeft(ws[i := x]) + Rank(ws[i]) == StepsLeft(ws) + Rank(x)
  {
    if i == 0 {
      assert ws[0 := x][1..] == ws[1..];
    } else {
      assert ws[i := x][1..] == ws[1..][i - 1 := x];
      StepsUpdate(ws[1..], i - 1, x);
    }
  }

  lemma {:induction false} StepsNone(ws: seq<Worker>)
    ensures StepsLeft(ws) == 0 <==> forall w :: 0 <= w < |ws| ==> ws[w].Exited?
  {
    if ws != [] {
      StepsNone(ws[1..]);
      assert forall i :: 1 <= i < |ws| ==> ws[i] == ws[1..][i - 1];
      assert forall i :: 0 <= i < |ws[1..]| ==> ws[1..][i] == ws[i + 1];
    }
  }

  /** Once the queue is closing every step of a worker brings the end nearer, a failure too. */
  lemma WorkerStepShortens<T>(s: State<T>, a: Action<T>, r: State<T>)
    requires Closing(s) && Enabled(s, a) && ByWorker(a) && r == Next(s, a)
    ensures Closing(r) && StepsLeft(r.workers) < StepsLeft(s.workers)
  {
    NextClosing(s, a, r);
    StepsUpdate(s.workers, a.w, r.workers[a.w]);
    if a.AWakeWorker? {
      assert s.workers[a.w := Free][a.w := Leaving] == s.workers[a.w := Leaving];
    }
  }

  /** The step that a worker that has not exited can take. */
  function NextStep<T>(s: State<T>, w: nat, pick: nat): Action<T>
    requires w < |s.workers|
  {
    match s.workers[w]
    case Busy(_) => AFinish(w)
    case Signalled => AWakeWorker(w, pick)
    case Leaving => AExit(w)
    case _ => ATake(w, pick)
  }

  lemma SomePick<T>(s: State<T>) returns (pick: nat)
    ensures CanPickC(s, pick)
  {
    if i :| 0 <= i < |s.clients| && s.clients[i].Sleeping? {
      pick := i;
    } else {
      pick := 0;
    }
  }

  /** The clients leave the workers alone then. */
  lemma ClientStepKeeps<T>(s: State<T>, a: Action<T>, r: State<T>)
    requires Closing(s) && Enabled(s, a) && !ByWorker(a) && r == Next(s, a)
    ensures Closing(r) && r.workers == s.workers
  {
    NextClosing(s, a, r);
  }

  /** setTerminateAndWait() closes the queue, in whatever state failures have left it. */
  lemma TerminateCloses<T>(s: State<T>, c: nat, r: State<T>)
    requires Reached(s) && Enabled(s, ATerminate(c)) && r == Next(s, ATerminate(c))
    ensures Reached(r) && Closing(r)
  {
    NextReached(s, ATerminate(c), r);
    CountMost(s.workers, HasExited());
    assert forall w :: 0 <= w < |r.workers| ==> r.workers[w] == WakeW(s.workers[w]) || HasExited()(s.workers[w]);
  }

  function WorkerSteps<T>(acts: seq<Action<T>>): nat {
    if acts == [] then 0 else (if ByWorker(acts[0]) then 1 else 0) + WorkerSteps(acts[1..])
  }

  lemma {:induction false} StepsRunOut<T>(s: State<T>, acts: seq<Action<T>>)
    requires Reached(s) && Closing(s) && Exec(s, acts).Some?
    ensures Reached(Exec(s, acts).value) && Closing(Exec(s, acts).value)
    ensures StepsLeft(Exec(s, acts).value.workers) + WorkerSteps(acts) <= StepsLeft(s.workers)
    decreases |acts|
  {
    if acts != [] {
      var a := acts[0];
      var q := Next(s, a);
      NextReached(s, a, q);
      if ByWorker(a) { WorkerStepShortens(s, a, q); } else { ClientStepKeeps(s, a, q); }
      StepsRunOut(q, acts[1..]);
    }
  }

  /** All workers have exited, and no client sleeps: not the one that terminates the queue, and none that was
      left in put() or waitIdle(). */
  ghost predicate Ended<T>(s: State<T>) {
    s.workersExited == |s.workers| && !SomeSleeping(s)
  }

  /** The end is reached, or a worker can take a step towards it. */
  lemma EndOrStep<T>(s: State<T>) returns (a: Action<T>)
    requires Reached(s) && Closing(s)
    ensures StepsLeft(s.workers) > 0 ==> Enabled(s, a) && ByWorker(a) && !a.AFail?
    ensures StepsLeft(s.workers) == 0 ==> Ended(s)
  {
    StepsNone(s.workers);
    var pick := SomePick(s);
    if w :| 0 <= w < |s.workers| && !s.workers[w].Exited? {
      a := NextStep(s, w, pick);
    } else {
      a := AIdle(0);
      CountMost(s.workers, HasExited());
    }
  }

  /** Termination under every schedule: whatever workers and clients do, in any order, and whichever workers fail,
      there are no more worker steps than were left, and until the last of them some worker can go on. Then the
      queue has ended. */
  lemma EveryScheduleEnds<T>(s: State<T>, acts: seq<Action<T>>) returns (a: Action<T>)
    requires Reached(s) && Closing(s) && Exec(s, acts).Some?
    ensures var r := Exec(s, acts).value;
            && WorkerSteps(acts) <= StepsLeft(s.workers)
            && (StepsLeft(r.workers) > 0 ==> Enabled(r, a) && ByWorker(a) && !a.AFail?)
            && (StepsLeft(r.workers) == 0 ==> Ended(r))
            && (WorkerSteps(acts) == StepsLeft(s.workers) ==> Ended(r))
  {
    StepsRunOut(s, acts);
    a := EndOrStep(Exec(s, acts).value);
  }

  /** So the workers alone bring it to its end. */
  lemma {:induction false} TerminationCompletes<T>(s: State<T>) returns (acts: seq<Action<T>>, r: State<T>)
    requires Reached(s) && Closing(s)
    ensures Exec(s, acts) == Some(r) && |acts| <= StepsLeft(s.workers) && forall a :: a in acts ==> ByWorker(a)
    ensures Ended(r) && |r.workers| == |s.workers|
    decreases StepsLeft(s.workers)
  {
    var a := EndOrStep(s);
    if StepsLeft(s.workers) == 0 {
      acts, r := [], s;
    } else {
      var q := Next(s, a);
      WorkerStepShortens(s, a, q);
      NextReached(s, a, q);
      var more;
      more, r := TerminationCompletes(q);
      acts := [a] + more;
    }
  }
}
