/** What every step of the work queue keeps, whatever the threads do (src/workqueue.h). */
module WorkQueueSafety {
  import opened Counting
  import opened WorkQueue

  // ---------- the counters ----------

  /** The counters say how many threads are inside the waits, and how many have exited. */
  ghost predicate Counted<T>(s: State<T>) {
    && s.workersWaiting == Count(s.workers, InWait())
    && s.workersExited == Count(s.workers, HasExited())
    && s.clientsWaiting == Count(s.clients, Waits<T>())
  }

  lemma SetWorkerCounts<T>(s: State<T>, w: nat, x: Worker)
    requires w < |s.workers|
    ensures var t := SetWorker(s, w, x);
      && Count(t.workers, InWait()) + B(InWait()(s.workers[w])) == Count(s.workers, InWait()) + B(InWait()(x))
      && Count(t.workers, HasExited()) + B(s.workers[w].Exited?) == Count(s.workers, HasExited()) + B(x.Exited?)
  {
    CountUpdate(s.workers, w, x, InWait());
    CountUpdate(s.workers, w, x, HasExited());
  }

  function B(b: bool): nat { if b then 1 else 0 }

  lemma SetClientCounts<T>(s: State<T>, c: nat, x: Client<T>)
    requires c < |s.clients|
    ensures Count(SetClient(s, c, x).clients, Waits<T>()) + B(!s.clients[c].Away?)
         == Count(s.clients, Waits<T>()) + B(!x.Away?)
  {
    CountUpdate(s.clients, c, x, Waits<T>());
  }

  lemma NotifyCounts<T>(s: State<T>, pick: nat)
    ensures Count(NotifyAllC(s).clients, Waits<T>()) == Count(s.clients, Waits<T>())
    ensures Count(NotifyOneC(s, pick).clients, Waits<T>()) == Count(s.clients, Waits<T>())
    ensures Count(NotifyAllW(s).workers, InWait()) == Count(s.workers, InWait())
    ensures Count(NotifyOneW(s, pick).workers, InWait()) == Count(s.workers, InWait())
    ensures Count(NotifyAllW(s).workers, HasExited()) == Count(s.workers, HasExited())
    ensures Count(NotifyOneW(s, pick).workers, HasExited()) == Count(s.workers, HasExited())
  {
    CountSame(NotifyAllC(s).clients, s.clients, Waits<T>(), Waits<T>());
    CountSame(NotifyOneC(s, pick).clients, s.clients, Waits<T>(), Waits<T>());
    CountSame(NotifyAllW(s).workers, s.workers, InWait(), InWait());
    CountSame(NotifyOneW(s, pick).workers, s.workers, InWait(), InWait());
    CountSame(NotifyAllW(s).workers, s.workers, HasExited(), HasExited());
    CountSame(NotifyOneW(s, pick).workers, s.workers, HasExited(), HasExited());
  }

  lemma TakeCounted<T>(s: State<T>, w: nat, pick: nat)
    requires w < |s.workers| && |s.queue| <= |s.accepted| && s.low > 0
    requires Counted(s) && s.workers[w] == Free
    ensures Counted(Take(s, w, pick))
  {
    if !Ok(s) {
      SetWorkerCounts(s, w, Leaving);
    } else if |s.queue| < s.low {
      SetWorkerCounts(s, w, Asleep);
      NotifyCounts(SetWorker(s, w, Asleep).(workersWaiting := s.workersWaiting + 1), 0);
    } else {
      var i := |s.accepted| - |s.queue|;
      SetWorkerCounts(s, w, Busy(i));
      NotifyCounts(SetWorker(s, w, Busy(i)).(queue := s.queue[1..], taken := s.taken + [i]), pick);
    }
  }

  lemma PutCounted<T>(s: State<T>, c: nat, t: T, flush: bool, pick: nat)
    requires c < |s.clients| && |s.queue| <= |s.accepted| && Counted(s) && s.clients[c].Away?
    ensures Counted(Put(s, c, t, flush, pick))
  {
    SetClientCounts(s, c, Sleeping(InPut(t, flush)));
    var s1 := if flush then Flush(s) else s;
    NotifyCounts(s1.(queue := s1.queue + [t], accepted := s1.accepted + [t]), pick);
  }

  lemma TerminateCounted<T>(s: State<T>, c: nat)
    requires c < |s.clients| && Counted(s) && s.clients[c].Away?
    ensures Counted(Terminate(s, c))
  {
    var s1 := s.(mok := false);
    NotifyCounts(s1, 0);
    SetClientCounts(NotifyAllW(s1), c, Sleeping(InTerminate));
  }

  lemma WakeClientCounted<T>(s: State<T>, c: nat, pick: nat)
    requires c < |s.clients| && |s.queue| <= |s.accepted| && s.clients[c].Woken? && Counted(s)
    ensures Counted(WakeClient(s, c, pick))
  {
    SetClientCounts(s, c, Away);
    var s1 := SetClient(s, c, Away).(clientsWaiting := s.clientsWaiting - 1);
    match s.clients[c].why
    case InPut(t, flush) => PutCounted(s1, c, t, flush, pick);
    case InIdle => SetClientCounts(s1, c, Sleeping(InIdle));
    case InTerminate => TerminateCounted(s1, c);
  }

  lemma NextCounted<T>(s: State<T>, a: Action<T>)
    requires Counted(s) && Enabled(s, a)
    ensures Counted(Next(s, a))
  {
    match a
    case ATake(w, pick) => TakeCounted(s, w, pick);
    case AWakeWorker(w, pick) =>
      SetWorkerCounts(s, w, Free);
      TakeCounted(SetWorker(s, w, Free).(workersWaiting := s.workersWaiting - 1), w, pick);
    case AFinish(w) => SetWorkerCounts(s, w, Free);
    case AFail(w) => SetWorkerCounts(s, w, Leaving);
    case AExit(w) =>
      SetWorkerCounts(s, w, Exited);
      NotifyCounts(SetWorker(s, w, Exited).(workersExited := s.workersExited + 1, mok := false), 0);
    case APut(c, t, flush, pick) => PutCounted(s, c, t, flush, pick);
    case AIdle(c) => SetClientCounts(s, c, Sleeping(InIdle));
    case ATerminate(c) => TerminateCounted(s, c);
    case AWakeClient(c, pick) => WakeClientCounted(s, c, pick);
    case ASpuriousW(w) => SetWorkerCounts(s, w, Signalled);
    case ASpuriousC(c) => SetClientCounts(s, c, Woken(s.clients[c].why));
  }

  // ---------- conservation ----------

  predicate Increasing(s: seq<nat>) {
    forall i, j :: 0 <= i < j < |s| ==> s[i] < s[j]
  }

  /** Every accepted task is queued, taken or freed, and only one of these; tasks leave in the order
      they came; the length stays within the mark; a flush never frees the newest task. */
  ghost predicate Conserved<T>(s: State<T>) {
    && |s.queue| <= |s.accepted|
    && s.queue == s.accepted[|s.accepted| - |s.queue|..]
    && Increasing(s.taken)
    && (forall k :: k in s.taken ==> k < |s.accepted| - |s.queue| && k !in s.freed)
    && (forall k :: k in s.freed ==> k < |s.accepted| - |s.queue| && k + 1 < |s.accepted|)
    && (forall k :: 0 <= k < |s.accepted| - |s.queue| ==> k in s.taken || k in s.freed)
    && (s.high > 0 ==> |s.queue| <= s.high)
  }

  lemma ConservedFrame<T>(s: State<T>, t: State<T>)
    requires Conserved(s) && s.queue == t.queue && s.accepted == t.accepted
    requires s.taken == t.taken && s.freed == t.freed && s.high == t.high
    ensures Conserved(t)
  {
  }

  lemma PushConserved<T>(s: State<T>, t: T, flush: bool, pick: nat)
    requires Conserved(s) && (s.high > 0 ==> |s.queue| < s.high)
    ensures Conserved(Push(if flush then Flush(s) else s, t, pick))
  {
    var head := |s.accepted| - |s.queue|;
    if flush {
      var f := Flush(s);
      assert forall k :: head <= k < |s.accepted| ==> Between(head, k, |s.accepted|) && k in f.freed;
      var p := Push(f, t, pick);
      assert p.queue == [t] && p.accepted == s.accepted + [t];
      assert p.accepted[|s.accepted|..] == [t];
    } else {
      assert (s.accepted + [t])[head..] == s.queue + [t];
    }
  }

  lemma TakeConserved<T>(s: State<T>, w: nat, pick: nat, t: State<T>)
    requires w < |s.workers| && s.low > 0 && Conserved(s) && t == Take(s, w, pick)
    ensures Conserved(t)
  {
    if Ok(s) && |s.queue| >= s.low {
      var head := |s.accepted| - |s.queue|;
      assert t.queue == s.queue[1..] && t.taken == s.taken + [head];
      assert s.accepted[head..][1..] == s.accepted[head + 1..];
      assert forall j :: 0 <= j < |s.taken| ==> s.taken[j] in s.taken;
      assert head in t.taken by { assert t.taken[|s.taken|] == head; }
      assert forall k :: k in t.taken <==> k in s.taken || k == head;
    }
  }

  lemma WakeWorkerConserved<T>(s: State<T>, w: nat, pick: nat, t: State<T>)
    requires w < |s.workers| && s.low > 0 && Conserved(s) && t == WakeWorker(s, w, pick)
    ensures Conserved(t)
  {
    var s1 := SetWorker(s, w, Free).(workersWaiting := s.workersWaiting - 1);
    ConservedFrame(s, s1);
    TakeConserved(s1, w, pick, t);
  }

  lemma WakeClientConserved<T>(s: State<T>, c: nat, pick: nat, t: State<T>)
    requires c < |s.clients| && s.clients[c].Woken? && Conserved(s) && t == WakeClient(s, c, pick)
    ensures Conserved(t)
  {
    var s1 := SetClient(s, c, Away).(clientsWaiting := s.clientsWaiting - 1);
    ConservedFrame(s, s1);
    AfterWakeConserved(s1, c, s.clients[c].why, pick, t);
  }

  lemma NextConserved<T>(s: State<T>, a: Action<T>)
    requires Conserved(s) && Enabled(s, a)
    ensures Conserved(Next(s, a))
  {
    if a.ATake? {
      TakeConserved(s, a.w, a.pick, Next(s, a));
    } else if a.AWakeWorker? {
      WakeWorkerConserved(s, a.w, a.pick, Next(s, a));
    } else if a.APut? {
      PutConserved(s, a.c, a.t, a.flush, a.pick);
    } else if a.AWakeClient? {
      WakeClientConserved(s, a.c, a.pick, Next(s, a));
    } else {
      ConservedFrame(s, Next(s, a));
    }
  }

  lemma AfterWakeConserved<T>(s: State<T>, c: nat, why: Wait<T>, pick: nat, t: State<T>)
    requires c < |s.clients| && Conserved(s) && t == AfterWake(s, c, why, pick)
    ensures Conserved(t)
  {
    if why.InPut? {
      PutConserved(s, c, why.task, why.flush, pick);
    } else {
      ConservedFrame(s, t);
    }
  }

  lemma PutConserved<T>(s: State<T>, c: nat, t: T, flush: bool, pick: nat)
    requires c < |s.clients| && Conserved(s)
    ensures Conserved(Put(s, c, t, flush, pick))
  {
    if Ok(s) && !(s.high > 0 && |s.queue| >= s.high) {
      PushConserved(s, t, flush, pick);
    }
  }

  // ---------- taken tasks are executed ----------

  ghost predicate Holds<T>(s: State<T>, k: nat) {
    exists w :: 0 <= w < |s.workers| && s.workers[w] == Busy(k)
  }

  /** A worker executes a task it took, and a taken task is done, being executed, or lost with a worker. */
  ghost predicate Executed<T>(s: State<T>) {
    && (forall k :: k in s.completed ==> k in s.taken)
    && (forall w :: 0 <= w < |s.workers| && s.workers[w].Busy? ==> s.workers[w].task in s.taken)
    && (forall k :: k in s.lost ==> k in s.taken)
    && (forall k :: k in s.taken ==> k in s.completed || k in s.lost || Holds(s, k))
  }

  lemma ExecutedFrame<T>(s: State<T>, t: State<T>)
    requires Executed(s) && s.taken == t.taken && s.completed == t.completed && s.lost == t.lost
    requires |s.workers| == |t.workers|
    requires forall w :: 0 <= w < |s.workers| && (s.workers[w].Busy? || t.workers[w].Busy?) ==>
                           t.workers[w] == s.workers[w]
    ensures Executed(t)
  {
    forall k | k in t.taken && k !in t.completed && k !in t.lost ensures Holds(t, k) {
      assert Holds(s, k);
      var w :| 0 <= w < |s.workers| && s.workers[w] == Busy(k);
      assert t.workers[w] == Busy(k);
    }
  }

  lemma TakeExecuted<T>(s: State<T>, w: nat, pick: nat, t: State<T>)
    requires w < |s.workers| && |s.queue| <= |s.accepted| && s.low > 0 && Executed(s) && !s.workers[w].Busy?
    requires t == Take(s, w, pick)
    ensures Executed(t)
  {
    if Ok(s) && |s.queue| >= s.low {
      var head := |s.accepted| - |s.queue|;
      assert t.workers[w] == Busy(head) && t.taken == s.taken + [head] && t.taken[|s.taken|] == head;
      forall k | k in t.taken && k !in t.completed && k !in t.lost ensures Holds(t, k) {
        if k in s.taken {
          assert Holds(s, k);
          var v :| 0 <= v < |s.workers| && s.workers[v] == Busy(k);
          assert t.workers[v] == Busy(k);
        }
      }
    } else {
      ExecutedFrame(s, t);
    }
  }

  lemma FinishExecuted<T>(s: State<T>, w: nat)
    requires w < |s.workers| && Executed(s) && s.workers[w].Busy?
    ensures Executed(SetWorker(s, w, Free).(completed := s.completed + [s.workers[w].task]))
  {
    var t := SetWorker(s, w, Free).(completed := s.completed + [s.workers[w].task]);
    assert t.completed[|s.completed|] == s.workers[w].task;
    forall k | k in t.taken && k !in t.completed && k !in t.lost ensures Holds(t, k) {
      assert Holds(s, k);
      var v :| 0 <= v < |s.workers| && s.workers[v] == Busy(k);
      assert v != w;
      assert t.workers[v] == Busy(k);
    }
  }

  lemma FailExecuted<T>(s: State<T>, w: nat)
    requires w < |s.workers| && Executed(s)
    ensures Executed(Fail(s, w))
  {
    var t := Fail(s, w);
    if s.workers[w].Busy? { assert t.lost[|s.lost|] == s.workers[w].task; }
    forall k | k in t.taken && k !in t.completed && k !in t.lost ensures Holds(t, k) {
      assert k !in s.lost && Holds(s, k);
      var v :| 0 <= v < |s.workers| && s.workers[v] == Busy(k);
      assert v != w;
      assert t.workers[v] == Busy(k);
    }
  }

  lemma WakeWorkerExecuted<T>(s: State<T>, w: nat, pick: nat, t: State<T>)
    requires w < |s.workers| && |s.queue| <= |s.accepted| && s.low > 0 && Executed(s) && !s.workers[w].Busy?
    requires t == WakeWorker(s, w, pick)
    ensures Executed(t)
  {
    var s1 := SetWorker(s, w, Free).(workersWaiting := s.workersWaiting - 1);
    ExecutedFrame(s, s1);
    TakeExecuted(s1, w, pick, t);
  }

  lemma WorkerExecuted<T>(s: State<T>, a: Action<T>)
    requires Executed(s) && Enabled(s, a) && ByWorker(a)
    ensures Executed(Next(s, a))
  {
    match a
    case ATake(w, pick) => TakeExecuted(s, w, pick, Next(s, a));
    case AWakeWorker(w, pick) => WakeWorkerExecuted(s, w, pick, Next(s, a));
    case AFinish(w) => FinishExecuted(s, w);
    case AFail(w) => FailExecuted(s, w);
    case AExit(w) => ExecutedFrame(s, Next(s, a));
    case ASpuriousW(w) => ExecutedFrame(s, Next(s, a));
  }

  /** What the clients do to the workers: they wake them, and no more. */
  ghost predicate OnlyWakes<T>(s: State<T>, r: State<T>) {
    && r.taken == s.taken && r.completed == s.completed && r.lost == s.lost
    && r.workersExited == s.workersExited && |r.workers| == |s.workers|
    && forall w :: 0 <= w < |s.workers| ==>
         r.workers[w] == s.workers[w] || (s.workers[w].Asleep? && r.workers[w].Signalled?)
  }

  lemma PutOnlyWakes<T>(s: State<T>, c: nat, t: T, flush: bool, pick: nat, r: State<T>)
    requires c < |s.clients| && |s.queue| <= |s.accepted| && r == Put(s, c, t, flush, pick)
    ensures OnlyWakes(s, r)
  {
  }

  lemma ClientOnlyWakes<T>(s: State<T>, a: Action<T>, r: State<T>)
    requires Enabled(s, a) && !ByWorker(a) && r == Next(s, a)
    ensures OnlyWakes(s, r)
  {
    if a.APut? {
      PutOnlyWakes(s, a.c, a.t, a.flush, a.pick, r);
    } else if a.AWakeClient? {
      var s1 := SetClient(s, a.c, Away).(clientsWaiting := s.clientsWaiting - 1);
      AfterWakeOnlyWakes(s1, a.c, s.clients[a.c].why, a.pick, r);
    }
  }

  lemma AfterWakeOnlyWakes<T>(s: State<T>, c: nat, why: Wait<T>, pick: nat, r: State<T>)
    requires c < |s.clients| && |s.queue| <= |s.accepted| && r == AfterWake(s, c, why, pick)
    ensures OnlyWakes(s, r)
  {
    if why.InPut? { PutOnlyWakes(s, c, why.task, why.flush, pick, r); }
  }

  lemma ClientExecuted<T>(s: State<T>, a: Action<T>)
    requires Executed(s) && Enabled(s, a) && !ByWorker(a)
    ensures Executed(Next(s, a))
  {
    ClientOnlyWakes(s, a, Next(s, a));
    ExecutedFrame(s, Next(s, a));
  }

  lemma NextExecuted<T>(s: State<T>, a: Action<T>)
    requires Executed(s) && Enabled(s, a)
    ensures Executed(Next(s, a))
  {
    if ByWorker(a) { WorkerExecuted(s, a); } else { ClientExecuted(s, a); }
  }

  /** No more tasks are lost than workers are gone. */
  ghost predicate LossBounded<T>(s: State<T>) {
    |s.lost| <= Count(s.workers, IsGone())
  }

  lemma SameGone<T>(s: State<T>, t: State<T>)
    requires LossBounded(s) && s.lost == t.lost && |s.workers| == |t.workers|
    requires forall w :: 0 <= w < |s.workers| ==> IsGone()(s.workers[w]) == IsGone()(t.workers[w])
    ensures LossBounded(t)
  {
    CountSame(s.workers, t.workers, IsGone(), IsGone());
  }

  lemma SetGone<T>(s: State<T>, w: nat, t: State<T>)
    requires LossBounded(s) && w < |s.workers| && |t.workers| == |s.workers|
    requires t.workers == s.workers[w := t.workers[w]]
    requires IsGone()(s.workers[w]) ==> IsGone()(t.workers[w]) && t.lost == s.lost
    requires |t.lost| <= |s.lost| + 1 && (IsGone()(t.workers[w]) || t.lost == s.lost)
    ensures LossBounded(t)
  {
    CountUpdate(s.workers, w, t.workers[w], IsGone());
  }

  lemma TakeLoss<T>(s: State<T>, w: nat, pick: nat, r: State<T>)
    requires LossBounded(s) && w < |s.workers| && s.workers[w] == Free
    requires |s.queue| <= |s.accepted| && s.low > 0 && r == Take(s, w, pick)
    ensures LossBounded(r)
  {
    SetGone(s, w, r);
  }

  lemma WorkerLoss<T>(s: State<T>, a: Action<T>, r: State<T>)
    requires LossBounded(s) && Enabled(s, a) && ByWorker(a) && r == Next(s, a)
    ensures LossBounded(r)
  {
    if a.ATake? {
      TakeLoss(s, a.w, a.pick, r);
    } else if a.AWakeWorker? {
      var s1 := SetWorker(s, a.w, Free).(workersWaiting := s.workersWaiting - 1);
      SetGone(s, a.w, s1);
      TakeLoss(s1, a.w, a.pick, r);
    } else {
      SetGone(s, a.w, r);
    }
  }

  lemma ClientLoss<T>(s: State<T>, a: Action<T>, r: State<T>)
    requires LossBounded(s) && Enabled(s, a) && !ByWorker(a) && r == Next(s, a)
    ensures LossBounded(r)
  {
    ClientOnlyWakes(s, a, r);
    SameGone(s, r);
  }

  lemma NextLoss<T>(s: State<T>, a: Action<T>, r: State<T>)
    requires LossBounded(s) && Enabled(s, a) && r == Next(s, a)
    ensures LossBounded(r)
  {
    if ByWorker(a) { WorkerLoss(s, a, r); } else { ClientLoss(s, a, r); }
  }
}
