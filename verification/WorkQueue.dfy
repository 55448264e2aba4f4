/** The monitor of src/workqueue.h as a step relation. A step is what one thread does between taking
    the lock and giving it back: returning, or going to sleep on one of the two conditions. */
module WorkQueue {
  import opened Strings

  /** Free: between two calls of take(). Busy: executing a task. Leaving: take() returned false. */
  datatype Worker = Free | Busy(task: nat) | Asleep | Signalled | Leaving | Exited

  datatype Wait<T> = InPut(task: T, flush: bool) | InIdle | InTerminate

  datatype Client<T> = Away | Sleeping(why: Wait<T>) | Woken(why: Wait<T>)

  /** The fields of WorkQueue, the threads around it, and what happened so far: a task is known by
      its position in accepted, and lost are those of workers that failed. */
  datatype State<T> = State(
    low: nat, high: nat, mok: bool, queue: seq<T>,
    workersWaiting: int, workersExited: int, clientsWaiting: int,
    workers: seq<Worker>, clients: seq<Client<T>>,
    accepted: seq<T>, taken: seq<nat>, freed: set<nat>, completed: seq<nat>, lost: seq<nat>)

  /** ok() */
  predicate Ok<T>(s: State<T>) {
    s.mok && s.workersExited == 0 && |s.workers| > 0
  }

  function InWait(): Worker -> bool { (w: Worker) => w.Asleep? || w.Signalled? }
  function IsSignalled(): Worker -> bool { (w: Worker) => w.Signalled? }
  function IsGone(): Worker -> bool { (w: Worker) => w.Leaving? || w.Exited? }
  function HasExited(): Worker -> bool { (w: Worker) => w.Exited? }
  function Waits<T>(): Client<T> -> bool { (c: Client<T>) => c.Sleeping? || c.Woken? }
  function IsWoken<T>(): Client<T> -> bool { (c: Client<T>) => c.Woken? }

  // ---------- notifications ----------

  function WakeC<T>(c: Client<T>): Client<T> {
    if c.Sleeping? then Woken(c.why) else c
  }

  function WakeW(w: Worker): Worker {
    if w.Asleep? then Signalled else w
  }

  function NotifyAllC<T>(s: State<T>): State<T> {
    s.(clients := seq(|s.clients|, i requires 0 <= i < |s.clients| => WakeC(s.clients[i])))
  }

  function NotifyAllW<T>(s: State<T>): State<T> {
    s.(workers := seq(|s.workers|, i requires 0 <= i < |s.workers| => WakeW(s.workers[i])))
  }

  function NotifyOneC<T>(s: State<T>, pick: nat): State<T> {
    if pick < |s.clients| then s.(clients := s.clients[pick := WakeC(s.clients[pick])]) else s
  }

  function NotifyOneW<T>(s: State<T>, pick: nat): State<T> {
    if pick < |s.workers| then s.(workers := s.workers[pick := WakeW(s.workers[pick])]) else s
  }

  /** A notification reaches a sleeping thread if there is one; which one is not known. */
  predicate CanPickC<T>(s: State<T>, pick: nat) {
    (exists i :: 0 <= i < |s.clients| && s.clients[i].Sleeping?) ==>
      pick < |s.clients| && s.clients[pick].Sleeping?
  }

  predicate CanPickW<T>(s: State<T>, pick: nat) {
    (exists i :: 0 <= i < |s.workers| && s.workers[i].Asleep?) ==>
      pick < |s.workers| && s.workers[pick].Asleep?
  }

  // ---------- workers ----------

  function SetWorker<T>(s: State<T>, w: nat, x: Worker): State<T>
    requires w < |s.workers|
  {
    s.(workers := s.workers[w := x])
  }

  /** Going to sleep in take(): a client may be waiting for the queue to be idle. */
  function Nap<T>(s: State<T>, w: nat): State<T>
    requires w < |s.workers|
  {
    var s1 := SetWorker(s, w, Asleep).(workersWaiting := s.workersWaiting + 1);
    if s.queue == [] then NotifyAllC(s1) else s1
  }

  /** The end of take(). */
  function TakeHead<T>(s: State<T>, w: nat, pick: nat): State<T>
    requires w < |s.workers| && s.queue != [] && |s.queue| <= |s.accepted|
  {
    var i := |s.accepted| - |s.queue|;
    var s1 := SetWorker(s, w, Busy(i)).(queue := s.queue[1..], taken := s.taken + [i]);
    if s.clientsWaiting > 0 then NotifyOneC(s1, pick) else s1
  }

  /** take(), from its start or from the test at the head of its loop. */
  function Take<T>(s: State<T>, w: nat, pick: nat): State<T>
    requires w < |s.workers| && |s.queue| <= |s.accepted| && s.low > 0
  {
    if !Ok(s) then SetWorker(s, w, Leaving)
    else if |s.queue| < s.low then Nap(s, w)
    else TakeHead(s, w, pick)
  }

  /** A worker comes back from the condition wait in take(). */
  function WakeWorker<T>(s: State<T>, w: nat, pick: nat): State<T>
    requires w < |s.workers| && |s.queue| <= |s.accepted| && s.low > 0
  {
    Take(SetWorker(s, w, Free).(workersWaiting := s.workersWaiting - 1), w, pick)
  }

  /** The worker function gives up, with its task if it has one. */
  function Fail<T>(s: State<T>, w: nat): State<T>
    requires w < |s.workers|
  {
    SetWorker(s, w, Leaving).(lost := s.lost + if s.workers[w].Busy? then [s.workers[w].task] else [])
  }

  /** workerExit() */
  function WorkerExit<T>(s: State<T>, w: nat): State<T>
    requires w < |s.workers|
  {
    NotifyAllC(SetWorker(s, w, Exited).(workersExited := s.workersExited + 1, mok := false))
  }

  // ---------- clients ----------

  function SetClient<T>(s: State<T>, c: nat, x: Client<T>): State<T>
    requires c < |s.clients|
  {
    s.(clients := s.clients[c := x])
  }

  function Sleep<T>(s: State<T>, c: nat, why: Wait<T>): State<T>
    requires c < |s.clients|
  {
    SetClient(s, c, Sleeping(why)).(clientsWaiting := s.clientsWaiting + 1)
  }

  predicate Between(lo: int, i: int, hi: int) { lo <= i < hi }

  function Range(lo: nat, hi: nat): set<nat> {
    set i: nat | lo <= i < hi && Between(lo, i, hi)
  }

  function Flush<T>(s: State<T>): State<T>
    requires |s.queue| <= |s.accepted|
  {
    s.(queue := [], freed := s.freed + Range(|s.accepted| - |s.queue|, |s.accepted|))
  }

  /** The end of put(). */
  function Push<T>(s: State<T>, t: T, pick: nat): State<T> {
    var s1 := s.(queue := s.queue + [t], accepted := s.accepted + [t]);
    if s.workersWaiting > 0 then NotifyOneW(s1, pick) else s1
  }

  function Put<T>(s: State<T>, c: nat, t: T, flush: bool, pick: nat): State<T>
    requires c < |s.clients| && |s.queue| <= |s.accepted|
  {
    if !Ok(s) then s
    else if s.high > 0 && |s.queue| >= s.high then Sleep(s, c, InPut(t, flush))
    else Push(if flush then Flush(s) else s, t, pick)
  }

  /** The condition of the loop in waitIdle(). */
  predicate NotIdle<T>(s: State<T>) {
    || (|s.queue| > 0 && s.workersExited < |s.workers|)
    || s.workersWaiting + s.workersExited < |s.workers|
  }

  function WaitIdle<T>(s: State<T>, c: nat): State<T>
    requires c < |s.clients|
  {
    if NotIdle(s) then Sleep(s, c, InIdle) else s
  }

  /** setTerminateAndWait() up to the joining of the threads. */
  function Terminate<T>(s: State<T>, c: nat): State<T>
    requires c < |s.clients|
  {
    var s1 := s.(mok := false);
    if s1.workersExited < |s1.workers| then Sleep(NotifyAllW(s1), c, InTerminate) else s1
  }

  /** A client comes back from a condition wait. */
  function WakeClient<T>(s: State<T>, c: nat, pick: nat): State<T>
    requires c < |s.clients| && |s.queue| <= |s.accepted| && s.clients[c].Woken?
  {
    AfterWake(SetClient(s, c, Away).(clientsWaiting := s.clientsWaiting - 1), c, s.clients[c].why, pick)
  }

  /** The rest of the call it was waiting in. */
  function AfterWake<T>(s: State<T>, c: nat, why: Wait<T>, pick: nat): State<T>
    requires c < |s.clients| && |s.queue| <= |s.accepted|
  {
    match why
    case InPut(t, flush) => Put(s, c, t, flush, pick)
    case InIdle => WaitIdle(s, c)
    case InTerminate => Terminate(s, c)
  }

  // ---------- runs ----------

  datatype Action<T> =
    | ATake(w: nat, pick: nat)
    | AWakeWorker(w: nat, pick: nat)
    | AFinish(w: nat)
    | AFail(w: nat)
    | AExit(w: nat)
    | APut(c: nat, t: T, flush: bool, pick: nat)
    | AIdle(c: nat)
    | ATerminate(c: nat)
    | AWakeClient(c: nat, pick: nat)
    | ASpuriousW(w: nat)
    | ASpuriousC(c: nat)

  /** One controlling client: it is the only one to terminate the queue, and does it once. */
  predicate NobodyTerminates<T>(s: State<T>) {
    forall i :: 0 <= i < |s.clients| && !s.clients[i].Away? ==> !s.clients[i].why.InTerminate?
  }

  predicate Enabled<T>(s: State<T>, a: Action<T>) {
    && |s.queue| <= |s.accepted| && s.low > 0
    && match a
       case ATake(w, pick) => w < |s.workers| && s.workers[w] == Free && CanPickC(s, pick)
       case AWakeWorker(w, pick) => w < |s.workers| && s.workers[w] == Signalled && CanPickC(s, pick)
       case AFinish(w) => w < |s.workers| && s.workers[w].Busy?
       case AFail(w) => w < |s.workers| && (s.workers[w].Busy? || s.workers[w] == Free)
       case AExit(w) => w < |s.workers| && s.workers[w] == Leaving
       case APut(c, _, _, pick) => c < |s.clients| && s.clients[c].Away? && CanPickW(s, pick)
       case AIdle(c) => c < |s.clients| && s.clients[c].Away?
       case ATerminate(c) => c < |s.clients| && s.clients[c].Away? && NobodyTerminates(s)
       case AWakeClient(c, pick) => c < |s.clients| && s.clients[c].Woken? && CanPickW(s, pick)
       case ASpuriousW(w) => w < |s.workers| && s.workers[w] == Asleep
       case ASpuriousC(c) => c < |s.clients| && s.clients[c].Sleeping?
  }

  /** The steps that the worker threads take. */
  predicate ByWorker<T>(a: Action<T>) {
    a.ATake? || a.AWakeWorker? || a.AFinish? || a.AFail? || a.AExit? || a.ASpuriousW?
  }

  function Next<T>(s: State<T>, a: Action<T>): State<T>
    requires Enabled(s, a)
  {
    match a
    case ATake(w, pick) => Take(s, w, pick)
    case AWakeWorker(w, pick) => WakeWorker(s, w, pick)
    case AFinish(w) => SetWorker(s, w, Free).(completed := s.completed + [s.workers[w].task])
    case AFail(w) => Fail(s, w)
    case AExit(w) => WorkerExit(s, w)
    case APut(c, t, flush, pick) => Put(s, c, t, flush, pick)
    case AIdle(c) => WaitIdle(s, c)
    case ATerminate(c) => Terminate(s, c)
    case AWakeClient(c, pick) => WakeClient(s, c, pick)
    case ASpuriousW(w) => SetWorker(s, w, Signalled)
    case ASpuriousC(c) => SetClient(s, c, Woken(s.clients[c].why))
  }

  /** start(): the worker threads are running, nothing was put yet. */
  function Start<T>(low: nat, high: nat, workers: nat, clients: nat): State<T> {
    State(low, high, true, [], 0, 0, 0,
          seq(workers, _ => Free), seq(clients, _ => Away), [], [], {}, [], [])
  }

  /** The state after a run; None when some step of it cannot be taken. */
  function Exec<T>(s: State<T>, acts: seq<Action<T>>): Option<State<T>>
    decreases |acts|
  {
    if acts == [] then Some(s)
    else if Enabled(s, acts[0]) then Exec(Next(s, acts[0]), acts[1..])
    else None
  }
}
