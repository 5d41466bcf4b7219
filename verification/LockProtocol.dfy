/** The caching lock protocol for one lock: any number of clients, any number of threads on
    each, one server.

    Every RPC of the protocol is synchronous, so a handler always runs on behalf of one
    application thread, however deeply nested.  The program counter of that thread therefore
    says where the whole chain of calls has got to, on whichever machine it is; requests and
    replies in flight are program counters too.  A step of a thread runs one critical section,
    or moves one message.  A run is a schedule: the sequence of threads that step. */
module LockProtocol {
  import opened Options
  import opened LockRecords

  datatype Task = Task(client: Id, thread: nat)

  /** A call of the server's release.  From RetryOut to RevokeBack the handler holds the
      record's mutex.  Stuck is a revoke that found client w Free: w's handler has called
      release in turn, which waits for the mutex that its own caller holds. */
  datatype ReleaseCall =
    | Sent
    | RetryOut(w: Id) | RetryBack(w: Id)
    | RevokeOut(w: Id) | RevokeBack(w: Id) | Stuck(w: Id)
    | Replied

  /** The revoke that the server's acquire sends: the request in flight, the owner's handler
      handing the lock back, the answer in flight. */
  datatype RevokeCall = Requested | Handing(rel: ReleaseCall) | Answered

  datatype Reply = Ok | Retry

  datatype Pc =
    | Ready                                // about to look at the client's record
    | Asleep                               // waiting on the condition: the lock is busy here
    | AcqSent                              // acquire sent, not yet served
    | AcqGap                               // server: mutex given up, owner not yet read
    | AcqRevoke(dst: Id, call: RevokeCall) // server: revoke sent to dst
    | AcqBack(reply: Reply)                // the reply in flight
    | RetryReady | RetryAsleep             // waiting for the retry flag, awake or not
    | Holding                              // acquire has returned; release not yet called
    | RelCall(rel: ReleaseCall)            // the client's release has called the server

  /** The VERIFY failures of the two sources. */
  datatype Fault = NoOwnerToRevoke | NoRecord | WrongStatus

  datatype State = State(
    created: bool,
    server: Server,
    clients: map<Id, Client>,
    pc: map<Task, Pc>,
    mutex: Option<Task>,
    fault: Option<Fault>)

  const Init := State(false, NewServer, map[], map[], None, None)

  /** `lock_map[lid]` on client c. */
  function Rec(s: State, c: Id): Client {
    if c in s.clients then s.clients[c] else NewClient
  }

  function SetRec(s: State, c: Id, r: Client): State {
    s.(clients := s.clients[c := r])
  }

  function SetPc(s: State, t: Task, p: Pc): State {
    s.(pc := s.pc[t := p])
  }

  function Fail(s: State, f: Fault): State {
    s.(fault := Some(f))
  }

  function Woken(p: Pc): Pc {
    match p
    case Asleep => Ready
    case RetryAsleep => RetryReady
    case _ => p
  }

  /** `pthread_cond_broadcast` on client c. */
  function Broadcast(s: State, c: Id): State {
    s.(pc := map t | t in s.pc :: if t.client == c then Woken(s.pc[t]) else s.pc[t])
  }

  /** The release call in progress at a program counter, if any. */
  function RelOf(p: Pc): Option<ReleaseCall> {
    match p
    case RelCall(rel) => Some(rel)
    case AcqRevoke(_, Handing(rel)) => Some(rel)
    case _ => None
  }

  /** The client that a release call gives the lock back for. */
  function RelFor(t: Task, p: Pc): Id {
    if p.AcqRevoke? then p.dst else t.client
  }

  function WithRel(p: Pc, rel: ReleaseCall): Pc
    requires RelOf(p).Some?
  {
    if p.RelCall? then RelCall(rel) else AcqRevoke(p.dst, Handing(rel))
  }

  /** A thread can step unless it waits for the server's mutex or is stuck.  A sleeping
      thread can: `pthread_cond_wait` may return spuriously.  Nothing steps after a fault. */
  predicate Enabled(s: State, t: Task) {
    && s.fault.None?
    && (t in s.pc ==>
          && (s.pc[t].AcqSent? ==> s.mutex.None?)
          && (RelOf(s.pc[t]) == Some(Sent) ==> s.mutex.None?)
          && (RelOf(s.pc[t]).Some? ==> !RelOf(s.pc[t]).value.Stuck?))
  }

  // ----- the steps, one function each -----

  function CallAcquire(s: State, t: Task): State {
    SetPc(SetRec(s, t.client, Rec(s, t.client)), t, Ready)
  }

  function Enter(s: State, t: Task): State {
    var r := Rec(s, t.client);
    SetPc(SetRec(s, t.client, Entered(r)), t,
          match r.status
          case Nothing => AcqSent
          case Free => Holding
          case _ => Asleep)
  }

  function ServeAcquire(s: State, t: Task): State {
    SetPc(s.(created := true, server := Acquired(s.server, t.client)), t,
          match AcquireVerdict(s.server)
          case Granted => AcqBack(Ok)
          case Queued => AcqBack(Retry)
          case MustRevoke => AcqGap)
  }

  function ReadOwner(s: State, t: Task): State {
    match s.server.owner
    case None => Fail(s, NoOwnerToRevoke)
    case Some(d) => SetPc(s, t, AcqRevoke(d, Requested))
  }

  function DeliverRevoke(s: State, t: Task, d: Id): State {
    if d !in s.clients then Fail(s, NoRecord)
    else
      var s1 := SetRec(s, d, RevokeArrived(s.clients[d]));
      if s.clients[d].status.Free? then SetPc(s1, t, AcqRevoke(d, Handing(Sent)))
      else Broadcast(SetPc(s1, t, AcqRevoke(d, Answered)), d)
  }

  function TakeLock(s: State, t: Task): State {
    SetPc(SetRec(s, t.client, Rec(s, t.client).(status := Locked)), t, Holding)
  }

  function CheckRetry(s: State, t: Task): State {
    var r := Rec(s, t.client);
    if r.retry then Broadcast(SetPc(SetRec(s, t.client, Retried(r)), t, AcqSent), t.client)
    else SetPc(s, t, RetryAsleep)
  }

  function CallRelease(s: State, t: Task): State {
    if t.client !in s.clients then Fail(s, NoRecord)
    else
      var r := s.clients[t.client];
      if r.status != Locked then Fail(s, WrongStatus)
      else
        var s1 := SetRec(s, t.client, HandedBack(r));
        if r.revoke then SetPc(s1, t, RelCall(Sent))
        else Broadcast(s1.(pc := s1.pc - {t}), t.client)
  }

  function ServeRelease(s: State, t: Task): State
    requires t in s.pc && RelOf(s.pc[t]).Some?
  {
    if !s.created then Fail(s, NoRecord)
    else
      var s1 := s.(server := Released(s.server));
      if s.server.waiting == {} then SetPc(s1, t, WithRel(s.pc[t], Replied))
      else SetPc(s1.(mutex := Some(t)), t, WithRel(s.pc[t], RetryOut(Begin(s.server.waiting))))
  }

  function DeliverRetry(s: State, t: Task, w: Id): State
    requires t in s.pc && RelOf(s.pc[t]).Some?
  {
    if w !in s.clients then Fail(s, NoRecord)
    else
      var s1 := SetPc(SetRec(s, w, RetryArrived(s.clients[w])), t, WithRel(s.pc[t], RetryBack(w)));
      if s.clients[w].retry then s1 else Broadcast(s1, w)
  }

  function AfterRetry(s: State, t: Task, w: Id): State
    requires t in s.pc && RelOf(s.pc[t]).Some?
  {
    if |s.server.waiting| > 1 then SetPc(s, t, WithRel(s.pc[t], RevokeOut(w)))
    else SetPc(s.(mutex := None), t, WithRel(s.pc[t], Replied))
  }

  function DeliverNestedRevoke(s: State, t: Task, w: Id): State
    requires t in s.pc && RelOf(s.pc[t]).Some?
  {
    if w !in s.clients then Fail(s, NoRecord)
    else
      var s1 := SetRec(s, w, RevokeArrived(s.clients[w]));
      if s.clients[w].status.Free? then SetPc(s1, t, WithRel(s.pc[t], Stuck(w)))
      else Broadcast(SetPc(s1, t, WithRel(s.pc[t], RevokeBack(w))), w)
  }

  function AfterNestedRevoke(s: State, t: Task): State
    requires t in s.pc && RelOf(s.pc[t]).Some?
  {
    SetPc(s.(mutex := None), t, WithRel(s.pc[t], Replied))
  }

  function ReleaseReply(s: State, t: Task): State
    requires t in s.pc && RelOf(s.pc[t]).Some?
  {
    var d := RelFor(t, s.pc[t]);
    var s1 := SetRec(s, d, Rec(s, d).(status := Nothing));
    Broadcast(if s.pc[t].RelCall? then s1.(pc := s1.pc - {t}) else SetPc(s1, t, AcqRevoke(d, Answered)), d)
  }

  function RelStep(s: State, t: Task): State
    requires Enabled(s, t) && t in s.pc && RelOf(s.pc[t]).Some?
  {
    match RelOf(s.pc[t]).value
    case Sent => ServeRelease(s, t)
    case RetryOut(w) => DeliverRetry(s, t, w)
    case RetryBack(w) => AfterRetry(s, t, w)
    case RevokeOut(w) => DeliverNestedRevoke(s, t, w)
    case RevokeBack(_) => AfterNestedRevoke(s, t)
    case Replied => ReleaseReply(s, t)
  }

  /** The next step of thread t. */
  function Step(s: State, t: Task): State
    requires Enabled(s, t)
  {
    if t !in s.pc then CallAcquire(s, t)
    else match s.pc[t]
      case Ready => Enter(s, t)
      case Asleep => SetPc(s, t, Ready)
      case RetryAsleep => SetPc(s, t, RetryReady)
      case AcqSent => ServeAcquire(s, t)
      case AcqGap => ReadOwner(s, t)
      case AcqRevoke(d, Requested) => DeliverRevoke(s, t, d)
      case AcqRevoke(_, Handing(_)) => RelStep(s, t)
      case AcqRevoke(_, Answered) => SetPc(s, t, AcqBack(Retry))
      case AcqBack(Ok) => TakeLock(s, t)
      case AcqBack(Retry) => CheckRetry(s, t)
      case RetryReady => CheckRetry(s, t)
      case Holding => CallRelease(s, t)
      case RelCall(_) => RelStep(s, t)
  }

  // ----- runs -----

  /** A schedule is feasible when each thread can step when its turn comes. */
  predicate Feasible(s: State, run: seq<Task>)
    decreases |run|
  {
    run == [] || (Enabled(s, run[0]) && Feasible(Step(s, run[0]), run[1..]))
  }

  function After(s: State, run: seq<Task>): State
    requires Feasible(s, run)
    decreases |run|
  {
    if run == [] then s else After(Step(s, run[0]), run[1..])
  }

  /** One schedule after another. */
  lemma {:induction false} RunsJoin(s: State, a: seq<Task>, b: seq<Task>)
    requires Feasible(s, a) && Feasible(After(s, a), b)
    ensures Feasible(s, a + b) && After(s, a + b) == After(After(s, a), b)
    decreases |a|
  {
    if a == [] {
      assert a + b == b;
    } else {
      RunsJoin(Step(s, a[0]), a[1..], b);
      assert (a + b)[1..] == a[1..] + b;
    }
  }
}
