/** The inductive invariant of the lock protocol.

    Only one thread at a time works on a client's record: `agent` names it.  The first half
    (Core) says where the lock is; the second half (Live) says that whoever waits for it will
    be called. */
module LockInvariant {
  import opened Options
  import opened LockRecords
  import opened LockProtocol

  type Agents = map<Id, Task>

  /** The thread asks the server on behalf of its client. */
  predicate Asks(p: Pc) {
    p.AcqSent? || p.AcqGap? || p.AcqRevoke? || p.AcqBack? || p.RetryReady? || p.RetryAsleep?
  }

  /** Asking, and told RETRY or about to be. */
  predicate InLine(p: Pc) {
    Asks(p) && p != AcqSent && p != AcqBack(Ok)
  }

  /** The thread gives a lock back to the server. */
  predicate Gives(p: Pc) {
    RelOf(p).Some?
  }

  /** In the part of release that holds the server's mutex. */
  predicate HoldsMutex(p: Pc) {
    Gives(p) && RelOf(p) != Some(Sent) && RelOf(p) != Some(Replied)
  }

  ghost predicate Agent(ag: Agents, c: Id, t: Task) {
    c in ag && ag[c] == t
  }

  /** A thread that works on a record is that record's agent, and the record says so. */
  ghost predicate TaskOk(s: State, ag: Agents, t: Task)
    requires t in s.pc
  {
    var p := s.pc[t];
    && t.client in s.clients
    && (Asks(p) ==> s.clients[t.client].status == Acquiring && Agent(ag, t.client, t))
    && (p.Holding? ==> s.clients[t.client].status == Locked && Agent(ag, t.client, t))
    && (Gives(p) ==>
          && RelFor(t, p) in s.clients && s.clients[RelFor(t, p)].status == Releasing
          && Agent(ag, RelFor(t, p), t))
    && (p.AcqRevoke? ==> p.dst in s.clients)
    && (HoldsMutex(p) ==> s.mutex == Some(t) && !RelOf(p).value.Stuck?)
  }

  /** A record that is not at rest has an agent at work; the server's owner is exactly the
      client that has the lock; everyone told RETRY is in the wait list. */
  ghost predicate ClientOk(s: State, ag: Agents, c: Id)
    requires c in s.clients
  {
    var owns := s.server.owner == Some(c);
    match s.clients[c].status
    case Nothing => !owns && c !in s.server.waiting
    case Free => owns && c !in s.server.waiting
    case Locked =>
      && owns && c !in s.server.waiting
      && c in ag && ag[c] in s.pc && ag[c].client == c && s.pc[ag[c]].Holding?
    case Acquiring =>
      && (owns ==> c !in s.server.waiting)
      && c in ag && ag[c] in s.pc && ag[c].client == c && Asks(s.pc[ag[c]])
      && (owns <==> s.pc[ag[c]] == AcqBack(Ok))
      && (InLine(s.pc[ag[c]]) ==> c in s.server.waiting)
    case Releasing =>
      && c !in s.server.waiting
      && c in ag && ag[c] in s.pc && RelFor(ag[c], s.pc[ag[c]]) == c && Gives(s.pc[ag[c]])
      && (owns <==> RelOf(s.pc[ag[c]]) == Some(Sent))
  }

  ghost predicate ServerOk(s: State) {
    && (s.server.held <==> s.server.owner.Some?)
    && (s.server.held ==> s.created && s.server.owner.value in s.clients)
    && (forall w :: w in s.server.waiting ==> w in s.clients)
    && (s.mutex.Some? ==>
          && s.mutex.value in s.pc && HoldsMutex(s.pc[s.mutex.value])
          && !s.server.held && RelOf(s.pc[s.mutex.value]).value.w in s.server.waiting)
  }

  ghost predicate Core(s: State, ag: Agents) {
    && (forall t :: t in s.pc ==> TaskOk(s, ag, t))
    && (forall c :: c in s.clients ==> ClientOk(s, ag, c))
    && ServerOk(s)
  }

  lemma CallAcquireCore(s: State, t: Task, ag: Agents)
    requires Core(s, ag) && Enabled(s, t) && t !in s.pc
    ensures Core(CallAcquire(s, t), ag)
  {
    var s' := CallAcquire(s, t);
    forall u | u in s'.pc ensures TaskOk(s', ag, u) { if u != t { assert TaskOk(s, ag, u); } }
    forall c | c in s'.clients ensures ClientOk(s', ag, c) { if c in s.clients { assert ClientOk(s, ag, c); } }
  }

  function EnterAgents(s: State, t: Task, ag: Agents): Agents {
    var st := Rec(s, t.client).status;
    if st.Nothing? || st.Free? then ag[t.client := t] else ag
  }

  lemma EnterTask(s: State, t: Task, ag: Agents, u: Task)
    requires Core(s, ag) && Enabled(s, t) && t in s.pc && s.pc[t].Ready? && u in s.pc
    ensures TaskOk(Enter(s, t), EnterAgents(s, t, ag), u)
  {
    assert TaskOk(s, ag, t) && ClientOk(s, ag, t.client) && TaskOk(s, ag, u);
  }

  lemma EnterClient(s: State, t: Task, ag: Agents, c: Id)
    requires Core(s, ag) && Enabled(s, t) && t in s.pc && s.pc[t].Ready? && c in s.clients
    ensures ClientOk(Enter(s, t), EnterAgents(s, t, ag), c)
  {
    assert TaskOk(s, ag, t) && ClientOk(s, ag, t.client) && ClientOk(s, ag, c);
  }

  lemma EnterCore(s: State, t: Task, ag: Agents) returns (ag': Agents)
    requires Core(s, ag) && Enabled(s, t) && t in s.pc && s.pc[t].Ready?
    ensures Core(Enter(s, t), ag')
  {
    ag' := EnterAgents(s, t, ag);
    var s' := Enter(s, t);
    assert TaskOk(s, ag, t);
    forall u | u in s'.pc ensures TaskOk(s', ag', u) { EnterTask(s, t, ag, u); }
    forall c | c in s'.clients ensures ClientOk(s', ag', c) { EnterClient(s, t, ag, c); }
  }

  lemma ServeAcquireCore(s: State, t: Task, ag: Agents)
    requires Core(s, ag) && Enabled(s, t) && t in s.pc && s.pc[t].AcqSent?
    ensures Core(ServeAcquire(s, t), ag)
  {
    var s' := ServeAcquire(s, t);
    assert TaskOk(s, ag, t) && ClientOk(s, ag, t.client);
    forall u | u in s'.pc ensures TaskOk(s', ag, u) { assert TaskOk(s, ag, u); }
    forall c | c in s'.clients ensures ClientOk(s', ag, c) { assert ClientOk(s, ag, c); }
  }

  lemma MoveTask(s: State, t: Task, p: Pc, ag: Agents, u: Task)
    requires Core(s, ag) && t in s.pc && SamePart(s.pc[t], p) && (p.AcqRevoke? ==> p.dst in s.clients) && u in s.pc
    ensures TaskOk(SetPc(s, t, p), ag, u)
  {
    assert TaskOk(s, ag, t) && TaskOk(s, ag, u);
  }

  lemma MoveClient(s: State, t: Task, p: Pc, ag: Agents, c: Id)
    requires Core(s, ag) && t in s.pc && SamePart(s.pc[t], p) && c in s.clients
    ensures ClientOk(SetPc(s, t, p), ag, c)
  {
    assert TaskOk(s, ag, t) && ClientOk(s, ag, c);
  }

  /** A thread moves on without changing what it does, for whom, or with which mutex. */
  lemma MoveCore(s: State, t: Task, p: Pc, ag: Agents)
    requires Core(s, ag) && t in s.pc
    requires SamePart(s.pc[t], p)
    requires p.AcqRevoke? ==> p.dst in s.clients
    ensures Core(SetPc(s, t, p), ag)
  {
    var s' := SetPc(s, t, p);
    forall u | u in s'.pc ensures TaskOk(s', ag, u) { MoveTask(s, t, p, ag, u); }
    forall c | c in s'.clients ensures ClientOk(s', ag, c) { MoveClient(s, t, p, ag, c); }
  }

  predicate SamePart(p: Pc, q: Pc) {
    || (p.Asleep? && q.Ready?)
    || (InLine(p) && InLine(q) && !Gives(p) && !Gives(q))
    || (Gives(p) && HoldsMutex(p) && HoldsMutex(q) && q == WithRel(p, RelOf(q).value)
        && !RelOf(q).value.Stuck? && RelOf(p).value.w == RelOf(q).value.w)
  }

  lemma BroadcastCore(s: State, c: Id, ag: Agents)
    requires Core(s, ag)
    ensures Core(Broadcast(s, c), ag)
  {
    var s' := Broadcast(s, c);
    forall u | u in s'.pc ensures TaskOk(s', ag, u) { assert TaskOk(s, ag, u); }
    forall d | d in s'.clients ensures ClientOk(s', ag, d) { assert ClientOk(s, ag, d); }
  }

  /** Raising a flag of a record moves nobody. */
  lemma FlagCore(s: State, c: Id, r: Client, ag: Agents)
    requires Core(s, ag) && c in s.clients && r.status == s.clients[c].status
    ensures Core(SetRec(s, c, r), ag)
  {
    var s' := SetRec(s, c, r);
    forall u | u in s'.pc ensures TaskOk(s', ag, u) { assert TaskOk(s, ag, u); }
    forall d | d in s'.clients ensures ClientOk(s', ag, d) { assert ClientOk(s, ag, d); }
  }

  lemma ReadOwnerCore(s: State, t: Task, ag: Agents)
    requires Core(s, ag) && Enabled(s, t) && t in s.pc && s.pc[t].AcqGap?
    ensures Core(ReadOwner(s, t), ag)
  {
    if s.server.owner.Some? {
      MoveCore(s, t, AcqRevoke(s.server.owner.value, Requested), ag);
    } else {
      FailCore(s, NoOwnerToRevoke, ag);
    }
  }

  lemma FailCore(s: State, f: Fault, ag: Agents)
    requires Core(s, ag)
    ensures Core(Fail(s, f), ag)
  {
    var s' := Fail(s, f);
    forall u | u in s'.pc ensures TaskOk(s', ag, u) { assert TaskOk(s, ag, u); }
    forall c | c in s'.clients ensures ClientOk(s', ag, c) { assert ClientOk(s, ag, c); }
  }

  lemma DeliverRevokeCore(s: State, t: Task, ag: Agents) returns (ag': Agents)
    requires Core(s, ag) && Enabled(s, t) && t in s.pc && s.pc[t].AcqRevoke? && s.pc[t].call.Requested?
    ensures s.pc[t].dst in s.clients
    ensures Core(DeliverRevoke(s, t, s.pc[t].dst), ag')
  {
    var d := s.pc[t].dst;
    assert TaskOk(s, ag, t) && ClientOk(s, ag, t.client);
    var r := RevokeArrived(s.clients[d]);
    if s.clients[d].status.Free? {
      ag' := ag[d := t];
      var s' := DeliverRevoke(s, t, d);
      assert ClientOk(s, ag, d);
      forall u | u in s'.pc ensures TaskOk(s', ag', u) { assert TaskOk(s, ag, u); }
      forall c | c in s'.clients ensures ClientOk(s', ag', c) { assert ClientOk(s, ag, c); }
    } else {
      ag' := ag;
      FlagCore(s, d, r, ag);
      MoveCore(SetRec(s, d, r), t, AcqRevoke(d, Answered), ag);
      BroadcastCore(SetPc(SetRec(s, d, r), t, AcqRevoke(d, Answered)), d, ag);
    }
  }

  lemma TakeLockCore(s: State, t: Task, ag: Agents)
    requires Core(s, ag) && Enabled(s, t) && t in s.pc && s.pc[t] == AcqBack(Ok)
    ensures Core(TakeLock(s, t), ag)
  {
    var s' := TakeLock(s, t);
    assert TaskOk(s, ag, t) && ClientOk(s, ag, t.client);
    forall u | u in s'.pc ensures TaskOk(s', ag, u) { assert TaskOk(s, ag, u); }
    forall c | c in s'.clients ensures ClientOk(s', ag, c) { assert ClientOk(s, ag, c); }
  }

  /** Asking again: the thread leaves the line. */
  lemma AskAgainCore(s: State, t: Task, ag: Agents)
    requires Core(s, ag) && t in s.pc && (s.pc[t] == AcqBack(Retry) || s.pc[t].RetryReady?)
    ensures Core(SetPc(s, t, AcqSent), ag)
  {
    var s' := SetPc(s, t, AcqSent);
    assert TaskOk(s, ag, t) && ClientOk(s, ag, t.client);
    forall u | u in s'.pc ensures TaskOk(s', ag, u) { assert TaskOk(s, ag, u); }
    forall c | c in s'.clients ensures ClientOk(s', ag, c) { assert ClientOk(s, ag, c); }
  }

  lemma CheckRetryCore(s: State, t: Task, ag: Agents)
    requires Core(s, ag) && Enabled(s, t) && t in s.pc && (s.pc[t] == AcqBack(Retry) || s.pc[t].RetryReady?)
    ensures Core(CheckRetry(s, t), ag)
  {
    assert TaskOk(s, ag, t);
    var r := s.clients[t.client];
    if r.retry {
      FlagCore(s, t.client, Retried(r), ag);
      var s1 := SetRec(s, t.client, Retried(r));
      AskAgainCore(s1, t, ag);
      BroadcastCore(SetPc(s1, t, AcqSent), t.client, ag);
    } else {
      MoveCore(s, t, RetryAsleep, ag);
    }
  }

  lemma CallReleaseCore(s: State, t: Task, ag: Agents)
    requires Core(s, ag) && Enabled(s, t) && t in s.pc && s.pc[t].Holding?
    ensures CallRelease(s, t).fault.None? && Core(CallRelease(s, t), ag)
  {
    assert TaskOk(s, ag, t) && ClientOk(s, ag, t.client);
    var s1 := SetRec(s, t.client, HandedBack(s.clients[t.client]));
    var revoked := s.clients[t.client].revoke;
    var s' := if revoked then SetPc(s1, t, RelCall(Sent)) else s1.(pc := s1.pc - {t});
    forall u | u in s'.pc ensures TaskOk(s', ag, u) { assert TaskOk(s, ag, u); }
    forall c | c in s'.clients ensures ClientOk(s', ag, c) { assert ClientOk(s, ag, c); }
    if !revoked {
      BroadcastCore(s', t.client, ag);
    }
  }

  lemma ServeReleaseTask(s: State, t: Task, ag: Agents, u: Task)
    requires Core(s, ag) && Enabled(s, t) && t in s.pc && RelOf(s.pc[t]) == Some(Sent) && s.created && u in s.pc
    ensures TaskOk(ServeRelease(s, t), ag, u)
  {
    assert TaskOk(s, ag, t) && TaskOk(s, ag, u);
  }

  lemma ServeReleaseClient(s: State, t: Task, ag: Agents, c: Id)
    requires Core(s, ag) && Enabled(s, t) && t in s.pc && RelOf(s.pc[t]) == Some(Sent) && s.created && c in s.clients
    ensures ClientOk(ServeRelease(s, t), ag, c)
  {
    assert TaskOk(s, ag, t) && ClientOk(s, ag, RelFor(t, s.pc[t])) && ClientOk(s, ag, t.client);
    assert ClientOk(s, ag, c);
  }

  lemma ServeReleaseCore(s: State, t: Task, ag: Agents)
    requires Core(s, ag) && Enabled(s, t) && t in s.pc && RelOf(s.pc[t]) == Some(Sent)
    ensures ServeRelease(s, t).fault.None? && Core(ServeRelease(s, t), ag)
  {
    var s' := ServeRelease(s, t);
    assert TaskOk(s, ag, t) && ClientOk(s, ag, RelFor(t, s.pc[t]));
    forall u | u in s'.pc ensures TaskOk(s', ag, u) { ServeReleaseTask(s, t, ag, u); }
    forall c | c in s'.clients ensures ClientOk(s', ag, c) { ServeReleaseClient(s, t, ag, c); }
  }

  lemma DeliverRetryCore(s: State, t: Task, ag: Agents)
    requires Core(s, ag) && Enabled(s, t) && t in s.pc && Gives(s.pc[t]) && RelOf(s.pc[t]).value.RetryOut?
    ensures RelOf(s.pc[t]).value.w in s.clients
    ensures Core(DeliverRetry(s, t, RelOf(s.pc[t]).value.w), ag)
  {
    var w := RelOf(s.pc[t]).value.w;
    assert TaskOk(s, ag, t);
    FlagCore(s, w, RetryArrived(s.clients[w]), ag);
    var s1 := SetRec(s, w, RetryArrived(s.clients[w]));
    MoveCore(s1, t, WithRel(s.pc[t], RetryBack(w)), ag);
    BroadcastCore(SetPc(s1, t, WithRel(s.pc[t], RetryBack(w))), w, ag);
  }

  /** The release handler gives up the server's mutex. */
  lemma UnlockCore(s: State, t: Task, ag: Agents)
    requires Core(s, ag) && t in s.pc && HoldsMutex(s.pc[t])
    ensures Core(SetPc(s.(mutex := None), t, WithRel(s.pc[t], Replied)), ag)
  {
    var s' := SetPc(s.(mutex := None), t, WithRel(s.pc[t], Replied));
    assert TaskOk(s, ag, t) && ClientOk(s, ag, RelFor(t, s.pc[t])) && ClientOk(s, ag, t.client);
    forall u | u in s'.pc ensures TaskOk(s', ag, u) { assert TaskOk(s, ag, u); }
    forall c | c in s'.clients ensures ClientOk(s', ag, c) { assert ClientOk(s, ag, c); }
  }

  lemma AfterRetryCore(s: State, t: Task, ag: Agents)
    requires Core(s, ag) && Enabled(s, t) && t in s.pc && Gives(s.pc[t]) && RelOf(s.pc[t]).value.RetryBack?
    ensures Core(AfterRetry(s, t, RelOf(s.pc[t]).value.w), ag)
  {
    if |s.server.waiting| > 1 {
      MoveCore(s, t, WithRel(s.pc[t], RevokeOut(RelOf(s.pc[t]).value.w)), ag);
    } else {
      UnlockCore(s, t, ag);
    }
  }

  /** The revoke sent under the mutex goes to a waiter, and a waiter is Acquiring, never Free. */
  lemma DeliverNestedRevokeCore(s: State, t: Task, ag: Agents)
    requires Core(s, ag) && Enabled(s, t) && t in s.pc && Gives(s.pc[t]) && RelOf(s.pc[t]).value.RevokeOut?
    ensures RelOf(s.pc[t]).value.w in s.clients && s.clients[RelOf(s.pc[t]).value.w].status == Acquiring
    ensures Core(DeliverNestedRevoke(s, t, RelOf(s.pc[t]).value.w), ag)
  {
    var w := RelOf(s.pc[t]).value.w;
    assert TaskOk(s, ag, t) && ClientOk(s, ag, w);
    var s1 := SetRec(s, w, RevokeArrived(s.clients[w]));
    FlagCore(s, w, RevokeArrived(s.clients[w]), ag);
    MoveCore(s1, t, WithRel(s.pc[t], RevokeBack(w)), ag);
    BroadcastCore(SetPc(s1, t, WithRel(s.pc[t], RevokeBack(w))), w, ag);
  }

  /** The reply to release has arrived; sleepers not yet woken. */
  function Settled(s: State, t: Task): State
    requires t in s.pc && RelOf(s.pc[t]).Some?
  {
    var d := RelFor(t, s.pc[t]);
    var s1 := SetRec(s, d, Rec(s, d).(status := Nothing));
    if s.pc[t].RelCall? then s1.(pc := s1.pc - {t}) else SetPc(s1, t, AcqRevoke(d, Answered))
  }

  lemma SettledTask(s: State, t: Task, ag: Agents, u: Task)
    requires Core(s, ag) && t in s.pc && RelOf(s.pc[t]) == Some(Replied) && u in Settled(s, t).pc
    ensures TaskOk(Settled(s, t), ag, u)
  {
    assert TaskOk(s, ag, t) && TaskOk(s, ag, u);
  }

  lemma SettledClient(s: State, t: Task, ag: Agents, c: Id)
    requires Core(s, ag) && t in s.pc && RelOf(s.pc[t]) == Some(Replied) && c in Settled(s, t).clients
    ensures ClientOk(Settled(s, t), ag, c)
  {
    assert TaskOk(s, ag, t) && ClientOk(s, ag, RelFor(t, s.pc[t])) && ClientOk(s, ag, t.client);
    assert c in s.clients && ClientOk(s, ag, c);
  }

  lemma ReleaseReplyCore(s: State, t: Task, ag: Agents)
    requires Core(s, ag) && Enabled(s, t) && t in s.pc && RelOf(s.pc[t]) == Some(Replied)
    ensures Core(ReleaseReply(s, t), ag)
  {
    var s' := Settled(s, t);
    assert TaskOk(s, ag, t);
    forall u | u in s'.pc ensures TaskOk(s', ag, u) { SettledTask(s, t, ag, u); }
    forall c | c in s'.clients ensures ClientOk(s', ag, c) { SettledClient(s, t, ag, c); }
    BroadcastCore(s', RelFor(t, s.pc[t]), ag);
  }

  /** Every step keeps Core, and one step only can fail. */
  lemma StepCore(s: State, t: Task, ag: Agents) returns (ag': Agents)
    requires Core(s, ag) && Enabled(s, t)
    ensures Core(Step(s, t), ag')
    ensures Step(s, t).fault.Some? ==> t in s.pc && s.pc[t].AcqGap? && Step(s, t).fault == Some(NoOwnerToRevoke)
  {
    ag' := ag;
    if t !in s.pc {
      CallAcquireCore(s, t, ag);
    } else {
      match s.pc[t]
      case Ready => ag' := EnterCore(s, t, ag);
      case Asleep => MoveCore(s, t, Ready, ag);
      case RetryAsleep => MoveCore(s, t, RetryReady, ag);
      case AcqSent => ServeAcquireCore(s, t, ag);
      case AcqGap => ReadOwnerCore(s, t, ag);
      case AcqRevoke(_, Requested) => ag' := DeliverRevokeCore(s, t, ag);
      case AcqRevoke(_, Answered) => MoveCore(s, t, AcqBack(Retry), ag);
      case AcqBack(Ok) => TakeLockCore(s, t, ag);
      case AcqBack(Retry) => CheckRetryCore(s, t, ag);
      case RetryReady => CheckRetryCore(s, t, ag);
      case Holding => CallReleaseCore(s, t, ag);
      case RelCall(_) => RelStepCore(s, t, ag);
      case AcqRevoke(_, Handing(_)) => RelStepCore(s, t, ag);
    }
  }

  lemma RelStepCore(s: State, t: Task, ag: Agents)
    requires Core(s, ag) && Enabled(s, t) && t in s.pc && Gives(s.pc[t])
    ensures RelStep(s, t).fault.None? && Core(RelStep(s, t), ag)
  {
    match RelOf(s.pc[t]).value
    case Sent => ServeReleaseCore(s, t, ag);
    case RetryOut(_) => DeliverRetryCore(s, t, ag);
    case RetryBack(_) => AfterRetryCore(s, t, ag);
    case RevokeOut(_) => DeliverNestedRevokeCore(s, t, ag);
    case RevokeBack(_) => UnlockCore(s, t, ag);
    case Replied => ReleaseReplyCore(s, t, ag);
  }
}
