/** The one fault of the protocol: the server's acquire gives up the mutex before it reads the
    owner it is going to revoke, and finds no owner.  It can happen if and only if at least
    three clients use the lock. */
module LockFault {
  import opened Options
  import opened LockRecords
  import opened LockProtocol
  import opened LockInvariant
  import opened LockLiveness
  import opened LockTheorems

  ghost predicate Uses(run: seq<Task>, ids: set<Id>) {
    forall i :: 0 <= i < |run| ==> run[i].client in ids
  }

  // ----- two clients: at most one order to give the lock back is ever under way -----

  predicate Order(p: Pc) {
    p.AcqGap? || (p.AcqRevoke? && p.call.Requested?)
  }

  predicate Nested(p: Pc) {
    RelOf(p).Some? && (RelOf(p).value.RevokeOut? || RelOf(p).value.RevokeBack?)
  }

  /** An order is for the present owner, who has not been told yet; a release in flight was ordered. */
  ghost predicate DuoTask(s: State, t: Task)
    requires t in s.pc
  {
    && (Order(s.pc[t]) ==>
          && s.server.owner.Some? && s.server.revoke && !Told(Rec(s, s.server.owner.value))
          && (s.pc[t].AcqRevoke? ==> s.pc[t].dst == s.server.owner.value))
    && (RelOf(s.pc[t]) == Some(Sent) ==> s.server.revoke)
    && !Nested(s.pc[t])
  }

  /** A revoke flag that is up was ordered during the present ownership. */
  ghost predicate DuoClient(s: State, c: Id) {
    Rec(s, c).revoke ==> s.server.owner == Some(c) && s.server.revoke && !Rec(s, c).status.Releasing?
  }

  ghost predicate Duo(s: State, ids: set<Id>) {
    && s.clients.Keys <= ids
    && (forall t :: t in s.pc ==> DuoTask(s, t))
    && (forall c :: c in s.clients ==> DuoClient(s, c))
  }

  lemma ThreeDistinct(ids: set<Id>, a: Id, b: Id, c: Id)
    requires a in ids && b in ids && c in ids && a != b && b != c && a != c
    ensures |ids| >= 3
  {
    CardinalitySubset({a, b, c}, ids);
  }

  /** Two clients can not both be queued behind an owner, or behind a client that gives back. */
  lemma OneWaiter(s: State, ag: Agents, ids: set<Id>, c: Id)
    requires Core(s, ag) && s.clients.Keys <= ids && |ids| <= 2
    requires c in s.clients && c !in s.server.waiting
    ensures |s.server.waiting| <= 1
  {
    assert s.server.waiting + {c} <= ids;
    CardinalitySubset(s.server.waiting + {c}, ids);
    assert |s.server.waiting + {c}| == |s.server.waiting| + 1;
  }

  lemma OneOrder(s: State, ag: Agents, ids: set<Id>, t: Task, u: Task)
    requires Core(s, ag) && Duo(s, ids) && |ids| <= 2
    requires t in s.pc && u in s.pc && Order(s.pc[t]) && Order(s.pc[u])
    ensures t == u
  {
    assert TaskOk(s, ag, t) && TaskOk(s, ag, u) && DuoTask(s, t);
    assert ClientOk(s, ag, t.client) && ClientOk(s, ag, u.client) && ClientOk(s, ag, s.server.owner.value);
    if t.client != u.client {
      ThreeDistinct(ids, t.client, u.client, s.server.owner.value);
    }
  }

  /** A step that does not concern revoking: server, revoke flags and the owner's being told
      stay, and t neither starts an order nor sends a release. */
  ghost predicate Quiet(s: State, s': State, t: Task) {
    && s'.server == s.server
    && (forall c :: c in s'.clients ==> Rec(s', c).revoke == Rec(s, c).revoke)
    && (forall c :: c in s'.clients && Rec(s', c).status.Releasing? ==> Rec(s, c).status.Releasing?)
    && (t in s'.pc ==> !Order(s'.pc[t]) && RelOf(s'.pc[t]) != Some(Sent) && !Nested(s'.pc[t]))
    && s'.clients.Keys <= s.clients.Keys + {t.client}
  }

  lemma EnterQuiet(s: State, t: Task)
    ensures t !in s.pc ==> Quiet(s, CallAcquire(s, t), t)
    ensures t in s.pc && s.pc[t].Ready? ==> Quiet(s, Enter(s, t), t)
  {
  }

  lemma TakeQuiet(s: State, t: Task)
    requires t in s.pc
    ensures Quiet(s, TakeLock(s, t), t)
  {
  }

  lemma CheckQuiet(s: State, t: Task)
    requires t in s.pc
    ensures Quiet(s, CheckRetry(s, t), t)
  {
  }

  lemma MoveQuiet(s: State, t: Task, p: Pc)
    requires t in s.pc && !Order(p) && RelOf(p) != Some(Sent) && !Nested(p)
    ensures Quiet(s, SetPc(s, t, p), t)
  {
  }

  lemma DeliverRetryQuiet(s: State, t: Task, w: Id)
    requires t in s.pc && RelOf(s.pc[t]) == Some(RetryOut(w)) && w in s.clients
    ensures Quiet(s, DeliverRetry(s, t, w), t)
  {
  }

  lemma ReleaseReplyQuiet(s: State, t: Task, ag: Agents)
    requires Core(s, ag) && Enabled(s, t) && t in s.pc && RelOf(s.pc[t]) == Some(Replied)
    ensures Quiet(s, RelStep(s, t), t)
  {
    assert TaskOk(s, ag, t);
  }

  lemma QuietTask(s: State, t: Task, ag: Agents, ids: set<Id>, u: Task)
    requires Core(s, ag) && Duo(s, ids) && Enabled(s, t) && t.client in ids
    requires Quiet(s, Step(s, t), t) && u in Step(s, t).pc
    ensures DuoTask(Step(s, t), u)
  {
    StepKept(s, t, ag, u, 0);
    if u != t {
      assert DuoTask(s, u);
      if s.server.owner.Some? { assert s.server.owner.value in s.clients ==> DuoClient(s, s.server.owner.value); }
    }
  }

  lemma QuietDuo(s: State, t: Task, ag: Agents, ids: set<Id>)
    requires Core(s, ag) && Duo(s, ids) && Enabled(s, t) && t.client in ids
    requires Quiet(s, Step(s, t), t)
    ensures Duo(Step(s, t), ids)
  {
    var s' := Step(s, t);
    forall u | u in s'.pc ensures DuoTask(s', u) { QuietTask(s, t, ag, ids, u); }
    forall c | c in s'.clients ensures DuoClient(s', c) {
      if c in s.clients { assert DuoClient(s, c); }
    }
  }

  lemma ServeAcquireDuo(s: State, t: Task, ag: Agents, ids: set<Id>)
    requires Core(s, ag) && Duo(s, ids) && Enabled(s, t) && t in s.pc && s.pc[t].AcqSent?
    ensures Duo(ServeAcquire(s, t), ids)
  {
    var s' := ServeAcquire(s, t);
    assert TaskOk(s, ag, t);
    if s.server.held {
      var o := s.server.owner.value;
      assert ClientOk(s, ag, o) && DuoClient(s, o);
      if Rec(s, o).status.Releasing? { assert DuoTask(s, ag[o]); }
    }
    forall u | u in s'.pc ensures DuoTask(s', u) {
      assert DuoTask(s, u) && TaskOk(s, ag, u);
      if RelOf(s.pc[u]) == Some(Sent) { assert ClientOk(s, ag, RelFor(u, s.pc[u])); }
    }
    forall c | c in s'.clients ensures DuoClient(s', c) { assert DuoClient(s, c); }
  }

  lemma DeliverRevokeDuo(s: State, t: Task, ag: Agents, ids: set<Id>)
    requires Core(s, ag) && Duo(s, ids) && |ids| <= 2
    requires Enabled(s, t) && t in s.pc && s.pc[t].AcqRevoke? && s.pc[t].call.Requested?
    ensures Duo(DeliverRevoke(s, t, s.pc[t].dst), ids)
  {
    var d := s.pc[t].dst;
    var s' := DeliverRevoke(s, t, d);
    assert TaskOk(s, ag, t) && DuoTask(s, t);
    forall u | u in s'.pc ensures DuoTask(s', u) {
      assert DuoTask(s, u);
      if u != t && Order(s.pc[u]) { OneOrder(s, ag, ids, t, u); }
    }
    forall c | c in s'.clients ensures DuoClient(s', c) { assert DuoClient(s, c); }
  }

  lemma CallReleaseDuo(s: State, t: Task, ag: Agents, ids: set<Id>)
    requires Core(s, ag) && Duo(s, ids) && Enabled(s, t) && t in s.pc && s.pc[t].Holding?
    ensures Duo(CallRelease(s, t), ids)
  {
    var s' := CallRelease(s, t);
    assert TaskOk(s, ag, t) && ClientOk(s, ag, t.client) && DuoClient(s, t.client);
    forall u | u in s'.pc ensures DuoTask(s', u) { assert DuoTask(s, u); }
    forall c | c in s'.clients ensures DuoClient(s', c) { assert DuoClient(s, c); }
  }

  lemma ServeReleaseDuo(s: State, t: Task, ag: Agents, ids: set<Id>)
    requires Core(s, ag) && Duo(s, ids) && Enabled(s, t) && t in s.pc && RelOf(s.pc[t]) == Some(Sent)
    ensures Duo(ServeRelease(s, t), ids)
  {
    var s' := ServeRelease(s, t);
    var d := RelFor(t, s.pc[t]);
    assert TaskOk(s, ag, t) && ClientOk(s, ag, d);
    forall u | u in s'.pc ensures DuoTask(s', u) {
      assert DuoTask(s, u) && TaskOk(s, ag, u);
      if RelOf(s.pc[u]) == Some(Sent) { assert ClientOk(s, ag, RelFor(u, s.pc[u])); }
    }
    forall c | c in s'.clients ensures DuoClient(s', c) { assert DuoClient(s, c); }
  }

  /** Of two clients one gives the lock back, so only the other can wait. */
  lemma AfterRetryDuo(s: State, t: Task, ag: Agents, ids: set<Id>, w: Id)
    requires Core(s, ag) && Duo(s, ids) && |ids| <= 2 && t.client in ids
    requires Enabled(s, t) && t in s.pc && RelOf(s.pc[t]) == Some(RetryBack(w))
    ensures Duo(RelStep(s, t), ids)
  {
    assert TaskOk(s, ag, t) && DuoTask(s, t);
    var d := RelFor(t, s.pc[t]);
    assert ClientOk(s, ag, d);
    OneWaiter(s, ag, ids, d);
    QuietDuo(s, t, ag, ids);
  }

  lemma RelStepDuo(s: State, t: Task, ag: Agents, ids: set<Id>)
    requires Core(s, ag) && Duo(s, ids) && |ids| <= 2 && t.client in ids
    requires Enabled(s, t) && t in s.pc && Gives(s.pc[t])
    ensures Duo(RelStep(s, t), ids)
  {
    assert TaskOk(s, ag, t) && DuoTask(s, t);
    match RelOf(s.pc[t]).value
    case Sent => ServeReleaseDuo(s, t, ag, ids);
    case RetryOut(w) => DeliverRetryQuiet(s, t, w); QuietDuo(s, t, ag, ids);
    case RetryBack(w) => AfterRetryDuo(s, t, ag, ids, w);
    case Replied => ReleaseReplyQuiet(s, t, ag); QuietDuo(s, t, ag, ids);
  }

  lemma ReadOwnerDuo(s: State, t: Task, ids: set<Id>)
    requires Duo(s, ids) && t in s.pc && s.pc[t].AcqGap?
    ensures ReadOwner(s, t).fault == s.fault && Duo(ReadOwner(s, t), ids)
  {
    assert DuoTask(s, t);
    var s' := ReadOwner(s, t);
    forall u | u in s'.pc ensures DuoTask(s', u) { assert DuoTask(s, u); }
    forall c | c in s'.clients ensures DuoClient(s', c) { assert DuoClient(s, c); }
  }

  lemma StepDuo(s: State, t: Task, ag: Agents, ids: set<Id>)
    requires Core(s, ag) && Duo(s, ids) && |ids| <= 2 && Enabled(s, t) && t.client in ids
    ensures Duo(Step(s, t), ids)
  {
    if t in s.pc {
      match s.pc[t]
      case AcqSent => ServeAcquireDuo(s, t, ag, ids);
      case AcqGap => ReadOwnerDuo(s, t, ids);
      case AcqRevoke(_, Requested) => DeliverRevokeDuo(s, t, ag, ids);
      case AcqRevoke(_, Handing(_)) => RelStepDuo(s, t, ag, ids);
      case RelCall(_) => RelStepDuo(s, t, ag, ids);
      case Holding => CallReleaseDuo(s, t, ag, ids);
      case Ready => EnterQuiet(s, t); QuietDuo(s, t, ag, ids);
      case AcqBack(Ok) => TakeQuiet(s, t); QuietDuo(s, t, ag, ids);
      case AcqBack(Retry) => CheckQuiet(s, t); QuietDuo(s, t, ag, ids);
      case RetryReady => CheckQuiet(s, t); QuietDuo(s, t, ag, ids);
      case Asleep => MoveQuiet(s, t, Ready); QuietDuo(s, t, ag, ids);
      case RetryAsleep => MoveQuiet(s, t, RetryReady); QuietDuo(s, t, ag, ids);
      case AcqRevoke(_, Answered) => MoveQuiet(s, t, AcqBack(Retry)); QuietDuo(s, t, ag, ids);
    } else {
      EnterQuiet(s, t);
      QuietDuo(s, t, ag, ids);
    }
  }

  lemma StepNoFault(s: State, t: Task, ag: Agents, ids: set<Id>)
    requires Core(s, ag) && Duo(s, ids) && Enabled(s, t)
    ensures Step(s, t).fault.None?
  {
    var ag' := StepCore(s, t, ag);
    if t in s.pc && s.pc[t].AcqGap? { ReadOwnerDuo(s, t, ids); }
  }

  lemma {:induction false} RunDuo(s: State, run: seq<Task>, ids: set<Id>)
    requires Inv(s) && Duo(s, ids) && |ids| <= 2 && s.fault.None? && Uses(run, ids) && Feasible(s, run)
    ensures After(s, run).fault.None?
    decreases |run|
  {
    if run != [] {
      var ag :| Core(s, ag);
      StepDuo(s, run[0], ag, ids);
      StepNoFault(s, run[0], ag, ids);
      StepInv(s, run[0]);
      RunDuo(Step(s, run[0]), run[1..], ids);
    }
  }
}
