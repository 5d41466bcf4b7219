/** Whoever waits for the lock will be called: no lost wakeup, no lost revoke, no sleeper left
    behind. */
module LockLiveness {
  import opened Options
  import opened LockRecords
  import opened LockProtocol
  import opened LockInvariant

  /** Client w will ask the server again: its retry flag is up, or the request is on its way. */
  ghost predicate Pending(s: State, w: Id) {
    Rec(s, w).retry || exists t :: t in s.pc && t.client == w && s.pc[t].AcqSent?
  }

  /** The owner knows, or will come to know, that the lock is wanted: its revoke flag is up,
      it is giving the lock back, or a revoke is about to be sent or on its way to it. */
  ghost predicate Coming(s: State) {
    && s.server.owner.Some?
    && (|| Rec(s, s.server.owner.value).revoke
        || Rec(s, s.server.owner.value).status.Releasing?
        || (exists t :: t in s.pc && s.pc[t].AcqGap?)
        || (exists t :: t in s.pc && s.pc[t] == AcqRevoke(s.server.owner.value, Requested)))
  }

  /** No lost wakeup.  The waiter that will ask again also carries the revoke for the others. */
  ghost predicate NoLostWakeup(s: State) {
    !s.server.held && s.server.waiting != {} && s.mutex.None? ==>
      exists w :: w in s.server.waiting && Pending(s, w) && (s.server.waiting == {w} || Rec(s, w).revoke)
  }

  ghost predicate NoLostRevoke(s: State) {
    && (s.server.held && s.server.revoke ==> Coming(s))
    && (s.server.held && s.server.waiting != {} ==>
          Coming(s) || exists w :: w in s.server.waiting && Pending(s, w))
  }

  /** What a release handler has achieved while it holds the mutex. */
  ghost predicate MidRelease(s: State) {
    s.mutex.Some? && s.mutex.value in s.pc && HoldsMutex(s.pc[s.mutex.value]) ==>
      var rel := RelOf(s.pc[s.mutex.value]).value;
      && (!rel.RetryOut? ==> Pending(s, rel.w))
      && (rel.RevokeBack? ==> Rec(s, rel.w).revoke)
  }

  /** A sleeper has reason to sleep. */
  ghost predicate SleeperOk(s: State, t: Task)
    requires t in s.pc
  {
    && (s.pc[t].Asleep? ==> !Rec(s, t.client).status.Nothing? && !Rec(s, t.client).status.Free?)
    && (s.pc[t].RetryAsleep? ==> !Rec(s, t.client).retry)
  }

  /** Nobody sleeps through what it waits for, and no revoke waits in a Free record. */
  ghost predicate NoSleeperLeft(s: State) {
    && (forall t :: t in s.pc ==> SleeperOk(s, t))
    && (forall c :: c in s.clients && s.clients[c].status.Free? ==> !s.clients[c].revoke)
  }

  ghost predicate Live(s: State) {
    NoLostWakeup(s) && NoLostRevoke(s) && MidRelease(s) && NoSleeperLeft(s)
  }

  // ----- what one step does to one thread, and to one record -----

  /** The part of Core that a step of t relies on. */
  ghost predicate Placed(s: State, ag: Agents, t: Task) {
    t in s.pc ==>
      && TaskOk(s, ag, t)
      && (HoldsMutex(s.pc[t]) ==>
            var w := RelOf(s.pc[t]).value.w;
            w in s.clients && s.clients[w].status == Acquiring)
  }

  lemma PlacedAll(s: State, ag: Agents, t: Task)
    requires Core(s, ag)
    ensures Placed(s, ag, t)
  {
    if t in s.pc && HoldsMutex(s.pc[t]) {
      assert TaskOk(s, ag, t);
      assert ClientOk(s, ag, RelOf(s.pc[t]).value.w);
    }
  }

  /** What a step of t does to one thread u and to the record of one client c:
      - u only ever gets woken by others, and goes on having a reason to sleep;
      - a Free record never gets its revoke flag up;
      - an Acquiring client keeps its flags, except that its own thread turns retry into a request;
      - the owner, once told to give the lock back, stays told while it is the owner. */
  ghost predicate Kept(s: State, s': State, t: Task, u: Task, c: Id) {
    && (u != t ==>
          && (u in s.pc <==> u in s'.pc)
          && (u in s.pc ==> s'.pc[u] == s.pc[u] || s'.pc[u] == Woken(s.pc[u])))
    && ((u in s.pc ==> SleeperOk(s, u)) ==> (u in s'.pc ==> SleeperOk(s', u)))
    && ((Rec(s, c).status.Free? ==> !Rec(s, c).revoke) ==> (Rec(s', c).status.Free? ==> !Rec(s', c).revoke))
    && (Rec(s, c).status.Acquiring? ==>
          && (Rec(s, c).revoke ==> Rec(s', c).revoke)
          && (Rec(s, c).retry ==> Rec(s', c).retry || (t.client == c && t in s'.pc && s'.pc[t].AcqSent?)))
    && (s.server.owner == Some(c) == s'.server.owner && Told(Rec(s, c)) ==> Told(Rec(s', c)))
  }

  predicate Told(r: Client) {
    r.revoke || r.status.Releasing?
  }

  lemma CallAcquireKept(s: State, t: Task, u: Task, c: Id)
    requires t !in s.pc
    ensures Kept(s, CallAcquire(s, t), t, u, c)
  {
  }

  lemma EnterKept(s: State, t: Task, u: Task, c: Id)
    requires t in s.pc && s.pc[t].Ready?
    ensures Kept(s, Enter(s, t), t, u, c)
  {
  }

  lemma ServeAcquireKept(s: State, t: Task, u: Task, c: Id)
    requires t in s.pc && s.pc[t].AcqSent?
    ensures Kept(s, ServeAcquire(s, t), t, u, c)
  {
  }

  lemma MoveKept(s: State, t: Task, p: Pc, u: Task, c: Id)
    requires t in s.pc && !p.Asleep? && !p.RetryAsleep?
    ensures Kept(s, SetPc(s, t, p), t, u, c)
  {
  }

  lemma DeliverRevokeKept(s: State, t: Task, ag: Agents, d: Id, u: Task, c: Id)
    requires t in s.pc && s.pc[t] == AcqRevoke(d, Requested) && Placed(s, ag, t)
    ensures Kept(s, DeliverRevoke(s, t, d), t, u, c)
  {
  }

  lemma TakeLockKept(s: State, t: Task, ag: Agents, u: Task, c: Id)
    requires t in s.pc && s.pc[t] == AcqBack(Ok) && Placed(s, ag, t)
    ensures Kept(s, TakeLock(s, t), t, u, c)
  {
  }

  lemma CheckRetryKept(s: State, t: Task, ag: Agents, u: Task, c: Id)
    requires t in s.pc && InLine(s.pc[t]) && Placed(s, ag, t)
    ensures Kept(s, CheckRetry(s, t), t, u, c)
  {
  }

  lemma CallReleaseKept(s: State, t: Task, ag: Agents, u: Task, c: Id)
    requires t in s.pc && s.pc[t].Holding? && Placed(s, ag, t)
    ensures Kept(s, CallRelease(s, t), t, u, c)
  {
  }

  lemma ServeReleaseKept(s: State, t: Task, u: Task, c: Id)
    requires t in s.pc && RelOf(s.pc[t]) == Some(Sent)
    ensures Kept(s, ServeRelease(s, t), t, u, c)
  {
  }

  lemma DeliverRetryKept(s: State, t: Task, w: Id, u: Task, c: Id)
    requires t in s.pc && RelOf(s.pc[t]) == Some(RetryOut(w))
    ensures Kept(s, DeliverRetry(s, t, w), t, u, c)
  {
  }

  lemma DeliverNestedRevokeKept(s: State, t: Task, ag: Agents, w: Id, u: Task, c: Id)
    requires t in s.pc && RelOf(s.pc[t]) == Some(RevokeOut(w)) && Placed(s, ag, t)
    ensures Kept(s, DeliverNestedRevoke(s, t, w), t, u, c)
  {
  }

  lemma ReleaseReplyKept(s: State, t: Task, ag: Agents, u: Task, c: Id)
    requires t in s.pc && RelOf(s.pc[t]) == Some(Replied) && Placed(s, ag, t)
    requires s.server.owner != Some(RelFor(t, s.pc[t]))
    ensures Kept(s, ReleaseReply(s, t), t, u, c)
  {
  }

  lemma RelStepKept(s: State, t: Task, ag: Agents, u: Task, c: Id)
    requires Core(s, ag) && Enabled(s, t) && t in s.pc && Gives(s.pc[t])
    ensures Kept(s, RelStep(s, t), t, u, c)
  {
    PlacedAll(s, ag, t);
    match RelOf(s.pc[t]).value
    case Sent => ServeReleaseKept(s, t, u, c);
    case RetryOut(w) => DeliverRetryKept(s, t, w, u, c);
    case RetryBack(w) =>
      if |s.server.waiting| > 1 {
        MoveKept(s, t, WithRel(s.pc[t], RevokeOut(w)), u, c);
      } else {
        MoveKept(s.(mutex := None), t, WithRel(s.pc[t], Replied), u, c);
      }
    case RevokeOut(w) => DeliverNestedRevokeKept(s, t, ag, w, u, c);
    case RevokeBack(_) => MoveKept(s.(mutex := None), t, WithRel(s.pc[t], Replied), u, c);
    case Replied =>
      assert ClientOk(s, ag, RelFor(t, s.pc[t]));
      ReleaseReplyKept(s, t, ag, u, c);
  }

  lemma StepKept(s: State, t: Task, ag: Agents, u: Task, c: Id)
    requires Core(s, ag) && Enabled(s, t)
    ensures Kept(s, Step(s, t), t, u, c)
  {
    PlacedAll(s, ag, t);
    if t !in s.pc {
      CallAcquireKept(s, t, u, c);
    } else {
      match s.pc[t]
      case Ready => EnterKept(s, t, u, c);
      case Asleep => MoveKept(s, t, Ready, u, c);
      case RetryAsleep => MoveKept(s, t, RetryReady, u, c);
      case AcqSent => ServeAcquireKept(s, t, u, c);
      case AcqGap => if s.server.owner.Some? { MoveKept(s, t, AcqRevoke(s.server.owner.value, Requested), u, c); }
      case AcqRevoke(d, Requested) => DeliverRevokeKept(s, t, ag, d, u, c);
      case AcqRevoke(_, Answered) => MoveKept(s, t, AcqBack(Retry), u, c);
      case AcqBack(Ok) => TakeLockKept(s, t, ag, u, c);
      case AcqBack(Retry) => CheckRetryKept(s, t, ag, u, c);
      case RetryReady => CheckRetryKept(s, t, ag, u, c);
      case Holding => CallReleaseKept(s, t, ag, u, c);
      case _ => RelStepKept(s, t, ag, u, c);
    }
  }

  /** Only two steps change the server's record. */
  lemma ServerStep(s: State, t: Task)
    requires Enabled(s, t)
    ensures t in s.pc && s.pc[t].AcqSent? ==>
              && Step(s, t).server == Acquired(s.server, t.client)
              && Step(s, t).mutex == s.mutex
              && Step(s, t).pc == s.pc[t := if !s.server.held then AcqBack(Ok)
                                            else if s.server.revoke then AcqBack(Retry) else AcqGap]
    ensures t in s.pc && RelOf(s.pc[t]) == Some(Sent) ==>
              Step(s, t).server == if s.created then Released(s.server) else s.server
    ensures !(t in s.pc && (s.pc[t].AcqSent? || RelOf(s.pc[t]) == Some(Sent))) ==> Step(s, t).server == s.server
  {
  }

  // ----- the two liveness facts, kept -----

  lemma PendingKept(s: State, t: Task, ag: Agents, w: Id)
    requires Core(s, ag) && Enabled(s, t) && w in s.server.waiting
    requires !(t in s.pc && s.pc[t].AcqSent? && t.client == w)
    ensures Rec(s, w).revoke ==> Rec(Step(s, t), w).revoke
    ensures Pending(s, w) ==> Pending(Step(s, t), w)
  {
    assert ClientOk(s, ag, w);
    WaiterIsAcquiring(s, ag, w);
    StepKept(s, t, ag, t, w);
    if Pending(s, w) && !Rec(s, w).retry {
      var u :| u in s.pc && u.client == w && s.pc[u].AcqSent?;
      StepKept(s, t, ag, u, w);
    }
  }

  lemma WaiterIsAcquiring(s: State, ag: Agents, w: Id)
    requires Core(s, ag) && w in s.server.waiting
    ensures w in s.clients && s.clients[w].status == Acquiring
  {
    assert ClientOk(s, ag, w);
  }

  lemma ComingKept(s: State, t: Task, ag: Agents)
    requires Core(s, ag) && Enabled(s, t) && s.server.held && Coming(s)
    ensures Step(s, t).fault.None? && Step(s, t).server.held ==> Coming(Step(s, t))
  {
    var s' := Step(s, t);
    var o := s.server.owner.value;
    ServerStep(s, t);
    if s'.fault.None? && s'.server.held {
      StepKept(s, t, ag, t, o);
      if !Told(Rec(s, o)) {
        var u :| u in s.pc && (s.pc[u].AcqGap? || s.pc[u] == AcqRevoke(o, Requested));
        StepKept(s, t, ag, u, o);
        if u == t { SentRevokeStays(s, t); }
      }
    }
  }

  lemma SentRevokeStays(s: State, t: Task)
    requires Enabled(s, t) && s.server.owner.Some? && t in s.pc
    requires s.pc[t].AcqGap? || s.pc[t] == AcqRevoke(s.server.owner.value, Requested)
    ensures Step(s, t).fault.None? ==>
              || (t in Step(s, t).pc && Step(s, t).pc[t] == AcqRevoke(s.server.owner.value, Requested))
              || Told(Rec(Step(s, t), s.server.owner.value))
  {
  }

  lemma NoLostRevokeKept(s: State, t: Task, ag: Agents)
    requires Core(s, ag) && Enabled(s, t) && Live(s) && Step(s, t).fault.None?
    ensures NoLostRevoke(Step(s, t))
  {
    var s' := Step(s, t);
    ServerStep(s, t);
    if s'.server.held {
      if s.server.held {
        if Coming(s) {
          ComingKept(s, t, ag);
        } else if t in s.pc && s.pc[t].AcqSent? {
          assert s'.pc[t].AcqGap?;
        } else if s.server.waiting != {} {
          var w :| w in s.server.waiting && Pending(s, w);
          PendingKept(s, t, ag, w);
        }
      } else if s'.server.waiting != {} {
        var w :| w in s.server.waiting && Pending(s, w) && (s.server.waiting == {w} || Rec(s, w).revoke);
        if w != t.client {
          PendingKept(s, t, ag, w);
        } else {
          assert s'.clients == s.clients;
        }
      }
    }
  }

  /** The mutex is taken by serving a release that finds waiters. */
  lemma MutexTaken(s: State, t: Task, ag: Agents)
    requires Core(s, ag) && Enabled(s, t) && s.mutex.None?
    ensures Step(s, t).mutex.Some? ==>
              && Step(s, t).mutex == Some(t) && t in Step(s, t).pc
              && RelOf(Step(s, t).pc[t]).Some? && RelOf(Step(s, t).pc[t]).value.RetryOut?
    ensures Step(s, t).mutex.None? && t in s.pc && RelOf(s.pc[t]) == Some(Sent) ==> s.server.waiting == {}
  {
    if t in s.pc { assert TaskOk(s, ag, t); }
  }

  /** It is kept through the calls made under it, and given up with the waiter told. */
  lemma MutexGivenUp(s: State, t: Task, ag: Agents)
    requires Core(s, ag) && Enabled(s, t) && s.mutex.Some?
    ensures Step(s, t).mutex.None? || Step(s, t).mutex == s.mutex
    ensures Step(s, t).mutex.None? ==>
              && s.mutex == Some(t) && t in s.pc && HoldsMutex(s.pc[t])
              && (RelOf(s.pc[t]).value.RevokeBack? || (RelOf(s.pc[t]).value.RetryBack? && |s.server.waiting| <= 1))
  {
    if t in s.pc { assert TaskOk(s, ag, t); }
  }

  lemma SingletonWaiter(waiting: set<Id>, w: Id)
    requires w in waiting && |waiting| <= 1
    ensures waiting == {w}
  {
    if x :| x in waiting && x != w {
      assert |{w, x}| == 2 && {w, x} <= waiting;
      CardinalitySubset({w, x}, waiting);
    }
  }

  lemma CardinalitySubset(a: set<Id>, b: set<Id>)
    requires a <= b
    ensures |a| <= |b|
  {
    assert b == a + (b - a);
  }

  lemma NoLostWakeupKept(s: State, t: Task, ag: Agents)
    requires Core(s, ag) && Enabled(s, t) && Live(s) && Step(s, t).fault.None?
    ensures NoLostWakeup(Step(s, t))
  {
    var s' := Step(s, t);
    ServerStep(s, t);
    if s.mutex.None? { MutexTaken(s, t, ag); } else { MutexGivenUp(s, t, ag); }
    if !s'.server.held && s'.server.waiting != {} && s'.mutex.None? {
      assert !(t in s.pc && s.pc[t].AcqSent?);
      if s.mutex.Some? {
        var w := RelOf(s.pc[t]).value.w;
        if RelOf(s.pc[t]).value.RetryBack? { SingletonWaiter(s.server.waiting, w); }
        PendingKept(s, t, ag, w);
      } else {
        assert !s.server.held;
        var w :| w in s.server.waiting && Pending(s, w) && (s.server.waiting == {w} || Rec(s, w).revoke);
        PendingKept(s, t, ag, w);
      }
    }
  }

  lemma MidReleaseKept(s: State, t: Task, ag: Agents)
    requires Core(s, ag) && Enabled(s, t) && Live(s)
    ensures MidRelease(Step(s, t))
  {
    var s' := Step(s, t);
    if s.mutex.None? { MutexTaken(s, t, ag); } else { MutexGivenUp(s, t, ag); }
    if s.mutex.Some? && s'.mutex == s.mutex {
      var m := s.mutex.value;
      var rel := RelOf(s.pc[m]).value;
      assert TaskOk(s, ag, m);
      if m != t {
        StepKept(s, t, ag, m, rel.w);
        PendingKept(s, t, ag, rel.w);
      } else {
        MidReleaseOwn(s, t, ag);
      }
    }
  }

  lemma MidReleaseOwn(s: State, t: Task, ag: Agents)
    requires Core(s, ag) && Enabled(s, t) && MidRelease(s)
    requires s.mutex == Some(t)
    ensures MidRelease(Step(s, t))
  {
    PlacedAll(s, ag, t);
    match RelOf(s.pc[t]).value
    case RetryOut(w) => MidRetryOut(s, t, ag, w);
    case RevokeOut(w) => MidRevokeOut(s, t, ag, w);
    case RetryBack(w) => PendingKept(s, t, ag, w);
    case RevokeBack(_) =>
  }

  lemma MidRetryOut(s: State, t: Task, ag: Agents, w: Id)
    requires Core(s, ag) && Enabled(s, t) && s.mutex == Some(t) && t in s.pc && RelOf(s.pc[t]) == Some(RetryOut(w))
    requires w in s.clients
    ensures MidRelease(RelStep(s, t))
  {
  }

  lemma MidRevokeOut(s: State, t: Task, ag: Agents, w: Id)
    requires Core(s, ag) && Enabled(s, t) && s.mutex == Some(t) && t in s.pc && RelOf(s.pc[t]) == Some(RevokeOut(w))
    requires w in s.clients && s.clients[w].status == Acquiring && Pending(s, w)
    ensures MidRelease(RelStep(s, t))
  {
    PendingKept(s, t, ag, w);
  }

  lemma NoSleeperLeftKept(s: State, t: Task, ag: Agents)
    requires Core(s, ag) && Enabled(s, t) && NoSleeperLeft(s)
    ensures NoSleeperLeft(Step(s, t))
  {
    var s' := Step(s, t);
    forall u | u in s'.pc ensures SleeperOk(s', u) { StepKept(s, t, ag, u, 0); }
    forall c | c in s'.clients && s'.clients[c].status.Free? ensures !s'.clients[c].revoke {
      StepKept(s, t, ag, t, c);
    }
  }

  /** Every step keeps Live. */
  lemma StepLive(s: State, t: Task, ag: Agents)
    requires Core(s, ag) && Enabled(s, t) && Live(s)
    ensures Live(Step(s, t))
  {
    if Step(s, t).fault.None? {
      NoLostRevokeKept(s, t, ag);
      NoLostWakeupKept(s, t, ag);
      MidReleaseKept(s, t, ag);
      NoSleeperLeftKept(s, t, ag);
    } else {
      var ag' := StepCore(s, t, ag);
      FailLive(s, NoOwnerToRevoke);
    }
  }

  lemma FailLive(s: State, f: Fault)
    requires Live(s)
    ensures Live(Fail(s, f))
  {
    var s' := Fail(s, f);
    forall t | t in s'.pc ensures SleeperOk(s', t) { assert SleeperOk(s, t); }
    assert forall w :: Pending(s, w) ==> Pending(s', w);
  }
}
