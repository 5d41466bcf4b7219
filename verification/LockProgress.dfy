/** The lock protocol always comes to rest.

    Steps of the protocol itself, as opposed to calls by the application, use up a measure: what
    is still ahead of each thread, what each record can still set off, and the wakeups these can
    cause.  `k` bounds the number of threads, and with it the cost of a broadcast. */
module LockProgress {
  import opened Options
  import opened LockRecords
  import opened LockProtocol
  import opened LockInvariant
  import opened LockLiveness
  import opened LockTheorems

  // ----- sums over a map -----

  ghost function Pick<X>(m: map<X, nat>): X
    requires m != map[]
  {
    var k :| k in m;
    k
  }

  ghost function Total<X>(m: map<X, nat>): nat
    decreases |m|
  {
    if m == map[] then 0 else m[Pick(m)] + Total(m - {Pick(m)})
  }

  lemma {:induction false} TotalSplit<X>(m: map<X, nat>, k: X)
    requires k in m
    ensures Total(m) == m[k] + Total(m - {k})
    decreases |m|
  {
    var j := Pick(m);
    if j != k {
      TotalSplit(m - {j}, k);
      TotalSplit(m - {k}, j);
      assert m - {j} - {k} == m - {k} - {j};
    }
  }

  lemma TotalSet<X>(m: map<X, nat>, k: X, v: nat)
    requires k in m
    ensures Total(m[k := v]) == Total(m) - m[k] + v
  {
    TotalSplit(m, k);
    TotalSplit(m[k := v], k);
    assert m[k := v] - {k} == m - {k};
  }

  lemma {:induction false} TotalWithin<X>(m: map<X, nat>, m': map<X, nat>)
    requires m'.Keys == m.Keys && forall k :: k in m ==> m'[k] <= m[k] + 1
    ensures Total(m') <= Total(m) + |m|
    decreases |m|
  {
    if m != map[] {
      var k := Pick(m);
      TotalSplit(m, k);
      TotalSplit(m', k);
      assert (m' - {k}).Keys == (m - {k}).Keys;
      TotalWithin(m - {k}, m' - {k});
    } else {
      assert m' == map[];
    }
  }

  // ----- the measure -----

  /** A request to the owner sent by acquire: one broadcast and an answer. */
  function RevokeRank(k: nat): nat {
    k + 4
  }

  function AskRank(k: nat): nat {
    RevokeRank(k) + 2
  }

  /** A raised retry flag: another request to the server, after a broadcast. */
  function RetryWeight(k: nat): nat {
    AskRank(k) + k
  }

  function RelRank(rel: ReleaseCall, k: nat): nat {
    match rel
    case Replied => AskRank(k) + k + 1
    case RevokeBack(_) => AskRank(k) + k + 2
    case RevokeOut(_) => AskRank(k) + 2 * k + 3
    case RetryBack(_) => AskRank(k) + 2 * k + 4
    case RetryOut(_) => AskRank(k) + 3 * k + 5 + RetryWeight(k)
    case Sent => AskRank(k) + 3 * k + 6 + RetryWeight(k)
    case Stuck(_) => 0
  }

  function Rank(p: Pc, k: nat): nat {
    match p
    case Ready => 1
    case Asleep => 0
    case AcqSent => AskRank(k)
    case AcqGap => RevokeRank(k) + 1
    case AcqRevoke(_, Requested) => RevokeRank(k)
    case AcqRevoke(_, Handing(rel)) => 3 + RelRank(rel, k)
    case AcqRevoke(_, Answered) => 3
    case AcqBack(Ok) => 1
    case AcqBack(Retry) => 2
    case RetryReady => 1
    case RetryAsleep => 0
    case Holding => 0
    case RelCall(rel) => RelRank(rel, k)
  }

  function Weight(c: Client, k: nat): nat {
    (match c.status
     case Nothing => AskRank(k)
     case Free => RelRank(Sent, k)
     case _ => 0)
    + if c.retry then RetryWeight(k) else 0
  }

  ghost function Ranks(pc: map<Task, Pc>, k: nat): map<Task, nat> {
    map t | t in pc :: Rank(pc[t], k)
  }

  ghost function Weights(clients: map<Id, Client>, k: nat): map<Id, nat> {
    map c | c in clients :: Weight(clients[c], k)
  }

  ghost function Measure(s: State, k: nat): nat {
    Total(Ranks(s.pc, k)) + Total(Weights(s.clients, k)) + if s.fault.None? then 1 else 0
  }

  lemma MovePc(s: State, t: Task, p: Pc, k: nat)
    requires t in s.pc
    ensures Measure(SetPc(s, t, p), k) == Measure(s, k) - Rank(s.pc[t], k) + Rank(p, k)
    ensures |SetPc(s, t, p).pc| == |s.pc|
  {
    assert Ranks(s.pc[t := p], k) == Ranks(s.pc, k)[t := Rank(p, k)];
    TotalSet(Ranks(s.pc, k), t, Rank(p, k));
    assert s.pc[t := p].Keys == s.pc.Keys;
    assert |s.pc[t := p].Keys| == |s.pc[t := p]| && |s.pc.Keys| == |s.pc|;
  }

  lemma DropPc(s: State, t: Task, k: nat)
    requires t in s.pc
    ensures Measure(s.(pc := s.pc - {t}), k) == Measure(s, k) - Rank(s.pc[t], k)
    ensures |s.pc - {t}| <= |s.pc|
  {
    assert Ranks(s.pc - {t}, k) == Ranks(s.pc, k) - {t};
    TotalSplit(Ranks(s.pc, k), t);
    assert s.pc == (s.pc - {t})[t := s.pc[t]];
  }

  lemma MoveRec(s: State, c: Id, r: Client, k: nat)
    requires c in s.clients
    ensures Measure(SetRec(s, c, r), k) == Measure(s, k) - Weight(s.clients[c], k) + Weight(r, k)
  {
    assert Weights(s.clients[c := r], k) == Weights(s.clients, k)[c := Weight(r, k)];
    TotalSet(Weights(s.clients, k), c, Weight(r, k));
  }

  lemma Wake(s: State, c: Id, k: nat)
    ensures Measure(Broadcast(s, c), k) <= Measure(s, k) + |s.pc|
    ensures |Broadcast(s, c).pc| == |s.pc|
  {
    var pc' := Broadcast(s, c).pc;
    var m, m' := Ranks(s.pc, k), Ranks(pc', k);
    assert pc'.Keys == s.pc.Keys;
    assert m'.Keys == m.Keys;
    forall t | t in m ensures m'[t] <= m[t] + 1 {}
    TotalWithin(m, m');
    assert |m.Keys| == |m| && |s.pc.Keys| == |s.pc| && |pc'.Keys| == |pc'| && m.Keys == s.pc.Keys;
  }

  // ----- every step of the protocol uses some of it up -----

  ghost predicate Down(s: State, s': State, k: nat) {
    Measure(s', k) < Measure(s, k) && |s'.pc| <= |s.pc|
  }

  lemma EnterDown(s: State, t: Task, k: nat)
    requires t in s.pc && t.client in s.clients && s.pc[t].Ready?
    ensures Down(s, Enter(s, t), k)
  {
    var r := s.clients[t.client];
    MoveRec(s, t.client, Entered(r), k);
    MovePc(SetRec(s, t.client, Entered(r)), t, Enter(s, t).pc[t], k);
  }

  lemma ServeAcquireDown(s: State, t: Task, k: nat)
    requires t in s.pc && s.pc[t].AcqSent?
    ensures Down(s, ServeAcquire(s, t), k)
  {
    MovePc(s.(created := true, server := Acquired(s.server, t.client)), t, ServeAcquire(s, t).pc[t], k);
  }

  lemma ReadOwnerDown(s: State, t: Task, k: nat)
    requires t in s.pc && s.pc[t].AcqGap? && s.fault.None?
    ensures Down(s, ReadOwner(s, t), k)
  {
    if s.server.owner.Some? { MovePc(s, t, AcqRevoke(s.server.owner.value, Requested), k); }
  }

  lemma DeliverRevokeDown(s: State, t: Task, d: Id, k: nat)
    requires t in s.pc && d in s.clients && s.pc[t] == AcqRevoke(d, Requested) && |s.pc| <= k
    ensures Down(s, DeliverRevoke(s, t, d), k)
  {
    var r := RevokeArrived(s.clients[d]);
    var s1 := SetRec(s, d, r);
    MoveRec(s, d, r, k);
    if s.clients[d].status.Free? {
      MovePc(s1, t, AcqRevoke(d, Handing(Sent)), k);
    } else {
      MovePc(s1, t, AcqRevoke(d, Answered), k);
      Wake(SetPc(s1, t, AcqRevoke(d, Answered)), d, k);
    }
  }

  lemma TakeLockDown(s: State, t: Task, k: nat)
    requires t in s.pc && t.client in s.clients && s.pc[t] == AcqBack(Ok) && s.clients[t.client].status == Acquiring
    ensures Down(s, TakeLock(s, t), k)
  {
    var r := s.clients[t.client].(status := Locked);
    MoveRec(s, t.client, r, k);
    MovePc(SetRec(s, t.client, r), t, Holding, k);
  }

  lemma CheckRetryDown(s: State, t: Task, k: nat)
    requires t in s.pc && t.client in s.clients && (s.pc[t] == AcqBack(Retry) || s.pc[t].RetryReady?) && |s.pc| <= k
    requires s.clients[t.client].status == Acquiring
    ensures Down(s, CheckRetry(s, t), k)
  {
    var r := s.clients[t.client];
    if r.retry {
      var s1 := SetRec(s, t.client, Retried(r));
      MoveRec(s, t.client, Retried(r), k);
      MovePc(s1, t, AcqSent, k);
      Wake(SetPc(s1, t, AcqSent), t.client, k);
    } else {
      MovePc(s, t, RetryAsleep, k);
    }
  }

  lemma WithRelRank(p: Pc, rel: ReleaseCall, k: nat)
    requires RelOf(p).Some?
    ensures Rank(WithRel(p, rel), k) - Rank(p, k) == RelRank(rel, k) - RelRank(RelOf(p).value, k)
  {
  }

  lemma ServeReleaseDown(s: State, t: Task, k: nat)
    requires t in s.pc && RelOf(s.pc[t]) == Some(Sent) && s.created
    ensures Down(s, ServeRelease(s, t), k)
  {
    var s1 := s.(server := Released(s.server));
    if s.server.waiting == {} {
      MovePc(s1, t, WithRel(s.pc[t], Replied), k);
      WithRelRank(s.pc[t], Replied, k);
    } else {
      var out := RetryOut(Begin(s.server.waiting));
      MovePc(s1.(mutex := Some(t)), t, WithRel(s.pc[t], out), k);
      WithRelRank(s.pc[t], out, k);
    }
  }

  lemma DeliverRetryDown(s: State, t: Task, w: Id, k: nat)
    requires t in s.pc && RelOf(s.pc[t]) == Some(RetryOut(w)) && w in s.clients && |s.pc| <= k
    ensures Down(s, DeliverRetry(s, t, w), k)
  {
    var r := RetryArrived(s.clients[w]);
    var s1 := SetRec(s, w, r);
    MoveRec(s, w, r, k);
    MovePc(s1, t, WithRel(s.pc[t], RetryBack(w)), k);
    WithRelRank(s.pc[t], RetryBack(w), k);
    Wake(SetPc(s1, t, WithRel(s.pc[t], RetryBack(w))), w, k);
  }

  lemma AfterRetryDown(s: State, t: Task, w: Id, k: nat)
    requires t in s.pc && RelOf(s.pc[t]) == Some(RetryBack(w))
    ensures Down(s, AfterRetry(s, t, w), k)
  {
    MovePc(s, t, WithRel(s.pc[t], RevokeOut(w)), k);
    MovePc(s.(mutex := None), t, WithRel(s.pc[t], Replied), k);
    WithRelRank(s.pc[t], RevokeOut(w), k);
    WithRelRank(s.pc[t], Replied, k);
  }

  lemma DeliverNestedRevokeDown(s: State, t: Task, w: Id, k: nat)
    requires t in s.pc && RelOf(s.pc[t]) == Some(RevokeOut(w)) && w in s.clients && |s.pc| <= k
    requires s.clients[w].status == Acquiring
    ensures Down(s, DeliverNestedRevoke(s, t, w), k)
  {
    var r := RevokeArrived(s.clients[w]);
    var s1 := SetRec(s, w, r);
    MoveRec(s, w, r, k);
    MovePc(s1, t, WithRel(s.pc[t], RevokeBack(w)), k);
    WithRelRank(s.pc[t], RevokeBack(w), k);
    Wake(SetPc(s1, t, WithRel(s.pc[t], RevokeBack(w))), w, k);
  }

  lemma AfterNestedRevokeDown(s: State, t: Task, w: Id, k: nat)
    requires t in s.pc && RelOf(s.pc[t]) == Some(RevokeBack(w))
    ensures Down(s, AfterNestedRevoke(s, t), k)
  {
    MovePc(s.(mutex := None), t, WithRel(s.pc[t], Replied), k);
    WithRelRank(s.pc[t], Replied, k);
  }

  lemma ReleaseReplyDown(s: State, t: Task, k: nat)
    requires t in s.pc && RelOf(s.pc[t]) == Some(Replied) && |s.pc| <= k
    requires RelFor(t, s.pc[t]) in s.clients && s.clients[RelFor(t, s.pc[t])].status == Releasing
    ensures Down(s, ReleaseReply(s, t), k)
  {
    var d := RelFor(t, s.pc[t]);
    var r := s.clients[d].(status := Nothing);
    var s1 := SetRec(s, d, r);
    MoveRec(s, d, r, k);
    if s.pc[t].RelCall? {
      DropPc(s1, t, k);
      Wake(s1.(pc := s1.pc - {t}), d, k);
    } else {
      AnswerDown(s1, t, d, k);
    }
  }

  lemma AnswerDown(s: State, t: Task, d: Id, k: nat)
    requires t in s.pc
    ensures var s' := Broadcast(SetPc(s, t, AcqRevoke(d, Answered)), d);
            && |s'.pc| == |s.pc|
            && Measure(s', k) <= Measure(s, k) - Rank(s.pc[t], k) + Rank(AcqRevoke(d, Answered), k) + |s.pc|
  {
    MovePc(s, t, AcqRevoke(d, Answered), k);
    Wake(SetPc(s, t, AcqRevoke(d, Answered)), d, k);
  }

  /** What is known of a release call in progress. */
  lemma RelFacts(s: State, t: Task, ag: Agents, rel: ReleaseCall)
    requires Core(s, ag) && t in s.pc && RelOf(s.pc[t]) == Some(rel)
    ensures RelFor(t, s.pc[t]) in s.clients && s.clients[RelFor(t, s.pc[t])].status == Releasing
    ensures !rel.Stuck? && (rel.Sent? ==> s.created)
    ensures rel.RetryOut? || rel.RevokeOut? ==> rel.w in s.clients && s.clients[rel.w].status == Acquiring
  {
    assert TaskOk(s, ag, t) && ClientOk(s, ag, RelFor(t, s.pc[t]));
    if rel.RetryOut? || rel.RevokeOut? {
      WaiterIsAcquiring(s, ag, rel.w);
    }
  }

  lemma RelStepDown(s: State, t: Task, ag: Agents, k: nat)
    requires Core(s, ag) && Enabled(s, t) && t in s.pc && Gives(s.pc[t]) && |s.pc| <= k
    ensures Down(s, RelStep(s, t), k)
  {
    var rel := RelOf(s.pc[t]).value;
    RelFacts(s, t, ag, rel);
    match rel
    case Sent => ServeReleaseDown(s, t, k);
    case RetryOut(w) => DeliverRetryDown(s, t, w, k);
    case RetryBack(w) => AfterRetryDown(s, t, w, k);
    case RevokeOut(w) => DeliverNestedRevokeDown(s, t, w, k);
    case RevokeBack(w) => AfterNestedRevokeDown(s, t, w, k);
    case Replied => ReleaseReplyDown(s, t, k);
  }

  lemma StepDown(s: State, t: Task, ag: Agents, k: nat)
    requires Core(s, ag) && Internal(s, t) && |s.pc| <= k
    ensures Down(s, Step(s, t), k)
  {
    assert TaskOk(s, ag, t);
    match s.pc[t]
    case Ready => EnterDown(s, t, k);
    case AcqSent => ServeAcquireDown(s, t, k);
    case AcqGap => ReadOwnerDown(s, t, k);
    case AcqRevoke(d, Requested) => DeliverRevokeDown(s, t, d, k);
    case AcqRevoke(_, Answered) => MovePc(s, t, AcqBack(Retry), k);
    case AcqBack(Ok) => TakeLockDown(s, t, k);
    case AcqBack(Retry) => CheckRetryDown(s, t, k);
    case RetryReady => CheckRetryDown(s, t, k);
    case RelCall(_) => RelStepDown(s, t, ag, k);
    case AcqRevoke(_, Handing(_)) => RelStepDown(s, t, ag, k);
  }

  // ----- no livelock -----

  /** A schedule in which the application does nothing and nobody wakes up spuriously. */
  ghost predicate InternalRun(s: State, run: seq<Task>)
    decreases |run|
  {
    run != [] ==> Internal(s, run[0]) && InternalRun(Step(s, run[0]), run[1..])
  }

  lemma {:induction false} RunDown(s: State, run: seq<Task>, k: nat)
    requires Inv(s) && InternalRun(s, run) && |s.pc| <= k
    ensures |run| <= Measure(s, k)
    decreases |run|
  {
    if run != [] {
      var ag :| Core(s, ag);
      StepDown(s, run[0], ag, k);
      StepInv(s, run[0]);
      RunDown(Step(s, run[0]), run[1..], k);
    }
  }

  /** No livelock: from a reachable state the protocol, left to itself, runs for a bounded number
      of steps, whatever the schedule. */
  lemma NoLivelock(s: State, run: seq<Task>)
    requires Reachable(s) && InternalRun(s, run)
    ensures |run| <= Measure(s, |s.pc|)
  {
    ReachableInv(s);
    RunDown(s, run, |s.pc|);
  }

  lemma {:induction false} RunToRest(s: State, k: nat) returns (run: seq<Task>)
    requires Inv(s) && |s.pc| <= k
    ensures InternalRun(s, run) && Feasible(s, run)
    ensures After(s, run).fault.Some? || Quiescent(After(s, run))
    decreases Measure(s, k)
  {
    if s.fault.Some? || Quiescent(s) {
      run := [];
    } else {
      var t :| Internal(s, t);
      var ag :| Core(s, ag);
      StepDown(s, t, ag, k);
      StepInv(s, t);
      var rest := RunToRest(Step(s, t), k);
      run := [t] + rest;
      assert run[1..] == rest;
    }
  }

  /** Progress: left to itself the protocol comes to rest from every reachable state, and unless
      the run has failed, any thread that then still waits for the lock waits for a thread that
      holds it. */
  lemma Progress(s: State) returns (run: seq<Task>)
    requires Reachable(s)
    ensures InternalRun(s, run) && Feasible(s, run)
    ensures var s' := After(s, run);
            s'.fault.Some? || forall t :: t in s'.pc && !s'.pc[t].Holding? ==> Holders(s') != {}
  {
    ReachableInv(s);
    run := RunToRest(s, |s.pc|);
    var s' := After(s, run);
    var first :| Feasible(Init, first) && After(Init, first) == s;
    RunsJoin(Init, first, run);
    if s'.fault.None? {
      forall t | t in s'.pc && !s'.pc[t].Holding? ensures Holders(s') != {} {
        NoDeadlock(s', t);
      }
    }
  }
}
