/** The lock service as objects: one lock server, one lock cache per client, each with its map of
    records for all locks, and threads that run one critical section at a time.

    Every step on the objects is a step of the protocol of LockProtocol.dfy for the lock it is
    about, and no step at all for any other lock.  So what is proved about one lock there holds of
    every lock here. */
module LockService {
  import opened Options
  import opened LockRecords
  import opened LockProtocol
  import opened LockInvariant
  import opened LockTheorems

  /** The threads at work on a lock, the holder of its server mutex, and a failed VERIFY. */
  datatype Threads = Threads(pc: map<Task, Pc>, mutex: Option<Task>, fault: Option<Fault>)

  const NoThreads := Threads(map[], None, None)

  /** All records and all threads, as a value. */
  datatype Snapshot = Snapshot(
    server: map<LockId, Server>,
    caches: map<Id, map<LockId, Client>>,
    threads: map<LockId, Threads>)

  function ThreadsOf(threads: map<LockId, Threads>, lid: LockId): Threads {
    if lid in threads then threads[lid] else NoThreads
  }

  function Cached(caches: map<Id, map<LockId, Client>>, lid: LockId): map<Id, Client> {
    map c | c in caches && lid in caches[c] :: caches[c][lid]
  }

  /** One lock's share of it all. */
  function ViewOf(x: Snapshot, lid: LockId): State {
    var th := ThreadsOf(x.threads, lid);
    State(lid in x.server, if lid in x.server then x.server[lid] else NewServer, Cached(x.caches, lid),
          th.pc, th.mutex, th.fault)
  }

  function Put(cache: map<LockId, Client>, lid: LockId, r: Client): map<LockId, Client> {
    cache[lid := r]
  }

  function WithServer(x: Snapshot, lid: LockId, r: Server): Snapshot {
    x.(server := x.server[lid := r])
  }

  function WithRecord(x: Snapshot, c: Id, lid: LockId, r: Client): Snapshot
    requires c in x.caches
  {
    x.(caches := x.caches[c := Put(x.caches[c], lid, r)])
  }

  function WithThreads(x: Snapshot, lid: LockId, th: Threads): Snapshot {
    x.(threads := x.threads[lid := th])
  }

  function Shown(s: State, th: Threads): State {
    s.(pc := th.pc, mutex := th.mutex, fault := th.fault)
  }

  /** For this lock the state is now s, for every other lock what it was. */
  ghost predicate Became(x: Snapshot, x': Snapshot, lid: LockId, s: State) {
    ViewOf(x', lid) == s && forall l: LockId :: l != lid ==> ViewOf(x', l) == ViewOf(x, l)
  }

  lemma ThreadStep(x: Snapshot, lid: LockId, th: Threads)
    ensures Became(x, WithThreads(x, lid, th), lid, Shown(ViewOf(x, lid), th))
  {
  }

  lemma ServerStep(x: Snapshot, lid: LockId, r: Server, th: Threads)
    ensures Became(x, WithThreads(WithServer(x, lid, r), lid, th), lid,
                   Shown(ViewOf(x, lid).(created := true, server := r), th))
  {
  }

  lemma RecordStep(x: Snapshot, c: Id, lid: LockId, r: Client, th: Threads)
    requires c in x.caches
    ensures Became(x, WithThreads(WithRecord(x, c, lid, r), lid, th), lid, Shown(SetRec(ViewOf(x, lid), c, r), th))
  {
    var caches := x.caches[c := Put(x.caches[c], lid, r)];
    assert Cached(caches, lid) == Cached(x.caches, lid)[c := r];
    forall l: LockId | l != lid ensures Cached(caches, l) == Cached(x.caches, l) {}
  }

  lemma OneChanged(before: map<Id, map<LockId, Client>>, after: map<Id, map<LockId, Client>>, c: Id, lid: LockId,
                   r: Client)
    requires c in before && after.Keys == before.Keys && after[c] == Put(before[c], lid, r)
    requires forall d :: d in before && d != c ==> after[d] == before[d]
    ensures after == before[c := Put(before[c], lid, r)]
  {
  }

  // ----- where threads go -----

  function Goto(th: Threads, t: Task, p: Pc): Threads {
    th.(pc := th.pc[t := p])
  }

  function Leave(th: Threads, t: Task): Threads {
    th.(pc := th.pc - {t})
  }

  function Failed(th: Threads, f: Fault): Threads {
    th.(fault := Some(f))
  }

  /** Those that sleep at client c wake up. */
  function Awake(th: Threads, c: Id): Threads {
    th.(pc := map t | t in th.pc :: if t.client == c then Woken(th.pc[t]) else th.pc[t])
  }

  lemma AwakeIs(s: State, th: Threads, c: Id)
    ensures Shown(s, Awake(th, c)) == Broadcast(Shown(s, th), c)
  {
    assert Awake(th, c).pc == Broadcast(Shown(s, th), c).pc;
  }

  function ThreadsIn(s: State): Threads {
    Threads(s.pc, s.mutex, s.fault)
  }

  lemma DeliverRevokeIs(s: State, t: Task, d: Id)
    requires d in s.clients
    ensures DeliverRevoke(s, t, d) == Shown(
              SetRec(s, d, RevokeArrived(s.clients[d])),
              if s.clients[d].status.Free? then Goto(ThreadsIn(s), t, AcqRevoke(d, Handing(Sent)))
              else Awake(Goto(ThreadsIn(s), t, AcqRevoke(d, Answered)), d))
  {
    AwakeIs(SetRec(s, d, RevokeArrived(s.clients[d])), Goto(ThreadsIn(s), t, AcqRevoke(d, Answered)), d);
  }

  lemma DeliverNestedRevokeIs(s: State, t: Task, w: Id)
    requires w in s.clients && t in s.pc && RelOf(s.pc[t]).Some?
    ensures DeliverNestedRevoke(s, t, w) == Shown(
              SetRec(s, w, RevokeArrived(s.clients[w])),
              if s.clients[w].status.Free? then Goto(ThreadsIn(s), t, WithRel(s.pc[t], Stuck(w)))
              else Awake(Goto(ThreadsIn(s), t, WithRel(s.pc[t], RevokeBack(w))), w))
  {
    AwakeIs(SetRec(s, w, RevokeArrived(s.clients[w])), Goto(ThreadsIn(s), t, WithRel(s.pc[t], RevokeBack(w))), w);
  }

  lemma CheckRetryIs(s: State, t: Task)
    requires t.client in s.clients && s.clients[t.client].retry
    ensures CheckRetry(s, t) == Shown(SetRec(s, t.client, Retried(s.clients[t.client])),
                                      Awake(Goto(ThreadsIn(s), t, AcqSent), t.client))
  {
    AwakeIs(SetRec(s, t.client, Retried(s.clients[t.client])), Goto(ThreadsIn(s), t, AcqSent), t.client);
  }

  lemma CallReleaseIs(s: State, t: Task)
    requires t.client in s.clients && s.clients[t.client].status == Locked
    ensures CallRelease(s, t) == Shown(
              SetRec(s, t.client, HandedBack(s.clients[t.client])),
              if s.clients[t.client].revoke then Goto(ThreadsIn(s), t, RelCall(Sent))
              else Awake(Leave(ThreadsIn(s), t), t.client))
  {
    AwakeIs(SetRec(s, t.client, HandedBack(s.clients[t.client])), Leave(ThreadsIn(s), t), t.client);
  }

  lemma ServeReleaseIs(s: State, t: Task, th: Threads)
    requires t in s.pc && RelOf(s.pc[t]).Some? && s.created
    requires th == if s.server.waiting == {} then Goto(ThreadsIn(s), t, WithRel(s.pc[t], Replied))
                   else Goto(ThreadsIn(s).(mutex := Some(t)), t, WithRel(s.pc[t], RetryOut(Begin(s.server.waiting))))
    ensures ServeRelease(s, t) == Shown(s.(created := true, server := Released(s.server)), th)
  {
  }

  /** Where the thread goes whose release has returned. */
  function Returned(th: Threads, t: Task, d: Id): Threads
    requires t in th.pc
  {
    if th.pc[t].RelCall? then Leave(th, t) else Goto(th, t, AcqRevoke(d, Answered))
  }

  lemma ReleaseReplyIs(s: State, t: Task, d: Id)
    requires t in s.pc && RelOf(s.pc[t]).Some? && d == RelFor(t, s.pc[t]) && d in s.clients
    ensures ReleaseReply(s, t)
         == Shown(SetRec(s, d, s.clients[d].(status := Nothing)), Awake(Returned(ThreadsIn(s), t, d), d))
  {
    AwakeIs(SetRec(s, d, s.clients[d].(status := Nothing)), Returned(ThreadsIn(s), t, d), d);
  }

  class Service {
    const server: LockServerCache
    const caches: map<Id, LockClientCache>
    var threads: map<LockId, Threads>

    /** Every client has a cache of its own. */
    ghost predicate Wired() {
      forall c, d :: c in caches && d in caches && c != d ==> caches[c] != caches[d]
    }

    ghost function Records(): map<Id, map<LockId, Client>>
      reads caches.Values
    {
      map c | c in caches :: caches[c].lockMap
    }

    ghost function Snap(): Snapshot
      reads this, server, caches.Values
    {
      Snapshot(server.lockMap, Records(), threads)
    }

    ghost function View(lid: LockId): State
      reads this, server, caches.Values
    {
      ViewOf(Snap(), lid)
    }

    /** Each lock has come about by steps of the protocol. */
    ghost predicate Valid()
      reads this, server, caches.Values
    {
      Wired() && forall lid: LockId :: Reachable(View(lid))
    }

    /** A server and caches without any records. */
    constructor (server: LockServerCache, caches: map<Id, LockClientCache>)
      requires server.lockMap == map[] && forall c :: c in caches ==> caches[c].lockMap == map[]
      requires forall c, d :: c in caches && d in caches && c != d ==> caches[c] != caches[d]
      ensures Valid() && this.server == server && this.caches == caches && forall lid: LockId :: View(lid) == Init
    {
      this.server := server;
      this.caches := caches;
      threads := map[];
      new;
      forall lid: LockId ensures View(lid) == Init && Reachable(View(lid)) {
        assert Cached(Records(), lid) == map[];
        assert Feasible(Init, []) && After(Init, []) == Init;
      }
    }

    /** The threads follow after one client's record of the lock has changed to r. */
    method Follow(lid: LockId, c: Id, th: Threads, ghost r: Client, ghost x: Snapshot, ghost s: State)
      requires c in caches && c in x.caches && Records() == x.caches[c := Put(x.caches[c], lid, r)]
      requires server.lockMap == x.server && threads == x.threads && s == Shown(SetRec(ViewOf(x, lid), c, r), th)
      modifies this
      ensures Became(x, Snap(), lid, s)
    {
      threads := threads[lid := th];
      RecordStep(x, c, lid, r, th);
    }

    // ----- the client's acquire and release -----

    method RunCallAcquire(lid: LockId, t: Task)
      requires Wired() && t.client in caches
      modifies this, caches[t.client]
      ensures Became(old(Snap()), Snap(), lid, CallAcquire(old(View(lid)), t))
    {
      caches[t.client].EnsureEntry(lid);
      ghost var r := caches[t.client].lockMap[lid];
      OneChanged(old(Records()), Records(), t.client, lid, r);
      var th := Goto(ThreadsOf(threads, lid), t, Ready);
      Follow(lid, t.client, th, r, old(Snap()), CallAcquire(old(View(lid)), t));
    }

    method RunEnter(lid: LockId, t: Task)
      requires Wired() && t.client in caches && lid in caches[t.client].lockMap
      modifies this, caches[t.client]
      ensures Became(old(Snap()), Snap(), lid, Enter(old(View(lid)), t))
    {
      var seen := caches[t.client].EnterSection(lid);
      ghost var r := caches[t.client].lockMap[lid];
      OneChanged(old(Records()), Records(), t.client, lid, r);
      var p := match seen case Nothing => AcqSent case Free => Holding case _ => Asleep;
      var th := Goto(ThreadsOf(threads, lid), t, p);
      Follow(lid, t.client, th, r, old(Snap()), Enter(old(View(lid)), t));
    }

    method RunTakeLock(lid: LockId, t: Task)
      requires Wired() && t.client in caches && lid in caches[t.client].lockMap
      modifies this, caches[t.client]
      ensures Became(old(Snap()), Snap(), lid, TakeLock(old(View(lid)), t))
    {
      caches[t.client].TakeSection(lid);
      ghost var r := caches[t.client].lockMap[lid];
      OneChanged(old(Records()), Records(), t.client, lid, r);
      var th := Goto(ThreadsOf(threads, lid), t, Holding);
      Follow(lid, t.client, th, r, old(Snap()), TakeLock(old(View(lid)), t));
    }

    method RunCheckRetry(lid: LockId, t: Task)
      requires Wired() && t.client in caches && lid in caches[t.client].lockMap
      modifies this, caches[t.client]
      ensures Became(old(Snap()), Snap(), lid, CheckRetry(old(View(lid)), t))
    {
      var wait := caches[t.client].AgainSection(lid);
      if wait {
        assert Records() == old(Records());
        Move(lid, t, RetryAsleep);
        return;
      }
      ghost var r := caches[t.client].lockMap[lid];
      OneChanged(old(Records()), Records(), t.client, lid, r);
      CheckRetryIs(old(View(lid)), t);
      var th := Awake(Goto(ThreadsOf(threads, lid), t, AcqSent), t.client);
      Follow(lid, t.client, th, r, old(Snap()), CheckRetry(old(View(lid)), t));
    }

    method RunCallRelease(lid: LockId, t: Task)
      requires Wired() && t.client in caches
      modifies this, caches[t.client]
      ensures Became(old(Snap()), Snap(), lid, CallRelease(old(View(lid)), t))
    {
      var known := lid in caches[t.client].lockMap;
      var fault, callServer := caches[t.client].ReleaseSection(lid);
      var th := ThreadsOf(threads, lid);
      if fault {
        assert Records() == old(Records());
        threads := threads[lid := Failed(th, if known then WrongStatus else NoRecord)];
        ThreadStep(old(Snap()), lid, threads[lid]);
        return;
      }
      ghost var r := caches[t.client].lockMap[lid];
      OneChanged(old(Records()), Records(), t.client, lid, r);
      CallReleaseIs(old(View(lid)), t);
      th := if callServer then Goto(th, t, RelCall(Sent)) else Awake(Leave(th, t), t.client);
      Follow(lid, t.client, th, r, old(Snap()), CallRelease(old(View(lid)), t));
    }

    // ----- the server's acquire -----

    method RunServeAcquire(lid: LockId, t: Task)
      modifies this, server
      ensures Became(old(Snap()), Snap(), lid, ServeAcquire(old(View(lid)), t))
    {
      var verdict := server.AcquireSection(lid, t.client);
      var p := match verdict case Granted => AcqBack(Ok) case Queued => AcqBack(Retry) case MustRevoke => AcqGap;
      var th := Goto(ThreadsOf(threads, lid), t, p);
      threads := threads[lid := th];
      ServerStep(old(Snap()), lid, server.lockMap[lid], th);
    }

    method RunReadOwner(lid: LockId, t: Task)
      modifies this
      ensures Became(old(Snap()), Snap(), lid, ReadOwner(old(View(lid)), t))
    {
      var th := ThreadsOf(threads, lid);
      match server.Entry(lid).owner {
        case None => th := Failed(th, NoOwnerToRevoke);
        case Some(d) => th := Goto(th, t, AcqRevoke(d, Requested));
      }
      threads := threads[lid := th];
      ThreadStep(old(Snap()), lid, th);
    }

    method RunDeliverRevoke(lid: LockId, t: Task, d: Id)
      requires Wired() && d in caches
      modifies this, caches[d]
      ensures Became(old(Snap()), Snap(), lid, DeliverRevoke(old(View(lid)), t, d))
    {
      var fault, callServer := caches[d].RevokeSection(lid);
      var th := ThreadsOf(threads, lid);
      if fault {
        assert Records() == old(Records());
        threads := threads[lid := Failed(th, NoRecord)];
        ThreadStep(old(Snap()), lid, threads[lid]);
        return;
      }
      ghost var r := caches[d].lockMap[lid];
      OneChanged(old(Records()), Records(), d, lid, r);
      DeliverRevokeIs(old(View(lid)), t, d);
      th := if callServer then Goto(th, t, AcqRevoke(d, Handing(Sent)))
            else Awake(Goto(th, t, AcqRevoke(d, Answered)), d);
      Follow(lid, d, th, r, old(Snap()), DeliverRevoke(old(View(lid)), t, d));
    }

    // ----- the server's release -----

    method RunServeRelease(lid: LockId, t: Task)
      requires t in ThreadsOf(threads, lid).pc && RelOf(ThreadsOf(threads, lid).pc[t]).Some?
      modifies this, server
      ensures Became(old(Snap()), Snap(), lid, ServeRelease(old(View(lid)), t))
    {
      var th := ThreadsOf(threads, lid);
      var known, next := server.ReleaseSection(lid);
      if !known {
        threads := threads[lid := Failed(th, NoRecord)];
        ThreadStep(old(Snap()), lid, threads[lid]);
        return;
      }
      match next {
        case None => th := Goto(th, t, WithRel(th.pc[t], Replied));
        case Some(w) => th := Goto(th.(mutex := Some(t)), t, WithRel(th.pc[t], RetryOut(w)));
      }
      ServeReleaseIs(old(View(lid)), t, th);
      threads := threads[lid := th];
      ServerStep(old(Snap()), lid, server.lockMap[lid], th);
    }

    method RunDeliverRetry(lid: LockId, t: Task, w: Id)
      requires Wired() && w in caches
      requires t in ThreadsOf(threads, lid).pc && RelOf(ThreadsOf(threads, lid).pc[t]).Some?
      modifies this, caches[w]
      ensures Became(old(Snap()), Snap(), lid, DeliverRetry(old(View(lid)), t, w))
    {
      var fault, broadcast := caches[w].RetrySection(lid);
      var th := ThreadsOf(threads, lid);
      if fault {
        assert Records() == old(Records());
        threads := threads[lid := Failed(th, NoRecord)];
        ThreadStep(old(Snap()), lid, threads[lid]);
        return;
      }
      ghost var r := caches[w].lockMap[lid];
      OneChanged(old(Records()), Records(), w, lid, r);
      th := Goto(th, t, WithRel(th.pc[t], RetryBack(w)));
      if broadcast {
        AwakeIs(SetRec(old(View(lid)), w, r), th, w);
        th := Awake(th, w);
      }
      Follow(lid, w, th, r, old(Snap()), DeliverRetry(old(View(lid)), t, w));
    }

    method RunAfterRetry(lid: LockId, t: Task, w: Id)
      requires t in ThreadsOf(threads, lid).pc && RelOf(ThreadsOf(threads, lid).pc[t]).Some?
      modifies this
      ensures Became(old(Snap()), Snap(), lid, AfterRetry(old(View(lid)), t, w))
    {
      var th := ThreadsOf(threads, lid);
      if |server.Entry(lid).waiting| > 1 {
        th := Goto(th, t, WithRel(th.pc[t], RevokeOut(w)));
      } else {
        th := Goto(th.(mutex := None), t, WithRel(th.pc[t], Replied));
      }
      threads := threads[lid := th];
      ThreadStep(old(Snap()), lid, th);
    }

    method RunDeliverNestedRevoke(lid: LockId, t: Task, w: Id)
      requires Wired() && w in caches
      requires t in ThreadsOf(threads, lid).pc && RelOf(ThreadsOf(threads, lid).pc[t]).Some?
      modifies this, caches[w]
      ensures Became(old(Snap()), Snap(), lid, DeliverNestedRevoke(old(View(lid)), t, w))
    {
      var fault, callServer := caches[w].RevokeSection(lid);
      var th := ThreadsOf(threads, lid);
      if fault {
        assert Records() == old(Records());
        threads := threads[lid := Failed(th, NoRecord)];
        ThreadStep(old(Snap()), lid, threads[lid]);
        return;
      }
      ghost var r := caches[w].lockMap[lid];
      OneChanged(old(Records()), Records(), w, lid, r);
      DeliverNestedRevokeIs(old(View(lid)), t, w);
      th := if callServer then Goto(th, t, WithRel(th.pc[t], Stuck(w)))
            else Awake(Goto(th, t, WithRel(th.pc[t], RevokeBack(w))), w);
      Follow(lid, w, th, r, old(Snap()), DeliverNestedRevoke(old(View(lid)), t, w));
    }

    method RunReleaseReply(lid: LockId, t: Task)
      requires Wired() && t in ThreadsOf(threads, lid).pc && RelOf(ThreadsOf(threads, lid).pc[t]).Some?
      requires RelFor(t, ThreadsOf(threads, lid).pc[t]) in caches
      requires lid in caches[RelFor(t, ThreadsOf(threads, lid).pc[t])].lockMap
      modifies this, caches[RelFor(t, ThreadsOf(threads, lid).pc[t])]
      ensures Became(old(Snap()), Snap(), lid, ReleaseReply(old(View(lid)), t))
    {
      var th := ThreadsOf(threads, lid);
      var d := RelFor(t, th.pc[t]);
      caches[d].SettleSection(lid);
      ghost var r := caches[d].lockMap[lid];
      OneChanged(old(Records()), Records(), d, lid, r);
      ReleaseReplyIs(old(View(lid)), t, d);
      th := Awake(Returned(th, t, d), d);
      Follow(lid, d, th, r, old(Snap()), ReleaseReply(old(View(lid)), t));
    }

    // ----- one step of one thread -----

    method Move(lid: LockId, t: Task, p: Pc)
      modifies this
      ensures Became(old(Snap()), Snap(), lid, SetPc(old(View(lid)), t, p))
    {
      var th := Goto(ThreadsOf(threads, lid), t, p);
      threads := threads[lid := th];
      ThreadStep(old(Snap()), lid, th);
    }

    method Unlock(lid: LockId, t: Task)
      requires t in ThreadsOf(threads, lid).pc && RelOf(ThreadsOf(threads, lid).pc[t]).Some?
      modifies this
      ensures Became(old(Snap()), Snap(), lid, AfterNestedRevoke(old(View(lid)), t))
    {
      var th := ThreadsOf(threads, lid);
      th := Goto(th.(mutex := None), t, WithRel(th.pc[t], Replied));
      threads := threads[lid := th];
      ThreadStep(old(Snap()), lid, th);
    }

    /** The records that the next step of t needs are there. */
    lemma AtHand(lid: LockId, t: Task)
      requires Valid() && t in View(lid).pc
      ensures var p := View(lid).pc[t];
              && t.client in View(lid).clients
              && (p.AcqRevoke? ==> p.dst in View(lid).clients)
              && (RelOf(p).Some? ==> RelFor(t, p) in View(lid).clients && !RelOf(p).value.Stuck?)
              && (HoldsMutex(p) ==> RelOf(p).value.w in View(lid).clients)
      ensures forall c :: c in View(lid).clients ==> c in caches && lid in caches[c].lockMap
    {
      var s := View(lid);
      ReachableInv(s);
      var ag :| Core(s, ag);
      assert TaskOk(s, ag, t);
    }

    /** The step of a release call, whoever made it: at the server, or at a client it calls. */
    method RunRelease(lid: LockId, t: Task)
      requires Valid() && Enabled(View(lid), t) && t in View(lid).pc && RelOf(View(lid).pc[t]).Some?
      modifies this, server, caches.Values
      ensures Became(old(Snap()), Snap(), lid, RelStep(old(View(lid)), t))
    {
      var rel := RelOf(ThreadsOf(threads, lid).pc[t]).value;
      if rel.Sent? || rel.RetryBack? || rel.RevokeBack? {
        RunAtServer(lid, t, rel);
      } else {
        AtHand(lid, t);
        RunAtClient(lid, t, rel);
      }
    }

    method RunAtServer(lid: LockId, t: Task, rel: ReleaseCall)
      requires Enabled(View(lid), t) && t in View(lid).pc && RelOf(View(lid).pc[t]) == Some(rel)
      requires rel.Sent? || rel.RetryBack? || rel.RevokeBack?
      modifies this, server
      ensures Became(old(Snap()), Snap(), lid, RelStep(old(View(lid)), t))
    {
      match rel {
        case Sent => RunServeRelease(lid, t);
        case RetryBack(w) => RunAfterRetry(lid, t, w);
        case RevokeBack(_) => Unlock(lid, t);
      }
    }

    method RunAtClient(lid: LockId, t: Task, rel: ReleaseCall)
      requires Wired() && Enabled(View(lid), t) && t in View(lid).pc && RelOf(View(lid).pc[t]) == Some(rel)
      requires rel.RetryOut? || rel.RevokeOut? || rel.Replied?
      requires rel.RetryOut? || rel.RevokeOut? ==> rel.w in caches
      requires RelFor(t, View(lid).pc[t]) in caches && lid in caches[RelFor(t, View(lid).pc[t])].lockMap
      modifies this, caches.Values
      ensures Became(old(Snap()), Snap(), lid, RelStep(old(View(lid)), t))
    {
      match rel {
        case RetryOut(w) => RunDeliverRetry(lid, t, w);
        case RevokeOut(w) => RunDeliverNestedRevoke(lid, t, w);
        case Replied => RunReleaseReply(lid, t);
      }
    }

    method Dispatch(lid: LockId, t: Task)
      requires Valid() && t.client in caches && Enabled(View(lid), t)
      modifies this, server, caches.Values
      ensures Became(old(Snap()), Snap(), lid, Step(old(View(lid)), t))
    {
      var pc := ThreadsOf(threads, lid).pc;
      if t !in pc {
        RunCallAcquire(lid, t);
        return;
      }
      AtHand(lid, t);
      match pc[t] {
        case Ready => RunEnter(lid, t);
        case Asleep => Move(lid, t, Ready);
        case RetryAsleep => Move(lid, t, RetryReady);
        case AcqSent => RunServeAcquire(lid, t);
        case AcqGap => RunReadOwner(lid, t);
        case AcqRevoke(d, Requested) => RunDeliverRevoke(lid, t, d);
        case AcqRevoke(_, Handing(_)) => RunRelease(lid, t);
        case AcqRevoke(_, Answered) => Move(lid, t, AcqBack(Retry));
        case AcqBack(Ok) => RunTakeLock(lid, t);
        case AcqBack(Retry) => RunCheckRetry(lid, t);
        case RetryReady => RunCheckRetry(lid, t);
        case Holding => RunCallRelease(lid, t);
        case RelCall(_) => RunRelease(lid, t);
      }
    }

    /** One step of thread t at lock lid, on the objects: for that lock it is the protocol's step,
        and no other lock notices. */
    method Advance(lid: LockId, t: Task)
      requires Valid() && t.client in caches && Enabled(View(lid), t)
      modifies this, server, caches.Values
      ensures Valid()
      ensures View(lid) == Step(old(View(lid)), t)
      ensures forall l: LockId :: l != lid ==> View(l) == old(View(l))
    {
      ghost var x := Snap();
      Dispatch(lid, t);
      StepReachable(ViewOf(x, lid), t);
      forall l: LockId ensures Reachable(View(l)) {
        assert Reachable(old(View(l)));
      }
    }

    /** On the objects at most one thread in the whole system holds a lock, and it is on the client
        that the server takes for the owner. */
    lemma OneHolder(lid: LockId, t: Task, u: Task)
      requires Valid() && t in Holders(View(lid)) && u in Holders(View(lid))
      ensures t == u && t.client in caches && lid in caches[t.client].lockMap
      ensures caches[t.client].lockMap[lid].status == Locked && server.Entry(lid).owner == Some(t.client)
    {
      MutualExclusion(View(lid));
    }
  }

  lemma StepReachable(s: State, t: Task)
    requires Reachable(s) && Enabled(s, t)
    ensures Reachable(Step(s, t))
  {
    var run :| Feasible(Init, run) && After(Init, run) == s;
    RunsJoin(Init, run, [t]);
    assert After(Init, run + [t]) == Step(s, t);
  }
}
