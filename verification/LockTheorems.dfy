/** What the caching lock protocol guarantees in every run. */
module LockTheorems {
  import opened Options
  import opened LockRecords
  import opened LockProtocol
  import opened LockInvariant
  import opened LockLiveness

  ghost predicate Inv(s: State) {
    (exists ag :: Core(s, ag)) && Live(s)
  }

  lemma InitInv()
    ensures Inv(Init)
  {
    assert Core(Init, map[]);
  }

  lemma StepInv(s: State, t: Task)
    requires Inv(s) && Enabled(s, t)
    ensures Inv(Step(s, t))
  {
    var ag :| Core(s, ag);
    var ag' := StepCore(s, t, ag);
    StepLive(s, t, ag);
  }

  lemma StepFault(s: State, t: Task)
    requires Inv(s) && Enabled(s, t)
    ensures Step(s, t).fault.None? || Step(s, t).fault == Some(NoOwnerToRevoke)
  {
    var ag :| Core(s, ag);
    var ag' := StepCore(s, t, ag);
  }

  lemma {:induction false} RunInv(s: State, run: seq<Task>)
    requires Inv(s) && Feasible(s, run)
    ensures Inv(After(s, run))
    decreases |run|
  {
    if run != [] {
      StepInv(s, run[0]);
      RunInv(Step(s, run[0]), run[1..]);
    }
  }

  ghost predicate Reachable(s: State) {
    exists run :: Feasible(Init, run) && After(Init, run) == s
  }

  lemma ReachableInv(s: State)
    requires Reachable(s)
    ensures Inv(s)
  {
    var run :| Feasible(Init, run) && After(Init, run) == s;
    InitInv();
    RunInv(Init, run);
  }

  // ----- mutual exclusion -----

  /** Client c has the lock: cached or held by a thread, granted by a reply still in flight, or
      given back by a request not yet served. */
  ghost predicate HasLock(s: State, c: Id) {
    && c in s.clients
    && match s.clients[c].status
       case Nothing => false
       case Free => true
       case Locked => true
       case Acquiring => exists t :: t in s.pc && t.client == c && s.pc[t] == AcqBack(Ok)
       case Releasing => exists t :: t in s.pc && RelFor(t, s.pc[t]) == c && RelOf(s.pc[t]) == Some(Sent)
  }

  ghost function Holders(s: State): set<Task> {
    set t | t in s.pc && s.pc[t].Holding?
  }

  lemma HasLockIsOwner(s: State, ag: Agents, c: Id)
    requires Core(s, ag)
    ensures HasLock(s, c) <==> s.server.held && s.server.owner == Some(c)
  {
    if c in s.clients {
      assert ClientOk(s, ag, c);
      if HasLock(s, c) && s.clients[c].status.Acquiring? {
        var t :| t in s.pc && t.client == c && s.pc[t] == AcqBack(Ok);
        assert TaskOk(s, ag, t);
      }
      if HasLock(s, c) && s.clients[c].status.Releasing? {
        var t :| t in s.pc && RelFor(t, s.pc[t]) == c && RelOf(s.pc[t]) == Some(Sent);
        assert TaskOk(s, ag, t);
      }
    }
  }

  /** In every reachable state the client that has the lock is exactly the server's owner, so
      no two clients have it; at most one thread in the whole system holds it; and a client
      that waits at the server does not have it.  The server's release never looks at who calls
      it, and does not need to. */
  lemma MutualExclusion(s: State)
    requires Reachable(s)
    ensures forall c: Id :: HasLock(s, c) <==> s.server.held && s.server.owner == Some(c)
    ensures forall c: Id, d: Id :: HasLock(s, c) && HasLock(s, d) ==> c == d
    ensures forall t, u :: t in Holders(s) && u in Holders(s) ==> t == u
    ensures forall t :: t in Holders(s) ==> HasLock(s, t.client) && s.clients[t.client].status == Locked
    ensures forall t :: t in s.pc && RelOf(s.pc[t]) == Some(Sent) ==> s.server.owner == Some(RelFor(t, s.pc[t]))
  {
    ReachableInv(s);
    var ag :| Core(s, ag);
    forall c: Id ensures HasLock(s, c) <==> s.server.held && s.server.owner == Some(c) {
      HasLockIsOwner(s, ag, c);
    }
    forall t | t in Holders(s)
      ensures ag[t.client] == t && HasLock(s, t.client) && s.clients[t.client].status == Locked
    {
      assert TaskOk(s, ag, t);
    }
    forall t | t in s.pc && RelOf(s.pc[t]) == Some(Sent) ensures s.server.owner == Some(RelFor(t, s.pc[t])) {
      assert TaskOk(s, ag, t) && ClientOk(s, ag, RelFor(t, s.pc[t]));
    }
  }

  /** One step of the plain lock: taken when nobody holds it, given up by its holder, or untouched. */
  ghost predicate PlainLockStep(h: set<Task>, h': set<Task>, t: Task) {
    h' == h || (h == {} && h' == {t}) || (h == {t} && h' == {})
  }

  lemma HoldersStep(s: State, t: Task, ag: Agents, u: Task)
    requires Core(s, ag) && Enabled(s, t) && u != t
    ensures u in Holders(s) <==> u in Holders(Step(s, t))
  {
    StepKept(s, t, ag, u, u.client);
  }

  /** The whole protocol refines one plain lock. */
  lemma RefinesPlainLock(s: State, t: Task)
    requires Reachable(s) && Enabled(s, t)
    ensures PlainLockStep(Holders(s), Holders(Step(s, t)), t)
  {
    ReachableInv(s);
    var ag :| Core(s, ag);
    var ag' := StepCore(s, t, ag);
    var h, h' := Holders(s), Holders(Step(s, t));
    forall u | u != t ensures u in h <==> u in h' { HoldersStep(s, t, ag, u); }
    if t in h {
      forall u | u in h ensures u == t { HolderUnique(s, ag, t, u); }
    }
    if t in h' {
      forall u | u in h' ensures u == t { HolderUnique(Step(s, t), ag', t, u); }
    }
    OnlyOneMoves(h, h', t);
  }

  lemma OnlyOneMoves(h: set<Task>, h': set<Task>, t: Task)
    requires forall u :: u != t ==> (u in h <==> u in h')
    requires t in h ==> forall u :: u in h ==> u == t
    requires t in h' ==> forall u :: u in h' ==> u == t
    ensures PlainLockStep(h, h', t)
  {
    if t in h && t !in h' {
      assert h == {t} && h' == {};
    } else if t !in h && t in h' {
      assert h' == {t} && h == {};
    } else {
      assert h == h';
    }
  }

  lemma HolderUnique(s: State, ag: Agents, t: Task, u: Task)
    requires Core(s, ag) && t in Holders(s) && u in Holders(s)
    ensures t == u
  {
    assert TaskOk(s, ag, t) && TaskOk(s, ag, u);
    assert ClientOk(s, ag, t.client) && ClientOk(s, ag, u.client);
  }

  /** A call of release, by whichever thread, fails its VERIFY if and only if no thread of that
      client holds the lock. */
  lemma ReleaseFaultsIff(s: State, t: Task)
    requires Reachable(s) && s.fault.None?
    ensures CallRelease(s, t).fault.Some? <==> forall u :: u in Holders(s) ==> u.client != t.client
  {
    ReachableInv(s);
    var ag :| Core(s, ag);
    forall u | u in Holders(s) ensures u.client in s.clients && s.clients[u.client].status == Locked {
      assert TaskOk(s, ag, u);
    }
    if t.client in s.clients && s.clients[t.client].status == Locked {
      assert ClientOk(s, ag, t.client);
      assert ag[t.client] in Holders(s);
    }
  }

  // ----- nobody is forgotten -----

  /** No lost revoke: while the lock is owned and wanted, its owner has been told or a revoke is
      under way, or some waiter is about to ask again, which will send one. */
  lemma RevokeNeverLost(s: State)
    requires Reachable(s) && s.server.held && s.server.waiting != {}
    ensures Coming(s) || exists w :: w in s.server.waiting && Pending(s, w)
  {
    ReachableInv(s);
  }

  /** No lost wakeup: while the lock is free at the server, wanted, and no release handler is at
      work, some waiter is about to ask again. */
  lemma WakeupNeverLost(s: State)
    requires Reachable(s) && !s.server.held && s.server.waiting != {} && s.mutex.None?
    ensures exists w :: w in s.server.waiting && Pending(s, w)
  {
    ReachableInv(s);
  }

  /** No callback deadlock: clients in the wait list are Acquiring, so the revoke sent while
      release holds the mutex never makes a client call release back. */
  lemma NoCallbackDeadlock(s: State)
    requires Reachable(s)
    ensures forall w :: w in s.server.waiting ==> w in s.clients && s.clients[w].status == Acquiring
    ensures forall t :: t in s.pc && RelOf(s.pc[t]).Some? ==> !RelOf(s.pc[t]).value.Stuck?
  {
    ReachableInv(s);
    var ag :| Core(s, ag);
    forall w | w in s.server.waiting ensures w in s.clients && s.clients[w].status == Acquiring {
      WaiterIsAcquiring(s, ag, w);
    }
    forall t | t in s.pc && RelOf(s.pc[t]).Some? ensures !RelOf(s.pc[t]).value.Stuck? {
      assert TaskOk(s, ag, t);
    }
  }

  /** The step belongs to the protocol: not a call by the application, not a spurious wakeup. */
  ghost predicate Internal(s: State, t: Task) {
    Enabled(s, t) && t in s.pc && !s.pc[t].Holding? && !s.pc[t].Asleep? && !s.pc[t].RetryAsleep?
  }

  ghost predicate Quiescent(s: State) {
    s.fault.None? && forall t :: !Internal(s, t)
  }

  lemma QuiescentThreads(s: State, ag: Agents, t: Task)
    requires Core(s, ag) && Quiescent(s) && t in s.pc
    ensures s.mutex.None? && (s.pc[t].Holding? || s.pc[t].Asleep? || s.pc[t].RetryAsleep?)
  {
    if s.mutex.Some? {
      assert TaskOk(s, ag, s.mutex.value);
      assert Internal(s, s.mutex.value);
      assert false;
    }
    assert TaskOk(s, ag, t);
    assert !Internal(s, t);
  }

  lemma QuiescentNotPending(s: State, ag: Agents, w: Id)
    requires Core(s, ag) && Live(s) && Quiescent(s) && w in s.server.waiting
    ensures !Pending(s, w)
  {
    WaiterIsAcquiring(s, ag, w);
    assert ClientOk(s, ag, w);
    QuiescentThreads(s, ag, ag[w]);
    assert SleeperOk(s, ag[w]);
    forall t | t in s.pc ensures !s.pc[t].AcqSent? { QuiescentThreads(s, ag, t); }
  }

  /** When a waiter at the server exists and nothing in the protocol can move, some thread holds
      the lock and its client has been told to hand it back. */
  lemma QuiescentOwner(s: State, ag: Agents) returns (h: Task)
    requires Core(s, ag) && Live(s) && Quiescent(s) && s.server.waiting != {}
    ensures h in Holders(s) && Rec(s, h.client).revoke
  {
    var w0 :| w0 in s.server.waiting;
    WaiterIsAcquiring(s, ag, w0);
    assert ClientOk(s, ag, w0);
    QuiescentThreads(s, ag, ag[w0]);
    forall w | w in s.server.waiting ensures !Pending(s, w) { QuiescentNotPending(s, ag, w); }
    forall t | t in s.pc ensures !s.pc[t].AcqGap? && !s.pc[t].AcqRevoke? && !s.pc[t].AcqBack? && !Gives(s.pc[t]) {
      QuiescentThreads(s, ag, t);
    }
    assert s.server.held && Coming(s);
    var o := s.server.owner.value;
    assert ClientOk(s, ag, o);
    h := ag[o];
  }

  /** The protocol never deadlocks.  If nothing in it can move and some thread still waits for
      the lock, then one thread holds the lock: the wait is for the application.  And if some
      waiting thread's client is queued at the server, the holder's client knows it has to give
      the lock back. */
  lemma NoDeadlock(s: State, t: Task)
    requires Reachable(s) && Quiescent(s)
    requires t in s.pc && !s.pc[t].Holding?
    ensures exists h :: h in Holders(s) && (s.server.waiting != {} ==> Rec(s, h.client).revoke)
  {
    ReachableInv(s);
    var ag :| Core(s, ag);
    if s.server.waiting != {} {
      var h := QuiescentOwner(s, ag);
    } else {
      QuiescentThreads(s, ag, t);
      assert TaskOk(s, ag, t) && ClientOk(s, ag, t.client) && SleeperOk(s, t);
      var a := ag[t.client];
      QuiescentThreads(s, ag, a);
      assert a in Holders(s);
    }
  }
}
