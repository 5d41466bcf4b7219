/** A run of three clients in which the server finds no owner to revoke, and the exact condition
    for such a run to exist. */
module LockWitness {
  import opened Options
  import opened LockRecords
  import opened LockProtocol
  import opened LockTheorems
  import opened LockFault

  ghost predicate Reaches(s: State, s': State, ids: set<Id>) {
    exists run :: Uses(run, ids) && Feasible(s, run) && After(s, run) == s'
  }

  /** A state that the clients in ids can reach, from which thread t may go on. */
  ghost predicate Here(s: State, t: Task, ids: set<Id>) {
    Reaches(Init, s, ids) && t.client in ids && s.fault.None?
  }

  lemma Go(s: State, t: Task, ids: set<Id>)
    requires Here(s, t, ids) && Enabled(s, t)
    ensures Reaches(Init, Step(s, t), ids)
  {
    var run :| Uses(run, ids) && Feasible(Init, run) && After(Init, run) == s;
    RunsJoin(Init, run, [t]);
    assert Uses(run + [t], ids);
  }

  lemma StartHere(t: Task, ids: set<Id>)
    requires t.client in ids
    ensures Here(Init, t, ids)
  {
    assert Uses([], ids) && Feasible(Init, []) && After(Init, []) == Init;
  }

  // One lemma for each kind of step that the run below takes.

  lemma GoBegin(s: State, t: Task, ids: set<Id>) returns (s': State)
    requires Here(s, t, ids) && t !in s.pc
    ensures s' == CallAcquire(s, t) && Reaches(Init, s', ids)
  {
    Go(s, t, ids);
    s' := Step(s, t);
  }

  lemma GoEnter(s: State, t: Task, ids: set<Id>) returns (s': State)
    requires Here(s, t, ids) && t in s.pc && s.pc[t].Ready?
    ensures s' == Enter(s, t) && Reaches(Init, s', ids)
  {
    Go(s, t, ids);
    s' := Step(s, t);
  }

  lemma GoServe(s: State, t: Task, ids: set<Id>) returns (s': State)
    requires Here(s, t, ids) && t in s.pc && s.pc[t].AcqSent? && s.mutex.None?
    ensures s' == ServeAcquire(s, t) && Reaches(Init, s', ids)
  {
    Go(s, t, ids);
    s' := Step(s, t);
  }

  lemma GoReadOwner(s: State, t: Task, ids: set<Id>) returns (s': State)
    requires Here(s, t, ids) && t in s.pc && s.pc[t].AcqGap?
    ensures s' == ReadOwner(s, t) && Reaches(Init, s', ids)
  {
    Go(s, t, ids);
    s' := Step(s, t);
  }

  lemma GoRevoke(s: State, t: Task, ids: set<Id>) returns (s': State)
    requires Here(s, t, ids) && t in s.pc && s.pc[t].AcqRevoke? && s.pc[t].call.Requested?
    ensures s' == DeliverRevoke(s, t, s.pc[t].dst) && Reaches(Init, s', ids)
  {
    Go(s, t, ids);
    s' := Step(s, t);
  }

  lemma GoAnswer(s: State, t: Task, ids: set<Id>) returns (s': State)
    requires Here(s, t, ids) && t in s.pc && s.pc[t].AcqRevoke? && s.pc[t].call.Answered?
    ensures s' == SetPc(s, t, AcqBack(Retry)) && Reaches(Init, s', ids)
  {
    Go(s, t, ids);
    s' := Step(s, t);
  }

  lemma GoTake(s: State, t: Task, ids: set<Id>) returns (s': State)
    requires Here(s, t, ids) && t in s.pc && s.pc[t] == AcqBack(Ok)
    ensures s' == TakeLock(s, t) && Reaches(Init, s', ids)
  {
    Go(s, t, ids);
    s' := Step(s, t);
  }

  lemma GoCheck(s: State, t: Task, ids: set<Id>) returns (s': State)
    requires Here(s, t, ids) && t in s.pc && (s.pc[t] == AcqBack(Retry) || s.pc[t].RetryReady?)
    ensures s' == CheckRetry(s, t) && Reaches(Init, s', ids)
  {
    Go(s, t, ids);
    s' := Step(s, t);
  }

  lemma GoRelease(s: State, t: Task, ids: set<Id>) returns (s': State)
    requires Here(s, t, ids) && t in s.pc && s.pc[t].Holding?
    ensures s' == CallRelease(s, t) && Reaches(Init, s', ids)
  {
    Go(s, t, ids);
    s' := Step(s, t);
  }

  lemma GoServeRelease(s: State, t: Task, ids: set<Id>) returns (s': State)
    requires Here(s, t, ids) && t in s.pc && s.pc[t] == RelCall(Sent) && s.mutex.None?
    ensures s' == ServeRelease(s, t) && Reaches(Init, s', ids)
  {
    Go(s, t, ids);
    s' := Step(s, t);
  }

  lemma GoRetry(s: State, t: Task, ids: set<Id>) returns (s': State)
    requires Here(s, t, ids) && t in s.pc && s.pc[t].RelCall? && s.pc[t].rel.RetryOut?
    ensures s' == DeliverRetry(s, t, s.pc[t].rel.w) && Reaches(Init, s', ids)
  {
    Go(s, t, ids);
    s' := Step(s, t);
  }

  lemma GoAfterRetry(s: State, t: Task, ids: set<Id>) returns (s': State)
    requires Here(s, t, ids) && t in s.pc && s.pc[t].RelCall? && s.pc[t].rel.RetryBack?
    ensures s' == AfterRetry(s, t, s.pc[t].rel.w) && Reaches(Init, s', ids)
  {
    Go(s, t, ids);
    s' := Step(s, t);
  }

  lemma GoNested(s: State, t: Task, ids: set<Id>) returns (s': State)
    requires Here(s, t, ids) && t in s.pc && s.pc[t].RelCall? && s.pc[t].rel.RevokeOut?
    ensures s' == DeliverNestedRevoke(s, t, s.pc[t].rel.w) && Reaches(Init, s', ids)
  {
    Go(s, t, ids);
    s' := Step(s, t);
  }

  lemma GoAfterNested(s: State, t: Task, ids: set<Id>) returns (s': State)
    requires Here(s, t, ids) && t in s.pc && s.pc[t].RelCall? && s.pc[t].rel.RevokeBack?
    ensures s' == AfterNestedRevoke(s, t) && Reaches(Init, s', ids)
  {
    Go(s, t, ids);
    s' := Step(s, t);
  }

  lemma GoReply(s: State, t: Task, ids: set<Id>) returns (s': State)
    requires Here(s, t, ids) && t in s.pc && s.pc[t] == RelCall(Replied)
    ensures s' == ReleaseReply(s, t) && Reaches(Init, s', ids)
  {
    Go(s, t, ids);
    s' := Step(s, t);
  }

  function RecOf(s: State, c: Id): Option<Client> {
    if c in s.clients then Some(s.clients[c]) else None
  }

  function PcOf(s: State, c: Id): Option<Pc> {
    if Task(c, 0) in s.pc then Some(s.pc[Task(c, 0)]) else None
  }

  /** Records and program counters of three one-threaded clients. */
  ghost predicate At(s: State, x: Id, cx: Option<Client>, px: Option<Pc>,
                     y: Id, cy: Option<Client>, py: Option<Pc>, z: Id, cz: Option<Client>, pz: Option<Pc>) {
    && s.fault.None?
    && RecOf(s, x) == cx && PcOf(s, x) == px
    && RecOf(s, y) == cy && PcOf(s, y) == py
    && RecOf(s, z) == cz && PcOf(s, z) == pz
  }

  /** x asks for the lock. */
  lemma FirstAsk(x: Id, y: Id, z: Id) returns (s: State)
    requires x != y && x != z && y != z
    ensures Reaches(Init, s, {x, y, z}) && !s.created && s.mutex.None? && s.server == NewServer
    ensures At(s, x, Some(Client(Acquiring, false, false)), Some(AcqSent), y, None, None, z, None, None)
  {
    var ids, t := {x, y, z}, Task(x, 0);
    StartHere(t, ids);
    s := GoBegin(Init, t, ids);
    s := GoEnter(s, t, ids);
  }

  /** x gets the lock. */
  lemma FirstOwner(x: Id, y: Id, z: Id) returns (s: State)
    requires x != y && x != z && y != z
    ensures Reaches(Init, s, {x, y, z}) && s.created && s.mutex.None?
    ensures s.server == Server(true, Some(x), {}, false)
    ensures At(s, x, Some(Client(Locked, false, false)), Some(Holding), y, None, None, z, None, None)
  {
    var ids, t := {x, y, z}, Task(x, 0);
    s := FirstAsk(x, y, z);
    s := GoServe(s, t, ids);
    s := GoTake(s, t, ids);
  }

  /** y asks. */
  lemma SecondComes(x: Id, y: Id, z: Id) returns (s: State)
    requires x != y && x != z && y != z
    ensures Reaches(Init, s, {x, y, z}) && s.created && s.mutex.None?
    ensures s.server == Server(true, Some(x), {}, false)
    ensures At(s, x, Some(Client(Locked, false, false)), Some(Holding),
               y, Some(Client(Acquiring, false, false)), Some(AcqSent), z, None, None)
  {
    var ids, t := {x, y, z}, Task(y, 0);
    s := FirstOwner(x, y, z);
    s := GoBegin(s, t, ids);
    s := GoEnter(s, t, ids);
  }

  /** The server is about to revoke. */
  lemma FirstGap(x: Id, y: Id, z: Id) returns (s: State)
    requires x != y && x != z && y != z
    ensures Reaches(Init, s, {x, y, z}) && s.created && s.mutex.None?
    ensures s.server == Server(true, Some(x), {y}, true)
    ensures At(s, x, Some(Client(Locked, false, false)), Some(Holding),
               y, Some(Client(Acquiring, false, false)), Some(AcqGap), z, None, None)
  {
    s := SecondComes(x, y, z);
    s := GoServe(s, Task(y, 0), {x, y, z});
  }

  /** x is told to give the lock back when it is done. */
  lemma FirstWaiter(x: Id, y: Id, z: Id) returns (s: State)
    requires x != y && x != z && y != z
    ensures Reaches(Init, s, {x, y, z}) && s.created && s.mutex.None?
    ensures s.server == Server(true, Some(x), {y}, true)
    ensures At(s, x, Some(Client(Locked, true, false)), Some(Holding),
               y, Some(Client(Acquiring, false, false)), Some(RetryAsleep), z, None, None)
  {
    var ids, t := {x, y, z}, Task(y, 0);
    s := FirstGap(x, y, z);
    s := GoReadOwner(s, t, ids);
    assert PcOf(s, y) == Some(AcqRevoke(x, Requested)) && PcOf(s, x) == Some(Holding);
    s := GoRevoke(s, t, ids);
    assert At(s, x, Some(Client(Locked, true, false)), Some(Holding),
              y, Some(Client(Acquiring, false, false)), Some(AcqRevoke(x, Answered)), z, None, None);
    s := GoAnswer(s, t, ids);
    s := GoCheck(s, t, ids);
  }

  /** z asks too. */
  lemma SecondAsk(x: Id, y: Id, z: Id) returns (s: State)
    requires x != y && x != z && y != z
    ensures Reaches(Init, s, {x, y, z}) && s.created && s.mutex.None?
    ensures s.server == Server(true, Some(x), {y}, true)
    ensures At(s, x, Some(Client(Locked, true, false)), Some(Holding),
               y, Some(Client(Acquiring, false, false)), Some(RetryAsleep),
               z, Some(Client(Acquiring, false, false)), Some(AcqSent))
  {
    var ids, t := {x, y, z}, Task(z, 0);
    s := FirstWaiter(x, y, z);
    s := GoBegin(s, t, ids);
    s := GoEnter(s, t, ids);
  }

  /** And is told to wait. */
  lemma SecondWaiter(x: Id, y: Id, z: Id) returns (s: State)
    requires x != y && x != z && y != z
    ensures Reaches(Init, s, {x, y, z}) && s.created && s.mutex.None?
    ensures s.server == Server(true, Some(x), {y, z}, true)
    ensures At(s, x, Some(Client(Locked, true, false)), Some(Holding),
               y, Some(Client(Acquiring, false, false)), Some(RetryAsleep),
               z, Some(Client(Acquiring, false, false)), Some(RetryAsleep))
  {
    var ids, t := {x, y, z}, Task(z, 0);
    s := SecondAsk(x, y, z);
    s := GoServe(s, t, ids);
    assert PcOf(s, z) == Some(AcqBack(Retry)) && s.server == Server(true, Some(x), {y, z}, true);
    s := GoCheck(s, t, ids);
  }

  lemma PairWaiting(y: Id, z: Id)
    requires y < z
    ensures Begin({y, z}) == y && |{y, z}| == 2
  {
  }

  /** x starts to give the lock back. */
  lemma FirstRelease(x: Id, y: Id, z: Id) returns (s: State)
    requires x != y && x != z && y < z
    ensures Reaches(Init, s, {x, y, z}) && s.created && s.mutex == Some(Task(x, 0))
    ensures s.server == Server(false, None, {y, z}, false)
    ensures At(s, x, Some(Client(Releasing, false, false)), Some(RelCall(RetryOut(y))),
               y, Some(Client(Acquiring, false, false)), Some(RetryAsleep),
               z, Some(Client(Acquiring, false, false)), Some(RetryAsleep))
  {
    var ids, t := {x, y, z}, Task(x, 0);
    s := SecondWaiter(x, y, z);
    PairWaiting(y, z);
    s := GoRelease(s, t, ids);
    assert PcOf(s, x) == Some(RelCall(Sent)) && RecOf(s, x) == Some(Client(Releasing, false, false));
    s := GoServeRelease(s, t, ids);
  }

  /** The server tells y to ask again. */
  lemma FirstRetry(x: Id, y: Id, z: Id) returns (s: State)
    requires x != y && x != z && y < z
    ensures Reaches(Init, s, {x, y, z}) && s.created && s.mutex == Some(Task(x, 0))
    ensures s.server == Server(false, None, {y, z}, false)
    ensures At(s, x, Some(Client(Releasing, false, false)), Some(RelCall(RetryBack(y))),
               y, Some(Client(Acquiring, false, true)), Some(RetryReady),
               z, Some(Client(Acquiring, false, false)), Some(RetryAsleep))
  {
    var ids, t := {x, y, z}, Task(x, 0);
    s := FirstRelease(x, y, z);
    s := GoRetry(s, t, ids);
  }

  /** Two clients wait, so the server is also to tell y to give the lock back soon. */
  lemma FirstRevokeOut(x: Id, y: Id, z: Id) returns (s: State)
    requires x != y && x != z && y < z
    ensures Reaches(Init, s, {x, y, z}) && s.created && s.mutex == Some(Task(x, 0))
    ensures s.server == Server(false, None, {y, z}, false)
    ensures At(s, x, Some(Client(Releasing, false, false)), Some(RelCall(RevokeOut(y))),
               y, Some(Client(Acquiring, false, true)), Some(RetryReady),
               z, Some(Client(Acquiring, false, false)), Some(RetryAsleep))
  {
    s := FirstRetry(x, y, z);
    PairWaiting(y, z);
    s := GoAfterRetry(s, Task(x, 0), {x, y, z});
  }

  /** And does. */
  lemma FirstNested(x: Id, y: Id, z: Id) returns (s: State)
    requires x != y && x != z && y < z
    ensures Reaches(Init, s, {x, y, z}) && s.created && s.mutex == Some(Task(x, 0))
    ensures s.server == Server(false, None, {y, z}, false)
    ensures At(s, x, Some(Client(Releasing, false, false)), Some(RelCall(RevokeBack(y))),
               y, Some(Client(Acquiring, true, true)), Some(RetryReady),
               z, Some(Client(Acquiring, false, false)), Some(RetryAsleep))
  {
    s := FirstRevokeOut(x, y, z);
    s := GoNested(s, Task(x, 0), {x, y, z});
  }

  /** x has given the lock back. */
  lemma HandOver(x: Id, y: Id, z: Id) returns (s: State)
    requires x != y && x != z && y < z
    ensures Reaches(Init, s, {x, y, z}) && s.created && s.mutex.None?
    ensures s.server == Server(false, None, {y, z}, false)
    ensures At(s, x, Some(Client(Nothing, false, false)), None,
               y, Some(Client(Acquiring, true, true)), Some(RetryReady),
               z, Some(Client(Acquiring, false, false)), Some(RetryAsleep))
  {
    var ids, t := {x, y, z}, Task(x, 0);
    s := FirstNested(x, y, z);
    s := GoAfterNested(s, t, ids);
    assert PcOf(s, x) == Some(RelCall(Replied)) && PcOf(s, y) == Some(RetryReady);
    s := GoReply(s, t, ids);
  }

  /** y asks again. */
  lemma ThirdAsk(x: Id, y: Id, z: Id) returns (s: State)
    requires x != y && x != z && y < z
    ensures Reaches(Init, s, {x, y, z}) && s.created && s.mutex.None?
    ensures s.server == Server(false, None, {y, z}, false)
    ensures At(s, x, Some(Client(Nothing, false, false)), None,
               y, Some(Client(Acquiring, true, false)), Some(AcqSent),
               z, Some(Client(Acquiring, false, false)), Some(RetryAsleep))
  {
    s := HandOver(x, y, z);
    s := GoCheck(s, Task(y, 0), {x, y, z});
  }

  /** y gets the lock, its revoke flag already up; the server does not know of any revoke. */
  lemma SecondOwner(x: Id, y: Id, z: Id) returns (s: State)
    requires x != y && x != z && y < z
    ensures Reaches(Init, s, {x, y, z}) && s.created && s.mutex.None?
    ensures s.server == Server(true, Some(y), {z}, false)
    ensures At(s, x, Some(Client(Nothing, false, false)), None,
               y, Some(Client(Locked, true, false)), Some(Holding),
               z, Some(Client(Acquiring, false, false)), Some(RetryAsleep))
  {
    var ids, t := {x, y, z}, Task(y, 0);
    s := ThirdAsk(x, y, z);
    s := GoServe(s, t, ids);
    assert {y, z} - {y} == {z};
    s := GoTake(s, t, ids);
  }

  /** x asks again. */
  lemma FourthAsk(x: Id, y: Id, z: Id) returns (s: State)
    requires x != y && x != z && y < z
    ensures Reaches(Init, s, {x, y, z}) && s.created && s.mutex.None?
    ensures s.server == Server(true, Some(y), {z}, false)
    ensures At(s, x, Some(Client(Acquiring, false, false)), Some(AcqSent),
               y, Some(Client(Locked, true, false)), Some(Holding),
               z, Some(Client(Acquiring, false, false)), Some(RetryAsleep))
  {
    var ids, t := {x, y, z}, Task(x, 0);
    s := SecondOwner(x, y, z);
    s := GoBegin(s, t, ids);
    s := GoEnter(s, t, ids);
  }

  /** The server, which sees no revoke under way, decides to send one. */
  lemma SecondGap(x: Id, y: Id, z: Id) returns (s: State)
    requires x != y && x != z && y < z
    ensures Reaches(Init, s, {x, y, z}) && s.created && s.mutex.None?
    ensures s.server == Server(true, Some(y), {x, z}, true)
    ensures At(s, x, Some(Client(Acquiring, false, false)), Some(AcqGap),
               y, Some(Client(Locked, true, false)), Some(Holding),
               z, Some(Client(Acquiring, false, false)), Some(RetryAsleep))
  {
    s := FourthAsk(x, y, z);
    s := GoServe(s, Task(x, 0), {x, y, z});
  }

  /** Before the server reads the owner, y gives the lock back on its own account. */
  lemma ThreeClientsFault(x: Id, y: Id, z: Id) returns (s: State)
    requires x != y && x != z && y < z
    ensures Reaches(Init, s, {x, y, z}) && s.fault == Some(NoOwnerToRevoke)
  {
    var ids, tx, ty := {x, y, z}, Task(x, 0), Task(y, 0);
    s := SecondGap(x, y, z);
    s := GoRelease(s, ty, ids);
    s := GoServeRelease(s, ty, ids);
    s := GoReadOwner(s, tx, ids);
  }

  lemma ThreeIds(ids: set<Id>) returns (x: Id, y: Id, z: Id)
    requires |ids| >= 3
    ensures x != y && x != z && y < z && {x, y, z} <= ids
  {
    x :| x in ids;
    var rest := ids - {x};
    assert |rest| >= 2;
    var a :| a in rest;
    assert |rest - {a}| >= 1;
    var b :| b in rest - {a};
    y, z := if a < b then a else b, if a < b then b else a;
  }

  /** For every set of clients: some run of theirs fails if and only if they are three or more.
      A failure is always this one. */
  lemma FaultIffThreeClients(ids: set<Id>)
    ensures (exists s :: Reaches(Init, s, ids) && s.fault.Some?) <==> |ids| >= 3
  {
    if |ids| >= 3 {
      var x, y, z := ThreeIds(ids);
      var s := ThreeClientsFault(x, y, z);
      var run :| Uses(run, {x, y, z}) && Feasible(Init, run) && After(Init, run) == s;
      assert Uses(run, ids);
      assert Reaches(Init, s, ids);
    } else {
      forall s | Reaches(Init, s, ids) ensures s.fault.None? {
        var run :| Uses(run, ids) && Feasible(Init, run) && After(Init, run) == s;
        InitInv();
        RunDuo(Init, run, ids);
      }
    }
  }

  lemma OnlyFault(s: State)
    requires Reachable(s)
    ensures s.fault.None? || s.fault == Some(NoOwnerToRevoke)
  {
    var run :| Feasible(Init, run) && After(Init, run) == s;
    InitInv();
    RunFault(Init, run);
  }

  lemma {:induction false} RunFault(s: State, run: seq<Task>)
    requires Inv(s) && Feasible(s, run) && (s.fault.None? || s.fault == Some(NoOwnerToRevoke))
    ensures After(s, run).fault.None? || After(s, run).fault == Some(NoOwnerToRevoke)
    decreases |run|
  {
    if run != [] {
      StepFault(s, run[0]);
      StepInv(s, run[0]);
      RunFault(Step(s, run[0]), run[1..]);
    }
  }
}
