/** The two lock records of the caching lock service, one per side, and what each
    critical section does to them.

    A critical section is the code between two points where the record's mutex is free.
    Each is a function on the record, used by the protocol in LockProtocol.dfy, and a method
    of the class that owns the record.  LockService.dfy puts the two together. */
module LockRecords {
  import opened Options

  /** Client ids, numbered in the order of their "host:port" strings: the order in which
      `std::set<std::string>` keeps them. */
  type Id = nat
  type LockId = nat

  /** `state`, `owner` ("" is None), `wait_list` and `revoke` of a server record. */
  datatype Server = Server(held: bool, owner: Option<Id>, waiting: set<Id>, revoke: bool)

  datatype Status = Nothing | Free | Locked | Acquiring | Releasing

  datatype Client = Client(status: Status, revoke: bool, retry: bool)

  const NewServer := Server(false, None, {}, false)
  const NewClient := Client(Nothing, false, false)

  /** How the server's acquire leaves its critical section. */
  datatype Verdict = Granted | Queued | MustRevoke

  function AcquireVerdict(r: Server): Verdict {
    if !r.held then Granted else if r.revoke then Queued else MustRevoke
  }

  function Acquired(r: Server, id: Id): Server {
    match AcquireVerdict(r)
    case Granted => Server(true, Some(id), r.waiting - {id}, false)
    case Queued => r.(waiting := r.waiting + {id})
    case MustRevoke => r.(waiting := r.waiting + {id}, revoke := true)
  }

  function Released(r: Server): Server {
    r.(held := false, owner := None, revoke := false)
  }

  lemma LeastExists(w: set<Id>, m: Id)
    requires m in w
    ensures exists k :: k in w && forall x :: x in w ==> k <= x
    decreases m
  {
    if x :| x in w && x < m {
      LeastExists(w, x);
    }
  }

  /** `*wait_list.begin()`. */
  function Begin(w: set<Id>): (m: Id)
    requires w != {}
    ensures m in w && forall x :: x in w ==> m <= x
  {
    var any :| any in w;
    LeastExists(w, any);
    var m :| m in w && forall x :: x in w ==> m <= x;
    m
  }

  /** One pass of the client's acquire loop that does not wait for a retry. */
  function Entered(c: Client): Client {
    match c.status
    case Nothing => c.(status := Acquiring)
    case Free => c.(status := Locked)
    case _ => c
  }

  /** Leaving the retry wait: the flag is consumed and the loop goes straight back to Acquiring. */
  function Retried(c: Client): Client {
    c.(status := Acquiring, retry := false)
  }

  function RevokeArrived(c: Client): Client {
    if c.status.Free? then c.(status := Releasing) else c.(revoke := true)
  }

  function RetryArrived(c: Client): Client {
    c.(retry := true)
  }

  /** The client's release, called by the thread that holds the lock. */
  function HandedBack(c: Client): Client {
    if c.revoke then c.(status := Releasing, revoke := false) else c.(status := Free)
  }

  /** `lock_server_cache`: every lock's record, updated in place. */
  class LockServerCache {
    var lockMap: map<LockId, Server>

    constructor ()
      ensures lockMap == map[]
    {
      lockMap := map[];
    }

    function Entry(lid: LockId): Server
      reads this
    {
      if lid in lockMap then lockMap[lid] else NewServer
    }

    /** acquire, up to the point where the record's mutex is given up. */
    method AcquireSection(lid: LockId, id: Id) returns (verdict: Verdict)
      modifies this
      ensures verdict == AcquireVerdict(old(Entry(lid)))
      ensures lockMap == old(lockMap)[lid := Acquired(old(Entry(lid)), id)]
    {
      if lid !in lockMap {
        lockMap := lockMap[lid := NewServer];
      }
      var r := lockMap[lid];
      if !r.held {
        r := r.(held := true);
        r := r.(waiting := r.waiting - {id});
        r := r.(owner := Some(id));
        r := r.(revoke := false);
        verdict := Granted;
      } else {
        r := r.(waiting := r.waiting + {id});
        if r.revoke {
          verdict := Queued;
        } else {
          r := r.(revoke := true);
          verdict := MustRevoke;
        }
      }
      lockMap := lockMap[lid := r];
    }

    /** release, up to its first call: nothing is changed when the lock has no record. */
    method ReleaseSection(lid: LockId) returns (known: bool, next: Option<Id>)
      modifies this
      ensures known <==> lid in old(lockMap)
      ensures lockMap == if known then old(lockMap)[lid := Released(old(Entry(lid)))] else old(lockMap)
      ensures known && old(Entry(lid)).waiting != {} ==> next == Some(Begin(old(Entry(lid)).waiting))
      ensures known && old(Entry(lid)).waiting == {} ==> next == None
    {
      next := None;
      known := lid in lockMap;
      if known {
        var r := lockMap[lid];
        r := r.(held := false);
        r := r.(owner := None);
        r := r.(revoke := false);
        lockMap := lockMap[lid := r];
        if r.waiting != {} {
          next := Some(Begin(r.waiting));
        }
      }
    }
  }

  /** `lock_client_cache`: every cached lock's record, updated in place. */
  class LockClientCache {
    var lockMap: map<LockId, Client>

    constructor ()
      ensures lockMap == map[]
    {
      lockMap := map[];
    }

    /** First section of acquire: make sure the record exists. */
    method EnsureEntry(lid: LockId)
      modifies this
      ensures lockMap == if lid in old(lockMap) then old(lockMap) else old(lockMap)[lid := NewClient]
    {
      if lid !in lockMap {
        lockMap := lockMap[lid := NewClient];
      }
    }

    /** A pass of the acquire loop: to ask the server, to return with the lock, or to wait. */
    method EnterSection(lid: LockId) returns (seen: Status)
      requires lid in lockMap
      modifies this
      ensures seen == old(lockMap)[lid].status
      ensures lockMap == old(lockMap)[lid := Entered(old(lockMap)[lid])]
    {
      var c := lockMap[lid];
      seen := c.status;
      match c.status {
        case Nothing => c := c.(status := Acquiring);
        case Free => c := c.(status := Locked);
        case _ =>
      }
      lockMap := lockMap[lid := c];
    }

    /** The reply OK to acquire. */
    method TakeSection(lid: LockId)
      requires lid in lockMap
      modifies this
      ensures lockMap == old(lockMap)[lid := old(lockMap)[lid].(status := Locked)]
    {
      lockMap := lockMap[lid := lockMap[lid].(status := Locked)];
    }

    /** The reply RETRY, or the end of a wait for the flag: with the flag up the loop goes round
        again, with the flag down it waits. */
    method AgainSection(lid: LockId) returns (wait: bool)
      requires lid in lockMap
      modifies this
      ensures wait <==> !old(lockMap)[lid].retry
      ensures lockMap == if wait then old(lockMap) else old(lockMap)[lid := Retried(old(lockMap)[lid])]
    {
      var c := lockMap[lid];
      wait := !c.retry;
      if !wait {
        c := c.(status := Nothing);
        c := c.(retry := false);
        c := c.(status := Acquiring);
        lockMap := lockMap[lid := c];
      }
    }

    /** release: `fault` is the VERIFY on a missing record or a status other than Locked. */
    method ReleaseSection(lid: LockId) returns (fault: bool, callServer: bool)
      modifies this
      ensures fault <==> lid !in old(lockMap) || old(lockMap)[lid].status != Locked
      ensures fault ==> lockMap == old(lockMap)
      ensures !fault ==> callServer == old(lockMap)[lid].revoke
      ensures !fault ==> lockMap == old(lockMap)[lid := HandedBack(old(lockMap)[lid])]
    {
      callServer := false;
      fault := lid !in lockMap || lockMap[lid].status != Locked;
      if !fault {
        var c := lockMap[lid];
        if !c.revoke {
          c := c.(status := Free);
        } else {
          c := c.(status := Releasing);
          c := c.(revoke := false);
          callServer := true;
        }
        lockMap := lockMap[lid := c];
      }
    }

    /** After the server has taken the lock back. */
    method SettleSection(lid: LockId)
      requires lid in lockMap
      modifies this
      ensures lockMap == old(lockMap)[lid := old(lockMap)[lid].(status := Nothing)]
    {
      lockMap := lockMap[lid := lockMap[lid].(status := Nothing)];
    }

    /** revoke_handler, up to its call of release. */
    method RevokeSection(lid: LockId) returns (fault: bool, callServer: bool)
      modifies this
      ensures fault <==> lid !in old(lockMap)
      ensures fault ==> lockMap == old(lockMap)
      ensures !fault ==> callServer == old(lockMap)[lid].status.Free?
      ensures !fault ==> lockMap == old(lockMap)[lid := RevokeArrived(old(lockMap)[lid])]
    {
      callServer := false;
      fault := lid !in lockMap;
      if !fault {
        var c := lockMap[lid];
        match c.status {
          case Free =>
            c := c.(status := Releasing);
            callServer := true;
          case _ =>
            c := c.(revoke := true);
        }
        lockMap := lockMap[lid := c];
      }
    }

    /** retry_handler: `broadcast` says whether sleepers are woken. */
    method RetrySection(lid: LockId) returns (fault: bool, broadcast: bool)
      modifies this
      ensures fault <==> lid !in old(lockMap)
      ensures fault ==> lockMap == old(lockMap)
      ensures !fault ==> broadcast == !old(lockMap)[lid].retry
      ensures !fault ==> lockMap == old(lockMap)[lid := RetryArrived(old(lockMap)[lid])]
    {
      broadcast := false;
      fault := lid !in lockMap;
      if !fault {
        var c := lockMap[lid];
        if !c.retry {
          c := c.(retry := true);
          broadcast := true;
        }
        lockMap := lockMap[lid := c];
      }
    }
  }
}
