/** Directory trees and the order in which a recursive delete asks for their locks. */
module LockOrder {
  datatype Tree = Leaf(inum: nat) | Branch(inum: nat, kids: seq<Kid>)
  datatype Kid = Kid(name: string, tree: Tree)

  function Inums(t: Tree): set<nat> {
    if t.Leaf? then {t.inum} else {t.inum} + KidInums(t.kids)
  }

  function KidInums(kids: seq<Kid>): set<nat> {
    if kids == [] then {} else Inums(kids[0].tree) + KidInums(kids[1..])
  }

  /** No inode is in the tree twice. */
  predicate Apart(t: Tree) {
    t.Branch? ==> t.inum !in KidInums(t.kids) && KidsApart(t.kids)
  }

  predicate KidsApart(kids: seq<Kid>) {
    kids != [] ==> Apart(kids[0].tree) && Inums(kids[0].tree) !! KidInums(kids[1..]) && KidsApart(kids[1..])
  }

  // ----- requests -----

  /** A request for a lock by a client that holds these. */
  datatype Request = Request(lock: nat, holding: set<nat>)

  /** What a recursive delete asks for: each entry in turn, what is below it, then the next. */
  function Requests(kids: seq<Kid>, holding: set<nat>): seq<Request> {
    if kids == [] then []
    else
      [Request(kids[0].tree.inum, holding)]
      + Below(kids[0].tree, holding + {kids[0].tree.inum})
      + Requests(kids[1..], holding)
  }

  function Below(t: Tree, holding: set<nat>): seq<Request> {
    if t.Leaf? then [] else Requests(t.kids, holding)
  }

  /** Two locks, the smaller number first. */
  function Pair(a: nat, b: nat, holding: set<nat>): seq<Request> {
    if a == b then [Request(a, holding)]
    else if a < b then [Request(a, holding), Request(b, holding + {a})]
    else [Request(b, holding), Request(a, holding + {b})]
  }

  /** What a delete of the tree in `parent` asks for. */
  function DeleteRequests(t: Tree, parent: nat, recursive: bool, holding: set<nat>): seq<Request> {
    Pair(t.inum, parent, holding) + if recursive then Below(t, holding + {t.inum, parent}) else []
  }

  // ----- each lock once -----

  ghost predicate Once(reqs: seq<Request>) {
    forall j, k :: 0 <= j < k < |reqs| ==> reqs[j].lock != reqs[k].lock
  }

  ghost predicate Among(reqs: seq<Request>, inums: set<nat>) {
    forall k :: 0 <= k < |reqs| ==> reqs[k].lock in inums
  }

  lemma OnceConcat(a: seq<Request>, b: seq<Request>, left: set<nat>, right: set<nat>)
    requires Once(a) && Once(b) && Among(a, left) && Among(b, right) && left !! right
    ensures Once(a + b) && Among(a + b, left + right)
  {
  }

  /** A recursive delete asks for no lock twice, and only for those below. */
  lemma {:induction false} BelowOnce(t: Tree, holding: set<nat>)
    requires Apart(t)
    ensures Once(Below(t, holding)) && Among(Below(t, holding), Inums(t) - {t.inum})
  {
    if t.Branch? {
      RequestsOnce(t.kids, holding);
      assert Inums(t) - {t.inum} == KidInums(t.kids);
    }
  }

  lemma {:induction false} RequestsOnce(kids: seq<Kid>, holding: set<nat>)
    requires KidsApart(kids)
    ensures Once(Requests(kids, holding)) && Among(Requests(kids, holding), KidInums(kids))
  {
    if kids != [] {
      var kid := kids[0].tree;
      var first, below := [Request(kid.inum, holding)], Below(kid, holding + {kid.inum});
      var rest := Requests(kids[1..], holding);
      BelowOnce(kid, holding + {kid.inum});
      OnceConcat(first, below, {kid.inum}, Inums(kid) - {kid.inum});
      RequestsOnce(kids[1..], holding);
      assert {kid.inum} + (Inums(kid) - {kid.inum}) == Inums(kid);
      OnceConcat(first + below, rest, Inums(kid), KidInums(kids[1..]));
    }
  }

  /** And for all of them. */
  lemma {:induction false} BelowAll(t: Tree, holding: set<nat>, i: nat)
    requires Apart(t) && i in Inums(t) - {t.inum}
    ensures exists k :: 0 <= k < |Below(t, holding)| && Below(t, holding)[k].lock == i
  {
    var k := RequestsAll(t.kids, holding, i);
    assert Below(t, holding)[k].lock == i;
  }

  lemma {:induction false} RequestsAll(kids: seq<Kid>, holding: set<nat>, i: nat) returns (k: nat)
    requires KidsApart(kids) && i in KidInums(kids)
    ensures k < |Requests(kids, holding)| && Requests(kids, holding)[k].lock == i
    decreases kids
  {
    var kid := kids[0].tree;
    var below, rest := Below(kid, holding + {kid.inum}), Requests(kids[1..], holding);
    if i == kid.inum {
      k := 0;
    } else if i in Inums(kid) {
      k := RequestsAll(kid.kids, holding + {kid.inum}, i);
      k := 1 + k;
    } else {
      k := RequestsAll(kids[1..], holding, i);
      assert Requests(kids, holding)[1 + |below| + k] == rest[k];
      k := 1 + |below| + k;
    }
  }

  // ----- ascending order -----

  /** Every lock is asked for while only smaller ones are held. */
  ghost predicate InOrder(reqs: seq<Request>) {
    forall k, h :: 0 <= k < |reqs| && h in reqs[k].holding ==> h < reqs[k].lock
  }

  lemma InOrderConcat(a: seq<Request>, b: seq<Request>)
    ensures InOrder(a + b) <==> InOrder(a) && InOrder(b)
  {
    if InOrder(a + b) {
      forall k, h | 0 <= k < |a| && h in a[k].holding ensures h < a[k].lock { assert (a + b)[k] == a[k]; }
      forall k, h | 0 <= k < |b| && h in b[k].holding ensures h < b[k].lock { assert (a + b)[|a| + k] == b[k]; }
    }
  }

  lemma InOrderOne(r: Request, m: nat)
    requires m in r.holding && forall h :: h in r.holding ==> h <= m
    ensures InOrder([r]) <==> m < r.lock
  {
    if InOrder([r]) { assert [r][0] == r; }
  }

  /** Below the root, every number is greater than that of the directory it is in; right below the
      root, greater than `floor`. */
  predicate Climbing(t: Tree, floor: nat) {
    t.Branch? ==> KidsClimbing(t.kids, floor)
  }

  predicate KidsClimbing(kids: seq<Kid>, floor: nat) {
    kids != [] ==>
      floor < kids[0].tree.inum && Climbing(kids[0].tree, kids[0].tree.inum) && KidsClimbing(kids[1..], floor)
  }

  lemma {:induction false} RequestsInOrderIff(kids: seq<Kid>, holding: set<nat>, m: nat)
    requires m in holding && forall h :: h in holding ==> h <= m
    ensures InOrder(Requests(kids, holding)) <==> KidsClimbing(kids, m)
    decreases kids
  {
    if kids != [] {
      var kid := kids[0].tree;
      var first, below := [Request(kid.inum, holding)], Below(kid, holding + {kid.inum});
      InOrderOne(first[0], m);
      InOrderConcat(first, below);
      InOrderConcat(first + below, Requests(kids[1..], holding));
      if m < kid.inum && kid.Branch? {
        RequestsInOrderIff(kid.kids, holding + {kid.inum}, kid.inum);
      }
      RequestsInOrderIff(kids[1..], holding, m);
    }
  }

  /** A client that holds nothing asks for its locks in ascending order if and only if it deletes one
      entry only, or the numbers climb on every way down the tree. */
  lemma DeleteInOrderIff(t: Tree, parent: nat, recursive: bool)
    ensures InOrder(DeleteRequests(t, parent, recursive, {}))
       <==> !recursive || Climbing(t, if t.inum < parent then parent else t.inum)
  {
    var pair, all := Pair(t.inum, parent, {}), {} + {t.inum, parent};
    InOrderConcat(pair, if recursive then Below(t, all) else []);
    if recursive && t.Branch? {
      RequestsInOrderIff(t.kids, all, if t.inum < parent then parent else t.inum);
    }
  }

  // ----- waiting for one another -----

  /** Each waits for a lock that the next one holds, and the last for one that the first holds. */
  ghost predicate WaitCycle(rs: seq<Request>) {
    rs != [] && forall k :: 0 <= k < |rs| ==> rs[k].lock in rs[if k + 1 < |rs| then k + 1 else 0].holding
  }

  /** Clients that ask in ascending order never wait for one another in a circle. */
  lemma NoWaitCycle(rs: seq<Request>)
    requires InOrder(rs)
    ensures !WaitCycle(rs)
  {
    if WaitCycle(rs) {
      Rising(rs, |rs| - 1);
    }
  }

  lemma {:induction false} Rising(rs: seq<Request>, k: nat)
    requires InOrder(rs) && WaitCycle(rs) && k < |rs|
    ensures rs[0].lock <= rs[k].lock
  {
    if k > 0 {
      Rising(rs, k - 1);
      assert rs[k - 1].lock in rs[k].holding;
    }
  }

  /** Directory 9 in the root holds file 4.  One client deletes 9 and what is below it, another
      deletes 4: the first holds 9 and waits for 4, the second holds 4 and waits for 9. */
  lemma DeletesCross(t: Tree, kid: Tree)
    requires kid == Leaf(4) && t == Branch(9, [Kid("a", kid)])
    ensures Apart(t)
    ensures DeleteRequests(t, 1, true, {}) == [Request(1, {}), Request(9, {1}), Request(4, {1, 9})]
    ensures DeleteRequests(kid, 9, false, {}) == [Request(4, {}), Request(9, {4})]
    ensures WaitCycle([Request(4, {1, 9}), Request(9, {4})])
  {
    var all := {9, 1};
    assert Requests([], all) == [];
    assert Requests(t.kids, all) == [Request(4, all)] + Below(kid, all + {4}) + Requests(t.kids[1..], all);
    SmallSets({}, 1);
    SmallSets({}, 4);
    assert {} + {9, 1} == all == {1, 9};
  }

  lemma SmallSets(none: set<nat>, a: nat)
    requires none == {}
    ensures none + {a} == {a}
  {
  }
}
