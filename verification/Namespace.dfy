/** The namespace: directories whose contents are texts, edited in place, under locks. */
module Namespace {
  import opened Options
  import opened DirText
  import opened DirErase
  import opened LockOrder

  datatype Kind = FileKind | DirKind | LinkKind

  datatype Node = Node(kind: Kind, content: string)

  type Nodes = map<nat, Node>

  datatype Status = OK | NOENT | EXIST | IOERR

  predicate IsDirIn(nodes: Nodes, ino: nat) {
    ino in nodes && nodes[ino].kind == DirKind
  }

  /** nlock_lookup when the directory can be read. */
  function LookupIn(nodes: Nodes, parent: nat, name: string): Option<nat> {
    if !IsDirIn(nodes, parent) then None
    else match FirstNamed(Scan(nodes[parent].content), name)
      case None => None
      case Some(raw) => Some(N2i(raw.num))
  }

  // ----- a name that was found occurs in the text -----

  lemma OccursLater(s: string, from: nat, sub: string)
    requires from <= |s| && exists k: nat :: OccursAt(s[from..], sub, k)
    ensures exists k: nat :: OccursAt(s, sub, k)
  {
    var k: nat :| OccursAt(s[from..], sub, k);
    assert s[from..][k..k + |sub|] == s[from + k..from + k + |sub|];
    assert OccursAt(s, sub, from + k);
  }

  lemma NumberCases(name: string, s: string, raw: Raw) returns (j: nat)
    requires raw in ScanNumber(name, s)
    ensures j <= |s| && (raw.name == name || raw in Scan(s[j..]))
  {
    j := 0;
    if raw.name != name {
      j := IndexOf(s, SEP) + 1;
    }
  }

  lemma Slices(s: string, i: nat, j: nat)
    requires i <= |s| && j <= |s| - i
    ensures s[i..][j..] == s[i + j..]
  {
  }

  lemma ScanCases(s: string, raw: Raw) returns (i: nat)
    requires raw in Scan(s)
    ensures i <= |s| && (raw.name == s[..i] || (i > 0 && raw in Scan(s[i..])))
  {
    i := IndexOf(s, SEP);
    if raw.name == s[..i] {
      return;
    }
    var j := NumberCases(s[..i], s[i + 1..], raw);
    Slices(s, i + 1, j);
    i := i + 1 + j;
  }

  lemma {:induction false} ScannedOccurs(s: string, raw: Raw)
    requires raw in Scan(s)
    ensures exists k: nat :: OccursAt(s, raw.name, k)
    decreases |s|
  {
    var i := ScanCases(s, raw);
    if raw.name == s[..i] {
      assert OccursAt(s, raw.name, 0);
    } else {
      ScannedOccurs(s[i..], raw);
      OccursLater(s, i, raw.name);
    }
  }

  /** unlink's search never fails on a name that lookup has found. */
  lemma FoundOccurs(s: string, name: string)
    requires FirstNamed(Scan(s), name).Some?
    ensures FindFrom(s, name, 0).Some?
  {
    ScannedOccurs(s, FirstNamed(Scan(s), name).value);
  }

  /** What nlock_unlink leaves, or None if there is no such name. */
  ghost function AfterUnlink(nodes: Nodes, parent: nat, name: string): Option<Nodes> {
    match LookupIn(nodes, parent, name)
    case None => None
    case Some(target) =>
      FoundOccurs(nodes[parent].content, name);
      Some(nodes[parent := Node(DirKind, Unlinked(nodes[parent].content, name, Decimal(target)))] - {target})
  }

  // ----- directory listings -----

  ghost predicate DistinctNames(es: seq<Entry>) {
    forall k, l :: 0 <= k < l < |es| ==> es[k].name != es[l].name
  }

  /** The directory holds these entries. */
  ghost predicate Lists(nodes: Nodes, dir: nat, es: seq<Entry>) {
    IsDirIn(nodes, dir) && Clean(es) && nodes[dir].content == Print(es)
  }

  lemma {:induction false} FirstOfRaws(es: seq<Entry>, k: nat)
    requires k < |es| && forall l :: 0 <= l < k ==> es[l].name != es[k].name
    ensures FirstNamed(Raws(es), es[k].name) == Some(RawOf(es[k]))
  {
    if k > 0 {
      assert Raws(es)[1..] == Raws(es[1..]);
      FirstOfRaws(es[1..], k - 1);
    }
  }

  /** Lookup in a listed directory: the first entry of that name, or nothing if there is none. */
  lemma LookupListed(nodes: Nodes, dir: nat, es: seq<Entry>, name: string)
    requires Lists(nodes, dir, es)
    ensures LookupIn(nodes, dir, name).None? <==> forall k :: 0 <= k < |es| ==> es[k].name != name
    ensures forall k :: 0 <= k < |es| && es[k].name == name && (forall l :: 0 <= l < k ==> es[l].name != name)
              ==> LookupIn(nodes, dir, name) == Some(es[k].inum)
  {
    ScanPrint(es);
    assert forall k :: 0 <= k < |es| ==> Raws(es)[k].name == es[k].name;
    forall k | 0 <= k < |es| && es[k].name == name && (forall l :: 0 <= l < k ==> es[l].name != name)
      ensures LookupIn(nodes, dir, name) == Some(es[k].inum)
    {
      FirstOfRaws(es, k);
      NumberRoundTrip(es[k].inum);
    }
  }

  /** Adding an entry under a new name. */
  lemma InsertListed(nodes: Nodes, dir: nat, es: seq<Entry>, e: Entry)
    requires Lists(nodes, dir, es) && DistinctNames(es) && LookupIn(nodes, dir, e.name).None?
    requires Clean([e])
    ensures Print(es + [e]) == Insert(nodes[dir].content, e)
    ensures Clean(es + [e]) && DistinctNames(es + [e])
  {
    PrintSnoc(es, e);
    LookupListed(nodes, dir, es, e.name);
    assert [e][0] == e;
  }

  /** Unlinking an entry whose name's first occurrence is its own place. */
  lemma UnlinkListed(nodes: Nodes, dir: nat, a: seq<Entry>, e: Entry, b: seq<Entry>)
    requires Lists(nodes, dir, a + [e] + b) && FindFrom(nodes[dir].content, e.name, 0) == Some(|Front(a)|)
    requires forall k :: 0 <= k < |a| ==> a[k].name != e.name
    ensures AfterUnlink(nodes, dir, e.name) == Some(nodes[dir := Node(DirKind, Print(a + b))] - {e.inum})
  {
    var es := a + [e] + b;
    assert es[|a|] == e && forall l :: 0 <= l < |a| ==> es[l] == a[l];
    LookupListed(nodes, dir, es, e.name);
    UnlinkIff(a, e, b, nodes[dir].content, |Front(a)|);
  }

  lemma NoneBefore(e: Entry, b: seq<Entry>)
    ensures [e] + b == [] + [e] + b && [] + b == b && |Front([])| == 0
  {
  }

  lemma FoundFirst(text: string, name: string)
    requires OccursAt(text, name, 0)
    ensures FindFrom(text, name, 0) == Some(0)
  {
  }

  /** The entry in front is always found at its own place. */
  lemma UnlinkFront(nodes: Nodes, dir: nat, e: Entry, b: seq<Entry>)
    requires Lists(nodes, dir, [e] + b)
    ensures AfterUnlink(nodes, dir, e.name) == Some(nodes[dir := Node(DirKind, Print(b))] - {e.inum})
  {
    NoneBefore(e, b);
    OwnPlace([], e, b);
    FoundFirst(nodes[dir].content, e.name);
    UnlinkListed(nodes, dir, [], e, b);
  }

  // ----- trees -----

  function EntriesOf(kids: seq<Kid>): seq<Entry> {
    seq(|kids|, k requires 0 <= k < |kids| => Entry(kids[k].name, kids[k].tree.inum))
  }

  /** The namespace holds the tree. */
  ghost predicate Holds(nodes: Nodes, t: Tree) {
    if t.Leaf? then t.inum in nodes && !IsDirIn(nodes, t.inum)
    else Lists(nodes, t.inum, EntriesOf(t.kids)) && KidsHold(nodes, t.kids)
  }

  ghost predicate KidsHold(nodes: Nodes, kids: seq<Kid>) {
    kids != [] ==> Holds(nodes, kids[0].tree) && KidsHold(nodes, kids[1..])
  }

  lemma {:induction false} HoldsElsewhere(nodes: Nodes, nodes': Nodes, t: Tree)
    requires Holds(nodes, t) && forall i :: i in Inums(t) && i in nodes ==> i in nodes' && nodes'[i] == nodes[i]
    ensures Holds(nodes', t)
  {
    if t.Branch? { KidsHoldElsewhere(nodes, nodes', t.kids); }
  }

  lemma {:induction false} KidsHoldElsewhere(nodes: Nodes, nodes': Nodes, kids: seq<Kid>)
    requires KidsHold(nodes, kids)
    requires forall i :: i in KidInums(kids) && i in nodes ==> i in nodes' && nodes'[i] == nodes[i]
    ensures KidsHold(nodes', kids)
  {
    if kids != [] {
      HoldsElsewhere(nodes, nodes', kids[0].tree);
      KidsHoldElsewhere(nodes, nodes', kids[1..]);
    }
  }

  /** The tree with its root emptied and everything below it gone. */
  ghost function Emptied(nodes: Nodes, t: Tree): Nodes {
    if t.Leaf? then nodes else (nodes - KidInums(t.kids))[t.inum := Node(DirKind, "")]
  }

  // ----- one round of the delete loop -----

  /** Part of the way through: `left` are the kids still to go, all others are gone. */
  ghost predicate Midway(nodes: Nodes, first: Nodes, t: Tree, left: seq<Kid>, gone: set<nat>) {
    && t.Branch?
    && gone + KidInums(left) == KidInums(t.kids) && gone !! KidInums(left)
    && KidsApart(left) && KidsHold(first, left) && Clean(EntriesOf(left))
    && nodes == (first - gone)[t.inum := Node(DirKind, Print(EntriesOf(left)))]
  }

  lemma MidwayFirst(nodes: Nodes, t: Tree)
    requires Holds(nodes, t) && t.Branch? && Apart(t)
    ensures Midway(nodes, nodes, t, t.kids, {})
  {
    assert nodes == (nodes - {})[t.inum := Node(DirKind, Print(EntriesOf(t.kids)))];
  }

  lemma MidwayDone(nodes: Nodes, first: Nodes, t: Tree, gone: set<nat>)
    requires Midway(nodes, first, t, [], gone)
    ensures nodes == Emptied(first, t)
  {
    assert KidInums([]) == {} && EntriesOf([]) == [];
  }

  /** The next kid's tree is whole and apart from the root. */
  lemma MidwayNext(nodes: Nodes, first: Nodes, t: Tree, left: seq<Kid>, gone: set<nat>)
    requires Midway(nodes, first, t, left, gone) && Apart(t) && left != []
    ensures Holds(nodes, left[0].tree) && Apart(left[0].tree) && Inums(left[0].tree) <= KidInums(t.kids)
    ensures t.inum !in Inums(left[0].tree)
  {
    HoldsElsewhere(first, nodes, left[0].tree);
  }

  lemma EntriesNext(left: seq<Kid>)
    requires left != [] && Clean(EntriesOf(left))
    ensures EntriesOf(left) == [Entry(left[0].name, left[0].tree.inum)] + EntriesOf(left[1..])
    ensures Clean(EntriesOf(left[1..]))
  {
    assert forall k :: 0 <= k < |left| - 1 ==> EntriesOf(left[1..])[k] == EntriesOf(left)[k + 1];
  }

  /** Emptying the next kid and unlinking it is one round of progress. */
  lemma MidwayStep(nodes: Nodes, first: Nodes, t: Tree, left: seq<Kid>, gone: set<nat>)
    requires Midway(nodes, first, t, left, gone) && Apart(t) && left != []
    ensures var kid := left[0];
            var mid := Emptied(nodes, kid.tree);
            && AfterUnlink(mid, t.inum, kid.name).Some?
            && Midway(AfterUnlink(mid, t.inum, kid.name).value, first, t, left[1..], gone + Inums(kid.tree))
  {
    var kid, rest := left[0], left[1..];
    var mid := Emptied(nodes, kid.tree);
    MidwayNext(nodes, first, t, left, gone);
    EntriesNext(left);
    assert mid[t.inum] == nodes[t.inum];
    UnlinkFront(mid, t.inum, Entry(kid.name, kid.tree.inum), EntriesOf(rest));
    GoneMap(first, gone, t.inum, kid.tree, Node(DirKind, Print(EntriesOf(left))),
            Node(DirKind, Print(EntriesOf(rest))));
  }

  lemma GoneMap(first: Nodes, gone: set<nat>, root: nat, kid: Tree, before: Node, after: Node)
    requires root !in Inums(kid) && Apart(kid)
    ensures var nodes := (first - gone)[root := before];
            Emptied(nodes, kid)[root := after] - {kid.inum} == (first - (gone + Inums(kid)))[root := after]
  {
    var nodes := (first - gone)[root := before];
    var l, r := Emptied(nodes, kid)[root := after] - {kid.inum}, (first - (gone + Inums(kid)))[root := after];
    assert l.Keys == r.Keys;
  }

  lemma MidwayElsewhere(nodes: Nodes, first: Nodes, t: Tree, left: seq<Kid>, gone: set<nat>)
    requires Midway(nodes, first, t, left, gone)
    ensures nodes - Inums(t) == first - Inums(t)
  {
    assert (nodes - Inums(t)).Keys == (first - Inums(t)).Keys;
  }

  lemma Elsewhere(nodes: Nodes, nodes': Nodes, inner: set<nat>, outer: set<nat>)
    requires inner <= outer && nodes' - inner == nodes - inner
    ensures nodes' - outer == nodes - outer
  {
    assert nodes' - outer == (nodes' - inner) - outer && nodes - outer == (nodes - inner) - outer;
  }

  // ----- the operations -----

  class Client {
    var nodes: Nodes
    /** The locks this client holds. */
    var held: set<nat>
    /** Every lock asked for so far, in order, with the locks held when it was. */
    var trail: seq<Request>
    /** Which of the reads to come fail; reads beyond the end of the list succeed. */
    var faults: seq<bool>

    method Acquire(lid: nat)
      requires lid !in held
      modifies `held, `trail
      ensures held == old(held) + {lid} && trail == old(trail) + [Request(lid, old(held))]
    {
      trail := trail + [Request(lid, held)];
      held := held + {lid};
    }

    method Release(lid: nat)
      requires lid in held
      modifies `held
      ensures held == old(held) - {lid}
    {
      held := held - {lid};
    }

    /** Reading an extent may fail; one that does not exist reads as empty. */
    method Get(ino: nat) returns (r: Option<string>)
      modifies `faults
      ensures r.Some? ==> r.value == if ino in nodes then nodes[ino].content else ""
      ensures r.None? <==> old(faults) != [] && old(faults)[0]
      ensures faults == if old(faults) == [] then [] else old(faults)[1..]
    {
      var fails := faults != [] && faults[0];
      if faults != [] {
        faults := faults[1..];
      }
      r := if fails then None else if ino in nodes then Some(nodes[ino].content) else Some("");
    }

    method Put(ino: nat, content: string)
      modifies `nodes
      ensures nodes == if ino in old(nodes) then old(nodes)[ino := Node(old(nodes)[ino].kind, content)] else old(nodes)
    {
      if ino in nodes {
        nodes := nodes[ino := Node(nodes[ino].kind, content)];
      }
    }

    method Lookup(parent: nat, name: string) returns (status: Status, r: Option<nat>)
      modifies `faults
      ensures old(faults) == [] ==> faults == [] && r == LookupIn(nodes, parent, name) && status != IOERR
      ensures r.Some? ==> r == LookupIn(nodes, parent, name) && status == OK
      ensures status == NOENT ==> LookupIn(nodes, parent, name) == None
      ensures status == OK && r.None? ==> !IsDirIn(nodes, parent)
    {
      if !IsDirIn(nodes, parent) {
        return OK, None;
      }
      var got := Get(parent);
      if got.None? {
        return IOERR, None;
      }
      r := DirText.Lookup(got.value, name);
      status := if r.Some? then OK else NOENT;
    }

    /** nlock_create, mkdir and createlink: `id` is the inode that the allocator hands out, 0 when
        there is none, and `target` is what a link points to. */
    method Create(parent: nat, name: string, kind: Kind, target: string, id: nat) returns (status: Status)
      requires id !in nodes
      modifies `nodes, `faults
      ensures status == EXIST || status == OK
      ensures status == EXIST ==> LookupIn(old(nodes), parent, name).Some? && nodes == old(nodes)
      ensures status == OK && id != 0 && id != parent ==>
                id in nodes && nodes[id] == Node(kind, if kind == LinkKind then target else "")
      ensures status == OK ==> nodes - {id, parent} == old(nodes) - {id, parent}
      ensures status == OK && parent in old(nodes) ==>
                && parent in nodes && nodes[parent].kind == old(nodes)[parent].kind
                && (nodes[parent].content == old(nodes)[parent].content
                    || nodes[parent].content == Insert(old(nodes)[parent].content, Entry(name, id)))
      ensures old(faults) == [] ==>
                && faults == []
                && (status == EXIST <==> LookupIn(old(nodes), parent, name).Some?)
                && (status == OK && parent in old(nodes) ==>
                      nodes[parent].content == Insert(old(nodes)[parent].content, Entry(name, id)))
    {
      var _, found := Lookup(parent, name);
      if found.Some? {
        return EXIST;
      }
      if id != 0 {
        nodes := nodes[id := Node(kind, "")];
      }
      var dirList := Get(parent);
      if dirList.Some? {
        Put(parent, Insert(dirList.value, Entry(name, id)));
      }
      if kind == LinkKind {
        Put(id, target);
      }
      status := OK;
    }

    /** nlock_unlink. */
    method Unlink(parent: nat, name: string) returns (ok: bool)
      modifies `nodes, `faults
      ensures old(faults) == [] ==> faults == [] && (ok <==> LookupIn(old(nodes), parent, name).Some?)
      ensures ok ==> AfterUnlink(old(nodes), parent, name) == Some(nodes)
      ensures !ok ==> nodes == old(nodes)
    {
      var _, found := Lookup(parent, name);
      if found.None? {
        return false;
      }
      var dirList := Get(parent);
      if dirList.None? {
        return false;
      }
      FoundOccurs(dirList.value, name);
      Put(parent, Unlinked(dirList.value, name, Decimal(found.value)));
      nodes := nodes - {found.value};
      ok := true;
    }

    /** nlock_readdir.  On anything but a directory it gives up the lock, which the lock client
        takes only from its holder, and reports an empty listing. */
    method ReadDir(dir: nat) returns (r: Option<seq<Entry>>)
      requires IsDirIn(nodes, dir) || dir in held
      modifies `faults, `held
      ensures old(faults) == [] ==> faults == [] && r.Some?
      ensures IsDirIn(nodes, dir) ==> held == old(held) && (r.Some? ==> r.value == Entries(Scan(nodes[dir].content)))
      ensures !IsDirIn(nodes, dir) ==> held == old(held) - {dir} && r == Some([])
    {
      if !IsDirIn(nodes, dir) {
        Release(dir);
        return Some([]);
      }
      var got := Get(dir);
      if got.None? {
        return None;
      }
      var list := DirText.ReadDir(got.value);
      r := Some(list);
    }

    /** RecursiveDelete of the tree at ino, whose own lock the caller holds.  It asks for the locks
        below in the order of Below, all of them when it succeeds and the first of them when it
        fails, and gives each back.  Having succeeded it has emptied the directory and freed all
        that was below, and changed nothing else. */
    method RecursiveDelete(ino: nat, ghost t: Tree) returns (ok: bool)
      requires t.inum == ino && Holds(nodes, t) && Apart(t)
      requires held !! Inums(t) - {ino}
      modifies this
      ensures held == old(held) && Trailed(old(trail), trail, Below(t, held))
      ensures ok ==> nodes == Emptied(old(nodes), t) && trail == old(trail) + Below(t, held)
      ensures nodes - Inums(t) == old(nodes) - Inums(t)
      ensures old(faults) == [] ==> ok && faults == []
      decreases t, 1
    {
      TrailNone(trail, Below(t, held));
      if !IsDirIn(nodes, ino) {
        return true;
      }
      var dir := ReadDir(ino);
      if dir.None? {
        return false;
      }
      CodecRoundTrip(EntriesOf(t.kids));
      ghost var first, gone: set<nat> := nodes, {};
      MidwayFirst(nodes, t);
      var k := 0;
      while k < |dir.value|
        invariant 0 <= k <= |t.kids| && dir.value == EntriesOf(t.kids)
        invariant held == old(held) && Midway(nodes, first, t, t.kids[k..], gone)
        invariant OnTrail(old(trail), trail, Requests(t.kids[k..], held), Requests(t.kids, held))
        invariant old(faults) == [] ==> faults == []
        decreases |dir.value| - k
      {
        ghost var before := trail;
        RequestsNext(t.kids, k, held);
        var deleted := DeleteEntry(ino, dir.value[k], t, k, first, gone);
        if !deleted {
          TrailCut(old(trail), before, trail, RequestOf(t.kids[k].tree, held), Requests(t.kids[k + 1..], held),
                   Requests(t.kids, held));
          return false;
        }
        TrailOn(old(trail), before, trail, RequestOf(t.kids[k].tree, held), Requests(t.kids[k + 1..], held),
                Requests(t.kids, held));
        gone := gone + Inums(t.kids[k].tree);
        k := k + 1;
      }
      assert t.kids[k..] == [];
      TrailDone(old(trail), trail, Requests(t.kids, held));
      MidwayDone(nodes, first, t, gone);
      MidwayElsewhere(nodes, first, t, [], gone);
      ok := true;
    }

    /** One round of the loop. */
    method DeleteEntry(ino: nat, entry: Entry, ghost t: Tree, ghost k: nat, ghost first: Nodes, ghost gone: set<nat>)
      returns (ok: bool)
      requires t.Branch? && t.inum == ino && Apart(t) && k < |t.kids|
      requires entry == Entry(t.kids[k].name, t.kids[k].tree.inum)
      requires Midway(nodes, first, t, t.kids[k..], gone) && held !! Inums(t) - {ino}
      modifies this
      ensures held == old(held) && Trailed(old(trail), trail, RequestOf(t.kids[k].tree, held))
      ensures ok ==> trail == old(trail) + RequestOf(t.kids[k].tree, held)
      ensures ok ==> Midway(nodes, first, t, t.kids[k + 1..], gone + Inums(t.kids[k].tree))
      ensures nodes - Inums(t) == first - Inums(t)
      ensures old(faults) == [] ==> ok && faults == []
      decreases t, 0
    {
      ghost var left, kid := t.kids[k..], t.kids[k].tree;
      assert left[0] == t.kids[k] && left[1..] == t.kids[k + 1..];
      MidwayNext(nodes, first, t, left, gone);
      MidwayStep(nodes, first, t, left, gone);
      MidwayElsewhere(nodes, first, t, left, gone);
      Acquire(entry.inum);
      ghost var asked := trail;
      ok := RecursiveDelete(entry.inum, kid);
      TrailIn(old(trail), asked, trail, [Request(entry.inum, old(held))], Below(kid, old(held) + {entry.inum}));
      Elsewhere(old(nodes), nodes, Inums(kid), Inums(t));
      if !ok {
        Release(entry.inum);
        return;
      }
      ok := Unlink(ino, entry.name);
      if ok {
        MidwayElsewhere(nodes, first, t, left[1..], gone + Inums(kid));
      }
      Release(entry.inum);
    }

    // ----- delete -----

    /** Two locks, the smaller number first. */
    method DualLock(a: nat, b: nat)
      requires a !in held && b !in held
      modifies `held, `trail
      ensures held == old(held) + {a, b} && trail == old(trail) + Pair(a, b, old(held))
    {
      if a < b {
        Acquire(a);
        Acquire(b);
      } else if a > b {
        Acquire(b);
        Acquire(a);
      } else {
        Acquire(a);
      }
    }

    method DualUnlock(a: nat, b: nat)
      requires a in held && b in held
      modifies `held
      ensures held == old(held) - {a, b}
    {
      if a == b {
        Release(a);
      } else {
        Release(a);
        Release(b);
      }
    }

    /** PBDelete once the path has been resolved to ino in parent.  Every lock taken is given
        back on every way out.  `name` is the text behind the last slash of the path, so a path
        with a slash at its end deletes what is below ino and then reports failure. */
    method Delete(ino: nat, parent: nat, name: string, recursive: bool, ghost t: Tree) returns (ok: bool)
      requires t.inum == ino && Holds(nodes, t) && Apart(t) && held !! Inums(t) && parent !in held
      requires parent == ino || parent !in Inums(t)
      modifies this
      ensures held == old(held) && Trailed(old(trail), trail, DeleteRequests(t, parent, recursive, held))
      ensures ok ==> trail == old(trail) + DeleteRequests(t, parent, recursive, held)
      ensures ok && recursive ==> AfterUnlink(Emptied(old(nodes), t), parent, name) == Some(nodes)
      ensures ok && !recursive ==> (t.Leaf? || t.kids == []) && AfterUnlink(old(nodes), parent, name) == Some(nodes)
      ensures !ok ==> nodes - Inums(t) == old(nodes) - Inums(t)
      ensures old(faults) == [] ==>
                (ok <==> ((recursive || t.Leaf? || t.kids == [])
                          && LookupIn(if recursive then Emptied(old(nodes), t) else old(nodes), parent, name).Some?))
    {
      DualLock(ino, parent);
      ghost var asked := trail;
      TrailNone(asked, []);
      TrailIn(old(trail), asked, trail, Pair(ino, parent, old(held)), []);
      if recursive {
        ok := RecursiveDelete(ino, t);
        TrailIn(old(trail), asked, trail, Pair(ino, parent, old(held)), Below(t, old(held) + {ino, parent}));
        if !ok {
          DualUnlock(ino, parent);
          return;
        }
        EmptiedElsewhere(old(nodes), t);
      }
      if IsDirIn(nodes, ino) {
        var dir := ReadDir(ino);
        if dir.None? {
          DualUnlock(ino, parent);
          return false;
        }
        DirSize(old(nodes), t);
        if |dir.value| != 0 {
          DualUnlock(ino, parent);
          return false;
        }
      }
      ok := Unlink(parent, name);
      DualUnlock(ino, parent);
    }
  }

  // ----- trails -----

  /** Of `all`, some at the front have been asked for since the trail was `first`. */
  ghost predicate Trailed(first: seq<Request>, last: seq<Request>, all: seq<Request>) {
    first <= last <= first + all
  }

  /** All of `all` but `left` has been asked for. */
  ghost predicate OnTrail(first: seq<Request>, now: seq<Request>, left: seq<Request>, all: seq<Request>) {
    first <= now && now + left == first + all
  }

  /** What one round asks for. */
  function RequestOf(kid: Tree, holding: set<nat>): seq<Request> {
    [Request(kid.inum, holding)] + Below(kid, holding + {kid.inum})
  }

  lemma RequestsNext(kids: seq<Kid>, k: nat, holding: set<nat>)
    requires k < |kids|
    ensures Requests(kids[k..], holding) == RequestOf(kids[k].tree, holding) + Requests(kids[k + 1..], holding)
  {
    assert kids[k..][0] == kids[k] && kids[k..][1..] == kids[k + 1..];
  }

  lemma TrailNone(first: seq<Request>, all: seq<Request>)
    ensures Trailed(first, first, all) && first == first + []
  {
  }

  lemma TrailDone(first: seq<Request>, last: seq<Request>, all: seq<Request>)
    requires OnTrail(first, last, [], all)
    ensures last == first + all && Trailed(first, last, all)
  {
    assert last + [] == last;
  }

  lemma TrailIn(first: seq<Request>, asked: seq<Request>, last: seq<Request>, r: seq<Request>, below: seq<Request>)
    requires asked == first + r && Trailed(asked, last, below)
    ensures Trailed(first, last, r + below)
    ensures last == asked + below ==> last == first + (r + below)
  {
    assert asked + below == first + (r + below);
  }

  lemma TrailOn(first: seq<Request>, before: seq<Request>, now: seq<Request>, round: seq<Request>,
                rest: seq<Request>, all: seq<Request>)
    requires OnTrail(first, before, round + rest, all) && now == before + round
    ensures OnTrail(first, now, rest, all)
  {
    assert before + (round + rest) == now + rest;
  }

  lemma TrailCut(first: seq<Request>, before: seq<Request>, last: seq<Request>, round: seq<Request>,
                 rest: seq<Request>, all: seq<Request>)
    requires OnTrail(first, before, round + rest, all) && Trailed(before, last, round)
    ensures Trailed(first, last, all)
  {
    assert before + round + rest == before + (round + rest);
    assert last <= before + round <= before + round + rest;
  }

  lemma EmptiedElsewhere(nodes: Nodes, t: Tree)
    ensures Emptied(nodes, t) - Inums(t) == nodes - Inums(t)
  {
    assert (Emptied(nodes, t) - Inums(t)).Keys == (nodes - Inums(t)).Keys;
  }

  lemma DirSize(nodes: Nodes, t: Tree)
    requires Holds(nodes, t)
    ensures t.Branch? ==> |Entries(Scan(nodes[t.inum].content))| == |t.kids|
    ensures |Entries(Scan(""))| == 0
  {
    if t.Branch? { CodecRoundTrip(EntriesOf(t.kids)); }
  }
}
