/** The block store refines a plain map from inode numbers to files, one operation at a time and
    over every run. */
module StoreRefinement {
  import opened Options
  import opened DiskLayout
  import opened InodeCodec
  import opened FileView
  import opened FilePlan
  import opened FileWrite
  import opened FileDone
  import opened FileAppend
  import opened FileRemove
  import opened InodeLayer

  datatype File = File(kind: nat, bytes: seq<Byte>)

  type Store = map<nat, File>

  ghost function FileAt(img: Image, i: nat): File
    requires Sound(img) && Live(img, i)
  {
    File(Ino(img, i).kind, Contents(img, Ino(img, i)))
  }

  /** What the image stands for. */
  ghost function View(img: Image): Store
    requires Sound(img)
  {
    map i: nat | i < INODE_NUM && Live(img, i) :: FileAt(img, i)
  }

  // ----- the plain store -----

  /** An operation with its arguments.  The number of a created inode and the id of an appended
      block are the ones the code picks; `garbage` and `buf` are the memory it leaves unset. */
  datatype Op =
    | Create(i: nat, kind: nat, now: Word, garbage: seq<Word>)
    | Write(i: nat, mem: seq<Byte>, size: Word)
    | Append(i: nat, bid: Word)
    | Complete(i: nat, size: Word, now: Word)
    | Remove(i: nat, buf: Block)
    | Read(i: nat, now: Word)

  /** What each operation does to the plain store.  A create that finds no inode answers 0; one with
      kind 0 makes an inode that is still free.
      Append and complete may uncover bytes that were behind the end of the file: those are not
      fixed here. */
  ghost predicate Allows(v: Store, v': Store, op: Op) {
    match op
    case Create(i, kind, _, _) =>
      if i == 0 || kind % 65536 == 0 then v' == v else i !in v && v' == v[i := File(kind % 65536, [])]
    case Write(i, mem, size) =>
      if i !in v || Count(size) > MAXFILE then v' == v
      else size <= |mem| && v' == v[i := File(v[i].kind, ZeroPrefix(mem, Lost(Count(size)))[..size])]
    case Append(i, _) =>
      if i !in v then v' == v
      else
        && i in v' && v' == v[i := v'[i]] && v'[i].kind == v[i].kind
        && |v'[i].bytes| == |v[i].bytes| + BLOCK_SIZE && v[i].bytes <= v'[i].bytes
    case Complete(i, size, _) =>
      && i in v && i in v' && v' == v[i := v'[i]] && v'[i].kind == v[i].kind && |v'[i].bytes| == size
      && (size <= |v[i].bytes| ==> v'[i].bytes == v[i].bytes[..size])
      && (size > |v[i].bytes| ==> v[i].bytes <= v'[i].bytes)
    case Remove(i, _) => v' == v - {i}
    case Read(i, _) => v' == v
  }

  // ----- views of related images -----

  lemma ViewOther(img: Image, img': Image, i: nat, j: nat)
    requires Sound(img) && Sound(img') && Untouched(img, img', i) && j != i
    ensures j in View(img') <==> j in View(img)
    ensures j in View(img) ==> View(img')[j] == View(img)[j]
  {
    if j < INODE_NUM && Live(img, j) {
      OtherKept(img, img', i, j);
    }
  }

  ghost predicate SameAt(v: Store, v': Store, j: nat) {
    (j in v' <==> j in v) && (j in v ==> v'[j] == v[j])
  }

  lemma MapSet(v: Store, v': Store, i: nat)
    requires forall j: nat :: j != i ==> SameAt(v, v', j)
    ensures i in v' ==> v' == v[i := v'[i]]
    ensures i !in v' ==> v' == v - {i}
  {
    assert i in v' ==> forall j :: j in v' <==> j in v[i := v'[i]] by {
      forall j: nat | j != i ensures j in v' <==> j in v { assert SameAt(v, v', j); }
    }
    assert i !in v' ==> forall j :: j in v' <==> j in v - {i} by {
      forall j: nat | j != i ensures j in v' <==> j in v { assert SameAt(v, v', j); }
    }
    forall j: nat | j != i && j in v ensures v'[j] == v[j] { assert SameAt(v, v', j); }
  }

  lemma ViewSet(img: Image, img': Image, i: nat)
    requires Sound(img) && Sound(img') && Untouched(img, img', i) && Live(img', i)
    ensures View(img') == View(img)[i := FileAt(img', i)]
  {
    forall j: nat | j != i ensures SameAt(View(img), View(img'), j) { ViewOther(img, img', i, j); }
    MapSet(View(img), View(img'), i);
  }

  lemma ViewDrop(img: Image, img': Image, i: nat)
    requires Sound(img) && Sound(img') && Untouched(img, img', i) && !Live(img', i)
    ensures View(img') == View(img) - {i}
  {
    forall j: nat | j != i ensures SameAt(View(img), View(img'), j) { ViewOther(img, img', i, j); }
    MapSet(View(img), View(img'), i);
  }

  // ----- contents as the list of blocks grows and shrinks -----

  lemma DataPrefix(img: Image, img': Image, a: seq<Word>, b: seq<Word>)
    requires |a| <= |b| && a == b[..|a|]
    requires forall k :: 0 <= k < |a| ==> a[k] < |img|
    requires forall k :: 0 <= k < |b| ==> b[k] < |img'|
    requires forall k :: 0 <= k < |a| ==> img'[a[k]] == img[a[k]]
    ensures Data(img', b)[..|a| * BLOCK_SIZE] == Data(img, a)
  {
    forall p | 0 <= p < |a| * BLOCK_SIZE ensures Data(img', b)[p] == Data(img, a)[p] {
      assert 0 <= p / BLOCK_SIZE < |a|;
      assert b[p / BLOCK_SIZE] == a[p / BLOCK_SIZE];
    }
  }

  lemma AppendData(img: Image, img': Image, ids: seq<Word>, ids': seq<Word>, bid: Word)
    requires |img| == BLOCK_NUM && |img'| == BLOCK_NUM && ids' == ids + [bid]
    requires forall k :: 0 <= k < |ids'| ==> DataBlock(ids'[k])
    requires forall b :: b in ids' && DataBlock(b) ==> img'[b] == img[b]
    ensures forall k :: 0 <= k < |ids| ==> ids[k] < |img|
    ensures forall k :: 0 <= k < |ids'| ==> ids'[k] < |img'|
    ensures Data(img', ids')[..|ids| * BLOCK_SIZE] == Data(img, ids)
  {
    assert forall k :: 0 <= k < |ids| ==> ids[k] == ids'[k];
    assert ids == ids'[..|ids|];
    DataPrefix(img, img', ids, ids');
  }

  lemma AppendKeeps(img: Image, img': Image, i: nat, bid: Word)
    requires Appended(img, img', i, bid)
    ensures Contents(img, Ino(img, i)) <= Contents(img', Ino(img', i))
  {
    var ino, ino' := Ino(img, i), Ino(img', i);
    OwnedOnDisk(img', ino');
    var ids, ids' := Ids(img, ino), Ids(img', ino');
    AppendData(img, img', ids, ids', bid);
    PrefixCut(Data(img', ids'), Data(img, ids), ino.size, ino'.size);
  }

  lemma AppendView(img: Image, img': Image, i: nat, bid: Word)
    requires Appended(img, img', i, bid)
    ensures Allows(View(img), View(img'), Append(i, bid))
  {
    ViewSet(img, img', i);
    AppendKeeps(img, img', i, bid);
  }

  lemma WriteView(img: Image, img': Image, i: nat, mem: seq<Byte>, size: Word)
    requires |img| == BLOCK_NUM && Live(img, i) && Count(size) <= MAXFILE && size <= |mem|
    requires Written(img, img', i, ZeroPrefix(mem, Lost(Count(size)))[..size]) && Ino(img', i).kind == Ino(img, i).kind
    ensures Allows(View(img), View(img'), Write(i, mem, size))
  {
    ViewSet(img, img', i);
  }

  lemma ReadView(img: Image, img': Image, i: nat, ino: Inode)
    requires Sound(img) && Live(img, i) && Stored(img, img', i, ino)
    requires ino.kind == Ino(img, i).kind && ino.size == Ino(img, i).size && ino.blocks == Ino(img, i).blocks
    ensures Sound(img') && View(img') == View(img)
  {
    TouchSound(img, img', i, ino);
    ViewSet(img, img', i);
  }

  lemma PrefixCut(long: seq<Byte>, short: seq<Byte>, n: nat, m: nat)
    requires |short| <= |long| && long[..|short|] == short && n <= |short| && n <= m <= |long|
    ensures short[..n] <= long[..m]
  {
    assert short[..n] == long[..n];
  }

  lemma CompleteShorter(img: Image, img': Image, i: nat, size: Word, now: Word)
    requires Completed(img, img', i, size, now) && Sound(img') && Count(size) <= Count(Ino(img, i).size)
    ensures var bytes, bytes' := Contents(img, Ino(img, i)), Contents(img', Ino(img', i));
            && (size <= |bytes| ==> bytes' == bytes[..size])
            && (size > |bytes| ==> bytes <= bytes')
  {
    var ino, ino' := Ino(img, i), Ino(img', i);
    OwnedOnDisk(img, ino);
    OwnedOnDisk(img', ino');
    var ids, ids' := Ids(img, ino), Ids(img', ino');
    assert forall k :: 0 <= k < |ids'| ==> ids'[k] == ids[k];
    DataPrefix(img', img, ids', ids);
    CutWithin(Data(img, ids), Data(img', ids'), ino.size, size, Count(size));
  }

  lemma CompleteLonger(img: Image, img': Image, i: nat, size: Word, now: Word)
    requires Completed(img, img', i, size, now) && Sound(img') && Count(size) > Count(Ino(img, i).size)
    ensures Ino(img, i).size < size && Contents(img, Ino(img, i)) <= Contents(img', Ino(img', i))
  {
    var ino, ino' := Ino(img, i), Ino(img', i);
    OwnedOnDisk(img, ino);
    OwnedOnDisk(img', ino');
    var ids, ids' := Ids(img, ino), Ids(img', ino');
    DataPrefix(img, img', ids, ids');
    PrefixCut(Data(img', ids'), Data(img, ids), ino.size, size);
  }

  lemma CompleteView(img: Image, img': Image, i: nat, size: Word, now: Word)
    requires Completed(img, img', i, size, now) && Sound(img')
    ensures Allows(View(img), View(img'), Complete(i, size, now))
  {
    ViewSet(img, img', i);
    if Count(size) <= Count(Ino(img, i).size) {
      CompleteShorter(img, img', i, size, now);
    } else {
      CompleteLonger(img, img', i, size, now);
    }
  }

  lemma CutWithin(long: seq<Byte>, short: seq<Byte>, n: nat, m: nat, blocks: nat)
    requires |short| == blocks * BLOCK_SIZE <= |long| && long[..|short|] == short
    requires n <= |long| && m <= |short| && (n < m ==> n <= |short|)
    ensures m <= n ==> short[..m] == long[..n][..m]
    ensures m > n ==> long[..n] <= short[..m]
  {
    assert forall k :: 0 <= k < |short| ==> short[k] == long[k];
  }

  // ----- one operation on the disk -----

  /** What the code demands of the caller: buffers as long as the blocks it copies, no more indirect
      blocks than the inode has slots, and a file to complete. */
  ghost predicate Callable(img: Image, op: Op)
    requires Sound(img)
  {
    match op
    case Create(i, kind, _, garbage) => |garbage| == NDIRECT + 1
    case Write(i, mem, size) =>
      Count(size) * BLOCK_SIZE <= |mem| && (Live(img, i) && Count(size) <= MAXFILE ==> Count(size) <= 2 * NDIRECT + 1)
    case Complete(i, size, _) => Live(img, i)
    case _ => true
  }

  ghost function Leftovers(img: Image, i: nat, buf: Block): set<nat>
    requires |img| == BLOCK_NUM && Live(img, i) && Count(Ino(img, i).size) < MAXFILE
  {
    Stale(Ino(img, i), TableRead(img, Ino(img, i), buf))
  }

  /** When the operation does no harm: there is room, a file that outgrows its slots has a spare
      block in the table's slot, a size that uncovers ids uncovers only blocks of nobody's, and the
      ids left over in a removed file's slots are harmless to the others. */
  ghost predicate Fits(img: Image, op: Op)
    requires Sound(img)
  {
    match op
    case Write(i, mem, size) =>
      Live(img, i) && Count(size) <= MAXFILE ==> Room(img, i, Count(size)) && Growable(img, i, Count(size))
    case Append(i, _) => Live(img, i) ==> |Unused(img)| >= AppendTakes(Count(Ino(img, i).size))
    case Complete(i, size, _) => Live(img, i) ==> Extendable(img, i, size)
    case Remove(i, buf) =>
      Live(img, i) && Count(Ino(img, i).size) < MAXFILE ==> Harmless(img, i, Leftovers(img, i, buf))
    case _ => true
  }

  /** The step from image to image, as the methods of the inode layer promise it. */
  ghost predicate Does(img: Image, img': Image, op: Op) {
    && |img| == BLOCK_NUM
    && match op
       case Create(i, kind, now, garbage) =>
         if i == 0 then img' == img
         else
           && i < INODE_NUM && !Live(img, i) && |garbage| == NDIRECT + 1
           && Stored(img, img', i, Inode(kind % 65536, 0, now, now, now, garbage))
       case Write(i, mem, size) =>
         if Live(img, i) && Count(size) <= MAXFILE then WroteFile(img, img', i, mem, size) else img' == img
       case Append(i, bid) =>
         if Live(img, i) then AppendedBlock(img, img', i, bid) else img' == img
       case Complete(i, size, now) =>
         Completed(img, img', i, size, now)
       case Remove(i, buf) =>
         if Live(img, i) then RemovedFile(img, img', i, buf) else img' == img
       case Read(i, now) =>
         if Live(img, i) then Stored(img, img', i, Ino(img, i).(atime := now)) else img' == img
  }

  /** The disk is sound and what belongs to the other files is as it was. */
  ghost predicate Clean(img: Image, img': Image, op: Op) {
    |img| == BLOCK_NUM && Sound(img') && Untouched(img, img', op.i)
  }

  lemma CreateStep(img: Image, img': Image, i: nat, ino: Inode)
    requires Sound(img) && i < INODE_NUM && !Live(img, i) && Stored(img, img', i, ino) && ino.size == 0
    ensures Sound(img') && Untouched(img, img', i)
    ensures View(img') == if ino.kind == 0 then View(img) else View(img)[i := File(ino.kind, [])]
  {
    SameBitmap(img, img');
    EffectSound(img, img', i, {}, {}, {});
    if ino.kind == 0 {
      ViewDrop(img, img', i);
    } else {
      ViewSet(img, img', i);
    }
  }

  lemma WriteStep(img: Image, img': Image, i: nat, mem: seq<Byte>, size: Word)
    requires Sound(img) && Does(img, img', Write(i, mem, size)) && Sound(img')
    ensures Allows(View(img), View(img'), Write(i, mem, size))
  {
    if Live(img, i) && Count(size) <= MAXFILE { WriteView(img, img', i, mem, size); }
  }

  lemma AppendStep(img: Image, img': Image, i: nat, bid: Word)
    requires Sound(img) && Does(img, img', Append(i, bid)) && Sound(img')
    ensures Allows(View(img), View(img'), Append(i, bid))
  {
    if Live(img, i) { AppendView(img, img', i, bid); }
  }

  lemma RemoveStep(img: Image, img': Image, i: nat, buf: Block)
    requires Sound(img) && Does(img, img', Remove(i, buf)) && Clean(img, img', Remove(i, buf))
    ensures View(img') == View(img) - {i}
  {
    if Live(img, i) { ViewDrop(img, img', i); }
  }

  lemma ReadStep(img: Image, img': Image, i: nat, now: Word)
    requires Sound(img) && Live(img, i) && Does(img, img', Read(i, now))
    ensures Sound(img') && Untouched(img, img', i)
  {
    TouchSound(img, img', i, Ino(img, i).(atime := now));
  }

  /** Every operation on a sound disk leaves it sound, and what belongs to the other files as it was,
      if and only if it fits. */
  lemma StepCleanIff(img: Image, img': Image, op: Op)
    requires Sound(img) && Callable(img, op) && Does(img, img', op)
    ensures Clean(img, img', op) <==> Fits(img, op)
  {
    UntouchedSelf(img, op.i);
    match op
    case Create(i, kind, now, garbage) =>
      if i != 0 { CreateStep(img, img', i, Inode(kind % 65536, 0, now, now, now, garbage)); }
    case Write(_, _, _) =>
    case Append(_, _) =>
    case Complete(_, _, _) =>
    case Remove(_, _) =>
    case Read(i, now) =>
      if Live(img, i) { ReadStep(img, img', i, now); }
  }

  /** And if it does, the step is one the plain store allows. */
  lemma StepAllowed(img: Image, img': Image, op: Op)
    requires Sound(img) && Callable(img, op) && Does(img, img', op) && Clean(img, img', op)
    ensures Allows(View(img), View(img'), op)
  {
    match op
    case Create(i, kind, now, garbage) =>
      if i != 0 { CreateStep(img, img', i, Inode(kind % 65536, 0, now, now, now, garbage)); }
    case Write(i, mem, size) => WriteStep(img, img', i, mem, size);
    case Append(i, bid) => AppendStep(img, img', i, bid);
    case Complete(i, size, now) => CompleteView(img, img', i, size, now);
    case Remove(i, buf) => RemoveStep(img, img', i, buf);
    case Read(i, now) =>
      if Live(img, i) { ReadView(img, img', i, Ino(img, i).(atime := now)); }
  }

  /** The same operation, but for the number and the id that the code picks. */
  predicate SameCall(op: Op, done: Op) {
    match op
    case Create(_, kind, now, garbage) => done.Create? && done == Create(done.i, kind, now, garbage)
    case Append(i, _) => done.Append? && done == Append(i, done.bid)
    case _ => done == op
  }

  /** Runs one operation.  `done` has the inode number and the block id that the code picked. */
  method Perform(im: InodeManager, op: Op, now: Word) returns (done: Op, bytes: Option<seq<Byte>>)
    requires im.Valid() && Sound(im.bm.img) && Callable(im.bm.img, op)
    modifies im.bm`img, im.bm.blocks
    ensures im.Valid() && Callable(old(im.bm.img), done) && Does(old(im.bm.img), im.bm.img, done)
    ensures Clean(old(im.bm.img), im.bm.img, done) <==> Fits(old(im.bm.img), done)
    ensures Fits(old(im.bm.img), done) ==> Allows(View(old(im.bm.img)), View(im.bm.img), done)
    ensures SameCall(op, done)
    ensures done.Create? && done.i == 0 ==> forall i: nat :: 1 <= i < INODE_NUM ==> Live(old(im.bm.img), i)
    ensures op.Read? ==> Sound(im.bm.img) &&
                         bytes == if op.i in View(im.bm.img) then Some(View(im.bm.img)[op.i].bytes) else None
  {
    ghost var img := im.bm.img;
    done, bytes := Issue(im, op, now);
    StepCleanIff(img, im.bm.img, done);
    if Fits(img, done) { StepAllowed(img, im.bm.img, done); }
  }

  method Issue(im: InodeManager, op: Op, now: Word) returns (done: Op, bytes: Option<seq<Byte>>)
    requires im.Valid() && Sound(im.bm.img) && Callable(im.bm.img, op)
    modifies im.bm`img, im.bm.blocks
    ensures im.Valid() && Callable(old(im.bm.img), done) && Does(old(im.bm.img), im.bm.img, done)
    ensures SameCall(op, done)
    ensures done.Create? && done.i == 0 ==> forall i: nat :: 1 <= i < INODE_NUM ==> Live(old(im.bm.img), i)
    ensures op.Read? ==> bytes == if op.i in View(old(im.bm.img)) then Some(View(old(im.bm.img))[op.i].bytes) else None
  {
    done, bytes := op, None;
    match op
    case Create(_, kind, when, garbage) =>
      var i := im.AllocInode(kind, when, garbage);
      done := Create(i, kind, when, garbage);
    case Write(i, mem, size) =>
      im.WriteFile(i, mem, size, now);
    case Append(i, _) =>
      var bid := im.AppendBlock(i);
      if bid.Some? {
        done := Append(i, bid.value);
      }
    case Complete(i, size, when) =>
      im.Complete(i, size, when);
    case Remove(i, buf) =>
      im.RemoveFile(i, buf);
    case Read(i, when) =>
      bytes := im.ReadFile(i, when);
  }

  /** write_file, then read_file.  What is read is what was written if and only if the blocks that
      the write loses were zero in the first place. */
  method WriteThenRead(im: InodeManager, i: nat, mem: seq<Byte>, size: Word, now: Word, later: Word)
    returns (bytes: Option<seq<Byte>>)
    requires im.Valid() && Sound(im.bm.img) && Live(im.bm.img, i)
    requires Count(size) <= 2 * NDIRECT + 1 && Count(size) * BLOCK_SIZE <= |mem|
    requires Room(im.bm.img, i, Count(size)) && Growable(im.bm.img, i, Count(size))
    modifies im.bm`img, im.bm.blocks
    ensures im.Valid() && Sound(im.bm.img) && bytes.Some? && |bytes.value| == size <= |mem|
    ensures bytes.value == mem[..size]
       <==> forall p :: 0 <= p < size && p < Lost(Count(size)) * BLOCK_SIZE ==> mem[p] == 0
  {
    im.WriteFile(i, mem, size, now);
    bytes := im.ReadFile(i, later);
    RoundTripIff(mem, size);
  }

  // ----- runs -----

  /** A run on the disk: while the disk is sound, each step is an operation of the inode layer. */
  ghost predicate DiskRun(imgs: seq<Image>, ops: seq<Op>) {
    && |imgs| == |ops| + 1
    && forall k :: 0 <= k < |ops| && Sound(imgs[k]) ==> Callable(imgs[k], ops[k]) && Does(imgs[k], imgs[k + 1], ops[k])
  }

  /** Each step fits when its turn comes. */
  ghost predicate AllFit(imgs: seq<Image>, ops: seq<Op>) {
    forall k :: 0 <= k < |ops| && k < |imgs| && Sound(imgs[k]) ==> Fits(imgs[k], ops[k])
  }

  ghost predicate AllSound(imgs: seq<Image>) {
    forall k :: 0 <= k < |imgs| ==> Sound(imgs[k])
  }

  ghost predicate AllClean(imgs: seq<Image>, ops: seq<Op>) {
    forall k :: 0 <= k < |ops| && k + 1 < |imgs| ==> Clean(imgs[k], imgs[k + 1], ops[k])
  }

  lemma {:induction false} SoundUpTo(imgs: seq<Image>, ops: seq<Op>, k: nat)
    requires DiskRun(imgs, ops) && Sound(imgs[0]) && AllFit(imgs, ops) && k <= |ops|
    ensures Sound(imgs[k])
  {
    if k > 0 {
      SoundUpTo(imgs, ops, k - 1);
      StepCleanIff(imgs[k - 1], imgs[k], ops[k - 1]);
    }
  }

  /** Block ownership over runs: from a sound disk, every step leaves the disk sound and the other
      files' blocks and inodes as they were, if and only if each step fits when its turn comes. */
  lemma RunCleanIff(imgs: seq<Image>, ops: seq<Op>)
    requires DiskRun(imgs, ops) && Sound(imgs[0])
    ensures AllClean(imgs, ops) <==> AllFit(imgs, ops)
    ensures AllFit(imgs, ops) ==> AllSound(imgs)
  {
    if AllFit(imgs, ops) {
      forall k | 0 <= k < |imgs| ensures Sound(imgs[k]) { SoundUpTo(imgs, ops, k); }
      forall k | 0 <= k < |ops| ensures Clean(imgs[k], imgs[k + 1], ops[k]) {
        StepCleanIff(imgs[k], imgs[k + 1], ops[k]);
      }
    }
    if AllClean(imgs, ops) {
      forall k | 0 <= k < |ops| && Sound(imgs[k]) ensures Fits(imgs[k], ops[k]) {
        StepCleanIff(imgs[k], imgs[k + 1], ops[k]);
      }
    }
  }

  /** A run of the store: each step is one the plain store allows. */
  ghost predicate Run(vs: seq<Store>, ops: seq<Op>) {
    |vs| == |ops| + 1 && forall k :: 0 <= k < |ops| ==> Allows(vs[k], vs[k + 1], ops[k])
  }

  ghost function Views(imgs: seq<Image>): seq<Store>
    requires AllSound(imgs)
  {
    seq(|imgs|, k requires 0 <= k < |imgs| => View(imgs[k]))
  }

  /** Every run on the disk whose steps fit is a run of the plain store. */
  lemma RunRefines(imgs: seq<Image>, ops: seq<Op>)
    requires DiskRun(imgs, ops) && Sound(imgs[0]) && AllFit(imgs, ops)
    ensures AllSound(imgs) && Run(Views(imgs), ops)
    ensures Formatted(imgs[0]) ==> Views(imgs)[0] == map[1 := File(T_DIR, [])]
  {
    RunCleanIff(imgs, ops);
    forall k | 0 <= k < |ops| ensures Allows(Views(imgs)[k], Views(imgs)[k + 1], ops[k]) {
      StepAllowed(imgs[k], imgs[k + 1], ops[k]);
    }
  }

  predicate Leaves(op: Op, i: nat) {
    op.Read? || op.i != i
  }

  lemma {:induction false} PlainUnnamed(vs: seq<Store>, ops: seq<Op>, i: nat)
    requires Run(vs, ops) && forall k :: 0 <= k < |ops| ==> Leaves(ops[k], i)
    ensures SameAt(vs[0], vs[|ops|], i)
  {
    if ops != [] {
      var n := |ops| - 1;
      PlainUnnamed(vs[..n + 1], ops[..n], i);
      assert Allows(vs[n], vs[n + 1], ops[n]) && Leaves(ops[n], i);
    }
  }

  /** A file that no operation of the run names is the same at the end: on the disk, it is live if
      it was, and has the same kind and bytes. */
  lemma UnnamedKept(imgs: seq<Image>, ops: seq<Op>, i: nat)
    requires DiskRun(imgs, ops) && Sound(imgs[0]) && AllFit(imgs, ops) && i < INODE_NUM
    requires forall k :: 0 <= k < |ops| ==> Leaves(ops[k], i)
    ensures Sound(imgs[|ops|]) && (Live(imgs[|ops|], i) <==> Live(imgs[0], i))
    ensures Live(imgs[0], i) ==> FileAt(imgs[|ops|], i) == FileAt(imgs[0], i)
  {
    RunRefines(imgs, ops);
    PlainUnnamed(Views(imgs), ops, i);
  }

  lemma RunRest(imgs: seq<Image>, ops: seq<Op>, m: nat)
    requires DiskRun(imgs, ops) && AllFit(imgs, ops) && m <= |ops|
    ensures DiskRun(imgs[m..], ops[m..]) && AllFit(imgs[m..], ops[m..])
  {
    var imgs', ops' := imgs[m..], ops[m..];
    forall k | 0 <= k < |ops'| && Sound(imgs'[k])
      ensures Callable(imgs'[k], ops'[k]) && Does(imgs'[k], imgs'[k + 1], ops'[k]) && Fits(imgs'[k], ops'[k])
    {
      assert ops'[k] == ops[m + k] && imgs'[k] == imgs[m + k] && imgs'[k + 1] == imgs[m + (k + 1)];
    }
  }

  lemma WriteHolds(img: Image, img': Image, i: nat, mem: seq<Byte>, size: Word)
    requires Sound(img) && Does(img, img', Write(i, mem, size)) && Clean(img, img', Write(i, mem, size))
    requires Live(img, i) && Count(size) <= MAXFILE
    ensures Live(img', i) && size <= |mem| && FileAt(img', i).bytes == ZeroPrefix(mem, Lost(Count(size)))[..size]
  {
  }

  /** What was last written to a file is what its blocks hold at the end of the run. */
  lemma LastWriteHolds(imgs: seq<Image>, ops: seq<Op>, w: nat)
    requires DiskRun(imgs, ops) && Sound(imgs[0]) && AllFit(imgs, ops)
    requires w < |ops| && ops[w].Write? && Count(ops[w].size) <= MAXFILE && |imgs[w]| == BLOCK_NUM
    requires Live(imgs[w], ops[w].i) && forall k :: w < k < |ops| ==> Leaves(ops[k], ops[w].i)
    ensures var i, last := ops[w].i, imgs[|ops|];
            && Sound(last) && Live(last, i) && ops[w].size <= |ops[w].mem|
            && Contents(last, Ino(last, i)) == ZeroPrefix(ops[w].mem, Lost(Count(ops[w].size)))[..ops[w].size]
  {
    RunCleanIff(imgs, ops);
    WriteHolds(imgs[w], imgs[w + 1], ops[w].i, ops[w].mem, ops[w].size);
    RunRest(imgs, ops, w + 1);
    var ops' := ops[w + 1..];
    assert forall k :: 0 <= k < |ops'| ==> ops'[k] == ops[w + 1 + k];
    UnnamedKept(imgs[w + 1..], ops', ops[w].i);
  }

  // ----- a list of operations on one disk -----

  /** Whatever numbers and ids the code picks, each operation can be called and fits when its turn
      comes. */
  ghost predicate Safe(img: Image, ops: seq<Op>)
    decreases |ops|
  {
    ops != [] ==>
      && Sound(img) && Callable(img, ops[0])
      && forall img': Image, done: Op :: Does(img, img', done) && SameCall(ops[0], done) ==>
           Fits(img, done) && Safe(img', ops[1..])
  }

  ghost predicate SameCalls(ops: seq<Op>, done: seq<Op>) {
    |done| <= |ops| && forall k :: 0 <= k < |done| ==> SameCall(ops[k], done[k])
  }

  /** Part of a list has been run, from image `first` to image `now`. */
  ghost predicate RunSoFar(first: Image, now: Image, ops: seq<Op>, done: seq<Op>, imgs: seq<Image>) {
    && SameCalls(ops, done) && DiskRun(imgs, done) && AllFit(imgs, done)
    && imgs[0] == first && imgs[|done|] == now && Sound(now) && Safe(now, ops[|done|..])
  }

  lemma RunMore(imgs: seq<Image>, ops: seq<Op>, img': Image, op: Op)
    requires DiskRun(imgs, ops) && AllFit(imgs, ops) && Sound(imgs[|ops|])
    requires Callable(imgs[|ops|], op) && Does(imgs[|ops|], img', op) && Fits(imgs[|ops|], op)
    ensures DiskRun(imgs + [img'], ops + [op]) && AllFit(imgs + [img'], ops + [op])
  {
    var imgs', ops', n := imgs + [img'], ops + [op], |ops|;
    forall k | 0 <= k < n + 1 && Sound(imgs'[k])
      ensures Callable(imgs'[k], ops'[k]) && Does(imgs'[k], imgs'[k + 1], ops'[k]) && Fits(imgs'[k], ops'[k])
    {
      assert imgs'[k] == imgs[k];
      if k < n { assert ops'[k] == ops[k] && imgs'[k + 1] == imgs[k + 1]; }
    }
  }

  lemma OneMoreRun(first: Image, img: Image, img': Image, ops: seq<Op>, done: seq<Op>, imgs: seq<Image>, op: Op)
    requires RunSoFar(first, img, ops, done, imgs) && |done| < |ops|
    requires SameCall(ops[|done|], op) && Callable(img, op) && Does(img, img', op) && Fits(img, op) && Sound(img')
    ensures RunSoFar(first, img', ops, done + [op], imgs + [img'])
  {
    var n := |done|;
    RunMore(imgs, done, img', op);
    assert ops[n..][0] == ops[n] && ops[n..][1..] == ops[n + 1..];
    assert Safe(img', ops[n + 1..]);
  }

  /** Runs a list of operations on one disk: what happens is a run of the disk, and a run of the
      plain store. */
  method PerformAll(im: InodeManager, ops: seq<Op>, now: Word) returns (done: seq<Op>, ghost imgs: seq<Image>)
    requires im.Valid() && Sound(im.bm.img) && Safe(im.bm.img, ops)
    modifies im.bm`img, im.bm.blocks
    ensures im.Valid() && |done| == |ops| && SameCalls(ops, done)
    ensures DiskRun(imgs, done) && AllFit(imgs, done) && imgs[0] == old(im.bm.img) && imgs[|ops|] == im.bm.img
    ensures AllSound(imgs) && Run(Views(imgs), done)
  {
    done, imgs := [], [im.bm.img];
    assert ops[0..] == ops;
    while |done| < |ops|
      invariant im.Valid() && |done| <= |ops| && RunSoFar(old(im.bm.img), im.bm.img, ops, done, imgs)
    {
      ghost var img := im.bm.img;
      var n := |done|;
      assert ops[n..][0] == ops[n];
      var op, _ := Perform(im, ops[n], now);
      OneMoreRun(old(im.bm.img), img, im.bm.img, ops, done, imgs, op);
      done, imgs := done + [op], imgs + [im.bm.img];
    }
    RunRefines(imgs, done);
  }
}
