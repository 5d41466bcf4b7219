/** What the write loops leave on the disk, and what a later read makes of it. */
module FileWrite {
  import opened DiskLayout
  import opened FileView
  import opened FilePlan

  function Chunk(mem: seq<Byte>, off: nat): Block
    requires off + BLOCK_SIZE <= |mem|
  {
    mem[off..off + BLOCK_SIZE]
  }

  /** Slots 0 to n - 1 name blocks that hold consecutive chunks of mem; no other block changed. */
  ghost predicate WroteRun(img: Image, img': Image, slots: seq<Word>, n: nat, mem: seq<Byte>) {
    && |img| == BLOCK_NUM && |img'| == BLOCK_NUM && n <= |slots| && n * BLOCK_SIZE <= |mem|
    && (forall k :: 0 <= k < n ==> slots[k] < BLOCK_NUM && img'[slots[k]] == Chunk(mem, k * BLOCK_SIZE))
    && forall b: nat :: b < BLOCK_NUM && b !in Elems(slots[..n]) ==> img'[b] == img[b]
  }

  lemma WroteRunMore(img: Image, img1: Image, img2: Image, slots: seq<Word>, i: nat, mem: seq<Byte>)
    requires WroteRun(img, img1, slots, i, mem)
    requires i < |slots| && (i + 1) * BLOCK_SIZE <= |mem| && slots[i] < BLOCK_NUM
    requires forall k :: 0 <= k < i ==> slots[k] != slots[i]
    requires img2 == img1[slots[i] := Chunk(mem, i * BLOCK_SIZE)]
    ensures WroteRun(img, img2, slots, i + 1, mem)
  {
    assert slots[..i + 1] == slots[..i] + [slots[i]];
    ElemsSnoc(slots[..i], slots[i]);
  }

  /** The loop over the table as the source has it: each round zeroes direct block k before it
      writes indirect block k. */
  ghost predicate WroteTable(img: Image, img': Image, direct: seq<Word>, table: seq<Word>, n: nat, mem: seq<Byte>) {
    && |img| == BLOCK_NUM && |img'| == BLOCK_NUM && n <= |direct| && n <= |table| && (NDIRECT + n) * BLOCK_SIZE <= |mem|
    && (forall k :: 0 <= k < n ==> table[k] < BLOCK_NUM && img'[table[k]] == Chunk(mem, (NDIRECT + k) * BLOCK_SIZE))
    && (forall k :: 0 <= k < n ==> direct[k] < BLOCK_NUM && img'[direct[k]] == Zero())
    && forall b: nat :: b < BLOCK_NUM && b !in Elems(direct[..n]) && b !in Elems(table[..n]) ==> img'[b] == img[b]
  }

  lemma WroteTableMore(img: Image, img1: Image, img2: Image, direct: seq<Word>, table: seq<Word>, i: nat,
                       mem: seq<Byte>)
    requires WroteTable(img, img1, direct, table, i, mem)
    requires i < |direct| && i < |table| && (NDIRECT + i + 1) * BLOCK_SIZE <= |mem|
    requires direct[i] < BLOCK_NUM && table[i] < BLOCK_NUM
    requires forall k :: 0 <= k < i ==> table[k] != direct[i] && direct[k] != direct[i] && table[k] != table[i]
    requires forall k :: 0 <= k <= i ==> direct[k] != table[i]
    requires img2 == img1[direct[i] := Zero()][table[i] := Chunk(mem, (NDIRECT + i) * BLOCK_SIZE)]
    ensures WroteTable(img, img2, direct, table, i + 1, mem)
  {
    FrontGrows(direct, i);
    FrontGrows(table, i);
    forall k | 0 <= k < i + 1
      ensures img2[table[k]] == Chunk(mem, (NDIRECT + k) * BLOCK_SIZE) && img2[direct[k]] == Zero()
    {
      if k < i { assert img2[table[k]] == img1[table[k]] && img2[direct[k]] == img1[direct[k]]; }
    }
  }

  lemma FrontGrows(s: seq<Word>, i: nat)
    requires i < |s|
    ensures Elems(s[..i + 1]) == Elems(s[..i]) + {s[i] as nat}
  {
    assert s[..i + 1] == s[..i] + [s[i]];
    ElemsSnoc(s[..i], s[i]);
  }

  /** Blocks that hold consecutive chunks read back as the memory they came from. */
  lemma DataIsMem(img: Image, ids: seq<Word>, mem: seq<Byte>)
    requires |ids| * BLOCK_SIZE <= |mem|
    requires forall k :: 0 <= k < |ids| ==> ids[k] < |img| && img[ids[k]] == Chunk(mem, k * BLOCK_SIZE)
    ensures Data(img, ids) == mem[..|ids| * BLOCK_SIZE]
  {
    forall p | 0 <= p < |ids| * BLOCK_SIZE ensures Data(img, ids)[p] == mem[p] {
      var k := p / BLOCK_SIZE;
      assert img[ids[k]][p % BLOCK_SIZE] == mem[k * BLOCK_SIZE + p % BLOCK_SIZE];
    }
  }

  /** mem with its first z blocks zeroed. */
  function ZeroPrefix(mem: seq<Byte>, z: nat): (r: seq<Byte>)
    ensures |r| == |mem|
  {
    seq(|mem|, p requires 0 <= p < |mem| => if p < z * BLOCK_SIZE then 0 else mem[p])
  }

  /** How many leading blocks write_file loses: one for each indirect block, up to all direct ones. */
  function Lost(need: nat): nat {
    if need <= NDIRECT then 0 else if need - NDIRECT <= NDIRECT then need - NDIRECT else NDIRECT
  }

  lemma ChunkOfZeroPrefix(mem: seq<Byte>, z: nat, k: nat)
    requires (k + 1) * BLOCK_SIZE <= |mem|
    ensures Chunk(ZeroPrefix(mem, z), k * BLOCK_SIZE) == if k < z then Zero() else Chunk(mem, k * BLOCK_SIZE)
  {
  }

  /** What is read after a write is what was written, exactly when the blocks that the write
      loses were zero in the first place. */
  lemma RoundTripIff(mem: seq<Byte>, size: nat)
    requires size <= |mem|
    ensures ZeroPrefix(mem, Lost(Count(size)))[..size] == mem[..size]
       <==> forall p :: 0 <= p < size && p < Lost(Count(size)) * BLOCK_SIZE ==> mem[p] == 0
  {
    var z := Lost(Count(size));
    var r := ZeroPrefix(mem, z);
    if r[..size] == mem[..size] {
      forall p | 0 <= p < size && p < z * BLOCK_SIZE ensures mem[p] == 0 {
        assert r[..size][p] == mem[..size][p];
      }
    }
  }
}
