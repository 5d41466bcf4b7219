/** The replication pipeline: packets spliced into a block at every node of a chain, and the
    acknowledgements that come back. */
module Pipeline {
  import opened Options
  import opened DiskLayout

  const PACKET_SIZE := 16384

  // ----- one data node -----

  /** The bytes of a packet put in place of those in the block. */
  function Splice(b: Block, offset: nat, data: seq<Byte>): (r: Block)
    requires offset + |data| <= BLOCK_SIZE
  {
    b[..offset] + data + b[offset + |data|..]
  }

  /** A slice from the block, shorter if the block ends first. */
  function Slice(b: Block, offset: nat, len: nat): seq<Byte> {
    if offset > BLOCK_SIZE then [] else if offset + len > BLOCK_SIZE then b[offset..] else b[offset..offset + len]
  }

  class DataNode {
    var blocks: map<nat, Block>

    method ReadBlock(bid: nat, offset: nat, len: nat) returns (buf: seq<Byte>)
      requires bid in blocks
      ensures |buf| == if offset >= BLOCK_SIZE then 0
                       else if offset + len > BLOCK_SIZE then BLOCK_SIZE - offset else len
      ensures forall k :: 0 <= k < |buf| ==> buf[k] == blocks[bid][offset + k]
    {
      buf := Slice(blocks[bid], offset, len);
    }

    /** A packet that reaches beyond the block ends the node: taking the rest of the block throws. */
    method WriteBlock(bid: nat, offset: nat, data: seq<Byte>) returns (crashed: bool)
      requires bid in blocks
      modifies this
      ensures crashed <==> offset + |data| > BLOCK_SIZE
      ensures crashed ==> blocks == old(blocks)
      ensures !crashed ==>
                && blocks.Keys == old(blocks).Keys
                && (forall b :: b in blocks && b != bid ==> blocks[b] == old(blocks)[b])
                && blocks[bid][offset..offset + |data|] == data
                && forall k :: 0 <= k < BLOCK_SIZE && !(offset <= k < offset + |data|) ==>
                                 blocks[bid][k] == old(blocks)[bid][k]
    {
      if offset + |data| > BLOCK_SIZE {
        return true;
      }
      blocks := blocks[bid := Splice(blocks[bid], offset, data)];
      crashed := false;
    }
  }

  // ----- the chain -----

  datatype Reply = SUCCESS | ERROR

  datatype Packet = Packet(seqno: nat, offset: nat, data: seq<Byte>, last: bool)

  /** What goes wrong at a node while it handles one packet: the packet cannot be read, beyond the
      sequence number perhaps, it cannot be sent on, or the acknowledgement from further down
      cannot be read. */
  datatype Fault = Nothing | BadPacket(seqno: nat) | SendFails | AckLost

  datatype Ack = Ack(seqno: nat, replies: seq<Reply>)

  predicate Fits(p: Packet) {
    p.offset + |p.data| <= BLOCK_SIZE
  }

  function Repeat(r: Reply, n: nat): (s: seq<Reply>)
    ensures |s| == n && forall k :: 0 <= k < n ==> s[k] == r
  {
    seq(n, _ => r)
  }

  /** The acknowledgement of one packet, None if the node goes down without one, and the blocks of
      the chain after it.  chain[0] is the node that received the packet, the rest its targets. */
  datatype Outcome = Outcome(ack: Option<Ack>, chain: seq<Block>)

  function Deliver(chain: seq<Block>, faults: seq<Fault>, p: Packet): (r: Outcome)
    requires 0 < |chain| == |faults|
    ensures |r.chain| == |chain|
  {
    var targets := |chain| - 1;
    if faults[0].BadPacket? then Outcome(Some(Ack(faults[0].seqno, [ERROR])), chain)
    else if !Fits(p) then Outcome(None, chain)
    else
      var here := Splice(chain[0], p.offset, p.data);
      if targets == 0 then Outcome(Some(Ack(p.seqno, [SUCCESS])), [here])
      else if faults[0] == SendFails then
        Outcome(Some(Ack(p.seqno, [SUCCESS] + Repeat(ERROR, targets))), [here] + chain[1..])
      else
        var below := Deliver(chain[1..], faults[1..], p);
        var more := if faults[0] == AckLost || below.ack.None? then Repeat(ERROR, targets) else below.ack.value.replies;
        Outcome(Some(Ack(p.seqno, [SUCCESS] + more)), [here] + below.chain)
  }

  /** A node other than the last one gets a packet it cannot read, and nothing above it hides that. */
  predicate CutShort(faults: seq<Fault>) {
    |faults| > 1 && (faults[0].BadPacket? || (faults[0] == Nothing && CutShort(faults[1..])))
  }

  /** An acknowledgement has one reply for every node unless a node above the last took its error
      exit: that one answers with a single reply whatever is below it. */
  lemma {:induction false} AckLength(chain: seq<Block>, faults: seq<Fault>, p: Packet)
    requires 0 < |chain| == |faults| && Fits(p)
    ensures var ack := Deliver(chain, faults, p).ack;
            && ack.Some? && 0 < |ack.value.replies| <= |chain|
            && (|ack.value.replies| == |chain| <==> !CutShort(faults))
  {
    if |chain| > 1 && !faults[0].BadPacket? && faults[0] != SendFails {
      AckLength(chain[1..], faults[1..], p);
    }
  }

  /** Three nodes, the second of which cannot read the packet: the acknowledgement has two replies. */
  lemma AckTooShort(b: Block, seqno: nat)
    ensures var p := Packet(seqno, 0, [], false);
            var r := Deliver([b, b, b], [Nothing, BadPacket(seqno), Nothing], p);
            r.ack == Some(Ack(seqno, [SUCCESS, ERROR])) && CutShort([Nothing, BadPacket(seqno), Nothing])
  {
    var p, faults := Packet(seqno, 0, [], false), [Nothing, BadPacket(seqno), Nothing];
    assert faults[1..] == [BadPacket(seqno), Nothing] && [b, b, b][1..] == [b, b];
    assert Deliver([b, b], faults[1..], p) == Outcome(Some(Ack(seqno, [ERROR])), [b, b]);
    assert [SUCCESS] + [ERROR] == [SUCCESS, ERROR];
  }

  /** An acknowledgement that begins with a success carries the packet's own number. */
  lemma AckNumber(chain: seq<Block>, faults: seq<Fault>, p: Packet)
    requires 0 < |chain| == |faults|
    ensures var ack := Deliver(chain, faults, p).ack;
            ack.Some? && ack.value.replies != [] && ack.value.replies[0] == SUCCESS ==> ack.value.seqno == p.seqno
  {
  }

  /** Replies come in chain order: a success from node k means node k has the packet in its block. */
  lemma {:induction false} SuccessMeansApplied(chain: seq<Block>, faults: seq<Fault>, p: Packet, k: nat)
    requires 0 < |chain| == |faults| && Fits(p)
    requires Deliver(chain, faults, p).ack.Some? && k < |Deliver(chain, faults, p).ack.value.replies|
    requires Deliver(chain, faults, p).ack.value.replies[k] == SUCCESS
    ensures k < |chain| && Deliver(chain, faults, p).chain[k] == Splice(chain[k], p.offset, p.data)
  {
    if k > 0 {
      AckLength(chain[1..], faults[1..], p);
      SuccessMeansApplied(chain[1..], faults[1..], p, k - 1);
    }
  }

  /** Every node answered, and answered with success. */
  predicate AllWell(ack: Option<Ack>, n: nat) {
    ack.Some? && ack.value.replies == Repeat(SUCCESS, n)
  }

  /** The links and nodes that matter for this packet are all in order. */
  predicate Healthy(faults: seq<Fault>) {
    && (forall k :: 0 <= k < |faults| - 1 ==> faults[k] == Nothing)
    && (faults != [] ==> !faults[|faults| - 1].BadPacket?)
  }

  lemma {:induction false} AllWellIff(chain: seq<Block>, faults: seq<Fault>, p: Packet)
    requires 0 < |chain| == |faults| && Fits(p)
    ensures AllWell(Deliver(chain, faults, p).ack, |chain|) <==> Healthy(faults)
  {
    var n := |chain|;
    var r := Deliver(chain, faults, p);
    if n > 1 {
      var below := Deliver(chain[1..], faults[1..], p);
      AllWellIff(chain[1..], faults[1..], p);
      AckLength(chain[1..], faults[1..], p);
      assert Repeat(SUCCESS, n) == [SUCCESS] + Repeat(SUCCESS, n - 1);
      assert Healthy(faults) <==> faults[0] == Nothing && Healthy(faults[1..]) by { HealthyTail(faults); }
      if AllWell(r.ack, n) {
        assert r.ack.value.replies[1] == SUCCESS;
        if faults[0] == Nothing { assert r.ack.value.replies[1..] == below.ack.value.replies; }
      }
    } else {
      assert Repeat(SUCCESS, 1) == [SUCCESS];
    }
  }

  lemma HealthyTail(faults: seq<Fault>)
    requires |faults| > 1
    ensures Healthy(faults) <==> faults[0] == Nothing && Healthy(faults[1..])
  {
    if Healthy(faults[1..]) && faults[0] == Nothing {
      forall k | 0 <= k < |faults| - 1 ensures faults[k] == Nothing {
        if k > 0 { assert faults[1..][k - 1] == Nothing; }
      }
    }
  }

  /** The packet gets to node k: every node down to k can read it, and every one above k can send it on. */
  predicate Reached(faults: seq<Fault>, k: nat) {
    && k < |faults|
    && (forall m :: 0 <= m <= k ==> !faults[m].BadPacket?)
    && (forall m :: 0 <= m < k ==> faults[m] != SendFails)
  }

  lemma ReachedBelow(faults: seq<Fault>, k: nat)
    requires 0 < k < |faults|
    ensures Reached(faults, k) <==>
            !faults[0].BadPacket? && faults[0] != SendFails && Reached(faults[1..], k - 1)
  {
    var rest := faults[1..];
    if !faults[0].BadPacket? && faults[0] != SendFails && Reached(rest, k - 1) {
      forall m | 0 <= m <= k ensures !faults[m].BadPacket? && (m < k ==> faults[m] != SendFails) {
        if m > 0 { assert rest[m - 1] == faults[m]; }
      }
    }
    if Reached(faults, k) {
      forall m | 0 <= m <= k - 1 ensures !rest[m].BadPacket? && (m < k - 1 ==> rest[m] != SendFails) {
        assert rest[m] == faults[m + 1];
      }
    }
  }

  /** What every node holds afterwards: the packet in its block if it was reached, and otherwise
      what it held before. */
  lemma {:induction false} DeliveredTo(chain: seq<Block>, faults: seq<Fault>, p: Packet, k: nat)
    requires k < |chain| == |faults| && Fits(p)
    ensures Deliver(chain, faults, p).chain[k]
         == if Reached(faults, k) then Splice(chain[k], p.offset, p.data) else chain[k]
  {
    if k > 0 {
      ReachedBelow(faults, k);
      DeliveredTo(chain[1..], faults[1..], p, k - 1);
    }
  }

  /** If all is well, every node of the chain has applied the packet. */
  lemma AllWellApplied(chain: seq<Block>, faults: seq<Fault>, p: Packet)
    requires 0 < |chain| == |faults| && Fits(p) && AllWell(Deliver(chain, faults, p).ack, |chain|)
    ensures forall k :: 0 <= k < |chain| ==> Deliver(chain, faults, p).chain[k] == Splice(chain[k], p.offset, p.data)
  {
    forall k | 0 <= k < |chain| ensures Deliver(chain, faults, p).chain[k] == Splice(chain[k], p.offset, p.data) {
      SuccessMeansApplied(chain, faults, p, k);
    }
  }

  lemma WellMeansFits(chain: seq<Block>, faults: seq<Fault>, p: Packet)
    requires 0 < |chain| == |faults| && AllWell(Deliver(chain, faults, p).ack, |chain|)
    ensures Fits(p)
  {
    assert Repeat(SUCCESS, |chain|)[0] == SUCCESS;
  }

  // ----- a whole block -----

  predicate AllFit(ps: seq<Packet>) {
    forall k :: 0 <= k < |ps| ==> Fits(ps[k])
  }

  function SpliceAll(b: Block, ps: seq<Packet>): Block
    requires AllFit(ps)
  {
    if ps == [] then b
    else
      var n := |ps| - 1;
      assert Fits(ps[n]);
      Splice(SpliceAll(b, ps[..n]), ps[n].offset, ps[n].data)
  }

  ghost predicate Replicas(chain: seq<Block>, b: Block) {
    forall k :: 0 <= k < |chain| ==> chain[k] == b
  }

  ghost predicate AllAcked(acks: seq<Option<Ack>>, n: nat) {
    forall k :: 0 <= k < |acks| ==> AllWell(acks[k], n)
  }

  /** One more packet that is well received keeps the replicas equal. */
  lemma NextPacket(chain: seq<Block>, faults: seq<Fault>, b: Block, ps: seq<Packet>, k: nat)
    requires 0 < |chain| == |faults| && k < |ps| && AllFit(ps[..k]) && Replicas(chain, SpliceAll(b, ps[..k]))
    requires AllWell(Deliver(chain, faults, ps[k]).ack, |chain|)
    ensures AllFit(ps[..k + 1]) && Replicas(Deliver(chain, faults, ps[k]).chain, SpliceAll(b, ps[..k + 1]))
  {
    WellMeansFits(chain, faults, ps[k]);
    AllWellApplied(chain, faults, ps[k]);
    assert ps[..k + 1][..k] == ps[..k] && ps[..k + 1][k] == ps[k];
    var more := ps[..k + 1];
    forall l | 0 <= l < |more| ensures Fits(more[l]) {
      if l < k { assert ps[..k][l] == more[l]; }
    }
  }

  // ----- setting up -----

  /** Before any packet, each node connects to the next and waits for its answer.  links[k] says
      that node k reaches node k + 1 and can read what it answers. */
  function SetUp(links: seq<bool>): Reply {
    if links == [] then SUCCESS
    else if !links[0] || SetUp(links[1..]) == ERROR then ERROR
    else SUCCESS
  }

  predicate AllUp(links: seq<bool>) {
    forall k :: 0 <= k < |links| ==> links[k]
  }

  lemma {:induction false} SetUpIff(links: seq<bool>)
    ensures SetUp(links) == SUCCESS <==> AllUp(links)
  {
    if links != [] {
      SetUpIff(links[1..]);
      assert forall k :: 0 <= k < |links| - 1 ==> links[1..][k] == links[k + 1];
      if SetUp(links[1..]) == SUCCESS && links[0] {
        forall k | 0 <= k < |links| ensures links[k] { if k > 0 { assert links[1..][k - 1]; } }
      }
    }
  }

  /** The acknowledgements so far carry the numbers of the packets. */
  ghost predicate Numbered(acks: seq<Option<Ack>>, ps: seq<Packet>)
    requires |acks| <= |ps|
  {
    forall k :: 0 <= k < |acks| && acks[k].Some? && acks[k].value.replies != [] && acks[k].value.replies[0] == SUCCESS
            ==> acks[k].value.seqno == ps[k].seqno
  }

  /** Serving a block whose replicas all hold b.  Nothing is written unless every link of the chain
      is up.  Then packets up to the last one, each acknowledged; it ends early when a packet cannot
      be read or the node goes down.  When every acknowledgement is a success from every node, every
      node holds the same block, with all the packets in it. */
  method ServeBlock(chain: seq<Block>, links: seq<bool>, ps: seq<Packet>, faults: seq<seq<Fault>>, ghost b: Block)
    returns (status: Reply, acks: seq<Option<Ack>>, chain': seq<Block>)
    requires |chain| == |links| + 1 && |faults| == |ps| && forall k :: 0 <= k < |faults| ==> |faults[k]| == |chain|
    requires Replicas(chain, b)
    ensures status == SUCCESS <==> AllUp(links)
    ensures status == ERROR ==> acks == [] && chain' == chain
    ensures |acks| <= |ps| && |chain'| == |chain| && Numbered(acks, ps)
    ensures status == SUCCESS && AllAcked(acks, |chain|) ==>
              && (|acks| == |ps| || (acks != [] && ps[|acks| - 1].last))
              && AllFit(ps[..|acks|]) && Replicas(chain', SpliceAll(b, ps[..|acks|]))
  {
    SetUpIff(links);
    status, acks, chain' := SetUp(links), [], chain;
    if status == ERROR {
      return;
    }
    acks, chain' := ServePackets(chain, ps, faults, b);
  }

  /** The loop over the packets. */
  method ServePackets(chain: seq<Block>, ps: seq<Packet>, faults: seq<seq<Fault>>, ghost b: Block)
    returns (acks: seq<Option<Ack>>, chain': seq<Block>)
    requires 0 < |chain| && |faults| == |ps| && forall k :: 0 <= k < |faults| ==> |faults[k]| == |chain|
    requires Replicas(chain, b)
    ensures |acks| <= |ps| && |chain'| == |chain| && Numbered(acks, ps)
    ensures AllAcked(acks, |chain|) ==>
              && (|acks| == |ps| || (acks != [] && ps[|acks| - 1].last))
              && AllFit(ps[..|acks|]) && Replicas(chain', SpliceAll(b, ps[..|acks|]))
  {
    acks, chain' := [], chain;
    var k := 0;
    while k < |ps|
      invariant 0 <= k == |acks| <= |ps| && |chain'| == |chain| && Numbered(acks, ps)
      invariant AllAcked(acks, |chain|) ==> AllFit(ps[..k]) && Replicas(chain', SpliceAll(b, ps[..k]))
    {
      var r := Deliver(chain', faults[k], ps[k]);
      AckNumber(chain', faults[k], ps[k]);
      ghost var before := acks;
      acks := acks + [r.ack];
      if AllAcked(acks, |chain|) {
        assert AllAcked(before, |chain|) by { assert forall l :: 0 <= l < k ==> before[l] == acks[l]; }
        assert AllWell(acks[k], |chain|);
        NextPacket(chain', faults[k], b, ps, k);
      }
      chain' := r.chain;
      k := k + 1;
      if faults[k - 1][0].BadPacket? || r.ack.None? {
        assert Repeat(SUCCESS, |chain|)[0] == SUCCESS;
        assert !AllWell(acks[k - 1], |chain|);
        return;
      }
      if ps[k - 1].last {
        return;
      }
    }
  }

  // ----- packets one behind the other -----

  function Joined(ps: seq<Packet>): seq<Byte> {
    if ps == [] then [] else Joined(ps[..|ps| - 1]) + ps[|ps| - 1].data
  }

  /** Each packet begins where the one before it ended. */
  predicate Consecutive(ps: seq<Packet>) {
    ps != [] ==> Consecutive(ps[..|ps| - 1]) && ps[|ps| - 1].offset == |Joined(ps[..|ps| - 1])|
  }

  /** Consecutive packets from the front leave their data at the front of the block, and the rest
      of the block as it was. */
  lemma {:induction false} ConsecutiveBlock(b: Block, ps: seq<Packet>)
    requires AllFit(ps) && Consecutive(ps)
    ensures |Joined(ps)| <= BLOCK_SIZE && SpliceAll(b, ps) == Joined(ps) + b[|Joined(ps)|..]
  {
    if ps != [] {
      var n := |ps| - 1;
      var before := Joined(ps[..n]);
      ConsecutiveBlock(b, ps[..n]);
      assert Fits(ps[n]);
      var mid := SpliceAll(b, ps[..n]);
      assert mid[..|before|] == before && mid[|before| + |ps[n].data|..] == b[|before| + |ps[n].data|..];
    }
  }

  // ----- sending a block -----

  /** Packets numbered from 0, each beginning where the one before it ended, the first at `from`. */
  predicate InSequence(ps: seq<Packet>, from: nat) {
    ps != [] ==>
      && InSequence(ps[..|ps| - 1], from)
      && ps[|ps| - 1].seqno == |ps| - 1 && ps[|ps| - 1].offset == from + |Joined(ps[..|ps| - 1])|
  }

  /** The first `it` bytes of the block are on the stream, none of its packets marked last. */
  ghost predicate OnStream(ps: seq<Packet>, block: seq<Byte>, it: nat, offset: nat) {
    && it <= |block| && Joined(ps) == block[..it] && InSequence(ps, offset)
    && forall k :: 0 <= k < |ps| ==> |ps[k].data| <= PACKET_SIZE && !ps[k].last
  }

  lemma OneMorePacket(ps: seq<Packet>, p: Packet, block: seq<Byte>, it: nat, offset: nat)
    requires OnStream(ps, block, it, offset) && it + |p.data| <= |block|
    requires p.seqno == |ps| && p.offset == offset + it && p.data == block[it..it + |p.data|]
    ensures Joined(ps + [p]) == block[..it + |p.data|] && InSequence(ps + [p], offset)
    ensures |p.data| <= PACKET_SIZE && !p.last ==> OnStream(ps + [p], block, it + |p.data|, offset)
  {
    assert (ps + [p])[..|ps|] == ps;
    assert block[..it + |p.data|] == block[..it] + p.data;
  }

  /** The loop of _ReadBlock over what was read: whole packets, then the rest, then an empty packet
      marked last.  Nothing read sends no packet at all, not even the last. */
  method SendPackets(block: seq<Byte>, offset: nat) returns (ps: seq<Packet>)
    ensures Joined(ps) == block && InSequence(ps, offset)
    ensures forall k :: 0 <= k < |ps| ==> |ps[k].data| <= PACKET_SIZE && (ps[k].last <==> k == |ps| - 1)
    ensures block == [] <==> ps == []
    ensures ps != [] ==> ps[|ps| - 1].data == []
  {
    ps := [];
    var it, i := 0, 0;
    while it != |block|
      invariant i == |ps| && OnStream(ps, block, it, offset)
      invariant it == |block| ==> it == 0 && ps == []
      decreases |block| - it
    {
      if |block| - it > PACKET_SIZE {
        ps := SendOne(ps, i, block, it, PACKET_SIZE, offset);
      } else {
        ps := SendOne(ps, i, block, it, |block| - it, offset);
        i := i + 1;
        ps := SendLast(ps, i, block, offset);
        break;
      }
      i := i + 1;
      it := it + PACKET_SIZE;
    }
  }

  method SendOne(ps: seq<Packet>, i: nat, block: seq<Byte>, it: nat, len: nat, offset: nat) returns (ps': seq<Packet>)
    requires i == |ps| && OnStream(ps, block, it, offset) && it + len <= |block| && len <= PACKET_SIZE
    ensures |ps'| == |ps| + 1 && OnStream(ps', block, it + len, offset)
  {
    var p := Packet(i, offset + it, block[it..it + len], false);
    OneMorePacket(ps, p, block, it, offset);
    ps' := ps + [p];
  }

  method SendLast(ps: seq<Packet>, i: nat, block: seq<Byte>, offset: nat) returns (ps': seq<Packet>)
    requires i == |ps| && OnStream(ps, block, |block|, offset)
    ensures |ps'| == |ps| + 1 && Joined(ps') == block && InSequence(ps', offset) && ps'[|ps|].data == []
    ensures forall k :: 0 <= k < |ps'| ==> |ps'[k].data| <= PACKET_SIZE && (ps'[k].last <==> k == |ps'| - 1)
  {
    var p := Packet(i, offset + |block|, [], true);
    OneMorePacket(ps, p, block, |block|, offset);
    assert block[..|block|] == block;
    ps' := ps + [p];
  }

  lemma {:induction false} InSequenceIsConsecutive(ps: seq<Packet>)
    requires InSequence(ps, 0) && |Joined(ps)| <= BLOCK_SIZE
    ensures Consecutive(ps) && AllFit(ps)
  {
    if ps != [] {
      var n := |ps| - 1;
      InSequenceIsConsecutive(ps[..n]);
      forall k | 0 <= k < |ps| ensures Fits(ps[k]) {
        if k < n { assert ps[..n][k] == ps[k]; }
      }
    }
  }

  /** A whole block on its way: sent in packets, served along a chain whose replicas all hold b.
      Once everything is acknowledged, every replica holds the data in front and the old rest
      behind it.  faults(k) is what goes wrong with packet k. */
  method Replicate(data: seq<Byte>, chain: seq<Block>, links: seq<bool>, faults: nat -> seq<Fault>, ghost b: Block)
    returns (status: Reply, acks: seq<Option<Ack>>, chain': seq<Block>)
    requires |data| <= BLOCK_SIZE && |chain| == |links| + 1 && Replicas(chain, b)
    requires forall k: nat :: |faults(k)| == |chain|
    ensures status == SUCCESS <==> AllUp(links)
    ensures status == ERROR ==> chain' == chain
    ensures status == SUCCESS && AllAcked(acks, |chain|) ==> Replicas(chain', data + b[|data|..])
  {
    var ps := SendPackets(data, 0);
    var each := seq(|ps|, k requires 0 <= k < |ps| => faults(k));
    status, acks, chain' := ServeBlock(chain, links, ps, each, b);
    if status == SUCCESS && AllAcked(acks, |chain|) {
      assert |acks| == |ps|;
      assert ps[..|acks|] == ps;
      InSequenceIsConsecutive(ps);
      ConsecutiveBlock(b, ps);
    }
  }

  /** The two packets of _TransferBlock. */
  function Transferred(block: Block): seq<Packet> {
    [Packet(0, 0, block, false), Packet(1, BLOCK_SIZE, [], true)]
  }

  lemma CopyHolds(b: Block, block: Block)
    ensures Splice(b, 0, block) == block && Splice(b, BLOCK_SIZE, []) == b
  {
  }

  /** The sender can send the packet and read the acknowledgement, and the first node can read it. */
  predicate FirstAnswers(here: Fault, faults: seq<Fault>)
    requires faults != []
  {
    here != SendFails && here != AckLost && !faults[0].BadPacket?
  }

  /** Sending one packet to a chain and waiting for its acknowledgement, of which only the first
      reply is looked at.  `here` is what goes wrong at the sender. */
  method SendAndWait(chain: seq<Block>, here: Fault, faults: seq<Fault>, p: Packet)
    returns (ok: bool, chain': seq<Block>)
    requires 0 < |chain| == |faults| && Fits(p)
    ensures |chain'| == |chain|
    ensures ok <==> FirstAnswers(here, faults)
    ensures here == SendFails ==> chain' == chain
    ensures here != SendFails ==>
              forall k :: 0 <= k < |chain| ==>
                chain'[k] == if Reached(faults, k) then Splice(chain[k], p.offset, p.data) else chain[k]
  {
    if here == SendFails {
      return false, chain;
    }
    var r := Deliver(chain, faults, p);
    AckLength(chain, faults, p);
    ok, chain' := here != AckLost && r.ack.value.replies[0] == SUCCESS, r.chain;
    forall k | 0 <= k < |chain|
      ensures chain'[k] == if Reached(faults, k) then Splice(chain[k], p.offset, p.data) else chain[k]
    {
      DeliveredTo(chain, faults, p, k);
    }
  }

  /** _TransferBlock.  It reports success if and only if the links are up and the first target has
      answered both packets well.  Then a target holds the block exactly if the first packet
      reached it, or it held the block before; the first target always does. */
  method TransferBlock(block: Block, chain: seq<Block>, links: seq<bool>, here: seq<Fault>, faults: seq<seq<Fault>>)
    returns (ok: bool, chain': seq<Block>)
    requires 0 < |chain| == |links| && |here| == |faults| == 2 && |faults[0]| == |faults[1]| == |chain|
    ensures ok <==> AllUp(links) && FirstAnswers(here[0], faults[0]) && FirstAnswers(here[1], faults[1])
    ensures |chain'| == |chain|
    ensures ok ==> forall k :: 0 <= k < |chain| ==> chain'[k] == if Reached(faults[0], k) then block else chain[k]
    ensures ok ==> chain'[0] == block
    ensures ok ==>
              (Replicas(chain', block)
               <==> forall k :: 0 <= k < |chain| ==> Reached(faults[0], k) || chain[k] == block)
  {
    SetUpIff(links);
    if SetUp(links) == ERROR {
      return false, chain;
    }
    var ps := Transferred(block);
    ok, chain' := SendAndWait(chain, here[0], faults[0], ps[0]);
    if ok {
      ghost var mid := chain';
      ok, chain' := SendAndWait(chain', here[1], faults[1], ps[1]);
      forall k | 0 <= k < |chain| ensures chain'[k] == if Reached(faults[0], k) then block else chain[k] {
        CopyHolds(chain[k], block);
        CopyHolds(mid[k], block);
      }
      assert Reached(faults[0], 0);
    }
  }

  /** Two targets, the second of which the first cannot reach: success is reported, and the second
      has nothing of the block. */
  method TransferMisses(block: Block, other: Block) returns (ok: bool, chain': seq<Block>)
    requires block != other
    ensures ok && chain' == [block, other] && !Replicas(chain', block)
  {
    var faults := [SendFails, Nothing];
    assert faults[0] == SendFails;
    assert Reached(faults, 0) && !Reached(faults, 1);
    ok, chain' := TransferBlock(block, [other, other], [true, true], [Nothing, Nothing], [faults, faults]);
    assert chain'[1] == other;
  }
}
