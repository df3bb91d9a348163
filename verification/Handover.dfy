/**
 One queue built from one header chain: where its blocks are while the peers fetch them, and in
 which order the validator gets them.
 */
module Handover {
  import opened Basics
  import opened Downloads
  import opened QueueBuilding
  import opened Peers
  import opened IdleDrain

  /** The blocks to fetch, lowest first, on top of `fork`. */
  datatype Chain = Chain(fork: BlockHash, hashes: seq<BlockHash>) {
    ghost predicate Valid() {
      NoDup(hashes) && fork !in hashes
    }

    function Parent(i: nat): BlockHash
      requires i < |hashes|
    {
      Below(fork, hashes, i)
    }

    function At(i: nat): Block
      requires i < |hashes|
    {
      Block(hashes[i], Parent(i))
    }

    /** The lowest `n` blocks. */
    function Front(n: nat): seq<Block>
      requires n <= |hashes|
    {
      seq(n, i requires 0 <= i < n => At(i))
    }

    /** `b` is a block of this chain. */
    ghost predicate Has(b: Block) {
      exists i :: 0 <= i < |hashes| && b == At(i)
    }

    lemma HasUnique(a: Block, b: Block)
      requires Valid() && Has(a) && Has(b)
      ensures a.hash in hashes && (a.hash == b.hash <==> a == b) && (a.prev == b.prev <==> a == b)
    {
    }
  }

  /** The hashes of blocks released but not yet buffered. */
  function Transit(s: Node): set<BlockHash> {
    set t | t in s.threads && s.threads[t].Buffering? :: s.threads[t].block.hash
  }

  function Hashes(blocks: seq<Block>): set<BlockHash> {
    set b | b in blocks :: b.hash
  }

  /** Every block anywhere past the in-flight set is a block of the chain, and none is there twice. */
  ghost predicate InPlace(s: Node, c: Chain) {
    && NoDup(s.d.queue) && NoDup(s.handed)
    && (forall k :: k in s.d.buffer ==> s.d.buffer[k].prev == k && c.Has(s.d.buffer[k]))
    && (forall t :: t in s.threads && s.threads[t].Buffering? ==> c.Has(s.threads[t].block))
    && (forall b :: b in s.handed ==> c.Has(b))
    && (forall t, u :: t in s.threads && u in s.threads && t != u ==> !SameBlock(s.threads[t], s.threads[u]))
  }

  predicate SameBlock(a: Thread, b: Thread) {
    a.Buffering? && b.Buffering? && a.block.hash == b.block.hash
  }

  /** The chain's hashes are split among queue, in-flight set, transit, buffer and validator. */
  ghost predicate Split(s: Node, c: Chain) {
    && Elems(s.d.queue) !! s.d.inFlight !! Transit(s) !! BufferedHashes(s.d) !! Hashes(s.handed)
    && Elems(s.d.queue) + s.d.inFlight + Transit(s) + BufferedHashes(s.d) + Hashes(s.handed) == Elems(c.hashes)
  }

  ghost predicate Conserved(s: Node, c: Chain) {
    && c.Valid() && Exact(s) && InPlace(s, c) && Split(s, c)
    && s.active * Elems(c.hashes) <= Hashes(s.handed)
  }

  /** The rebuild finds the queue in use, or a branch of which nothing is in transit or with the validator. */
  ghost predicate HarmlessRebuild(s: Node, path: seq<BlockHash>, c: Chain) {
    s.d.queue != [] || forall h :: h in path ==> h in c.hashes && h !in Transit(s) && h !in Hashes(s.handed)
  }

  /**
   What may happen while one chain is fetched: solicited deliveries whose blocks are what their
   hashes commit to, disconnects, takes, a validator that connects only what it was given, and
   further peers that end their header sync or announce blocks already on the way.
   */
  ghost predicate ChainStep(s: Node, step: Step, c: Chain) {
    && Enabled(s, step) && Solicited(s, step)
    && (step.Rebuild? ==> HarmlessRebuild(s, step.path, c))
    && (step.Announce? ==> Elems(step.hashes) <= s.d.inFlight)
    && (step.Release? && step.block.hash in c.hashes ==> c.Has(step.block))
    && (step.NewActive? ==> step.active * Elems(c.hashes) <= Hashes(s.handed))
  }

  lemma TransitAfter(s: Node, t: Tid, th: Thread)
    requires t in s.threads
    requires forall u :: u in s.threads && u != t ==> !SameBlock(s.threads[t], s.threads[u])
    ensures var gone := if s.threads[t].Buffering? then {s.threads[t].block.hash} else {};
            var come := if th.Buffering? then {th.block.hash} else {};
            Transit(s.(threads := s.threads[t := th])) == Transit(s) - gone + come
  {
    var s' := s.(threads := s.threads[t := th]);
    forall h | h in Transit(s) && !(s.threads[t].Buffering? && s.threads[t].block.hash == h)
      ensures h in Transit(s')
    {
      var u :| u in s.threads && s.threads[u].Buffering? && s.threads[u].block.hash == h;
      assert s'.threads[u] == s.threads[u];
    }
    if th.Buffering? {
      assert s'.threads[t] == th;
    }
  }

  lemma ConservedPop(s: Node, step: Step, c: Chain)
    requires Conserved(s, c) && ChainStep(s, step, c) && step.PopBatch?
    ensures Conserved(Apply(s, step), c)
  {
    var s' := Apply(s, step);
    ExactStep(s, step);
    TransitAfter(s, step.t, Moved(s, step));
    PopSplits(s.d.queue, s.d.inFlight, DOWNLOAD_BATCH_SIZE);
    assert Transit(s') == Transit(s) && BufferedHashes(s'.d) == BufferedHashes(s.d);
  }

  lemma PopSplits(queue: seq<BlockHash>, inFlight: set<BlockHash>, n: nat)
    requires NoDup(queue) && Elems(queue) !! inFlight
    ensures var p := PopFrom(queue, inFlight, n);
            NoDup(p.rest) && Elems(p.batch) !! Elems(p.rest) && Elems(p.batch) + Elems(p.rest) == Elems(queue)
  {
    PopIsFifo(queue, inFlight, n);
    var p := PopFrom(queue, inFlight, n);
    assert queue == p.batch + p.rest;
    ElemsConcat(p.batch, p.rest);
    forall i, j | 0 <= i < |p.batch| && 0 <= j < |p.rest|
      ensures p.batch[i] != p.rest[j]
    {
      assert queue[i] == p.batch[i] && queue[|p.batch| + j] == p.rest[j];
    }
  }

  lemma ReleaseTransit(s: Node, step: Step, c: Chain)
    requires Conserved(s, c) && ChainStep(s, step, c) && step.Release?
    ensures Transit(Apply(s, step)) == Transit(s) + (s.d.inFlight * {step.block.hash})
  {
    TransitAfter(s, step.t, Moved(s, step));
  }

  lemma ReleaseInPlace(s: Node, step: Step, c: Chain)
    requires Conserved(s, c) && ChainStep(s, step, c) && step.Release?
    ensures InPlace(Apply(s, step), c)
  {
    var s' := Apply(s, step);
    forall u | u in s.threads && s.threads[u].Buffering?
      ensures s.threads[u].block.hash in Transit(s) && u != step.t && s'.threads[u] == s.threads[u]
    {
    }
    assert s'.d.queue == s.d.queue && s'.handed == s.handed && s'.d.buffer == s.d.buffer;
    assert s'.threads[step.t].Buffering? ==> s'.threads[step.t].block == step.block && c.Has(step.block);
  }

  lemma ConservedRelease(s: Node, step: Step, c: Chain)
    requires Conserved(s, c) && ChainStep(s, step, c) && step.Release?
    ensures Conserved(Apply(s, step), c)
  {
    ExactStep(s, step);
    ReleaseInPlace(s, step, c);
    ReleaseTransit(s, step, c);
  }

  lemma BufferedAfterStore(d: Download, block: Block)
    requires block.prev !in d.buffer
    ensures BufferedHashes(d.(buffer := d.buffer[block.prev := block])) == BufferedHashes(d) + {block.hash}
  {
    var d' := d.(buffer := d.buffer[block.prev := block]);
    assert d'.buffer[block.prev] == block;
    assert forall k :: k in d.buffer ==> k in d'.buffer && d'.buffer[k] == d.buffer[k];
  }

  lemma BufferedAfterTake(d: Download, key: BlockHash)
    requires key in d.buffer
    requires forall k :: k in d.buffer && k != key ==> d.buffer[k].hash != d.buffer[key].hash
    ensures BufferedHashes(d.(buffer := d.buffer - {key})) == BufferedHashes(d) - {d.buffer[key].hash}
  {
    var d' := d.(buffer := d.buffer - {key});
    assert forall k :: k in d.buffer && k != key ==> k in d'.buffer && d'.buffer[k] == d.buffer[k];
  }

  /** No sibling is displaced: the slot of a block in transit is free. */
  lemma SlotFree(s: Node, c: Chain, block: Block)
    requires Conserved(s, c) && c.Has(block) && block.hash in Transit(s)
    ensures block.prev !in s.d.buffer
  {
    assert forall k :: k in s.d.buffer ==> s.d.buffer[k].hash in BufferedHashes(s.d);
    if block.prev in s.d.buffer {
      c.HasUnique(block, s.d.buffer[block.prev]);
      assert false;
    }
  }

  lemma StoreStages(s: Node, step: Step, c: Chain)
    requires Conserved(s, c) && ChainStep(s, step, c) && step.Store?
    ensures var s', block := Apply(s, step), s.threads[step.t].block;
            && block.hash in Transit(s)
            && Transit(s') == Transit(s) - {block.hash}
            && BufferedHashes(s'.d) == BufferedHashes(s.d) + {block.hash}
  {
    var block := s.threads[step.t].block;
    TransitAfter(s, step.t, Moved(s, step));
    assert block.hash in Transit(s);
    SlotFree(s, c, block);
    BufferedAfterStore(s.d, block);
  }

  lemma StoreInPlace(s: Node, step: Step, c: Chain)
    requires Conserved(s, c) && ChainStep(s, step, c) && step.Store?
    ensures InPlace(Apply(s, step), c)
  {
  }

  lemma ConservedStore(s: Node, step: Step, c: Chain)
    requires Conserved(s, c) && ChainStep(s, step, c) && step.Store?
    ensures Conserved(Apply(s, step), c)
  {
    ExactStep(s, step);
    StoreInPlace(s, step, c);
    StoreStages(s, step, c);
  }

  lemma ConservedDisconnect(s: Node, step: Step, c: Chain)
    requires Conserved(s, c) && ChainStep(s, step, c) && step.Disconnect?
    ensures Conserved(Apply(s, step), c)
  {
    var s' := Apply(s, step);
    ExactStep(s, step);
    TransitAfter(s, step.t, Moved(s, step));
    assert Transit(s') == Transit(s) && BufferedHashes(s'.d) == BufferedHashes(s.d);
    NoDupConcat(step.front, s.d.queue);
    ElemsConcat(step.front, s.d.queue);
  }

  lemma ConservedTake(s: Node, step: Step, c: Chain)
    requires Conserved(s, c) && ChainStep(s, step, c) && step.Take?
    ensures Conserved(Apply(s, step), c)
  {
    var s', block := Apply(s, step), s.d.buffer[step.key];
    ExactStep(s, step);
    assert block.hash in BufferedHashes(s.d);
    forall k | k in s.d.buffer && k != step.key
      ensures s.d.buffer[k].hash != block.hash
    {
      c.HasUnique(s.d.buffer[k], block);
    }
    BufferedAfterTake(s.d, step.key);
    assert s'.handed == s.handed + [block];
    assert forall b :: b in s.handed ==> b.hash in Hashes(s.handed);
    NoDupConcat(s.handed, [block]);
    assert Hashes(s'.handed) == Hashes(s.handed) + {block.hash};
    assert Transit(s') == Transit(s);
  }

  lemma ConservedOther(s: Node, step: Step, c: Chain)
    requires Conserved(s, c) && ChainStep(s, step, c)
    requires !step.PopBatch? && !step.Release? && !step.Store? && !step.Disconnect? && !step.Take?
    ensures Conserved(Apply(s, step), c)
  {
    ExactStep(s, step);
    if !step.NewActive? {
      TransitAfter(s, step.t, Moved(s, step));
    }
    DownloadKept(s, step, c);
    assert Transit(Apply(s, step)) == Transit(s);
  }

  /** Neither a harmless rebuild nor an announcement of requested blocks changes the download state. */
  lemma DownloadKept(s: Node, step: Step, c: Chain)
    requires Conserved(s, c) && ChainStep(s, step, c)
    ensures step.Rebuild? || step.Announce? ==> NewDownload(s, step) == s.d
  {
    if step.Rebuild? {
      if s.d.queue == [] {
        RebuildHarmlessExactly(s, c, step.path);
      }
    } else if step.Announce? {
      FreshFacts(step.hashes, s.d.inFlight);
      assert Elems(Fresh(step.hashes, s.d.inFlight)) == {};
    }
  }

  lemma ConservedStep(s: Node, step: Step, c: Chain)
    requires Conserved(s, c) && ChainStep(s, step, c)
    ensures Conserved(Apply(s, step), c)
  {
    match step {
      case PopBatch(_) => ConservedPop(s, step, c);
      case Release(_, _) => ConservedRelease(s, step, c);
      case Store(_) => ConservedStore(s, step, c);
      case Disconnect(_, _) => ConservedDisconnect(s, step, c);
      case Take(_) => ConservedTake(s, step, c);
      case _ => ConservedOther(s, step, c);
    }
  }

  ghost predicate ChainRun(states: seq<Node>, steps: seq<Step>, c: Chain) {
    && IsRun(states, steps)
    && forall i :: 0 <= i < |steps| ==> ChainStep(states[i], steps[i], c)
  }

  /** Nothing is lost and nothing is fetched twice, whatever the split, arrival order and disconnects. */
  lemma {:induction false} ConservedInChainRun(states: seq<Node>, steps: seq<Step>, c: Chain, i: nat)
    requires ChainRun(states, steps, c) && Conserved(states[0], c) && i < |states|
    ensures Conserved(states[i], c)
  {
    if i > 0 {
      ConservedInChainRun(states, steps, c, i - 1);
      ConservedStep(states[i - 1], steps[i - 1], c);
    }
  }

  /** Requests still to be made count twice, requests outstanding once. */
  function Work(s: Node): nat {
    2 * |s.d.queue| + |s.d.inFlight|
  }

  lemma PopWork(queue: seq<BlockHash>, inFlight: set<BlockHash>, n: nat)
    requires NoDup(queue) && Elems(queue) !! inFlight
    ensures var p := PopFrom(queue, inFlight, n);
            && |p.batch| + |p.rest| == |queue| && |inFlight + Elems(p.batch)| == |inFlight| + |p.batch|
            && (queue != [] && n > 0 ==> p.batch != [])
  {
    PopIsFifo(queue, inFlight, n);
    PopSplits(queue, inFlight, n);
    NoDupCard(PopFrom(queue, inFlight, n).batch);
  }

  /** Each delivery of a requested block lowers the remaining work, and only a disconnect can raise it. */
  lemma WorkShrinks(s: Node, step: Step)
    requires Enabled(s, step) && (step.Rebuild? || step.Announce? ==> NewDownload(s, step) == s.d)
    requires NoDup(s.d.queue) && Elems(s.d.queue) !! s.d.inFlight
    ensures step.Release? && step.block.hash in s.d.inFlight ==> Work(Apply(s, step)) < Work(s)
    ensures step.PopBatch? && s.d.queue != [] ==> Work(Apply(s, step)) < Work(s)
    ensures !step.Disconnect? ==> Work(Apply(s, step)) <= Work(s)
  {
    PopWork(s.d.queue, s.d.inFlight, DOWNLOAD_BATCH_SIZE);
  }

  /** The validator has received exactly a prefix of the chain, in order. */
  ghost predicate InOrder(s: Node, c: Chain) {
    |s.handed| <= |c.hashes| && forall i :: 0 <= i < |s.handed| ==> s.handed[i] == c.At(i)
  }

  /** No buffered block is waiting for a parent that is between release and buffering. */
  ghost predicate Calm(s: Node) {
    forall k :: k in s.d.buffer ==> k !in Transit(s)
  }

  /** Taking `key` now would hand over the next block of the chain. */
  ghost predicate IsNext(s: Node, c: Chain, key: BlockHash) {
    key in s.d.buffer && |s.handed| < |c.hashes| && s.d.buffer[key] == c.At(|s.handed|)
  }

  /** A take stays in chain order exactly if it does not skip a parent that is in transit. */
  lemma TakeIsNextExactly(s: Node, c: Chain, key: BlockHash)
    requires Conserved(s, c) && InOrder(s, c) && CanTake(s.d, s.active, key)
    ensures IsNext(s, c, key) <==> key !in Transit(s)
  {
    var block := s.d.buffer[key];
    var i :| 0 <= i < |c.hashes| && block == c.At(i);
    HandedHashes(s, c);
    assert block.hash in BufferedHashes(s.d);
    if key in Transit(s) {
      ParentNotHanded(s, c, key);
    } else if i > |s.handed| {
      assert key == c.hashes[i - 1] && c.hashes[i - 1] !in Hashes(s.handed);
      NotConnectable(s, c, key);
    }
  }

  /** A chain block that the validator does not have is neither active nor, while idle, off both transit and buffer. */
  lemma NotConnectable(s: Node, c: Chain, h: BlockHash)
    requires Conserved(s, c) && h in c.hashes && h !in Hashes(s.handed)
    ensures h !in s.active
    ensures Idle(s.d) ==> h in Transit(s) || h in BufferedHashes(s.d)
  {
    assert h in Elems(c.hashes);
  }

  lemma HandedHashes(s: Node, c: Chain)
    requires c.Valid() && InOrder(s, c)
    ensures forall j :: 0 <= j < |c.hashes| ==> (c.hashes[j] in Hashes(s.handed) <==> j < |s.handed|)
  {
    forall j | 0 <= j < |c.hashes|
      ensures c.hashes[j] in Hashes(s.handed) <==> j < |s.handed|
    {
      if j < |s.handed| {
        assert s.handed[j] in s.handed;
      }
    }
  }

  lemma InOrderStep(s: Node, step: Step, c: Chain)
    requires Conserved(s, c) && ChainStep(s, step, c) && InOrder(s, c)
    ensures InOrder(Apply(s, step), c) <==> (step.Take? ==> step.key !in Transit(s))
  {
    if step.Take? {
      TakeIsNextExactly(s, c, step.key);
      var s' := Apply(s, step);
      assert s'.handed == s.handed + [s.d.buffer[step.key]];
      if InOrder(s', c) {
        assert s'.handed[|s.handed|] == c.At(|s.handed|);
      }
    }
  }

  lemma {:induction false} InOrderUpTo(states: seq<Node>, steps: seq<Step>, c: Chain, i: nat)
    requires ChainRun(states, steps, c) && Conserved(states[0], c) && InOrder(states[0], c) && i < |states|
    requires forall k :: 0 <= k < i && steps[k].Take? ==> steps[k].key !in Transit(states[k])
    ensures InOrder(states[i], c)
  {
    if i > 0 {
      InOrderUpTo(states, steps, c, i - 1);
      ConservedInChainRun(states, steps, c, i - 1);
      InOrderStep(states[i - 1], steps[i - 1], c);
    }
  }

  /**
   Chain-order hand-over: the blocks taken are at every moment a prefix of the chain, each once,
   exactly if no take skips a parent that is between release and buffering.
   */
  lemma PrefixInChainRun(states: seq<Node>, steps: seq<Step>, c: Chain)
    requires ChainRun(states, steps, c) && Conserved(states[0], c) && states[0].handed == []
    ensures (forall i :: 0 <= i < |states| ==> InOrder(states[i], c))
       <==> (forall k :: 0 <= k < |steps| && steps[k].Take? ==> steps[k].key !in Transit(states[k]))
  {
    if forall k :: 0 <= k < |steps| && steps[k].Take? ==> steps[k].key !in Transit(states[k]) {
      forall i | 0 <= i < |states|
        ensures InOrder(states[i], c)
      {
        InOrderUpTo(states, steps, c, i);
      }
    } else {
      var k :| 0 <= k < |steps| && steps[k].Take? && steps[k].key in Transit(states[k]);
      ConservedInChainRun(states, steps, c, k);
      if InOrder(states[k], c) {
        InOrderStep(states[k], steps[k], c);
        assert !InOrder(states[k + 1], c);
      }
    }
  }

  /** Once queue, in-flight set, transit and buffer are empty the validator has the whole chain. */
  lemma CompleteWhenDrained(s: Node, c: Chain)
    requires Conserved(s, c) && InOrder(s, c)
    requires Idle(s.d) && Transit(s) == {} && s.d.buffer == map[]
    ensures |s.handed| == |c.hashes|
  {
    HandedHashes(s, c);
    assert BufferedHashes(s.d) == {};
    assert Elems(c.hashes) == Hashes(s.handed);
    if c.hashes != [] {
      assert c.hashes[|c.hashes| - 1] in Elems(c.hashes);
    }
  }

  /** The position of a hash in the chain, counted from 1; the fork point and all else rank 0. */
  ghost function Rank(c: Chain, h: BlockHash): nat {
    if h in c.hashes then (var i :| 0 <= i < |c.hashes| && c.hashes[i] == h; i + 1) else 0
  }

  lemma ChainIsForest(s: Node, c: Chain)
    requires Conserved(s, c)
    ensures Forest(s.d, h => Rank(c, h))
  {
    forall k | k in s.d.buffer
      ensures s.d.buffer[k].prev == k && Rank(c, k) < Rank(c, s.d.buffer[k].hash)
    {
      var i :| 0 <= i < |c.hashes| && s.d.buffer[k] == c.At(i);
      assert Rank(c, c.hashes[i]) == i + 1;
      if i > 0 {
        assert Rank(c, c.hashes[i - 1]) == i;
      }
    }
  }

  /** Nothing is stuck: an idle node with a buffered block can always hand one over. */
  lemma IdleTakeExists(s: Node, c: Chain) returns (key: BlockHash)
    requires Conserved(s, c) && Idle(s.d) && s.d.buffer != map[]
    ensures CanTake(s.d, s.active, key)
  {
    if NoneConnected(s.d, s.active) {
      ChainIsForest(s, c);
      key := HeadExists(s.d, h => Rank(c, h));
    } else {
      key :| key in s.d.buffer && key in s.active;
    }
  }

  lemma {:induction false} HashesCard(blocks: seq<Block>)
    requires NoDup(blocks)
    requires forall a, b :: a in blocks && b in blocks && a.hash == b.hash ==> a == b
    ensures |Hashes(blocks)| == |blocks|
  {
    if blocks == [] {
      assert Hashes(blocks) == {};
    } else {
      var n := |blocks| - 1;
      assert blocks == blocks[..n] + [blocks[n]];
      assert forall b :: b in blocks[..n] ==> b in blocks;
      HashesCard(blocks[..n]);
      assert blocks[n] in blocks && blocks[n] !in blocks[..n];
      assert Hashes(blocks) == Hashes(blocks[..n]) + {blocks[n].hash};
    }
  }

  lemma {:induction false} BufferedCard(d: Download)
    requires forall j, k :: j in d.buffer && k in d.buffer && d.buffer[j].hash == d.buffer[k].hash ==> j == k
    ensures |BufferedHashes(d)| == |d.buffer|
    decreases |d.buffer|
  {
    if d.buffer == map[] {
      assert BufferedHashes(d) == {};
    } else {
      assert d.buffer.Keys != {};
      var k :| k in d.buffer;
      var e := d.(buffer := d.buffer - {k});
      assert e.buffer.Keys == d.buffer.Keys - {k};
      assert |d.buffer.Keys| == |d.buffer| && |e.buffer.Keys| == |e.buffer|;
      BufferedCard(e);
      BufferedAfterTake(d, k);
      assert d.buffer[k].hash in BufferedHashes(d);
    }
  }

  /** An idle node with nothing in transit has exactly the rest of the chain buffered. */
  lemma RestIsBuffered(s: Node, c: Chain)
    requires Conserved(s, c) && Idle(s.d) && Transit(s) == {}
    ensures |s.d.buffer| == |c.hashes| - |s.handed|
  {
    forall a, b | c.Has(a) && c.Has(b)
      ensures (a.hash == b.hash <==> a == b) && (a.prev == b.prev <==> a == b)
    {
      c.HasUnique(a, b);
    }
    BufferedCard(s.d);
    HashesCard(s.handed);
    NoDupCard(c.hashes);
    assert Elems(c.hashes) == BufferedHashes(s.d) + Hashes(s.handed);
  }

  /**
   When the peers owe nothing more, calls of `take_connectable` against whatever active chains go
   on succeeding until the validator has the whole chain: as many as blocks are missing.
   */
  lemma DrainFinishesChain(s: Node, c: Chain, ds: seq<Download>, calls: seq<Call>, last: set<BlockHash>)
    requires Conserved(s, c) && Idle(s.d) && Transit(s) == {}
    requires DrainRun(ds, calls) && ds[0] == s.d && CanTakeNothing(ds[|calls|], last)
    ensures |calls| == |c.hashes| - |s.handed| && ds[|calls|].buffer == map[]
  {
    ChainIsForest(s, c);
    IdleDrainsAll(ds, calls, h => Rank(c, h), last);
    RestIsBuffered(s, c);
  }

  /** Every thread that has released a block buffers it before anything else happens. */
  ghost predicate AtomicDelivery(states: seq<Node>, steps: seq<Step>) {
    && |states| == |steps| + 1
    && forall i :: 0 <= i < |steps| && Transit(states[i]) != {} ==> steps[i].Store?
  }

  /** With release and buffering as one step, hand-over is in chain order in every run. */
  lemma AtomicDeliveryInOrder(states: seq<Node>, steps: seq<Step>, c: Chain, i: nat)
    requires ChainRun(states, steps, c) && Conserved(states[0], c) && states[0].handed == [] && i < |states|
    requires AtomicDelivery(states, steps)
    ensures InOrder(states[i], c)
  {
    PrefixInChainRun(states, steps, c);
  }

  /** The exact condition, checkable before the call, under which no take can leave the chain order. */
  lemma InOrderExactly(s: Node, c: Chain)
    requires Conserved(s, c) && InOrder(s, c)
    ensures (forall key :: CanTake(s.d, s.active, key) ==> IsNext(s, c, key))
       <==> (!NoneConnected(s.d, s.active) || !Idle(s.d) || Calm(s))
  {
    if !NoneConnected(s.d, s.active) || !Idle(s.d) || Calm(s) {
      forall key | CanTake(s.d, s.active, key)
        ensures IsNext(s, c, key)
      {
        TakeIsNextExactly(s, c, key);
        KeyNotInTransit(s, c, key);
      }
    } else {
      var key :| key in s.d.buffer && key in Transit(s);
      assert CanTake(s.d, s.active, key);
      assert !IsNext(s, c, key) by {
        ParentNotHanded(s, c, key);
      }
    }
  }

  lemma KeyNotInTransit(s: Node, c: Chain, key: BlockHash)
    requires Conserved(s, c) && key in s.d.buffer && (key in s.active || Calm(s))
    ensures key !in Transit(s)
  {
  }

  lemma ParentNotHanded(s: Node, c: Chain, key: BlockHash)
    requires Conserved(s, c) && InOrder(s, c) && key in s.d.buffer && key in Transit(s)
    ensures !IsNext(s, c, key)
  {
    HandedHashes(s, c);
    assert Transit(s) <= Elems(c.hashes);
  }

  /** No thread is between releasing a block and buffering it, and nothing is queued, requested or buffered. */
  ghost predicate Quiet(s: Node) {
    s.d == EMPTY && forall t :: t in s.threads ==> !s.threads[t].Buffering?
  }

  /** Everything requested or buffered is a block of the chain, and nothing is in transit. */
  ghost predicate HeldOn(s: Node, c: Chain) {
    && s.d.inFlight <= Elems(c.hashes)
    && (forall k :: k in s.d.buffer ==> s.d.buffer[k].prev == k && c.Has(s.d.buffer[k]))
    && (forall t :: t in s.threads ==> !s.threads[t].Buffering?)
    && s.d.inFlight !! BufferedHashes(s.d)
  }

  /** The node as if the first `n` blocks handed over had never been. */
  function Forget(s: Node, n: nat): Node {
    s.(handed := if n <= |s.handed| then s.handed[n..] else [])
  }

  /** What was handed over earlier has no influence on any step. */
  lemma ForgetCommutes(s: Node, step: Step, n: nat)
    requires n <= |s.handed| && Enabled(s, step)
    ensures Enabled(Forget(s, n), step) && n <= |Apply(s, step).handed|
    ensures Forget(Apply(s, step), n) == Apply(Forget(s, n), step)
  {
    if step.Take? {
      var b := s.d.buffer[step.key];
      assert (s.handed + [b])[n..] == s.handed[n..] + [b];
    }
  }

  lemma {:induction false} NeverForgotten(states: seq<Node>, steps: seq<Step>, i: nat)
    requires IsRun(states, steps) && i < |states|
    ensures |states[0].handed| <= |states[i].handed| && states[i].handed[..|states[0].handed|] == states[0].handed
  {
    if i > 0 {
      NeverForgotten(states, steps, i - 1);
      ForgetCommutes(states[i - 1], steps[i - 1], 0);
    }
  }

  /** The run without what the validator had at its start. */
  function Since(states: seq<Node>): seq<Node>
    requires states != []
  {
    seq(|states|, i requires 0 <= i < |states| => Forget(states[i], |states[0].handed|))
  }

  lemma SinceIsRun(states: seq<Node>, steps: seq<Step>)
    requires IsRun(states, steps)
    ensures IsRun(Since(states), steps) && Since(states)[0].handed == []
  {
    forall i | 0 <= i < |steps|
      ensures Enabled(Since(states)[i], steps[i]) && Since(states)[i + 1] == Apply(Since(states)[i], steps[i])
    {
      NeverForgotten(states, steps, i);
      ForgetCommutes(states[i], steps[i], |states[0].handed|);
    }
  }

  /**
   Hand-over in chain order on the node's own run: from the moment a chain starts, the blocks taken
   since then are at every moment a prefix of it exactly if no take skips a parent in transit.
   */
  lemma PrefixSinceStart(states: seq<Node>, steps: seq<Step>, c: Chain)
    requires IsRun(states, steps) && ChainRun(Since(states), steps, c) && Conserved(Since(states)[0], c)
    ensures (forall i :: 0 <= i < |states| ==> TakenInOrder(states[0], states[i], c))
       <==> (forall k :: 0 <= k < |steps| && steps[k].Take? ==> steps[k].key !in Transit(states[k]))
  {
    hide ChainStep, Conserved, InOrder, TakenInOrder;
    SinceIsRun(states, steps);
    var later := Since(states);
    forall i | 0 <= i < |states|
      ensures Transit(later[i]) == Transit(states[i])
      ensures InOrder(later[i], c) <==> TakenInOrder(states[0], states[i], c)
    {
      NeverForgotten(states, steps, i);
      TakenIsRest(states[0], states[i], c);
    }
    PrefixInChainRun(later, steps, c);
  }

  /** The validator has what it had at `start`, and after that a prefix of the chain. */
  ghost predicate TakenInOrder(start: Node, s: Node, c: Chain) {
    exists n :: 0 <= n <= |c.hashes| && s.handed == start.handed + c.Front(n)
  }

  lemma TakenIsRest(start: Node, s: Node, c: Chain)
    requires |start.handed| <= |s.handed| && s.handed[..|start.handed|] == start.handed
    ensures InOrder(Forget(s, |start.handed|), c) <==> TakenInOrder(start, s, c)
  {
    var rest := s.handed[|start.handed|..];
    assert s.handed == start.handed + rest;
    if InOrder(Forget(s, |start.handed|), c) {
      assert rest == c.Front(|rest|);
    }
    if TakenInOrder(start, s, c) {
      var n :| 0 <= n <= |c.hashes| && s.handed == start.handed + c.Front(n);
      assert rest == c.Front(n);
    }
  }

  /**
   A queue built from the headers starts a chain in the sense above exactly if what is requested or
   buffered belongs to that chain and nothing is in transit.
   */
  lemma BuiltQueueStartsChain(s: Node, view: ChainView, fork: BlockHash, path: seq<BlockHash>)
    requires Exact(s) && view.Valid() && view.active == s.active && Populated(view, s.d) != s.d
    requires AboveFork(view.tree, view.active, view.best.value) == Some(path)
    requires IsBranch(view.tree, view.active, view.best.value, fork, path)
    ensures Conserved(Forget(s.(d := Populated(view, s.d)), |s.handed|), Chain(fork, path))
       <==> HeldOn(s, Chain(fork, path))
  {
    var c, s' := Chain(fork, path), Forget(s.(d := Populated(view, s.d)), |s.handed|);
    BranchFacts(view.tree, view.active, view.best.value, fork, path);
    UnheldAscends(view.tree, path, s.d);
    assert s' == s.(d := s.d.(queue := Unheld(path, s.d)), handed := []);
    if HeldOn(s, c) {
      HeldStart(s, c);
    } else if Conserved(s', c) {
      StartedHeld(s, c);
    }
  }

  /** The two together: from a built queue on, hand-over is in order exactly if no take skips a parent in transit. */
  lemma BuiltChainInOrder(
    s: Node, view: ChainView, fork: BlockHash, path: seq<BlockHash>, states: seq<Node>, steps: seq<Step>)
    requires Exact(s) && view.Valid() && view.active == s.active && Populated(view, s.d) != s.d
    requires AboveFork(view.tree, view.active, view.best.value) == Some(path)
    requires IsBranch(view.tree, view.active, view.best.value, fork, path)
    requires HeldOn(s, Chain(fork, path)) && IsRun(states, steps) && states[0] == s.(d := Populated(view, s.d))
    requires ChainRun(Since(states), steps, Chain(fork, path))
    ensures (forall i :: 0 <= i < |states| ==> TakenInOrder(s, states[i], Chain(fork, path)))
       <==> (forall k :: 0 <= k < |steps| && steps[k].Take? ==> steps[k].key !in Transit(states[k]))
  {
    hide Populated, Exact, ChainRun, AboveFork, IsBranch, HeldOn, Conserved, TakenInOrder;
    BuiltQueueStartsChain(s, view, fork, path);
    assert Since(states)[0] == Forget(s.(d := Populated(view, s.d)), |s.handed|);
    PrefixSinceStart(states, steps, Chain(fork, path));
    forall i | 0 <= i < |states|
      ensures TakenInOrder(states[0], states[i], Chain(fork, path)) <==> TakenInOrder(s, states[i], Chain(fork, path))
    {
      SameStart(states[0], s, states[i], Chain(fork, path));
    }
  }

  lemma SameStart(a: Node, b: Node, s: Node, c: Chain)
    requires a.handed == b.handed
    ensures TakenInOrder(a, s, c) <==> TakenInOrder(b, s, c)
  {
  }

  /** A block in transit would be queued by the build, so a conserved start has none. */
  lemma StartedHeld(s: Node, c: Chain)
    requires Conserved(s.(d := s.d.(queue := Unheld(c.hashes, s.d)), handed := []), c)
    ensures HeldOn(s, c)
  {
    var s' := s.(d := s.d.(queue := Unheld(c.hashes, s.d)), handed := []);
    UnheldIsRest(c.hashes, s.d);
    assert BufferedHashes(s'.d) == BufferedHashes(s.d);
    assert Elems(c.hashes) <= Elems(s'.d.queue) + BufferedHashes(s'.d) + s'.d.inFlight;
    assert Transit(s') == {};
    assert forall t :: t in s.threads && s.threads[t].Buffering? ==> s.threads[t].block.hash in Transit(s');
  }

  lemma HeldStart(s: Node, c: Chain)
    requires c.Valid() && Exact(s) && HeldOn(s, c) && NoDup(Unheld(c.hashes, s.d))
    requires forall h :: h in c.hashes ==> h !in s.active
    ensures Conserved(s.(d := s.d.(queue := Unheld(c.hashes, s.d)), handed := []), c)
  {
    var s' := s.(d := s.d.(queue := Unheld(c.hashes, s.d)), handed := []);
    UnheldIsRest(c.hashes, s.d);
    assert Transit(s') == {} && Hashes(s'.handed) == {};
    BufferedOnChain(s, c);
    assert BufferedHashes(s'.d) == BufferedHashes(s.d);
    assert Elems(s'.d.queue) == Elems(c.hashes) - BufferedHashes(s.d) - s.d.inFlight;
  }

  lemma BufferedOnChain(s: Node, c: Chain)
    requires forall k :: k in s.d.buffer ==> c.Has(s.d.buffer[k])
    ensures BufferedHashes(s.d) <= Elems(c.hashes)
  {
  }

  lemma FreshStart(s: Node, c: Chain)
    requires c.Valid() && Exact(s) && Quiet(s) && forall h :: h in c.hashes ==> h !in s.active
    ensures Conserved(s.(d := s.d.(queue := c.hashes), handed := []), c)
  {
    var s' := s.(d := s.d.(queue := c.hashes), handed := []);
    assert Transit(s') == {};
    assert BufferedHashes(s'.d) == {} && Hashes(s'.handed) == {};
  }

  /**
   Rebuilding while the same chain is still being fetched adds nothing exactly if no block of the
   branch is in transit or with the validator.
   */
  lemma RebuildHarmlessExactly(s: Node, c: Chain, path: seq<BlockHash>)
    requires Conserved(s, c) && forall h :: h in path ==> h in c.hashes
    ensures CommitQueue(s.d, path) == s.d <==>
            s.d.queue != [] || forall h :: h in path ==> h !in Transit(s) && h !in Hashes(s.handed)
  {
    UnheldIsRest(path, s.d);
    assert forall h :: h in path ==> h in Elems(c.hashes);
    if s.d.queue == [] {
      assert forall h :: h in path && h !in Unheld(path, s.d) ==> h in BufferedHashes(s.d) || h in s.d.inFlight;
      assert Unheld(path, s.d) != [] ==> Unheld(path, s.d)[0] in Unheld(path, s.d);
    }
  }
}
