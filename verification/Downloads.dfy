/** The block download state shared by all peer threads (`DownloadState`). */
module Downloads {
  import opened Basics

  type BlockHash = nat

  /** A block reduced to its own hash and the hash of its parent. */
  datatype Block = Block(hash: BlockHash, prev: BlockHash)

  /** What is still to be requested, what some peer owes, and what has arrived, keyed by parent. */
  datatype Download = Download(queue: seq<BlockHash>, inFlight: set<BlockHash>, buffer: map<BlockHash, Block>)

  const EMPTY := Download([], {}, map[])

  function BufferedHashes(d: Download): set<BlockHash> {
    set k | k in d.buffer :: d.buffer[k].hash
  }

  /** Neither a queued nor a requested block is outstanding. */
  predicate Idle(d: Download) {
    d.queue == [] && d.inFlight == {}
  }

  /** The buffer entry under `key` has no buffered parent. */
  predicate IsHead(d: Download, key: BlockHash) {
    key in d.buffer && key !in BufferedHashes(d)
  }

  ghost predicate NoneConnected(d: Download, active: set<BlockHash>) {
    forall k :: k in d.buffer ==> k !in active
  }

  /** The buffer entries `take_connectable` may return; the choice among them is the map's iteration order. */
  ghost predicate CanTake(d: Download, active: set<BlockHash>, key: BlockHash) {
    && key in d.buffer
    && (key in active || (NoneConnected(d, active) && Idle(d) && IsHead(d, key)))
  }

  ghost predicate CanTakeNothing(d: Download, active: set<BlockHash>) {
    NoneConnected(d, active) && (!Idle(d) || forall k :: k in d.buffer ==> !IsHead(d, k))
  }

  /** What one batch takes off the queue, and what it leaves. */
  datatype Popped = Popped(batch: seq<BlockHash>, rest: seq<BlockHash>)

  function PopFrom(queue: seq<BlockHash>, inFlight: set<BlockHash>, n: nat): Popped {
    if n == 0 || queue == [] then
      Popped([], queue)
    else if queue[0] in inFlight then
      PopFrom(queue[1..], inFlight, n)
    else
      var r := PopFrom(queue[1..], inFlight + {queue[0]}, n - 1);
      Popped([queue[0]] + r.batch, r.rest)
  }

  /** A batch holds, once each and in queue order, exactly the unrequested hashes of the stretch it consumed. */
  lemma {:induction false} PopFacts(queue: seq<BlockHash>, inFlight: set<BlockHash>, n: nat) returns (taken: seq<BlockHash>)
    ensures var r := PopFrom(queue, inFlight, n);
            && queue == taken + r.rest
            && Elems(r.batch) == Elems(taken) - inFlight
            && NoDup(r.batch) && Subsequence(r.batch, taken) && |r.batch| <= n
            && (|r.batch| == n || r.rest == [])
  {
    hide Subsequence;
    if n == 0 || queue == [] {
      taken := [];
      SubsequenceEmpty<BlockHash>();
    } else {
      var isNew := queue[0] !in inFlight;
      var f := if isNew then inFlight + {queue[0]} else inFlight;
      var r := PopFrom(queue[1..], f, if isNew then n - 1 else n);
      var t := PopFacts(queue[1..], f, if isNew then n - 1 else n);
      taken := [queue[0]] + t;
      assert queue == taken + r.rest;
      ElemsConcat([queue[0]], t);
      ElemsConcat([queue[0]], r.batch);
      if isNew {
        NoDupConcat([queue[0]], r.batch);
        SubsequenceKeep(queue[0], r.batch, t);
      } else {
        assert queue[0] !in Elems(r.batch);
        SubsequenceSkip(queue[0], r.batch, t);
      }
    }
  }

  /** On a queue without repeats and free of requested hashes a batch is simply the queue's front. */
  lemma {:induction false} PopIsFifo(queue: seq<BlockHash>, inFlight: set<BlockHash>, n: nat)
    requires NoDup(queue) && Elems(queue) !! inFlight
    ensures var k := if n < |queue| then n else |queue|;
            PopFrom(queue, inFlight, n) == Popped(queue[..k], queue[k..])
  {
    if n > 0 && queue != [] {
      var tail := queue[1..];
      assert queue == [queue[0]] + tail;
      ElemsConcat([queue[0]], tail);
      PopIsFifo(tail, inFlight + {queue[0]}, n - 1);
    }
  }

  /** Unrequested hashes at the front of the queue are popped before anything behind them. */
  lemma {:induction false} PopTakesFront(front: seq<BlockHash>, rest: seq<BlockHash>, inFlight: set<BlockHash>, n: nat)
    requires NoDup(front) && Elems(front) !! inFlight
    ensures var batch, k := PopFrom(front + rest, inFlight, n).batch, if n < |front| then n else |front|;
            |batch| >= k && batch[..k] == front[..k]
  {
    if n > 0 && front != [] {
      assert front == [front[0]] + front[1..];
      ElemsConcat([front[0]], front[1..]);
      assert (front + rest)[1..] == front[1..] + rest;
      PopTakesFront(front[1..], rest, inFlight + {front[0]}, n - 1);
    }
  }

  lemma FrontIsRequestedFirst(front: seq<BlockHash>, back: set<BlockHash>, rest: seq<BlockHash>, inFlight: set<BlockHash>, n: nat)
    requires Enumerates(front, back) && back !! inFlight
    ensures var batch := PopFrom(front + rest, inFlight, n).batch;
            if |back| <= n then |batch| >= |back| && Elems(batch[..|back|]) == back
            else |batch| == n && Elems(batch) <= back
  {
    hide PopFrom, Subsequence;
    NoDupCard(front);
    PopTakesFront(front, rest, inFlight, n);
    var taken := PopFacts(front + rest, inFlight, n);
    var batch := PopFrom(front + rest, inFlight, n).batch;
    if |front| <= n {
      assert front[..|front|] == front;
    } else {
      assert batch[..n] == batch == front[..n];
      assert forall h :: h in front[..n] ==> h in Elems(front);
    }
  }

  /** The hashes of `hashes` not yet requested, first occurrences only, in order. */
  function Fresh(hashes: seq<BlockHash>, inFlight: set<BlockHash>): seq<BlockHash> {
    if hashes == [] then []
    else if hashes[0] in inFlight then Fresh(hashes[1..], inFlight)
    else [hashes[0]] + Fresh(hashes[1..], inFlight + {hashes[0]})
  }

  lemma {:induction false} FreshFacts(hashes: seq<BlockHash>, inFlight: set<BlockHash>)
    ensures var r := Fresh(hashes, inFlight);
            NoDup(r) && Elems(r) == Elems(hashes) - inFlight && Subsequence(r, hashes)
  {
    if hashes != [] {
      var f := if hashes[0] in inFlight then inFlight else inFlight + {hashes[0]};
      FreshFacts(hashes[1..], f);
      assert hashes == [hashes[0]] + hashes[1..];
      ElemsConcat([hashes[0]], hashes[1..]);
      var rest := Fresh(hashes[1..], f);
      if hashes[0] !in inFlight {
        ElemsConcat([hashes[0]], rest);
        NoDupConcat([hashes[0]], rest);
        SubsequenceKeep(hashes[0], rest, hashes[1..]);
      } else {
        assert hashes[0] !in Elems(rest);
        SubsequenceSkip(hashes[0], rest, hashes[1..]);
      }
    }
  }

  /** The state after a peer gave back `inventory`; `front` is the order in which it was pushed. */
  function Requeued(d: Download, inventory: set<BlockHash>, front: seq<BlockHash>): Download {
    d.(queue := front + d.queue, inFlight := d.inFlight - inventory)
  }

  lemma NoneInFront(inventory: set<BlockHash>)
    ensures Enumerates([], inventory - inventory)
  {
  }

  lemma OneMoreInFront(front: seq<BlockHash>, inventory: set<BlockHash>, todo: set<BlockHash>, hash: BlockHash)
    requires Enumerates(front, inventory - todo) && hash in todo && todo <= inventory
    ensures Enumerates([hash] + front, inventory - (todo - {hash}))
  {
    assert hash !in Elems(front);
    NoDupConcat([hash], front);
    ElemsConcat([hash], front);
  }

  lemma FrontIs(front: seq<BlockHash>, rest: seq<BlockHash>, inventory: set<BlockHash>)
    requires Enumerates(front, inventory)
    ensures |front + rest| == |inventory| + |rest|
    ensures Elems((front + rest)[..|inventory|]) == inventory && (front + rest)[|inventory|..] == rest
  {
    NoDupCard(front);
    assert (front + rest)[..|front|] == front;
  }

  class DownloadState {
    var queue: seq<BlockHash>
    var inFlight: set<BlockHash>
    var buffer: map<BlockHash, Block>

    function View(): Download
      reads this
    {
      Download(queue, inFlight, buffer)
    }

    constructor ()
      ensures View() == EMPTY
    {
      queue, inFlight, buffer := [], {}, map[];
    }

    method PopBatch(batchSize: nat) returns (batch: seq<BlockHash>)
      modifies this
      ensures var p := PopFrom(old(queue), old(inFlight), batchSize);
              && batch == p.batch
              && View() == old(View()).(queue := p.rest, inFlight := old(inFlight) + Elems(batch))
    {
      batch := [];
      while |batch| < batchSize
        invariant |batch| <= batchSize && buffer == old(buffer)
        invariant inFlight == old(inFlight) + Elems(batch)
        invariant var p := PopFrom(queue, inFlight, batchSize - |batch|);
                  PopFrom(old(queue), old(inFlight), batchSize) == Popped(batch + p.batch, p.rest)
        decreases |queue|
      {
        if queue == [] {
          break;
        }
        var hash := queue[0];
        queue := queue[1..];
        if hash !in inFlight {
          inFlight := inFlight + {hash};
          ghost var p := PopFrom(queue, inFlight, batchSize - |batch| - 1);
          assert batch + ([hash] + p.batch) == batch + [hash] + p.batch;
          ElemsConcat(batch, [hash]);
          batch := batch + [hash];
        }
      }
    }

    method Claim(hashes: seq<BlockHash>) returns (claimed: seq<BlockHash>)
      modifies this
      ensures claimed == Fresh(hashes, old(inFlight))
      ensures View() == old(View()).(inFlight := old(inFlight) + Elems(claimed))
    {
      claimed := [];
      for i := 0 to |hashes|
        invariant queue == old(queue) && buffer == old(buffer)
        invariant inFlight == old(inFlight) + Elems(claimed)
        invariant Fresh(hashes, old(inFlight)) == claimed + Fresh(hashes[i..], inFlight)
      {
        assert hashes[i..][1..] == hashes[i + 1..];
        if hashes[i] !in inFlight {
          inFlight := inFlight + {hashes[i]};
          assert claimed + ([hashes[i]] + Fresh(hashes[i + 1..], inFlight))
              == claimed + [hashes[i]] + Fresh(hashes[i + 1..], inFlight);
          claimed := claimed + [hashes[i]];
        }
      }
    }

    method Release(hash: BlockHash) returns (was: bool)
      modifies this
      ensures was == (hash in old(inFlight))
      ensures View() == old(View()).(inFlight := old(inFlight) - {hash})
    {
      was := hash in inFlight;
      inFlight := inFlight - {hash};
    }

    method RequeueUnreceived(inventory: set<BlockHash>)
      modifies this
      ensures exists front :: Enumerates(front, inventory) && View() == Requeued(old(View()), inventory, front)
      ensures |queue| == |inventory| + |old(queue)|
      ensures Elems(queue[..|inventory|]) == inventory && queue[|inventory|..] == old(queue)
      ensures inFlight == old(inFlight) - inventory && buffer == old(buffer)
    {
      hide Enumerates;
      var todo := inventory;
      ghost var front := [];
      NoneInFront(inventory);
      while todo != {}
        invariant todo <= inventory && buffer == old(buffer)
        invariant Enumerates(front, inventory - todo)
        invariant queue == front + old(queue)
        invariant inFlight == old(inFlight) - (inventory - todo)
        decreases todo
      {
        var hash :| hash in todo;
        OneMoreInFront(front, inventory, todo, hash);
        assert [hash] + (front + old(queue)) == [hash] + front + old(queue);
        inFlight := inFlight - {hash};
        queue := [hash] + queue;
        front := [hash] + front;
        todo := todo - {hash};
      }
      assert inventory - todo == inventory;
      assert Enumerates(front, inventory) && View() == Requeued(old(View()), inventory, front);
      FrontIs(front, old(queue), inventory);
    }

    method BufferBlock(prev: BlockHash, block: Block)
      modifies this
      ensures View() == old(View()).(buffer := old(buffer)[prev := block])
    {
      buffer := buffer[prev := block];
    }

    method TakeConnectable(active: set<BlockHash>) returns (r: Option<Block>)
      modifies this
      ensures r.None? ==> View() == old(View()) && CanTakeNothing(View(), active)
      ensures r.Some? ==> exists key :: CanTake(old(View()), active, key) && r.value == old(buffer)[key]
                                        && View() == old(View()).(buffer := old(buffer) - {key})
    {
      var todo := buffer.Keys;
      while todo != {}
        invariant todo <= buffer.Keys && View() == old(View())
        invariant forall k :: k in buffer && k !in todo ==> k !in active
        decreases todo
      {
        var prev :| prev in todo;
        if prev in active {
          assert CanTake(View(), active, prev);
          r := Some(buffer[prev]);
          buffer := buffer - {prev};
          return;
        }
        todo := todo - {prev};
      }
      if queue != [] || inFlight != {} {
        return None;
      }
      var head := BufferHead();
      if head.None? {
        return None;
      }
      assert CanTake(View(), active, head.value);
      r := Some(buffer[head.value]);
      buffer := buffer - {head.value};
    }

    method BufferHead() returns (r: Option<BlockHash>)
      ensures r.Some? ==> IsHead(View(), r.value)
      ensures r.None? ==> forall k :: k in buffer ==> !IsHead(View(), k)
    {
      var buffered := BufferedHashes(View());
      var todo := buffer.Keys;
      while todo != {}
        invariant todo <= buffer.Keys
        invariant forall k :: k in buffer && k !in todo ==> k in buffered
        decreases todo
      {
        var prev :| prev in todo;
        if prev !in buffered {
          return Some(prev);
        }
        todo := todo - {prev};
      }
      r := None;
    }
  }
}
