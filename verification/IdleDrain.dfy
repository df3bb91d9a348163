/**
 Draining the buffer once no peer owes anything: `take_connectable` called again and again, each
 time against whatever the active chain is by then.
 */
module IdleDrain {
  import opened Basics
  import opened Downloads

  /** Every entry is stored under its parent, and parents rank strictly below their children. */
  ghost predicate Forest(d: Download, rank: BlockHash -> nat) {
    forall k :: k in d.buffer ==> d.buffer[k].prev == k && rank(k) < rank(d.buffer[k].hash)
  }

  lemma {:induction false} LowestKey(keys: set<BlockHash>, rank: BlockHash -> nat) returns (low: BlockHash)
    requires keys != {}
    ensures low in keys && forall k :: k in keys ==> rank(low) <= rank(k)
    decreases keys
  {
    low :| low in keys;
    if keys != {low} {
      var other := LowestKey(keys - {low}, rank);
      low := if rank(other) < rank(low) then other else low;
    }
  }

  /** A non-empty acyclic buffer always has an entry whose parent is not buffered. */
  lemma HeadExists(d: Download, rank: BlockHash -> nat) returns (head: BlockHash)
    requires Forest(d, rank) && d.buffer != map[]
    ensures IsHead(d, head)
  {
    assert d.buffer.Keys != {};
    head := LowestKey(d.buffer.Keys, rank);
  }

  /** The entry under `parent` is the block that the entry under `child` builds on. */
  ghost predicate ParentOf(d: Download, parent: BlockHash, child: BlockHash) {
    parent in d.buffer && child in d.buffer && d.buffer[child].prev == d.buffer[parent].hash
  }

  /** One successful call: the active chain it saw and the entry it removed. */
  datatype Call = Call(active: set<BlockHash>, key: BlockHash)

  ghost predicate DrainRun(ds: seq<Download>, calls: seq<Call>) {
    && |ds| == |calls| + 1
    && forall i :: 0 <= i < |calls| ==>
         && CanTake(ds[i], calls[i].active, calls[i].key)
         && ds[i + 1] == ds[i].(buffer := ds[i].buffer - {calls[i].key})
  }

  function Keys(calls: seq<Call>): (r: seq<BlockHash>)
    ensures |r| == |calls| && forall i :: 0 <= i < |calls| ==> r[i] == calls[i].key
  {
    seq(|calls|, i requires 0 <= i < |calls| => calls[i].key)
  }

  /** After any number of calls the buffer is the original one minus the keys released so far, all distinct. */
  lemma {:induction false} Remaining(ds: seq<Download>, calls: seq<Call>)
    requires DrainRun(ds, calls)
    ensures NoDup(Keys(calls)) && Elems(Keys(calls)) <= ds[0].buffer.Keys
    ensures ds[|calls|] == ds[0].(buffer := ds[0].buffer - Elems(Keys(calls)))
  {
    var n := |calls| - 1;
    if n < 0 {
      assert ds[0].buffer - Elems(Keys(calls)) == ds[0].buffer;
    } else {
      Remaining(ds[..|ds| - 1], calls[..n]);
      var before := Keys(calls[..n]);
      assert Keys(calls) == before + [calls[n].key];
      assert CanTake(ds[n], calls[n].active, calls[n].key);
      NoDupConcat(before, [calls[n].key]);
      ElemsConcat(before, [calls[n].key]);
      assert ds[n].buffer - {calls[n].key} == ds[0].buffer - Elems(Keys(calls));
    }
  }

  /**
   With queue and in-flight set empty, calls go on succeeding until every buffered block has been
   released exactly once, and no child leaves before its parent unless the parent was already on
   the active chain.
   */
  lemma IdleDrainsAll(ds: seq<Download>, calls: seq<Call>, rank: BlockHash -> nat, last: set<BlockHash>)
    requires DrainRun(ds, calls)
    requires Idle(ds[0]) && Forest(ds[0], rank)
    requires CanTakeNothing(ds[|calls|], last)
    ensures ds[|calls|].buffer == map[] && |calls| == |ds[0].buffer|
    ensures Enumerates(Keys(calls), ds[0].buffer.Keys)
    ensures forall i, j :: 0 <= i < j < |calls| && ParentOf(ds[0], calls[j].key, calls[i].key) ==>
              calls[i].key in calls[i].active
  {
    Remaining(ds, calls);
    var end := ds[|calls|];
    if end.buffer != map[] {
      var head := HeadExists(end, rank);
      assert false;
    }
    assert forall k :: k in ds[0].buffer ==> k in end.buffer || k in Elems(Keys(calls));
    NoDupCard(Keys(calls));
    assert Elems(Keys(calls)) == ds[0].buffer.Keys;
    assert |ds[0].buffer| == |ds[0].buffer.Keys|;
    forall i, j | 0 <= i < j < |calls| && ParentOf(ds[0], calls[j].key, calls[i].key)
      ensures calls[i].key in calls[i].active
    {
      ParentFirst(ds, calls, i, j, rank);
    }
  }

  lemma ParentFirst(ds: seq<Download>, calls: seq<Call>, i: nat, j: nat, rank: BlockHash -> nat)
    requires DrainRun(ds, calls) && Forest(ds[0], rank) && i < j < |calls|
    requires Elems(Keys(calls)) <= ds[0].buffer.Keys && NoDup(Keys(calls))
    requires ParentOf(ds[0], calls[j].key, calls[i].key)
    ensures calls[i].key in calls[i].active
  {
    Remaining(ds[..i + 1], calls[..i]);
    var now := ds[i];
    var child, parent := Keys(calls)[i], Keys(calls)[j];
    assert CanTake(now, calls[i].active, child);
    assert forall k :: 0 <= k < i ==> Keys(calls[..i])[k] == Keys(calls)[k] != parent;
    assert parent !in Elems(Keys(calls[..i]));
    assert parent in Elems(Keys(calls));
    assert parent in now.buffer && now.buffer[parent].hash == child;
    assert child in BufferedHashes(now);
  }
}
