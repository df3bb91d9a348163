/** Concrete runs showing that the hand-over and fetch-once theorems need their conditions. */
module Races {
  import opened Basics
  import opened Downloads
  import opened QueueBuilding
  import opened Peers
  import opened Handover
  import opened Refetches

  const LOW := Block(1, 0)
  const HIGH := Block(2, 1)
  const CHAIN := Chain(0, [1, 2])

  function Listen(inventory: set<BlockHash>): Thread {
    Listening(7, AwaitingBlock(inventory))
  }

  function One(th: Thread, queue: seq<BlockHash>, inFlight: set<BlockHash>, buffer: map<BlockHash, Block>, handed: seq<Block>): Node {
    Node(Download(queue, inFlight, buffer), {7}, map[0 := th], {0}, handed)
  }

  lemma BuildsBoth()
    ensures CommitQueue(EMPTY, [1, 2]) == EMPTY.(queue := [1, 2])
  {
    var path: seq<BlockHash> := [1, 2];
    assert path[..1] == [1] && path[..1][..0] == [];
    assert Unheld([], EMPTY) == [];
    assert Unheld(path[..1], EMPTY) == [1];
  }

  lemma PopsBoth()
    ensures PopFrom([1, 2], {}, DOWNLOAD_BATCH_SIZE) == Popped([1, 2], [])
  {
    var queue: seq<BlockHash> := [1, 2];
    PopIsFifo(queue, {}, DOWNLOAD_BATCH_SIZE);
  }

  /** The states of the run, from start-up to the hand-over of the upper block. */
  function At(i: nat): Node {
    match i
    case 0 => Node(EMPTY, {}, map[0 := Selecting], {0}, [])
    case 1 => One(Connecting(7), [], {}, map[], [])
    case 2 => One(Listening(7, AwaitingHeaders), [], {}, map[], [])
    case 3 => One(Syncing(7), [], {}, map[], [])
    case 4 => One(Syncing(7), [1, 2], {}, map[], [])
    case 5 => One(Listen({1, 2}), [], {1, 2}, map[], [])
    case 6 => One(Buffering(7, {1}, HIGH), [], {1}, map[], [])
    case 7 => One(Listen({1}), [], {1}, map[1 := HIGH], [])
    case 8 => One(Buffering(7, {}, LOW), [], {}, map[1 := HIGH], [])
    case _ => One(Buffering(7, {}, LOW), [], {}, map[], [HIGH])
  }

  function By(i: nat): Step {
    match i
    case 0 => Insert(0, 7)
    case 1 => ConnectOk(0)
    case 2 => EndOfHeaders(0)
    case 3 => Rebuild(0, [1, 2])
    case 4 => PopBatch(0)
    case 5 => Release(0, HIGH)
    case 6 => Store(0)
    case 7 => Release(0, LOW)
    case _ => Take(1)
  }

  lemma Connects(i: nat)
    requires i < 4
    ensures Enabled(At(i), By(i)) && Apply(At(i), By(i)) == At(i + 1)
  {
    if i == 3 {
      BuildsBoth();
    }
  }

  lemma Pops()
    ensures Enabled(At(4), By(4)) && Apply(At(4), By(4)) == At(5)
  {
    PopsBoth();
    var batch: seq<BlockHash> := [1, 2];
    assert Elems(batch) == {1, 2};
  }

  lemma Delivers(i: nat)
    requires 5 <= i < 8
    ensures Enabled(At(i), By(i)) && Apply(At(i), By(i)) == At(i + 1)
  {
    if i == 5 {
      assert {1, 2} - {2} == {1};
    } else if i == 7 {
      assert {1} - {1} == {};
    }
  }

  lemma HandsOver()
    ensures Enabled(At(8), By(8)) && Apply(At(8), By(8)) == At(9)
  {
    assert IsHead(At(8).d, 1);
  }

  lemma OnChain()
    ensures CHAIN.Has(LOW) && CHAIN.Has(HIGH)
  {
    assert CHAIN.At(0) == LOW && CHAIN.At(1) == HIGH;
  }

  /**
   One honest peer delivers the upper block first. Between the release of the lower block and its
   buffering the node looks idle, and the validator is handed the upper block alone.
   */
  lemma OutOfOrderRun() returns (states: seq<Node>, steps: seq<Step>)
    ensures IsRun(states, steps) && Init(states[0]) && |steps| == 9
    ensures Conserved(states[4], CHAIN) && states[4].handed == []
    ensures forall i :: 4 <= i < 9 ==> ChainStep(states[i], steps[i], CHAIN)
    ensures !InOrder(states[9], CHAIN)
  {
    states := seq(10, i requires 0 <= i < 10 => At(i));
    steps := seq(9, i requires 0 <= i < 9 => By(i));
    forall i | 0 <= i < 9
      ensures Enabled(At(i), By(i)) && Apply(At(i), By(i)) == At(i + 1)
      ensures i >= 4 ==> ChainStep(At(i), By(i), CHAIN)
    {
      Moves(i);
      if i >= 4 {
        StaysOnChain(i);
      }
    }
    StartsChain();
    assert CHAIN.At(0) == LOW;
  }

  lemma Moves(i: nat)
    requires i < 9
    ensures Enabled(At(i), By(i)) && Apply(At(i), By(i)) == At(i + 1)
  {
    if i < 4 {
      Connects(i);
    } else if i < 5 {
      Pops();
    } else if i < 8 {
      Delivers(i);
    } else {
      HandsOver();
    }
  }

  lemma StaysOnChain(i: nat)
    requires 4 <= i < 9
    ensures ChainStep(At(i), By(i), CHAIN)
  {
    Moves(i);
    OnChain();
  }

  lemma StartsChain()
    ensures Conserved(At(4), CHAIN)
  {
    FreshStart(At(3), CHAIN);
  }

  function Two(connected: set<Dest>, a: Thread, b: Thread, queue: seq<BlockHash>, inFlight: set<BlockHash>,
               buffer: map<BlockHash, Block>, handed: seq<Block>): Node {
    Node(Download(queue, inFlight, buffer), connected, map[0 := a, 1 := b], {0}, handed)
  }

  /** Two honest peers: the second ends its header sync before the validator has connected what it got. */
  function Twice(i: nat): Node {
    match i
    case 0 => Two({}, Selecting, Selecting, [], {}, map[], [])
    case 1 => Two({7}, Connecting(7), Selecting, [], {}, map[], [])
    case 2 => Two({7}, Listening(7, AwaitingHeaders), Selecting, [], {}, map[], [])
    case 3 => Two({7}, Syncing(7), Selecting, [], {}, map[], [])
    case 4 => Two({7}, Syncing(7), Selecting, [1, 2], {}, map[], [])
    case 5 => Two({7}, Listen({1, 2}), Selecting, [], {1, 2}, map[], [])
    case 6 => Two({7, 8}, Listen({1, 2}), Connecting(8), [], {1, 2}, map[], [])
    case 7 => Two({7, 8}, Listen({1, 2}), Listening(8, AwaitingHeaders), [], {1, 2}, map[], [])
    case 8 => Two({7, 8}, Listen({1, 2}), Syncing(8), [], {1, 2}, map[], [])
    case 9 => Two({7, 8}, Buffering(7, {2}, LOW), Syncing(8), [], {2}, map[], [])
    case 10 => Two({7, 8}, Listen({2}), Syncing(8), [], {2}, map[0 := LOW], [])
    case 11 => Two({7, 8}, Listen({2}), Syncing(8), [], {2}, map[], [LOW])
    case 12 => Two({7, 8}, Listen({2}), Syncing(8), [1], {2}, map[], [LOW])
    case 13 => Two({7, 8}, Listen({2}), Listening(8, AwaitingBlock({1})), [], {1, 2}, map[], [LOW])
    case _ => Two({7, 8}, Listen({2}), Buffering(8, {}, LOW), [], {2}, map[], [LOW])
  }

  function TwiceBy(i: nat): Step {
    match i
    case 0 => Insert(0, 7)
    case 1 => ConnectOk(0)
    case 2 => EndOfHeaders(0)
    case 3 => Rebuild(0, [1, 2])
    case 4 => PopBatch(0)
    case 5 => Insert(1, 8)
    case 6 => ConnectOk(1)
    case 7 => EndOfHeaders(1)
    case 8 => Release(0, LOW)
    case 9 => Store(0)
    case 10 => Take(0)
    case 11 => Rebuild(1, [1, 2])
    case 12 => PopBatch(1)
    case _ => Release(1, LOW)
  }

  lemma TwiceStarts(i: nat)
    requires i < 4
    ensures Enabled(Twice(i), TwiceBy(i)) && Apply(Twice(i), TwiceBy(i)) == Twice(i + 1)
  {
    if i == 3 {
      BuildsBoth();
    }
  }

  lemma TwicePops()
    ensures Enabled(Twice(4), TwiceBy(4)) && Apply(Twice(4), TwiceBy(4)) == Twice(5)
  {
    PopsBoth();
    var batch: seq<BlockHash> := [1, 2];
    assert Elems(batch) == {1, 2};
  }

  lemma TwiceJoins(i: nat)
    requires 5 <= i < 8
    ensures Enabled(Twice(i), TwiceBy(i)) && Apply(Twice(i), TwiceBy(i)) == Twice(i + 1)
  {
  }

  lemma TwiceDelivers(i: nat)
    requires 8 <= i < 11
    ensures Enabled(Twice(i), TwiceBy(i)) && Apply(Twice(i), TwiceBy(i)) == Twice(i + 1)
  {
    if i == 8 {
      assert {1, 2} - {1} == {2};
    }
  }

  /** The handed-over block is neither buffered nor in flight, so the rebuild queues it again. */
  lemma TwiceRebuilds()
    ensures Enabled(Twice(11), TwiceBy(11)) && Apply(Twice(11), TwiceBy(11)) == Twice(12)
  {
    RebuildsFirst(Twice(11).d);
  }

  lemma RebuildsFirst(d: Download)
    requires d == Download([], {2}, map[])
    ensures CommitQueue(d, [1, 2]) == d.(queue := [1])
  {
    var path: seq<BlockHash> := [1, 2];
    assert path[..1] == [1] && path[..1][..0] == [];
    assert Unheld([], d) == [];
    assert Unheld(path[..1], d) == [1];
    assert Unheld(path, d) == [1];
  }

  lemma TwiceAsksAgain(i: nat)
    requires 12 <= i < 14
    ensures Enabled(Twice(i), TwiceBy(i)) && Apply(Twice(i), TwiceBy(i)) == Twice(i + 1)
  {
    if i == 12 {
      var queue: seq<BlockHash> := [1];
      PopIsFifo(queue, {2}, DOWNLOAD_BATCH_SIZE);
      assert PopFrom(queue, {2}, DOWNLOAD_BATCH_SIZE) == Popped([1], []);
      assert Elems(queue) == {1};
    } else {
      assert {1} - {1} == {};
    }
  }

  lemma TwiceMoves(i: nat)
    requires i < 14
    ensures Enabled(Twice(i), TwiceBy(i)) && Apply(Twice(i), TwiceBy(i)) == Twice(i + 1)
  {
    if i < 4 {
      TwiceStarts(i);
    } else if i < 5 {
      TwicePops();
    } else if i < 8 {
      TwiceJoins(i);
    } else if i < 11 {
      TwiceDelivers(i);
    } else if i < 12 {
      TwiceRebuilds();
    } else {
      TwiceAsksAgain(i);
    }
  }

  /** Every delivery is one that was asked for, and still block 1 is requested, delivered and accepted twice. */
  lemma FetchedTwiceRun() returns (states: seq<Node>, steps: seq<Step>)
    ensures IsRun(states, steps) && Init(states[0]) && |steps| == 14
    ensures forall i :: 0 <= i < 14 ==> Solicited(states[i], steps[i])
    ensures Accepts(states[8], steps[8], 1) && Accepts(states[13], steps[13], 1)
    ensures !AsksOnlyForNew(states[11], steps[11])
  {
    states := seq(15, i requires 0 <= i < 15 => Twice(i));
    steps := seq(14, i requires 0 <= i < 14 => TwiceBy(i));
    forall i | 0 <= i < 14
      ensures Enabled(Twice(i), TwiceBy(i)) && Apply(Twice(i), TwiceBy(i)) == Twice(i + 1)
      ensures Solicited(Twice(i), TwiceBy(i))
    {
      TwiceMoves(i);
    }
    assert LOW in Twice(11).handed;
    var path: seq<BlockHash> := [1, 2];
    assert path[0] in path && LOW.hash in Hashes(Twice(11).handed);
  }

  /** The second peer delivers, unasked, a block the first one owes; then the first one leaves. */
  function Late(i: nat): Node {
    match i
    case 9 => Twice(8)
    case 10 => Two({7, 8}, Listen({1, 2}), Listening(8, AwaitingInv), [], {1, 2}, map[], [])
    case 11 => Two({7, 8}, Listen({1, 2}), Listening(8, AwaitingBlock({3})), [], {1, 2, 3}, map[], [])
    case 12 => Two({7, 8}, Listen({1, 2}), Buffering(8, {3}, LOW), [], {2, 3}, map[], [])
    case 13 => Two({7, 8}, Listen({1, 2}), Listening(8, AwaitingBlock({3})), [], {2, 3}, map[0 := LOW], [])
    case 14 => Two({7, 8}, Leaving(7), Listening(8, AwaitingBlock({3})), [1, 2], {3}, map[0 := LOW], [])
    case _ => Twice(i)
  }

  function LateBy(i: nat): Step {
    match i
    case 8 => Rebuild(1, [1, 2])
    case 9 => PopBatch(1)
    case 10 => Announce(1, [3])
    case 11 => Release(1, LOW)
    case 12 => Store(1)
    case 13 => Disconnect(0, [1, 2])
    case _ => TwiceBy(i)
  }

  /** Both blocks are in flight, so the second peer finds nothing to fetch and waits for news. */
  lemma LateJoins()
    ensures Enabled(Late(8), LateBy(8)) && Apply(Late(8), LateBy(8)) == Late(9)
    ensures Enabled(Late(9), LateBy(9)) && Apply(Late(9), LateBy(9)) == Late(10)
  {
    var path: seq<BlockHash> := [1, 2];
    assert path[..1] == [1] && path[..1][..0] == [];
    assert Unheld([], Late(8).d) == [];
    assert Unheld(path[..1], Late(8).d) == [];
    assert Unheld(path, Late(8).d) == [];
    assert PopFrom([], {1, 2}, DOWNLOAD_BATCH_SIZE) == Popped([], []);
  }

  lemma LateAnnounces()
    ensures Enabled(Late(10), LateBy(10)) && Apply(Late(10), LateBy(10)) == Late(11)
  {
    var hashes: seq<BlockHash> := [3];
    assert hashes[1..] == [];
    assert Fresh(hashes, {1, 2}) == hashes;
    assert Elems(hashes) == {3};
  }

  lemma LateDelivers(i: nat)
    requires 11 <= i < 13
    ensures Enabled(Late(i), LateBy(i)) && Apply(Late(i), LateBy(i)) == Late(i + 1)
  {
    if i == 11 {
      assert {1, 2, 3} - {1} == {2, 3} && {3} - {1} == {3};
    }
  }

  lemma LateLeaves()
    ensures Enabled(Late(13), LateBy(13)) && Apply(Late(13), LateBy(13)) == Late(14)
  {
    var front: seq<BlockHash> := [1, 2];
    assert Elems(front) == {1, 2};
    assert front + [] == front && {2, 3} - {1, 2} == {3};
  }

  lemma LateMoves(i: nat)
    requires i < 14
    ensures Enabled(Late(i), LateBy(i)) && Apply(Late(i), LateBy(i)) == Late(i + 1)
  {
    if i < 8 {
      TwiceMoves(i);
    } else if i < 10 {
      LateJoins();
    } else if i < 11 {
      LateAnnounces();
    } else if i < 13 {
      LateDelivers(i);
    } else {
      LateLeaves();
    }
  }

  /** The parent of a block in these runs, where hashes count upwards. */
  function Lower(h: BlockHash): BlockHash {
    if h == 0 then 0 else h - 1
  }

  /**
   Only the leaving peer asks for something old: it gives back a block that arrived meanwhile. From
   there honest peers alone bring the block in a second time.
   */
  lemma LateReturnRun() returns (states: seq<Node>, steps: seq<Step>, later: seq<Node>, more: seq<Step>)
    ensures IsRun(states, steps) && Init(states[0]) && |steps| == 14
    ensures forall i :: 0 <= i < 14 ==> (AsksOnlyForNew(states[i], steps[i]) <==> i < 13)
    ensures steps[13].Disconnect? && !NoneWantedAgain(states[14])
    ensures Accepts(states[11], steps[11], 1) && AcceptsLater(states[14], later, more, 1, Lower)
  {
    hide Apply, Enabled, Late, LateBy, AsksOnlyForNew, Wanted, Arrived, AcceptsLater;
    states := seq(15, i requires 0 <= i < 15 => Late(i));
    steps := seq(14, i requires 0 <= i < 14 => LateBy(i));
    forall i | 0 <= i < 14
      ensures Enabled(Late(i), LateBy(i)) && Apply(Late(i), LateBy(i)) == Late(i + 1)
      ensures AsksOnlyForNew(Late(i), LateBy(i)) <==> i < 13
    {
      LateMoves(i);
      LateAsks(i);
    }
    LateEnd();
    LateAccepts();
    var k;
    k, later, more := WantedAgainIsFetchedAgain(states, steps, 1, Lower);
  }

  lemma LateAccepts()
    ensures Init(Late(0)) && LateBy(13).Disconnect? && Accepts(Late(11), LateBy(11), 1)
  {
  }

  lemma LateEnd()
    ensures 1 in Wanted(Late(14)) && 1 in Arrived(Late(14)) && 1 in Arrived(Late(13))
  {
    var queue: seq<BlockHash> := [1, 2];
    assert queue[0] in queue;
    assert Late(14).d.buffer[0] == LOW && LOW.hash in BufferedHashes(Late(14).d);
    assert Late(13).d.buffer[0] == LOW && LOW.hash in BufferedHashes(Late(13).d);
  }

  lemma NothingArrived(i: nat)
    requires i <= 10
    ensures Arrived(Late(i)) == {}
  {
  }

  lemma LateAsks(i: nat)
    requires i < 14
    ensures AsksOnlyForNew(Late(i), LateBy(i)) <==> i < 13
  {
    if i <= 10 {
      NothingArrived(i);
    } else if i == 13 {
      LateEnd();
      var front: seq<BlockHash> := [1, 2];
      assert front[0] in front;
    }
  }
}
