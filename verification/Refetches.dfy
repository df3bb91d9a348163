/** When a block that has already arrived is requested again. */
module Refetches {
  import opened Basics
  import opened Downloads
  import opened QueueBuilding
  import opened Peers
  import opened Handover

  function Wanted(s: Node): set<BlockHash> {
    Elems(s.d.queue) + s.d.inFlight
  }

  function Arrived(s: Node): set<BlockHash> {
    Transit(s) + BufferedHashes(s.d) + Hashes(s.handed)
  }

  /** Nothing that has arrived is still queued or requested. */
  ghost predicate NoneWantedAgain(s: Node) {
    Wanted(s) !! Arrived(s)
  }

  /**
   The rebuilt branch has no arrived block the filter misses, an announcement names no arrived
   block, the delivered block is not queued a second time, and a leaving peer gives back no block
   that another one delivered in its place.
   */
  ghost predicate AsksOnlyForNew(s: Node, step: Step) {
    match step
    case Rebuild(_, path) =>
      s.d.queue != [] || forall h :: h in path && (h in Transit(s) || h in Hashes(s.handed)) ==> h in BufferedHashes(s.d)
    case Announce(_, hashes) => forall h :: h in hashes ==> h !in Arrived(s)
    case Release(_, block) => block.hash in s.d.inFlight ==> block.hash !in s.d.queue
    case Disconnect(_, front) => forall h :: h in front ==> h !in Arrived(s)
    case _ => true
  }

  /** What a step does to the arrived blocks, unless it buffers over a sibling. */
  lemma ArrivedAfter(s: Node, step: Step)
    requires Enabled(s, step)
    ensures Arrived(Apply(s, step)) <= Arrived(s) + (if step.Release? then s.d.inFlight * {step.block.hash} else {})
    ensures step.Release? ==> Arrived(Apply(s, step)) == Arrived(s) + s.d.inFlight * {step.block.hash}
    ensures !step.Release? && !step.Store? ==> Arrived(Apply(s, step)) == Arrived(s)
  {
    hide Apply, Enabled;
    match step {
      case Take(_) => ArrivedTake(s, step);
      case Store(_) =>
        forall h | h in Arrived(Apply(s, step))
          ensures h in Arrived(s)
        {
          ArrivedStore(s, step, h);
        }
      case Release(_, _) => ArrivedRelease(s, step);
      case _ => ArrivedOther(s, step);
    }
  }

  lemma ArrivedRelease(s: Node, step: Step)
    requires Enabled(s, step) && step.Release?
    ensures Arrived(Apply(s, step)) == Arrived(s) + s.d.inFlight * {step.block.hash}
  {
    var s' := Apply(s, step);
    TransitAfter(s, step.t, Moved(s, step));
    SameTransit(s', s.(threads := s.threads[step.t := Moved(s, step)]));
    assert BufferedHashes(s'.d) == BufferedHashes(s.d);
  }

  lemma ArrivedOther(s: Node, step: Step)
    requires Enabled(s, step) && !step.Take? && !step.Store? && !step.Release?
    ensures Arrived(Apply(s, step)) == Arrived(s)
  {
    var s' := Apply(s, step);
    if !step.NewActive? {
      TransitAfter(s, step.t, Moved(s, step));
      SameTransit(s', s.(threads := s.threads[step.t := Moved(s, step)]));
    }
    assert s'.d.buffer == s.d.buffer && s'.handed == s.handed;
    assert BufferedHashes(s'.d) == BufferedHashes(s.d);
    assert Transit(s') == Transit(s);
  }

  lemma SameTransit(s: Node, u: Node)
    requires s.threads == u.threads
    ensures Transit(s) == Transit(u)
  {
  }

  lemma ArrivedTake(s: Node, step: Step)
    requires Enabled(s, step) && step.Take?
    ensures Arrived(Apply(s, step)) == Arrived(s)
  {
    var s', block := Apply(s, step), s.d.buffer[step.key];
    SameTransit(s, s');
    assert block.hash in BufferedHashes(s.d);
    assert block in s'.handed;
    assert Hashes(s'.handed) == Hashes(s.handed) + {block.hash};
    forall h | h in BufferedHashes(s.d) && h != block.hash
      ensures h in BufferedHashes(s'.d)
    {
      var k :| k in s.d.buffer && s.d.buffer[k].hash == h;
      assert k in s'.d.buffer && s'.d.buffer[k] == s.d.buffer[k];
    }
    assert BufferedHashes(s'.d) <= BufferedHashes(s.d);
  }

  lemma ArrivedStore(s: Node, step: Step, h: BlockHash)
    requires Enabled(s, step) && step.Store?
    ensures h in Arrived(Apply(s, step)) ==> h in Arrived(s)
    ensures !Displaces(s, step, h) && h in Arrived(s) ==> h in Arrived(Apply(s, step))
  {
    var s', block := Apply(s, step), s.threads[step.t].block;
    assert block.hash in Transit(s);
    assert s'.d.buffer[block.prev] == block && block.hash in BufferedHashes(s'.d);
    assert BufferedHashes(s'.d) <= BufferedHashes(s.d) + {block.hash};
    if h in Transit(s') {
      var u :| u in s'.threads && s'.threads[u].Buffering? && s'.threads[u].block.hash == h;
      assert s.threads[u] == s'.threads[u];
    }
    if h in Transit(s) && h != block.hash {
      var u :| u in s.threads && s.threads[u].Buffering? && s.threads[u].block.hash == h;
      assert s.threads[u] == s'.threads[u];
    }
    if !Displaces(s, step, h) && h in BufferedHashes(s.d) {
      var k :| k in s.d.buffer && s.d.buffer[k].hash == h;
      if k != block.prev {
        assert s'.d.buffer[k] == s.d.buffer[k];
      }
    }
  }

  /** What a step does to the wanted blocks. */
  lemma WantedAfter(s: Node, step: Step)
    requires Enabled(s, step)
    ensures var w := Wanted(Apply(s, step));
            match step
            case Rebuild(_, path) =>
              w == Wanted(s) + (if s.d.queue != [] then {} else Elems(path) - BufferedHashes(s.d) - s.d.inFlight)
            case Announce(_, hashes) => w == Wanted(s) + Elems(hashes)
            case Release(_, block) => w == Elems(s.d.queue) + (s.d.inFlight - {block.hash})
            case PopBatch(_) => w <= Wanted(s)
            case Disconnect(_, front) => w == Wanted(s) + Elems(front)
            case _ => w == Wanted(s)
  {
    match step {
      case Rebuild(_, path) =>
        UnheldIsRest(path, s.d);
      case Announce(_, hashes) =>
        FreshFacts(hashes, s.d.inFlight);
      case PopBatch(_) =>
        var taken := PopFacts(s.d.queue, s.d.inFlight, DOWNLOAD_BATCH_SIZE);
        var p := PopFrom(s.d.queue, s.d.inFlight, DOWNLOAD_BATCH_SIZE);
        ElemsConcat(taken, p.rest);
      case Disconnect(t, front) =>
        ElemsConcat(front, s.d.queue);
      case _ =>
    }
  }

  /** A step keeps arrived blocks unwanted exactly if it asks only for new ones. */
  lemma AsksOnlyForNewExactly(s: Node, step: Step)
    requires Enabled(s, step) && NoneWantedAgain(s)
    ensures NoneWantedAgain(Apply(s, step)) <==> AsksOnlyForNew(s, step)
  {
    hide Wanted, Transit, Apply;
    ArrivedAfter(s, step);
    WantedAfter(s, step);
    Parts(s);
    var s' := Apply(s, step);
    match step {
      case Rebuild(_, path) =>
        assert forall h :: h in path <==> h in Elems(path);
      case Announce(_, hashes) =>
        assert forall h :: h in hashes <==> h in Elems(hashes);
      case Disconnect(_, front) =>
        assert forall h :: h in front <==> h in Elems(front);
      case _ =>
    }
  }

  lemma Parts(s: Node)
    ensures Elems(s.d.queue) <= Wanted(s) && s.d.inFlight <= Wanted(s) && Wanted(s) <= Elems(s.d.queue) + s.d.inFlight
    ensures forall h :: h in s.d.queue <==> h in Elems(s.d.queue)
  {
  }

  /** Whatever the peers send, a run never wants an arrived block again exactly if every step asks only for new ones. */
  lemma {:induction false} NoRefetchExactly(states: seq<Node>, steps: seq<Step>)
    requires IsRun(states, steps) && Init(states[0])
    ensures (forall i :: 0 <= i < |states| ==> NoneWantedAgain(states[i]))
       <==> (forall k :: 0 <= k < |steps| ==> AsksOnlyForNew(states[k], steps[k]))
  {
    if forall k :: 0 <= k < |steps| ==> AsksOnlyForNew(states[k], steps[k]) {
      forall i | 0 <= i < |states|
        ensures NoneWantedAgain(states[i])
      {
        NoneWantedUpTo(states, steps, i);
      }
    } else {
      var k :| 0 <= k < |steps| && !AsksOnlyForNew(states[k], steps[k]);
      if NoneWantedAgain(states[k]) {
        AsksOnlyForNewExactly(states[k], steps[k]);
        assert !NoneWantedAgain(states[k + 1]);
      }
    }
  }

  lemma {:induction false} NoneWantedUpTo(states: seq<Node>, steps: seq<Step>, i: nat)
    requires IsRun(states, steps) && Init(states[0]) && i < |states|
    requires forall k :: 0 <= k < i ==> AsksOnlyForNew(states[k], steps[k])
    ensures NoneWantedAgain(states[i])
  {
    if i > 0 {
      NoneWantedUpTo(states, steps, i - 1);
      AsksOnlyForNewExactly(states[i - 1], steps[i - 1]);
    }
  }

  /** The step accepts the block `h`: it was in flight and goes to the buffer. */
  ghost predicate Accepts(s: Node, step: Step, h: BlockHash) {
    step.Release? && step.block.hash == h && h in s.d.inFlight
  }

  /** The step buffers a sibling over the block `h`, which is then lost. */
  ghost predicate Displaces(s: Node, step: Step, h: BlockHash) {
    && step.Store? && step.t in s.threads && s.threads[step.t].Buffering?
    && var block := s.threads[step.t].block;
       block.prev in s.d.buffer && s.d.buffer[block.prev].hash == h != block.hash
  }

  lemma {:induction false} StaysArrived(states: seq<Node>, steps: seq<Step>, i: nat, j: nat, h: BlockHash)
    requires IsRun(states, steps) && i <= j < |states| && h in Arrived(states[i])
    requires forall k :: i <= k < j ==> !Displaces(states[k], steps[k], h)
    ensures h in Arrived(states[j])
    decreases j - i
  {
    if i < j {
      hide Arrived, Apply, Displaces;
      ArrivedAfter(states[i], steps[i]);
      if steps[i].Store? {
        ArrivedStore(states[i], steps[i], h);
      }
      StaysArrived(states, steps, i + 1, j, h);
    }
  }

  /** Each block is fetched once: in such runs a hash is accepted again only after the block was lost to a sibling. */
  lemma FetchedOnce(states: seq<Node>, steps: seq<Step>, i: nat, j: nat, h: BlockHash)
    requires IsRun(states, steps) && Init(states[0]) && i < j < |steps|
    requires forall k :: 0 <= k < |steps| ==> AsksOnlyForNew(states[k], steps[k])
    requires Accepts(states[i], steps[i], h)
    ensures Accepts(states[j], steps[j], h) ==> exists k :: i < k < j && Displaces(states[k], steps[k], h)
  {
    if forall k :: i < k < j ==> !Displaces(states[k], steps[k], h) {
      ArrivedAfter(states[i], steps[i]);
      StaysArrived(states, steps, i + 1, j, h);
      NoneWantedUpTo(states, steps, j);
    }
  }

  lemma NoneArrivedAtStart(s: Node)
    requires Init(s)
    ensures Arrived(s) == {}
  {
  }

  /** Every arrived block was accepted at some step. */
  lemma {:induction false} ArrivedWasAccepted(states: seq<Node>, steps: seq<Step>, i: nat, h: BlockHash) returns (k: nat)
    requires IsRun(states, steps) && Init(states[0]) && i < |states| && h in Arrived(states[i])
    ensures k < i && Accepts(states[k], steps[k], h)
  {
    NoneArrivedAtStart(states[0]);
    hide Arrived, Apply, Enabled;
    if h in Arrived(states[i - 1]) {
      k := ArrivedWasAccepted(states, steps, i - 1, h);
    } else {
      k := i - 1;
      ArrivedAfter(states[k], steps[k]);
    }
  }

  /** Honest peers: only requested blocks are delivered, each with the parent its hash commits to. */
  ghost predicate Honest(s: Node, step: Step, prev: BlockHash -> BlockHash) {
    Solicited(s, step) && (step.Release? ==> step.block.prev == prev(step.block.hash))
  }

  /** From `s` on, honest peers can bring about a second acceptance of `h` in the last of these steps. */
  ghost predicate AcceptsLater(s: Node, states: seq<Node>, steps: seq<Step>, h: BlockHash, prev: BlockHash -> BlockHash) {
    && IsRun(states, steps) && states[0] == s && steps != []
    && (forall k :: 0 <= k < |steps| ==> Honest(states[k], steps[k], prev))
    && Accepts(states[|steps| - 1], steps[|steps| - 1], h)
  }

  lemma AcceptNow(s: Node, step: Step, h: BlockHash, prev: BlockHash -> BlockHash)
    requires Enabled(s, step) && Honest(s, step, prev) && Accepts(s, step, h)
    ensures AcceptsLater(s, [s, Apply(s, step)], [step], h, prev)
  {
  }

  lemma FirstThen(s: Node, step: Step, states: seq<Node>, steps: seq<Step>, h: BlockHash, prev: BlockHash -> BlockHash)
    requires Enabled(s, step) && Honest(s, step, prev) && AcceptsLater(Apply(s, step), states, steps, h, prev)
    ensures AcceptsLater(s, [s] + states, [step] + steps, h, prev)
  {
    hide Enabled, Apply, Honest, Accepts;
    var all, acts := [s] + states, [step] + steps;
    forall k | 0 <= k < |acts|
      ensures Enabled(all[k], acts[k]) && all[k + 1] == Apply(all[k], acts[k]) && Honest(all[k], acts[k], prev)
    {
      if k > 0 {
        assert all[k] == states[k - 1] && acts[k] == steps[k - 1] && all[k + 1] == states[k];
      }
    }
  }

  /** A requested block can be delivered by the peer it is owed by. */
  lemma OwedIsAccepted(s: Node, t: Tid, h: BlockHash, prev: BlockHash -> BlockHash)
    returns (states: seq<Node>, steps: seq<Step>)
    requires t in s.threads && h in Owes(s.threads[t]) && h in s.d.inFlight
    ensures AcceptsLater(s, states, steps, h, prev)
  {
    var deliver := Release(t, Block(h, prev(h)));
    if s.threads[t].Listening? {
      AcceptNow(s, deliver, h, prev);
      states, steps := [s, Apply(s, deliver)], [deliver];
    } else {
      var s' := Apply(s, Store(t));
      AcceptNow(s', deliver, h, prev);
      FirstThen(s, Store(t), [s', Apply(s', deliver)], [deliver], h, prev);
      states, steps := [s] + [s', Apply(s', deliver)], [Store(t)] + [deliver];
    }
  }

  /** How many steps of its own a thread may be away from popping the next batch. */
  function Distance(th: Thread): nat {
    match th
    case Syncing(_) => 0
    case Refilling(_) => 0
    case Listening(_, AwaitingHeaders) => 1
    case Listening(_, AwaitingInv) => 2
    case Connecting(_) => 2
    case Selecting => 3
    case Leaving(_) => 4
    case Listening(_, AwaitingBlock(inventory)) => 5 + 2 * |inventory|
    case Buffering(_, inventory, _) => 6 + 2 * |inventory|
  }

  lemma {:induction false} AboveAll(connected: set<Dest>) returns (dest: Dest)
    ensures forall d :: d in connected ==> d < dest
  {
    if connected == {} {
      dest := 0;
    } else {
      var d :| d in connected;
      var rest := connected - {d};
      var above := AboveAll(rest);
      dest := if d < above then above else d + 1;
      assert forall e :: e in connected ==> e == d || e in rest;
    }
  }

  /** The next step of a thread on its way to a batch, other than the pop itself. */
  lemma Approaches(s: Node, t: Tid, prev: BlockHash -> BlockHash) returns (step: Step)
    requires t in s.threads && Distance(s.threads[t]) > 0
    ensures Enabled(s, step) && Honest(s, step, prev) && !step.Take? && !step.NewActive?
    ensures var s' := Apply(s, step);
            && t in s'.threads && (step.EndOfHeaders? ==> step.t == t && s'.threads[t].Syncing?)
            && Distance(s'.threads[t]) < Distance(s.threads[t])
            && s'.d.queue == s.d.queue && s'.d.inFlight <= s.d.inFlight
  {
    match s.threads[t] {
      case Listening(_, AwaitingHeaders) =>
        step := EndOfHeaders(t);
      case Listening(_, AwaitingInv) =>
        step := Resync(t);
      case Connecting(_) =>
        step := ConnectOk(t);
      case Selecting =>
        var dest := AboveAll(s.connected);
        step := Insert(t, dest);
      case Leaving(_) =>
        step := Leave(t);
      case Buffering(_, _, _) =>
        step := Store(t);
      case Listening(_, AwaitingBlock(inventory)) =>
        step := ApproachesByDelivery(s, t, inventory, prev);
    }
  }

  lemma ApproachesByDelivery(s: Node, t: Tid, inventory: set<BlockHash>, prev: BlockHash -> BlockHash) returns (step: Step)
    requires t in s.threads && s.threads[t].Listening? && s.threads[t].peer == AwaitingBlock(inventory)
    ensures Enabled(s, step) && Honest(s, step, prev) && !step.Take? && !step.NewActive?
    ensures var s' := Apply(s, step);
            && t in s'.threads && (step.EndOfHeaders? ==> step.t == t && s'.threads[t].Syncing?)
            && Distance(s'.threads[t]) < Distance(s.threads[t])
            && s'.d.queue == s.d.queue && s'.d.inFlight <= s.d.inFlight
  {
    if inventory == {} {
      step := Disconnect(t, []);
      assert Enumerates([], Owes(s.threads[t]));
      assert [] + s.d.queue == s.d.queue;
    } else {
      var h :| h in inventory;
      step := Release(t, Block(h, prev(h)));
      assert |inventory - {h}| == |inventory| - 1;
    }
  }

  /** A pop requests a queued block, or leaves it in a shorter queue. */
  lemma PopComesCloser(s: Node, t: Tid, h: BlockHash)
    requires Enabled(s, PopBatch(t)) && h in s.d.queue && h !in s.d.inFlight
    ensures var s' := Apply(s, PopBatch(t));
            || (h in Owes(s'.threads[t]) && h in s'.d.inFlight)
            || (h in s'.d.queue && h !in s'.d.inFlight && |s'.d.queue| < |s.d.queue|)
  {
    var p := PopFrom(s.d.queue, s.d.inFlight, DOWNLOAD_BATCH_SIZE);
    var taken := PopFacts(s.d.queue, s.d.inFlight, DOWNLOAD_BATCH_SIZE);
    assert h in taken || h in p.rest;
    if h in taken {
      assert h in Elems(taken) && h in Elems(p.batch);
    } else {
      assert p.rest != [] && h !in Elems(p.batch);
      assert p.batch[0] in Elems(p.batch) && p.batch[0] in Elems(taken);
      assert taken != [];
    }
  }

  /** The rebuild that follows the end of a header sync finds the queue in use. */
  lemma RebuildIdles(s: Node, t: Tid, prev: BlockHash -> BlockHash)
    requires t in s.threads && s.threads[t].Syncing? && s.d.queue != []
    ensures Enabled(s, Rebuild(t, [])) && Honest(s, Rebuild(t, []), prev) && Apply(s, Rebuild(t, [])) == s
  {
    assert s.threads[t := s.threads[t]] == s.threads;
  }

  /** A queued block is requested and delivered if one peer thread goes on fetching. */
  lemma {:induction false} QueuedIsAccepted(s: Node, t: Tid, h: BlockHash, prev: BlockHash -> BlockHash)
    returns (states: seq<Node>, steps: seq<Step>)
    requires t in s.threads && h in s.d.queue && h !in s.d.inFlight
    ensures AcceptsLater(s, states, steps, h, prev)
    decreases |s.d.queue|, Distance(s.threads[t])
  {
    hide AcceptsLater, Honest, Apply, Enabled, Distance, Owes;
    var step := NextStep(s, t, prev);
    var s' := Apply(s, step);
    if step == PopBatch(t) && h in s'.d.inFlight {
      PopComesCloser(s, t, h);
      states, steps := OwedIsAccepted(s', t, h, prev);
    } else {
      if step == PopBatch(t) {
        PopComesCloser(s, t, h);
      }
      states, steps := QueuedIsAccepted(s', t, h, prev);
      if step.EndOfHeaders? {
        RebuildIdles(s', step.t, prev);
        FirstThen(s', Rebuild(step.t, []), states, steps, h, prev);
        states, steps := [s'] + states, [Rebuild(step.t, [])] + steps;
      }
    }
    FirstThen(s, step, states, steps, h, prev);
    states, steps := [s] + states, [step] + steps;
  }

  lemma NextStep(s: Node, t: Tid, prev: BlockHash -> BlockHash) returns (step: Step)
    requires t in s.threads
    ensures Enabled(s, step) && Honest(s, step, prev) && t in Apply(s, step).threads
    ensures step == PopBatch(t)
         || var s' := Apply(s, step);
            && (step.EndOfHeaders? ==> step.t == t && s'.threads[t].Syncing?)
            && Distance(s'.threads[t]) < Distance(s.threads[t])
            && s'.d.queue == s.d.queue && s'.d.inFlight <= s.d.inFlight
  {
    if Distance(s.threads[t]) == 0 {
      step := PopBatch(t);
    } else {
      step := Approaches(s, t, prev);
    }
  }

  lemma {:induction false} SameThreads(states: seq<Node>, steps: seq<Step>, i: nat)
    requires IsRun(states, steps) && i < |states|
    ensures states[i].threads.Keys == states[0].threads.Keys
  {
    if i > 0 {
      SameThreads(states, steps, i - 1);
      assert Enabled(states[i - 1], steps[i - 1]);
    }
  }

  /**
   The condition is needed: whenever an arrived block is wanted again, it was accepted before and
   the run can go on with honest peers, whatever the parents of the blocks, so that it is accepted again.
   */
  lemma WantedAgainIsFetchedAgain(states: seq<Node>, steps: seq<Step>, h: BlockHash, prev: BlockHash -> BlockHash)
    returns (k: nat, later: seq<Node>, more: seq<Step>)
    requires IsRun(states, steps) && Init(states[0])
    requires h in Wanted(states[|steps|]) && h in Arrived(states[|steps|])
    ensures k < |steps| && Accepts(states[k], steps[k], h)
    ensures AcceptsLater(states[|steps|], later, more, h, prev)
  {
    var s := states[|steps|];
    k := ArrivedWasAccepted(states, steps, |steps|, h);
    if h in s.d.inFlight {
      NoLeakInAnyRun(states, steps, |steps|);
      var t :| t in s.threads && h in Owes(s.threads[t]);
      later, more := OwedIsAccepted(s, t, h, prev);
    } else {
      SameThreads(states, steps, |steps|);
      SameThreads(states, steps, k);
      assert steps[k].t in states[k].threads.Keys;
      later, more := QueuedIsAccepted(s, steps[k].t, h, prev);
    }
  }
}
