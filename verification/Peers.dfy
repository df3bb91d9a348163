/**
 The peer threads as one state machine. Every step is one critical section of the source: one
 acquisition of the download lock, of the connected-peers lock, or one validator action.
 */
module Peers {
  import opened Basics
  import opened Downloads
  import opened QueueBuilding

  type Tid = nat
  type Dest = nat

  const DOWNLOAD_BATCH_SIZE: nat := 16

  datatype PeerState = AwaitingHeaders | AwaitingInv | AwaitingBlock(inventory: set<BlockHash>)

  /** Where a peer thread stands between two critical sections. */
  datatype Thread =
    | Selecting                                                        // looking for a destination
    | Connecting(dest: Dest)                                           // destination inserted in the connected set
    | Listening(dest: Dest, peer: PeerState)                           // waiting for the next message
    | Syncing(dest: Dest)                                              // header sync done, about to build and pop
    | Buffering(dest: Dest, inventory: set<BlockHash>, block: Block)   // released `block`, about to buffer it
    | Refilling(dest: Dest)                                            // batch complete, about to pop the next
    | Leaving(dest: Dest)                                              // gave its hashes back, still connected

  datatype Node = Node(
    d: Download,
    connected: set<Dest>,
    threads: map<Tid, Thread>,
    active: set<BlockHash>,
    handed: seq<Block>)          // everything the validator has taken so far

  datatype Step =
    | Insert(t: Tid, dest: Dest)
    | ConnectFailed(t: Tid)
    | ConnectOk(t: Tid)
    | EndOfHeaders(t: Tid)
    | Rebuild(t: Tid, path: seq<BlockHash>)
    | PopBatch(t: Tid)
    | Resync(t: Tid)
    | Announce(t: Tid, hashes: seq<BlockHash>)
    | Release(t: Tid, block: Block)
    | Store(t: Tid)
    | Disconnect(t: Tid, front: seq<BlockHash>)
    | Leave(t: Tid)
    | Take(key: BlockHash)
    | NewActive(active: set<BlockHash>)

  /** The hashes a thread has requested from its peer and not received. */
  function Owes(th: Thread): set<BlockHash> {
    match th
    case Listening(_, AwaitingBlock(inventory)) => inventory
    case Buffering(_, inventory, _) => inventory
    case _ => {}
  }

  predicate Holds(th: Thread, dest: Dest) {
    !th.Selecting? && th.dest == dest
  }

  ghost predicate Enabled(s: Node, step: Step) {
    match step
    case Take(key) => CanTake(s.d, s.active, key)
    case NewActive(_) => true
    case _ =>
      step.t in s.threads &&
      var th := s.threads[step.t];
      match step
      case Insert(_, dest) => th.Selecting? && dest !in s.connected
      case ConnectFailed(_) => th.Connecting?
      case ConnectOk(_) => th.Connecting?
      case EndOfHeaders(_) => th.Listening? && th.peer.AwaitingHeaders?
      case Rebuild(_, _) => th.Syncing?
      case PopBatch(_) => th.Syncing? || th.Refilling?
      case Resync(_) => th.Listening? && th.peer.AwaitingInv?
      case Announce(_, _) => th.Listening? && th.peer.AwaitingInv?
      case Release(_, _) => th.Listening? && th.peer.AwaitingBlock?
      case Store(_) => th.Buffering?
      case Disconnect(_, front) => th.Listening? && Enumerates(front, Owes(th))
      case Leave(_) => th.Leaving?
  }

  function AfterBlock(dest: Dest, inventory: set<BlockHash>): Thread {
    if inventory == {} then Refilling(dest) else Listening(dest, AwaitingBlock(inventory))
  }

  /** A thread that has just obtained `batch`: it waits for these blocks, or for news if there are none. */
  function WaitingFor(dest: Dest, batch: seq<BlockHash>): Thread {
    if batch == [] then Listening(dest, AwaitingInv) else Listening(dest, AwaitingBlock(Elems(batch)))
  }

  /** The thread that takes a step is at `th` afterwards. */
  function Moved(s: Node, step: Step): Thread
    requires Enabled(s, step) && !step.Take? && !step.NewActive?
  {
    var th := s.threads[step.t];
    match step
    case Insert(_, dest) => Connecting(dest)
    case ConnectFailed(_) => Selecting
    case ConnectOk(_) => Listening(th.dest, AwaitingHeaders)
    case EndOfHeaders(_) => Syncing(th.dest)
    case Rebuild(_, _) => th
    case PopBatch(_) => WaitingFor(th.dest, PopFrom(s.d.queue, s.d.inFlight, DOWNLOAD_BATCH_SIZE).batch)
    case Resync(_) => Listening(th.dest, AwaitingHeaders)
    case Announce(_, hashes) => WaitingFor(th.dest, Fresh(hashes, s.d.inFlight))
    case Release(_, block) =>
      var inventory := th.peer.inventory - {block.hash};
      if block.hash in s.d.inFlight then Buffering(th.dest, inventory, block) else AfterBlock(th.dest, inventory)
    case Store(_) => AfterBlock(th.dest, th.inventory)
    case Disconnect(_, _) => Leaving(th.dest)
    case Leave(_) => Selecting
  }

  function NewDownload(s: Node, step: Step): Download
    requires Enabled(s, step)
  {
    var d := s.d;
    match step
    case Rebuild(_, path) => CommitQueue(d, path)
    case PopBatch(_) =>
      var p := PopFrom(d.queue, d.inFlight, DOWNLOAD_BATCH_SIZE);
      d.(queue := p.rest, inFlight := d.inFlight + Elems(p.batch))
    case Announce(_, hashes) => d.(inFlight := d.inFlight + Elems(Fresh(hashes, d.inFlight)))
    case Release(_, block) => d.(inFlight := d.inFlight - {block.hash})
    case Store(t) =>
      var block := s.threads[t].block;
      d.(buffer := d.buffer[block.prev := block])
    case Disconnect(t, front) => Requeued(d, Owes(s.threads[t]), front)
    case Take(key) => d.(buffer := d.buffer - {key})
    case _ => d
  }

  function NewConnected(s: Node, step: Step): set<Dest>
    requires Enabled(s, step)
  {
    match step
    case Insert(_, dest) => s.connected + {dest}
    case ConnectFailed(t) => s.connected - {s.threads[t].dest}
    case Leave(t) => s.connected - {s.threads[t].dest}
    case _ => s.connected
  }

  function Apply(s: Node, step: Step): Node
    requires Enabled(s, step)
  {
    if step.Take? then s.(d := NewDownload(s, step), handed := s.handed + [s.d.buffer[step.key]])
    else if step.NewActive? then s.(active := step.active)
    else Node(NewDownload(s, step), NewConnected(s, step), s.threads[step.t := Moved(s, step)], s.active, s.handed)
  }

  ghost predicate Init(s: Node) {
    && s.d == EMPTY && s.connected == {} && s.handed == []
    && forall t :: t in s.threads ==> s.threads[t].Selecting?
  }

  ghost predicate IsRun(states: seq<Node>, steps: seq<Step>) {
    && |states| == |steps| + 1
    && forall i :: 0 <= i < |steps| ==> Enabled(states[i], steps[i]) && states[i + 1] == Apply(states[i], steps[i])
  }

  /** Every requested hash is owed by some live thread. */
  ghost predicate NoLeak(s: Node) {
    forall h :: h in s.d.inFlight ==> exists t :: t in s.threads && h in Owes(s.threads[t])
  }

  /** The debts of the threads are pairwise disjoint and add up to exactly the in-flight set. */
  ghost predicate Exact(s: Node) {
    && NoLeak(s)
    && (forall t :: t in s.threads ==> Owes(s.threads[t]) <= s.d.inFlight)
    && (forall t, u :: t in s.threads && u in s.threads && t != u ==> Owes(s.threads[t]) !! Owes(s.threads[u]))
  }

  /** A block arrives from the peer it was requested from, or it is one nobody is waiting for. */
  predicate Solicited(s: Node, step: Step) {
    step.Release? && step.t in s.threads ==>
      step.block.hash in Owes(s.threads[step.t]) || step.block.hash !in s.d.inFlight
  }

  /** How a thread's step moves hashes between its debt and the in-flight set. */
  lemma DebtMoves(s: Node, step: Step)
    requires Enabled(s, step) && !step.Take? && !step.NewActive?
    ensures var before, after := Owes(s.threads[step.t]), Owes(Moved(s, step));
            var f, g := s.d.inFlight, NewDownload(s, step).inFlight;
            && (forall h :: h in g ==> h in after || (h in f && h !in before))
            && (before <= f && Solicited(s, step) ==> g == f - before + after && (after - before) !! f)
  {
    match step {
      case PopBatch(_) =>
        var taken := PopFacts(s.d.queue, s.d.inFlight, DOWNLOAD_BATCH_SIZE);
      case Announce(_, hashes) =>
        FreshFacts(hashes, s.d.inFlight);
      case _ =>
    }
  }

  lemma NoLeakStep(s: Node, step: Step)
    requires Enabled(s, step) && NoLeak(s)
    ensures NoLeak(Apply(s, step))
  {
    if !step.Take? && !step.NewActive? {
      DebtMoves(s, step);
      var s' := Apply(s, step);
      forall h | h in s'.d.inFlight
        ensures exists t :: t in s'.threads && h in Owes(s'.threads[t])
      {
        if h in Owes(Moved(s, step)) {
          assert h in Owes(s'.threads[step.t]);
        } else {
          var t :| t in s.threads && h in Owes(s.threads[t]);
          assert s'.threads[t] == s.threads[t];
        }
      }
    }
  }

  /** In every run, whatever the peers send, no hash stays in flight that no live thread owes. */
  lemma {:induction false} NoLeakInAnyRun(states: seq<Node>, steps: seq<Step>, i: nat)
    requires IsRun(states, steps) && Init(states[0]) && i < |states|
    ensures NoLeak(states[i])
  {
    if i > 0 {
      NoLeakInAnyRun(states, steps, i - 1);
      NoLeakStep(states[i - 1], steps[i - 1]);
    }
  }

  lemma ExactStep(s: Node, step: Step)
    requires Enabled(s, step) && Exact(s) && Solicited(s, step)
    ensures Exact(Apply(s, step))
  {
    NoLeakStep(s, step);
    if !step.Take? && !step.NewActive? {
      DebtMoves(s, step);
    }
  }

  /** With solicited deliveries only, each outstanding hash is owed by exactly one thread in every reachable state. */
  lemma {:induction false} ExactInSolicitedRun(states: seq<Node>, steps: seq<Step>, i: nat)
    requires IsRun(states, steps) && Init(states[0]) && i < |states|
    requires forall k :: 0 <= k < i ==> Solicited(states[k], steps[k])
    ensures Exact(states[i])
  {
    if i > 0 {
      ExactInSolicitedRun(states, steps, i - 1);
      ExactStep(states[i - 1], steps[i - 1]);
    }
  }

  /** `Solicited` is the exact condition: any other delivery breaks the bookkeeping at once. */
  lemma SolicitedIsExact(s: Node, step: Step)
    requires Enabled(s, step) && Exact(s)
    ensures Exact(Apply(s, step)) <==> Solicited(s, step)
  {
    if Solicited(s, step) {
      ExactStep(s, step);
    } else {
      var s', h := Apply(s, step), step.block.hash;
      var u :| u in s.threads && h in Owes(s.threads[u]);
      assert s'.threads[u] == s.threads[u] && h !in s'.d.inFlight;
    }
  }

  predicate ShareDest(a: Thread, b: Thread) {
    !a.Selecting? && !b.Selecting? && a.dest == b.dest
  }

  /** The connected set is exactly the set of destinations held, and no destination is held twice. */
  ghost predicate Exclusive(s: Node) {
    && (forall t :: t in s.threads && !s.threads[t].Selecting? ==> s.threads[t].dest in s.connected)
    && (forall dest :: dest in s.connected ==> exists t :: t in s.threads && Holds(s.threads[t], dest))
    && (forall t, u :: t in s.threads && u in s.threads && t != u ==> !ShareDest(s.threads[t], s.threads[u]))
  }

  /** A thread's step keeps its destination, takes a free one, or gives up the one it has. */
  ghost predicate DestMove(s: Node, s': Node, t: Tid) {
    && t in s.threads && t in s'.threads && s'.threads == s.threads[t := s'.threads[t]]
    && var before, after := s.threads[t], s'.threads[t];
       || (!before.Selecting? && Holds(after, before.dest) && s'.connected == s.connected)
       || (before.Selecting? && !after.Selecting? && after.dest !in s.connected
           && s'.connected == s.connected + {after.dest})
       || (!before.Selecting? && after.Selecting? && s'.connected == s.connected - {before.dest})
  }

  lemma ExclusiveMove(s: Node, s': Node, t: Tid)
    requires Exclusive(s) && DestMove(s, s', t)
    ensures Exclusive(s')
  {
    forall dest | dest in s'.connected
      ensures exists u :: u in s'.threads && Holds(s'.threads[u], dest)
    {
      if Holds(s'.threads[t], dest) {
      } else {
        var u :| u in s.threads && Holds(s.threads[u], dest);
        assert Holds(s'.threads[u], dest);
      }
    }
  }

  lemma ExclusiveStep(s: Node, step: Step)
    requires Enabled(s, step) && Exclusive(s)
    ensures Exclusive(Apply(s, step))
  {
    if !step.Take? && !step.NewActive? {
      assert DestMove(s, Apply(s, step), step.t);
      ExclusiveMove(s, Apply(s, step), step.t);
    }
  }

  lemma {:induction false} ExclusiveInAnyRun(states: seq<Node>, steps: seq<Step>, i: nat)
    requires IsRun(states, steps) && Init(states[0]) && i < |states|
    ensures Exclusive(states[i])
  {
    if i > 0 {
      ExclusiveInAnyRun(states, steps, i - 1);
      ExclusiveStep(states[i - 1], steps[i - 1]);
    }
  }

  /** At step `k` thread `t` either received `h` or gave it back to the queue. */
  ghost predicate Settled(states: seq<Node>, steps: seq<Step>, k: nat, t: Tid, h: BlockHash)
    requires |states| == |steps| + 1 && k < |steps|
  {
    || (steps[k].Release? && steps[k].t == t && steps[k].block.hash == h)
    || (steps[k].Disconnect? && steps[k].t == t && h in states[k + 1].d.queue && h !in states[k + 1].d.inFlight)
  }

  /** A hash owed to a thread is received or requeued before that thread's destination can be taken again. */
  lemma {:induction false} SettledBeforeRetaken(
    states: seq<Node>, steps: seq<Step>, i: nat, j: nat, t: Tid, h: BlockHash) returns (k: nat)
    requires IsRun(states, steps) && Init(states[0]) && i <= j < |steps|
    requires t in states[i].threads && h in Owes(states[i].threads[t])
    requires steps[j].Insert? && steps[j].dest == states[i].threads[t].dest
    ensures i <= k < j && Settled(states, steps, k, t, h)
    decreases j - i
  {
    ExclusiveInAnyRun(states, steps, i);
    var s, s' := states[i], states[i + 1];
    assert Enabled(s, steps[i]) && s' == Apply(s, steps[i]);
    assert i < j;
    if h in Owes(s'.threads[t]) {
      assert s'.threads[t].dest == s.threads[t].dest;
      k := SettledBeforeRetaken(states, steps, i + 1, j, t, h);
    } else {
      k := i;
      if steps[i].Disconnect? {
        assert h in Elems(steps[i].front);
      }
    }
  }

  /**
   What a leaving peer gives back is requested before anything else: the next pop gets all of it, in
   front of its batch, or nothing but it when there is more than a batch.
   */
  lemma ReturnedComesFirst(s: Node, t: Tid, front: seq<BlockHash>, u: Tid)
    requires Enabled(s, Disconnect(t, front)) && Enabled(Apply(s, Disconnect(t, front)), PopBatch(u))
    ensures var s' := Apply(s, Disconnect(t, front));
            var back, batch := Owes(s.threads[t]), PopFrom(s'.d.queue, s'.d.inFlight, 16).batch;
            && Owes(Apply(s', PopBatch(u)).threads[u]) == Elems(batch)
            && if |back| <= 16 then |batch| >= |back| && Elems(batch[..|back|]) == back
               else |batch| == 16 && Elems(batch) <= back
  {
    hide PopFrom, Enumerates;
    var s' := Apply(s, Disconnect(t, front));
    FrontIsRequestedFirst(front, Owes(s.threads[t]), s.d.queue, s'.d.inFlight, 16);
  }
}
