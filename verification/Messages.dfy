/** One message handled by one peer thread (`process_message`), and its place in the state machine. */
module Messages {
  import opened Basics
  import opened Downloads
  import opened QueueBuilding
  import opened Peers
  import opened Locators

  const HEADERS_LIMIT := 2000

  datatype InvItem = BlockItem(hash: BlockHash) | OtherItem

  /** `accepted` counts the leading headers the kernel found valid; the first rejection ends the loop. */
  datatype Message =
    | Ping(nonce: nat)
    | AddrV2(addresses: seq<nat>)
    | Headers(hashes: seq<BlockHash>, accepted: nat)
    | Inv(items: seq<InvItem>)
    | BlockMessage(block: Block)
    | Other
  {
    predicate Valid() {
      Headers? ==> accepted <= |hashes|
    }
  }

  datatype Reply =
    | Pong(nonce: nat)
    | GetHeaders(locator: seq<BlockHash>)
    | GetBlocks(locator: seq<BlockHash>)
    | GetData(hashes: seq<BlockHash>)

  predicate AnnouncesBlock(items: seq<InvItem>) {
    exists i :: 0 <= i < |items| && items[i].BlockItem?
  }

  /** The branches that resume header sync, which need a best header to build a locator from. */
  predicate AsksForHeaders(state: PeerState, event: Message) {
    match (state, event)
    case (AwaitingHeaders, Headers(hashes, _)) => |hashes| == HEADERS_LIMIT
    case (AwaitingInv, Headers(_, accepted)) => accepted == 0
    case (AwaitingInv, Inv(items)) => AnnouncesBlock(items)
    case _ => false
  }

  /** The kernel has a best header whenever the source relies on one. */
  ghost predicate Shows(view: ChainView, state: PeerState, event: Message) {
    view.Valid() && (AsksForHeaders(state, event) ==> view.best.Some?)
  }

  ghost function HeaderRequest(view: ChainView): Reply
    requires view.Valid() && view.best.Some?
  {
    GetHeaders(LocatorOf(Ancestors(view.tree, view.best.value)))
  }

  ghost function BlockRequest(view: ChainView): Reply
    requires view.Valid()
  {
    GetBlocks(LocatorOf(Ancestors(view.tree, view.tip)))
  }

  datatype Outcome = Outcome(next: PeerState, replies: seq<Reply>, d: Download)

  /** What a freshly obtained batch leads to; with nothing to request the peer is asked for news. */
  function Requesting(batch: seq<BlockHash>, otherwise: seq<Reply>, d: Download): Outcome {
    if batch == [] then Outcome(AwaitingInv, otherwise, d)
    else Outcome(AwaitingBlock(Elems(batch)), [GetData(batch)], d)
  }

  ghost function Popping(view: ChainView, d: Download): Outcome
    requires view.Valid()
  {
    var p := PopFrom(d.queue, d.inFlight, DOWNLOAD_BATCH_SIZE);
    Requesting(p.batch, [BlockRequest(view)], d.(queue := p.rest, inFlight := d.inFlight + Elems(p.batch)))
  }

  function Delivered(d: Download, block: Block): Download {
    if block.hash in d.inFlight then
      d.(inFlight := d.inFlight - {block.hash}, buffer := d.buffer[block.prev := block])
    else d
  }

  /** `view` is what the kernel shows once it has seen the headers of the message. */
  ghost function Processed(state: PeerState, event: Message, view: ChainView, d: Download): Outcome
    requires event.Valid() && Shows(view, state, event)
  {
    match (state, event)
    case (_, Ping(nonce)) => Outcome(state, [Pong(nonce)], d)
    case (AwaitingHeaders, Headers(hashes, _)) =>
      if |hashes| == HEADERS_LIMIT then Outcome(AwaitingHeaders, [HeaderRequest(view)], d)
      else Popping(view, Populated(view, d))
    case (AwaitingInv, Headers(hashes, accepted)) =>
      if accepted == 0 then Outcome(AwaitingHeaders, [HeaderRequest(view)], d)
      else
        var claimed := Fresh(hashes[..accepted], d.inFlight);
        Requesting(claimed, [], d.(inFlight := d.inFlight + Elems(claimed)))
    case (AwaitingInv, Inv(items)) =>
      if AnnouncesBlock(items) then Outcome(AwaitingHeaders, [HeaderRequest(view)], d)
      else Outcome(AwaitingInv, [], d)
    case (AwaitingBlock(inventory), BlockMessage(block)) =>
      var left := inventory - {block.hash};
      if left == {} then Popping(view, Delivered(d, block)) else Outcome(AwaitingBlock(left), [], Delivered(d, block))
    case _ => Outcome(state, [], d)
  }

  method ProcessMessage(state: PeerState, event: Message, view: ChainView, download: DownloadState)
    returns (next: PeerState, replies: seq<Reply>, forwarded: Option<seq<nat>>)
    requires event.Valid() && Shows(view, state, event)
    modifies download
    ensures Outcome(next, replies, download.View()) == Processed(state, event, view, old(download.View()))
    ensures forwarded == if event.AddrV2? then Some(event.addresses) else None
  {
    next, replies, forwarded := state, [], None;
    if event.Ping? {
      replies := [Pong(event.nonce)];
      return;
    }
    if event.AddrV2? {
      forwarded := Some(event.addresses);
      return;
    }
    match state {
      case AwaitingHeaders => next, replies := WhileAwaitingHeaders(event, view, download);
      case AwaitingInv => next, replies := WhileAwaitingInv(event, view, download);
      case AwaitingBlock(inventory) => next, replies := WhileAwaitingBlock(inventory, event, view, download);
    }
  }

  method WhileAwaitingHeaders(event: Message, view: ChainView, download: DownloadState)
    returns (next: PeerState, replies: seq<Reply>)
    requires event.Valid() && Shows(view, AwaitingHeaders, event) && !event.Ping?
    modifies download
    ensures Outcome(next, replies, download.View()) == Processed(AwaitingHeaders, event, view, old(download.View()))
  {
    hide HeaderRequest, Populated, Popping;
    next, replies := AwaitingHeaders, [];
    if event.Headers? {
      if |event.hashes| == HEADERS_LIMIT {
        replies := AskForHeaders(view);
        return;
      }
      PopulateDownloadQueue(view, download);
      next, replies := NextBatch(view, download);
    }
  }

  method WhileAwaitingInv(event: Message, view: ChainView, download: DownloadState)
    returns (next: PeerState, replies: seq<Reply>)
    requires event.Valid() && Shows(view, AwaitingInv, event) && !event.Ping?
    modifies download
    ensures Outcome(next, replies, download.View()) == Processed(AwaitingInv, event, view, old(download.View()))
  {
    hide HeaderRequest, Fresh;
    next, replies := AwaitingInv, [];
    if event.Headers? {
      if event.accepted == 0 {
        replies := AskForHeaders(view);
        next := AwaitingHeaders;
        return;
      }
      var claimed := download.Claim(event.hashes[..event.accepted]);
      if claimed != [] {
        next, replies := AwaitingBlock(Elems(claimed)), [GetData(claimed)];
      }
    } else if event.Inv? {
      var announced := false;
      for i := 0 to |event.items|
        invariant announced <==> exists j :: 0 <= j < i && event.items[j].BlockItem?
      {
        announced := announced || event.items[i].BlockItem?;
      }
      if announced {
        replies := AskForHeaders(view);
        next := AwaitingHeaders;
      }
    }
  }

  method WhileAwaitingBlock(inventory: set<BlockHash>, event: Message, view: ChainView, download: DownloadState)
    returns (next: PeerState, replies: seq<Reply>)
    requires event.Valid() && view.Valid() && !event.Ping?
    modifies download
    ensures Outcome(next, replies, download.View()) == Processed(AwaitingBlock(inventory), event, view, old(download.View()))
  {
    hide Popping;
    next, replies := AwaitingBlock(inventory), [];
    if event.BlockMessage? {
      var left := inventory - {event.block.hash};
      var wasInFlight := download.Release(event.block.hash);
      if wasInFlight {
        download.BufferBlock(event.block.prev, event.block);
      }
      assert download.View() == Delivered(old(download.View()), event.block);
      if left == {} {
        next, replies := NextBatch(view, download);
      } else {
        next := AwaitingBlock(left);
      }
    }
  }

  method AskForHeaders(view: ChainView) returns (replies: seq<Reply>)
    requires view.Valid() && view.best.Some?
    ensures replies == [HeaderRequest(view)]
  {
    var locator := BuildBlockLocators(Ancestors(view.tree, view.best.value), false);
    replies := [GetHeaders(locator.value)];
  }

  method NextBatch(view: ChainView, download: DownloadState) returns (next: PeerState, replies: seq<Reply>)
    requires view.Valid()
    modifies download
    ensures Outcome(next, replies, download.View()) == Popping(view, old(download.View()))
  {
    var batch := download.PopBatch(DOWNLOAD_BATCH_SIZE);
    if batch != [] {
      next, replies := AwaitingBlock(Elems(batch)), [GetData(batch)];
    } else {
      var locator := BuildBlockLocators(Ancestors(view.tree, view.tip), false);
      next, replies := AwaitingInv, [GetBlocks(locator.value)];
    }
  }

  /** `steps`, all by thread `t`, lead from `s` to `s'`. */
  ghost predicate Reaches(s: Node, t: Tid, steps: seq<Step>, s': Node)
    decreases |steps|
  {
    if steps == [] then s == s'
    else
      && !steps[0].Take? && !steps[0].NewActive? && steps[0].t == t
      && Enabled(s, steps[0]) && Reaches(Apply(s, steps[0]), t, steps[1..], s')
  }

  /** The steps of the machine that handling `event` amounts to. */
  ghost function StepsOf(t: Tid, state: PeerState, event: Message, view: ChainView, d: Download): seq<Step>
    requires event.Valid() && view.Valid()
  {
    match (state, event)
    case (AwaitingHeaders, Headers(hashes, _)) =>
      if |hashes| == HEADERS_LIMIT then [] else [EndOfHeaders(t), Rebuild(t, Walk(view)), PopBatch(t)]
    case (AwaitingInv, Headers(hashes, accepted)) =>
      if accepted == 0 then [Resync(t)] else [Announce(t, hashes[..accepted])]
    case (AwaitingInv, Inv(items)) =>
      if AnnouncesBlock(items) then [Resync(t)] else []
    case (AwaitingBlock(inventory), BlockMessage(block)) =>
      [Release(t, block)]
      + (if block.hash in d.inFlight then [Store(t)] else [])
      + (if inventory - {block.hash} == {} then [PopBatch(t)] else [])
    case _ => []
  }

  ghost function Walk(view: ChainView): seq<BlockHash>
    requires view.Valid()
  {
    if view.best.None? then [] else AboveFork(view.tree, view.active, view.best.value).GetOr([])
  }

  lemma OneStep(s: Node, t: Tid, step: Step, s': Node)
    requires !step.Take? && !step.NewActive? && step.t == t && Enabled(s, step) && Apply(s, step) == s'
    ensures Reaches(s, t, [step], s')
  {
    assert Reaches(s', t, [], s');
    assert [step][1..] == [];
  }

  lemma Prepend(s: Node, t: Tid, step: Step, rest: seq<Step>, s': Node)
    requires !step.Take? && !step.NewActive? && step.t == t && Enabled(s, step)
    requires Reaches(Apply(s, step), t, rest, s')
    ensures Reaches(s, t, [step] + rest, s')
  {
    assert ([step] + rest)[1..] == rest;
  }

  lemma PopStep(s: Node, t: Tid, view: ChainView)
    requires view.Valid() && t in s.threads && (s.threads[t].Syncing? || s.threads[t].Refilling?)
    ensures var o := Popping(view, s.d);
            Reaches(s, t, [PopBatch(t)], s.(d := o.d, threads := s.threads[t := Listening(s.threads[t].dest, o.next)]))
  {
    OneStep(s, t, PopBatch(t), Apply(s, PopBatch(t)));
  }

  lemma SyncSteps(s: Node, t: Tid, view: ChainView)
    requires t in s.threads && s.threads[t].Listening? && s.threads[t].peer.AwaitingHeaders? && view.Valid()
    ensures var o := Popping(view, Populated(view, s.d));
            Reaches(s, t, [EndOfHeaders(t), Rebuild(t, Walk(view)), PopBatch(t)],
                    s.(d := o.d, threads := s.threads[t := Listening(s.threads[t].dest, o.next)]))
  {
    hide BlockRequest, Popping;
    var s1 := Apply(s, EndOfHeaders(t));
    var s2 := Apply(s1, Rebuild(t, Walk(view)));
    assert s2.d == Populated(view, s.d);
    PopStep(s2, t, view);
    var o := Popping(view, s2.d);
    var end := s.(d := o.d, threads := s.threads[t := Listening(s.threads[t].dest, o.next)]);
    assert s2.threads[t := end.threads[t]] == end.threads;
    Prepend(s1, t, Rebuild(t, Walk(view)), [PopBatch(t)], end);
    Prepend(s, t, EndOfHeaders(t), [Rebuild(t, Walk(view))] + [PopBatch(t)], end);
    assert [EndOfHeaders(t)] + ([Rebuild(t, Walk(view))] + [PopBatch(t)])
        == [EndOfHeaders(t), Rebuild(t, Walk(view)), PopBatch(t)];
  }

  /** A release, the store when the block was in flight, and then whatever steps follow. */
  lemma ReleaseSteps(s: Node, t: Tid, block: Block, rest: seq<Step>, end: Node)
    requires Enabled(s, Release(t, block))
    requires var s1 := Apply(s, Release(t, block));
             if block.hash in s.d.inFlight then Enabled(s1, Store(t)) && Reaches(Apply(s1, Store(t)), t, rest, end)
             else Reaches(s1, t, rest, end)
    ensures Reaches(s, t, [Release(t, block)] + (if block.hash in s.d.inFlight then [Store(t)] else []) + rest, end)
  {
    hide Apply, Enabled;
    if block.hash in s.d.inFlight {
      Prepend(Apply(s, Release(t, block)), t, Store(t), rest, end);
      Prepend(s, t, Release(t, block), [Store(t)] + rest, end);
      assert [Release(t, block)] + ([Store(t)] + rest) == [Release(t, block)] + [Store(t)] + rest;
    } else {
      Prepend(s, t, Release(t, block), rest, end);
      assert [Release(t, block)] + [] + rest == [Release(t, block)] + rest;
    }
  }

  lemma DeliverySteps(s: Node, t: Tid, view: ChainView, block: Block)
    requires view.Valid() && t in s.threads && s.threads[t].Listening? && s.threads[t].peer.AwaitingBlock?
    ensures var left := s.threads[t].peer.inventory - {block.hash};
            var d := Delivered(s.d, block);
            var o := if left == {} then Popping(view, d) else Outcome(AwaitingBlock(left), [], d);
            Reaches(s, t,
                    [Release(t, block)]
                    + (if block.hash in s.d.inFlight then [Store(t)] else [])
                    + (if left == {} then [PopBatch(t)] else []),
                    s.(d := o.d, threads := s.threads[t := Listening(s.threads[t].dest, o.next)]))
  {
    hide BlockRequest, Popping;
    var left := s.threads[t].peer.inventory - {block.hash};
    var s1 := Apply(s, Release(t, block));
    var stored := block.hash in s.d.inFlight;
    var s2 := if stored then Apply(s1, Store(t)) else s1;
    assert s2.d == Delivered(s.d, block);
    var o := if left == {} then Popping(view, s2.d) else Outcome(AwaitingBlock(left), [], s2.d);
    var end := s.(d := o.d, threads := s.threads[t := Listening(s.threads[t].dest, o.next)]);
    var refill := if left == {} then [PopBatch(t)] else [];
    assert s2.threads[t := end.threads[t]] == end.threads;
    if left == {} {
      PopStep(s2, t, view);
    }
    assert Reaches(s2, t, refill, end);
    ReleaseSteps(s, t, block, refill, end);
  }

  /** Undisturbed by other threads, handling a message is exactly its sequence of machine steps. */
  lemma ProcessedIsSteps(s: Node, t: Tid, event: Message, view: ChainView)
    requires t in s.threads && s.threads[t].Listening? && event.Valid() && Shows(view, s.threads[t].peer, event)
    ensures var th := s.threads[t];
            var o := Processed(th.peer, event, view, s.d);
            Reaches(s, t, StepsOf(t, th.peer, event, view, s.d), s.(d := o.d, threads := s.threads[t := Listening(th.dest, o.next)]))
  {
    var th := s.threads[t];
    var o := Processed(th.peer, event, view, s.d);
    var end := s.(d := o.d, threads := s.threads[t := Listening(th.dest, o.next)]);
    match (th.peer, event) {
      case (AwaitingHeaders, Headers(hashes, _)) =>
        if |hashes| != HEADERS_LIMIT {
          SyncSteps(s, t, view);
        }
      case (AwaitingBlock(inventory), BlockMessage(block)) =>
        DeliverySteps(s, t, view, block);
      case (AwaitingInv, Headers(hashes, accepted)) =>
        if accepted == 0 {
          OneStep(s, t, Resync(t), end);
        } else {
          OneStep(s, t, Announce(t, hashes[..accepted]), end);
        }
      case (AwaitingInv, Inv(items)) =>
        if AnnouncesBlock(items) {
          OneStep(s, t, Resync(t), end);
        } else {
          assert s.threads == s.threads[t := th];
        }
      case _ =>
        assert s.threads == s.threads[t := th];
    }
  }

  /**
   What is asked of a peer is what it is then held to: a `getdata` names, once each, hashes nobody
   else had in flight, they become the peer's whole debt, and without one no new hash is in flight.
   */
  lemma RequestsAreDebts(state: PeerState, event: Message, view: ChainView, d: Download)
    requires event.Valid() && Shows(view, state, event)
    ensures var o := Processed(state, event, view, d);
            && |o.replies| <= 1
            && (o.replies != [] && o.replies[0].GetData? ==>
                  var asked := o.replies[0].hashes;
                  && asked != [] && NoDup(asked) && o.next == AwaitingBlock(Elems(asked))
                  && Elems(asked) <= o.d.inFlight
                  && (forall h :: h in asked && h in d.inFlight ==> event.BlockMessage? && h == event.block.hash)
                  && o.d.inFlight <= d.inFlight + Elems(asked))
            && (o.replies == [] || !o.replies[0].GetData? ==> o.d.inFlight <= d.inFlight)
  {
    hide Popping, Populated, Fresh, LocatorOf, Ancestors, Subsequence, WellFormed;
    match (state, event) {
      case (AwaitingHeaders, Headers(_, _)) =>
        PopulatedInFlight(view, d);
        PoppingDebts(view, Populated(view, d));
      case (AwaitingInv, Headers(hashes, accepted)) =>
        FreshFacts(hashes[..accepted], d.inFlight);
      case (AwaitingBlock(_), BlockMessage(block)) =>
        PoppingDebts(view, Delivered(d, block));
      case _ =>
    }
  }

  lemma PopulatedInFlight(view: ChainView, d: Download)
    requires view.Valid()
    ensures Populated(view, d).inFlight == d.inFlight
  {
    var fork := QueueIsBranch(view, d);
  }

  lemma PoppingDebts(view: ChainView, d: Download)
    requires view.Valid()
    ensures var o := Popping(view, d);
            && |o.replies| == 1 && !o.replies[0].Pong?
            && if o.replies[0].GetData? then
                 var asked := o.replies[0].hashes;
                 && asked != [] && NoDup(asked) && o.next == AwaitingBlock(Elems(asked))
                 && Elems(asked) !! d.inFlight && o.d.inFlight == d.inFlight + Elems(asked)
               else o.d.inFlight == d.inFlight
  {
    hide BlockRequest;
    var taken := PopFacts(d.queue, d.inFlight, DOWNLOAD_BATCH_SIZE);
    BlockRequestIsGetBlocks(view);
  }

  lemma BlockRequestIsGetBlocks(view: ChainView)
    requires view.Valid()
    ensures BlockRequest(view).GetBlocks?
  {
  }

  /**
   The locator names ancestors of `top` only: `top` itself and the ten below it one by one, then ever
   further down, strictly descending to genesis.
   */
  ghost predicate Locates(view: ChainView, top: BlockHash, l: seq<BlockHash>)
    requires view.Valid() && top in view.tree
  {
    var t := view.tree;
    && 0 < |l| <= 42 && l[0] == top
    && (forall j :: 0 <= j < |l| ==> l[j] in t && Ancestor(t, l[j], top))
    && (forall j :: 0 <= j < |l| && j <= 10 ==> t[l[j]].height == t[top].height - j)
    && (forall i, j :: 0 <= i < j < |l| ==> t[l[i]].height > t[l[j]].height)
    && t[l[|l| - 1]].height == 0
  }

  lemma LocatorEntry(view: ChainView, top: BlockHash, j: nat)
    requires view.Valid() && top in view.tree
    requires j < |LocatorOf(Ancestors(view.tree, top))|
    ensures var t, h := view.tree, LocatorOf(Ancestors(view.tree, top))[j];
            && h in t && t[h].height == HeightAt(t[top].height, j) && Ancestor(t, h, top)
            && (j <= 10 ==> t[h].height == t[top].height - j)
  {
    hide LocatorOf, Ancestor, WellFormed;
    var t, height := view.tree, view.tree[top].height;
    LocatorDescends(Ancestors(t, top));
    AncestorsFacts(t, top, HeightAt(height, j));
    Spacing(height, j);
    if 0 < j <= 10 {
      Spacing(height, j - 1);
      assert HeightAt(height, j - 1) > HeightAt(height, j);
    }
  }

  lemma LocatorLocates(view: ChainView, top: BlockHash)
    requires view.Valid() && top in view.tree
    ensures Locates(view, top, LocatorOf(Ancestors(view.tree, top)))
  {
    hide LocatorOf, HeightAt, Ancestor, Ancestors, WellFormed;
    var t := view.tree;
    var l := LocatorOf(Ancestors(t, top));
    LocatorDescends(Ancestors(t, top));
    forall j: nat | j < |l|
      ensures l[j] in t && t[l[j]].height == HeightAt(t[top].height, j) && Ancestor(t, l[j], top)
      ensures j <= 10 ==> t[l[j]].height == t[top].height - j
    {
      LocatorEntry(view, top, j);
    }
    AncestorsFacts(t, top, t[top].height);
  }

  /** Nothing queued is left to request: every queued hash is in flight already. */
  predicate NothingToPop(d: Download) {
    forall h :: h in d.queue ==> h in d.inFlight
  }

  /**
   The one reply after a pop: the next 16 unrequested blocks of the queue, or as many as there are; if
   there is nothing to request, news from the active tip on.
   */
  ghost predicate AsksForBlocks(view: ChainView, d: Download, o: Outcome)
    requires view.Valid()
  {
    && |o.replies| == 1 && o.d.buffer == d.buffer
    && if NothingToPop(d) then
         && o.next == AwaitingInv && o.replies[0].GetBlocks? && Locates(view, view.tip, o.replies[0].locator)
         && o.d == d.(queue := [])
       else
         o.replies[0].GetData? && TakesBatch(d, o.replies[0].hashes, o)
  }

  ghost predicate TakesBatch(d: Download, asked: seq<BlockHash>, o: Outcome) {
    && 0 < |asked| <= 16 && (|asked| < 16 ==> o.d.queue == []) && NoDup(asked)
    && Subsequence(asked, d.queue) && Elems(asked) !! d.inFlight && o.d.inFlight == d.inFlight + Elems(asked)
    && o.next == AwaitingBlock(Elems(asked))
  }

  lemma PoppingAsks(view: ChainView, d: Download)
    requires view.Valid()
    ensures AsksForBlocks(view, d, Popping(view, d))
  {
    hide LocatorOf, Locates, Subsequence, PopFrom;
    LocatorLocates(view, view.tip);
    var p := PopFrom(d.queue, d.inFlight, DOWNLOAD_BATCH_SIZE);
    var taken := PopFacts(d.queue, d.inFlight, DOWNLOAD_BATCH_SIZE);
    if p.batch == [] {
      assert d.queue == taken + [] == taken;
      assert Elems(taken) - d.inFlight == {};
      assert forall h :: h in d.queue ==> h in Elems(taken);
    } else {
      assert p.batch[0] in Elems(p.batch) && p.batch[0] in Elems(taken);
      assert p.batch[0] in d.queue && p.batch[0] !in d.inFlight;
      SubsequenceExtends(p.batch, taken, p.rest);
    }
  }

  /** What is said to the peer, and what is awaited from it, for every state and message. */
  ghost predicate Answers(state: PeerState, event: Message, view: ChainView, d: Download, o: Outcome)
    requires event.Valid() && Shows(view, state, event)
  {
    var resync := || (state.AwaitingHeaders? && event.Headers? && |event.hashes| == 2000)
                  || (state.AwaitingInv? && event.Headers? && event.accepted == 0)
                  || (state.AwaitingInv? && event.Inv? && exists item :: item in event.items && item.BlockItem?);
    if event.Ping? then
      o == Outcome(state, [Pong(event.nonce)], d)
    else if resync then
      && o.next == AwaitingHeaders && o.d == d && |o.replies| == 1
      && view.best.Some? && o.replies[0].GetHeaders? && Locates(view, view.best.value, o.replies[0].locator)
    else if state.AwaitingHeaders? && event.Headers? then
      AsksForBlocks(view, Populated(view, d), o)
    else if state.AwaitingInv? && event.Headers? then
      if forall h :: h in event.hashes[..event.accepted] ==> h in d.inFlight then o == Outcome(AwaitingInv, [], d)
      else
        && |o.replies| == 1 && o.replies[0].GetData? && o.next == AwaitingBlock(Elems(o.replies[0].hashes))
        && Elems(o.replies[0].hashes) == Elems(event.hashes[..event.accepted]) - d.inFlight
        && o.d == d.(inFlight := d.inFlight + Elems(o.replies[0].hashes))
    else if state.AwaitingBlock? && event.BlockMessage? then
      if state.inventory <= {event.block.hash} then AsksForBlocks(view, Delivered(d, event.block), o)
      else o == Outcome(AwaitingBlock(state.inventory - {event.block.hash}), [], Delivered(d, event.block))
    else
      o == Outcome(state, [], d)
  }

  /** Every message is answered as the protocol asks: header sync resumes from the best header, block sync from the tip. */
  lemma ProcessedAnswers(state: PeerState, event: Message, view: ChainView, d: Download)
    requires event.Valid() && Shows(view, state, event)
    ensures Answers(state, event, view, d, Processed(state, event, view, d))
  {
    hide LocatorOf, Locates, Popping, Populated, AsksForBlocks, Fresh;
    if AsksForHeaders(state, event) {
      LocatorLocates(view, view.best.value);
    }
    match (state, event) {
      case (AwaitingHeaders, Headers(_, _)) =>
        PoppingAsks(view, Populated(view, d));
      case (AwaitingInv, Headers(hashes, accepted)) =>
        ClaimedNothing(hashes[..accepted], d);
      case (AwaitingInv, Inv(items)) =>
        assert AnnouncesBlock(items) <==> exists item :: item in items && item.BlockItem?;
      case (AwaitingBlock(inventory), BlockMessage(block)) =>
        PoppingAsks(view, Delivered(d, block));
        assert inventory - {block.hash} == {} <==> inventory <= {block.hash};
      case _ =>
    }
  }

  lemma ClaimedNothing(hashes: seq<BlockHash>, d: Download)
    ensures Fresh(hashes, d.inFlight) == [] <==> forall h :: h in hashes ==> h in d.inFlight
    ensures Elems(Fresh(hashes, d.inFlight)) == Elems(hashes) - d.inFlight
    ensures Fresh(hashes, d.inFlight) == [] ==> d.(inFlight := d.inFlight + Elems(Fresh(hashes, d.inFlight))) == d
  {
    hide Subsequence;
    FreshFacts(hashes, d.inFlight);
    var r := Fresh(hashes, d.inFlight);
    if r != [] {
      assert r[0] in Elems(r) && r[0] in Elems(hashes);
    } else {
      assert forall h :: h in hashes ==> h in Elems(hashes);
      assert d.inFlight + Elems(r) == d.inFlight;
    }
  }
}
