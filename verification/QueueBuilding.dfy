/** Building the download queue from the header tree (`populate_download_queue`). */
module QueueBuilding {
  import opened Basics
  import opened Downloads

  datatype Entry = Entry(prev: Option<BlockHash>, height: nat)

  type Tree = map<BlockHash, Entry>

  /** Parents are in the tree one step lower, and only height 0 has no parent. */
  ghost predicate WellFormed(t: Tree) {
    forall h :: h in t ==>
      match t[h].prev
      case None => t[h].height == 0
      case Some(p) => p in t && t[h].height == t[p].height + 1
  }

  /** What the kernel shows: the header tree, the active chain, the best header and the active tip. */
  datatype ChainView = ChainView(tree: Tree, active: set<BlockHash>, best: Option<BlockHash>, tip: BlockHash) {
    /** Heights are 32-bit; the tip of the active chain is always there. */
    ghost predicate Valid() {
      && WellFormed(tree) && tip in tree && (best.Some? ==> best.value in tree)
      && forall h :: h in tree ==> tree[h].height < 0x8000_0000
    }
  }

  /** The chain that ends in `h`, from genesis on. */
  function Ancestors(t: Tree, h: BlockHash): (chain: seq<BlockHash>)
    requires WellFormed(t) && h in t
    ensures |chain| == t[h].height + 1
    decreases t[h].height
  {
    match t[h].prev
    case None => [h]
    case Some(p) => Ancestors(t, p) + [h]
  }

  ghost predicate Ancestor(t: Tree, a: BlockHash, h: BlockHash)
    requires WellFormed(t) && h in t
    decreases t[h].height
  {
    a == h || (t[h].prev.Some? && Ancestor(t, a, t[h].prev.value))
  }

  /** The i-th of them is the ancestor at height i. */
  lemma {:induction false} AncestorsFacts(t: Tree, h: BlockHash, i: nat)
    requires WellFormed(t) && h in t && i <= t[h].height
    ensures var a := Ancestors(t, h)[i]; a in t && t[a].height == i && Ancestor(t, a, h)
    ensures Ancestors(t, h)[t[h].height] == h
    decreases t[h].height
  {
    if i < t[h].height {
      AncestorsFacts(t, t[h].prev.value, i);
    }
  }

  /** The hashes from just above the nearest active ancestor of `h` up to `h`, lowest first. */
  ghost function AboveFork(t: Tree, active: set<BlockHash>, h: BlockHash): Option<seq<BlockHash>>
    requires WellFormed(t) && h in t
    decreases t[h].height
  {
    if h in active then Some([])
    else match t[h].prev
      case None => None
      case Some(p) =>
        match AboveFork(t, active, p)
        case None => None
        case Some(path) => Some(path + [h])
  }

  function Unheld(path: seq<BlockHash>, d: Download): seq<BlockHash> {
    if path == [] then []
    else
      var front := Unheld(path[..|path| - 1], d);
      var h := path[|path| - 1];
      if h in BufferedHashes(d) || h in d.inFlight then front else front + [h]
  }

  /** The second critical section: install what is not yet held, unless someone else was faster. */
  function CommitQueue(d: Download, path: seq<BlockHash>): Download {
    if d.queue != [] || Unheld(path, d) == [] then d else d.(queue := Unheld(path, d))
  }

  ghost function Populated(view: ChainView, d: Download): Download
    requires view.Valid()
  {
    if d.queue != [] || view.best.None? then d
    else match AboveFork(view.tree, view.active, view.best.value)
      case None => d
      case Some(path) => CommitQueue(d, path)
  }

  function Reverse(s: seq<BlockHash>): seq<BlockHash> {
    if s == [] then [] else [s[|s| - 1]] + Reverse(s[..|s| - 1])
  }

  method PopulateDownloadQueue(view: ChainView, download: DownloadState)
    requires view.Valid()
    modifies download
    ensures download.View() == Populated(view, old(download.View()))
  {
    if download.queue != [] {
      return;
    }
    if view.best.None? {
      return;
    }
    var hashes := [];
    var current := view.best.value;
    assert forall s: seq<BlockHash> :: s + Reverse(hashes) == s;
    while current !in view.active
      invariant current in view.tree
      invariant AboveFork(view.tree, view.active, view.best.value) ==
                match AboveFork(view.tree, view.active, current)
                case None => None
                case Some(path) => Some(path + Reverse(hashes))
      decreases view.tree[current].height
    {
      var entry := view.tree[current];
      ghost var here := AboveFork(view.tree, view.active, current);
      if entry.prev.None? {
        return;
      }
      ghost var below := AboveFork(view.tree, view.active, entry.prev.value);
      assert (hashes + [current])[..|hashes|] == hashes;
      if below.Some? {
        assert below.value + ([current] + Reverse(hashes)) == below.value + [current] + Reverse(hashes);
      }
      hashes := hashes + [current];
      current := entry.prev.value;
    }
    assert [] + Reverse(hashes) == Reverse(hashes);
    if hashes == [] {
      return;
    }
    var queued := Unheld(Reverse(hashes), download.View());
    if queued == [] {
      return;
    }
    download.queue := queued;
  }

  lemma {:induction false} AncestorHeight(t: Tree, a: BlockHash, h: BlockHash)
    requires WellFormed(t) && h in t && Ancestor(t, a, h)
    ensures a in t && t[a].height <= t[h].height && (t[a].height == t[h].height ==> a == h)
    decreases t[h].height
  {
    if a != h {
      AncestorHeight(t, a, t[h].prev.value);
    }
  }

  ghost predicate Ascending(t: Tree, s: seq<BlockHash>) {
    && (forall i :: 0 <= i < |s| ==> s[i] in t)
    && (forall i, j :: 0 <= i < j < |s| ==> t[s[i]].height < t[s[j]].height)
  }

  /** `fork` is the last common ancestor of `h` and the active chain. */
  ghost predicate LastCommon(t: Tree, active: set<BlockHash>, h: BlockHash, fork: BlockHash)
    requires WellFormed(t) && h in t
  {
    && fork in t && fork in active && Ancestor(t, fork, h)
    && forall a :: a in t && Ancestor(t, a, h) && t[a].height > t[fork].height ==> a !in active
  }

  /** The hash just below position `i` of a path that starts on top of `fork`. */
  function Below(fork: BlockHash, path: seq<BlockHash>, i: nat): BlockHash
    requires i < |path|
  {
    if i == 0 then fork else path[i - 1]
  }

  ghost predicate LinkedAt(t: Tree, fork: BlockHash, path: seq<BlockHash>, i: nat)
    requires i < |path|
  {
    path[i] in t && t[path[i]].prev == Some(Below(fork, path, i))
  }

  /** `path` is the branch from just above `fork`, the last common ancestor, up to `h`. */
  ghost predicate IsBranch(t: Tree, active: set<BlockHash>, h: BlockHash, fork: BlockHash, path: seq<BlockHash>)
    requires WellFormed(t) && h in t
  {
    && LastCommon(t, active, h, fork)
    && Ascending(t, path)
    && (if path == [] then h == fork else h == path[|path| - 1])
    && (forall i :: 0 <= i < |path| ==> LinkedAt(t, fork, path, i))
    && forall x :: x in path <==> x in t && Ancestor(t, x, h) && t[x].height > t[fork].height
  }

  lemma AncestorHeights(t: Tree, h: BlockHash)
    requires WellFormed(t) && h in t
    ensures forall a :: a in t && Ancestor(t, a, h) ==> t[a].height <= t[h].height
    ensures forall a :: a in t && Ancestor(t, a, h) && t[a].height == t[h].height ==> a == h
  {
    forall a | a in t && Ancestor(t, a, h)
      ensures t[a].height <= t[h].height && (t[a].height == t[h].height ==> a == h)
    {
      AncestorHeight(t, a, h);
    }
  }

  lemma AscendingNext(t: Tree, path: seq<BlockHash>, h: BlockHash)
    requires Ascending(t, path) && h in t && forall x :: x in path ==> x in t && t[x].height < t[h].height
    ensures Ascending(t, path + [h])
  {
    forall i | 0 <= i < |path|
      ensures t[path[i]].height < t[h].height
    {
      assert path[i] in path;
    }
  }

  lemma LinkedNext(t: Tree, fork: BlockHash, path: seq<BlockHash>, h: BlockHash)
    requires forall i :: 0 <= i < |path| ==> LinkedAt(t, fork, path, i)
    requires h in t && t[h].prev == Some(if path == [] then fork else path[|path| - 1])
    ensures forall i :: 0 <= i < |path + [h]| ==> LinkedAt(t, fork, path + [h], i)
  {
    forall i | 0 <= i < |path + [h]|
      ensures LinkedAt(t, fork, path + [h], i)
    {
      if i < |path| {
        assert LinkedAt(t, fork, path, i);
      }
    }
  }

  lemma ExtendBranch(t: Tree, active: set<BlockHash>, h: BlockHash, fork: BlockHash, path: seq<BlockHash>)
    requires WellFormed(t) && h in t && h !in active && t[h].prev.Some?
    requires IsBranch(t, active, t[h].prev.value, fork, path)
    ensures IsBranch(t, active, h, fork, path + [h])
  {
    hide LinkedAt;
    AncestorHeights(t, t[h].prev.value);
    AscendingNext(t, path, h);
    LinkedNext(t, fork, path, h);
  }

  /** The walk finds a path exactly when some ancestor is active, and then it is the branch above the last one. */
  lemma {:induction false} WalkFindsBranch(t: Tree, active: set<BlockHash>, h: BlockHash) returns (fork: BlockHash)
    requires WellFormed(t) && h in t
    ensures match AboveFork(t, active, h)
            case None => forall a :: a in t && Ancestor(t, a, h) ==> a !in active
            case Some(path) => IsBranch(t, active, h, fork, path)
    decreases t[h].height
  {
    fork := h;
    if h in active {
      AncestorHeights(t, h);
    } else if t[h].prev.Some? {
      var p := t[h].prev.value;
      fork := WalkFindsBranch(t, active, p);
      var below := AboveFork(t, active, p);
      if below.Some? {
        ExtendBranch(t, active, h, fork, below.value);
      }
    }
  }

  lemma {:induction false} UnheldIsRest(path: seq<BlockHash>, d: Download)
    ensures forall h :: h in Unheld(path, d) <==> h in path && h !in BufferedHashes(d) && h !in d.inFlight
  {
    if path != [] {
      var n := |path| - 1;
      UnheldIsRest(path[..n], d);
      assert path == path[..n] + [path[n]];
    }
  }

  lemma {:induction false} UnheldAscends(t: Tree, path: seq<BlockHash>, d: Download)
    requires Ascending(t, path)
    ensures Ascending(t, Unheld(path, d))
  {
    if path != [] {
      var n := |path| - 1;
      UnheldAscends(t, path[..n], d);
      UnheldIsRest(path[..n], d);
      var front := Unheld(path[..n], d);
      assert path == path[..n] + [path[n]];
      forall i | 0 <= i < |front|
        ensures t[front[i]].height < t[path[n]].height
      {
        assert front[i] in path[..n];
      }
    }
  }

  /**
   Whenever the queue is rebuilt it holds, in strictly ascending height and hence without repeats,
   exactly the blocks above the last common ancestor of best header and active chain that are
   neither buffered nor requested; otherwise nothing changes.
   */
  lemma QueueIsBranch(view: ChainView, d: Download) returns (fork: BlockHash)
    requires view.Valid()
    ensures var r := Populated(view, d);
            && r.inFlight == d.inFlight && r.buffer == d.buffer
            && (r != d ==>
                  && d.queue == [] && view.best.Some?
                  && LastCommon(view.tree, view.active, view.best.value, fork)
                  && Ascending(view.tree, r.queue) && NoDup(r.queue)
                  && forall x :: x in r.queue <==>
                       && x in view.tree && Ancestor(view.tree, x, view.best.value)
                       && view.tree[x].height > view.tree[fork].height
                       && x !in BufferedHashes(d) && x !in d.inFlight)
  {
    fork := 0;
    if d.queue == [] && view.best.Some? {
      fork := WalkFindsBranch(view.tree, view.active, view.best.value);
      var walk := AboveFork(view.tree, view.active, view.best.value);
      if walk.Some? {
        UnheldAscends(view.tree, walk.value, d);
        UnheldIsRest(walk.value, d);
      }
    }
  }

  /** Conversely the queue stays empty only if the branch is already held in full or does not exist. */
  lemma NothingQueuedMeansHeld(view: ChainView, d: Download, x: BlockHash, fork: BlockHash)
    requires view.Valid() && view.best.Some? && Populated(view, d).queue == []
    requires LastCommon(view.tree, view.active, view.best.value, fork)
    requires x in view.tree && Ancestor(view.tree, x, view.best.value) && view.tree[x].height > view.tree[fork].height
    ensures x in BufferedHashes(d) || x in d.inFlight
  {
    var t, best := view.tree, view.best.value;
    var found := WalkFindsBranch(t, view.active, best);
    var walk := AboveFork(t, view.active, best);
    assert walk.Some?;
    assert t[found].height == t[fork].height;
    assert x in walk.value;
    UnheldIsRest(walk.value, d);
    assert x !in Unheld(walk.value, d);
  }

  lemma {:induction false} NothingHeld(path: seq<BlockHash>, d: Download)
    requires d == EMPTY
    ensures Unheld(path, d) == path
  {
    if path != [] {
      NothingHeld(path[..|path| - 1], d);
    }
  }

  lemma BranchFacts(t: Tree, active: set<BlockHash>, h: BlockHash, fork: BlockHash, path: seq<BlockHash>)
    requires WellFormed(t) && h in t && IsBranch(t, active, h, fork, path)
    ensures NoDup(path) && fork !in path && forall x :: x in path ==> x in t && x !in active
  {
  }

  /** With nothing held, the queue is the whole branch, each block linked to the one before it. */
  lemma QueueFromNothing(view: ChainView) returns (fork: BlockHash, path: seq<BlockHash>)
    requires view.Valid() && Populated(view, EMPTY) != EMPTY
    ensures Populated(view, EMPTY) == EMPTY.(queue := path)
    ensures NoDup(path) && fork in view.active && fork !in path
    ensures forall h :: h in path ==> h !in view.active
    ensures forall i :: 0 <= i < |path| ==> LinkedAt(view.tree, fork, path, i)
  {
    fork := WalkFindsBranch(view.tree, view.active, view.best.value);
    path := AboveFork(view.tree, view.active, view.best.value).value;
    NothingHeld(path, EMPTY);
    BranchFacts(view.tree, view.active, view.best.value, fork, path);
  }
}
