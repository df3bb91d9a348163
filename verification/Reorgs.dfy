/**
 The coin map as an index of the active chain: reorganisations undo exactly what they disconnect,
 and scanning a stretch of chain again changes nothing.
 */
module Reorgs {
  import opened Basics
  import opened Bytes
  import opened Ledger

  /** What a block, or a stretch of chain, does to one map entry. */
  datatype Act = Keep | Stamp(s: SpentBy) | Put(coin: Coin)

  function Do(a: Act, x: Option<Coin>): Option<Coin> {
    match a
    case Keep => x
    case Stamp(s) => if x.Some? then Some(x.value.(spentBy := Some(s))) else None
    case Put(coin) => Some(coin)
  }

  function Then(a: Act, b: Act): Act {
    match (a, b)
    case (_, Keep) => a
    case (_, Put(_)) => b
    case (Put(coin), Stamp(s)) => Put(coin.(spentBy := Some(s)))
    case _ => b
  }

  lemma DoThen(a: Act, b: Act, x: Option<Coin>)
    ensures Do(Then(a, b), x) == Do(b, Do(a, x))
  {
  }

  function Get(u: Utxos, op: OutPoint): Option<Coin> {
    if op in u then Some(u[op]) else None
  }

  lemma SameMap(u: Utxos, v: Utxos)
    requires forall op :: Get(u, op) == Get(v, op)
    ensures u == v
  {
    forall op
      ensures op in u <==> op in v
      ensures op in u ==> u[op] == v[op]
    {
      assert Get(u, op) == Get(v, op);
    }
  }

  function LastReceipt(found: seq<Receipt>, op: OutPoint): Option<Coin> {
    if found == [] then None
    else if found[|found| - 1].outpoint == op then Some(found[|found| - 1].coin)
    else LastReceipt(found[..|found| - 1], op)
  }

  function LastSpender(spends: seq<Spend>, op: OutPoint): Option<Txid> {
    if spends == [] then None
    else if spends[|spends| - 1].outpoint == op then Some(spends[|spends| - 1].txid)
    else LastSpender(spends[..|spends| - 1], op)
  }

  function ReceiveAct(found: seq<Receipt>, op: OutPoint): Act {
    match LastReceipt(found, op)
    case None => Keep
    case Some(coin) => Put(coin)
  }

  function SpendAct(spends: seq<Spend>, op: OutPoint, height: u32): Act {
    match LastSpender(spends, op)
    case None => Keep
    case Some(txid) => Stamp(SpentBy(txid, height))
  }

  function BlockAct(b: Block, height: u32, op: OutPoint): Act {
    Then(ReceiveAct(Found(b, height), op), SpendAct(Spends(b), op, height))
  }

  lemma {:induction false} InsertPointwise(u: Utxos, found: seq<Receipt>, op: OutPoint)
    ensures Get(InsertAll(u, found), op) == Do(ReceiveAct(found, op), Get(u, op))
  {
    if found != [] {
      InsertPointwise(u, found[..|found| - 1], op);
    }
  }

  lemma {:induction false} MarkPointwise(u: Utxos, spends: seq<Spend>, height: u32, op: OutPoint)
    ensures Get(MarkAll(u, spends, height), op) == Do(SpendAct(spends, op, height), Get(u, op))
  {
    if spends != [] {
      MarkPointwise(u, spends[..|spends| - 1], height, op);
    }
  }

  lemma ScanPointwise(u: Utxos, b: Block, height: u32, op: OutPoint)
    ensures Get(Scan(u, b, height), op) == Do(BlockAct(b, height, op), Get(u, op))
  {
    InsertPointwise(u, Found(b, height), op);
    MarkPointwise(InsertAll(u, Found(b, height)), Spends(b), height, op);
    DoThen(ReceiveAct(Found(b, height), op), SpendAct(Spends(b), op, height), Get(u, op));
  }

  /** A block of the active chain, at its height. */
  datatype Placed = Placed(block: Block, height: u32)

  function ScanAll(u: Utxos, chain: seq<Placed>): Utxos {
    if chain == [] then u
    else
      var n := |chain| - 1;
      Scan(ScanAll(u, chain[..n]), chain[n].block, chain[n].height)
  }

  function FromScratch(chain: seq<Placed>): Utxos {
    ScanAll(map[], chain)
  }

  function ChainAct(chain: seq<Placed>, op: OutPoint): Act {
    if chain == [] then Keep
    else
      var n := |chain| - 1;
      Then(ChainAct(chain[..n], op), BlockAct(chain[n].block, chain[n].height, op))
  }

  lemma {:induction false} ScanAllPointwise(u: Utxos, chain: seq<Placed>, op: OutPoint)
    ensures Get(ScanAll(u, chain), op) == Do(ChainAct(chain, op), Get(u, op))
  {
    if chain != [] {
      var n := |chain| - 1;
      ScanAllPointwise(u, chain[..n], op);
      ScanPointwise(ScanAll(u, chain[..n]), chain[n].block, chain[n].height, op);
      DoThen(ChainAct(chain[..n], op), BlockAct(chain[n].block, chain[n].height, op), Get(u, op));
    }
  }

  lemma {:induction false} ScanAllConcat(u: Utxos, a: seq<Placed>, b: seq<Placed>)
    ensures ScanAll(u, a + b) == ScanAll(ScanAll(u, a), b)
    decreases |b|
  {
    hide Scan;
    if b == [] {
      assert a + b == a;
    } else {
      var n := |b| - 1;
      ScanAllConcat(u, a, b[..n]);
      assert (a + b)[..|a| + n] == a + b[..n];
    }
  }

  /** Scanning a stretch of chain twice is scanning it once, from any map whatever. */
  lemma RescanIsIdempotent(u: Utxos, chain: seq<Placed>)
    ensures ScanAll(ScanAll(u, chain), chain) == ScanAll(u, chain)
  {
    hide ScanAll;
    var v := ScanAll(u, chain);
    forall op
      ensures Get(ScanAll(v, chain), op) == Get(v, op)
    {
      ScanAllPointwise(u, chain, op);
      ScanAllPointwise(v, chain, op);
    }
    SameMap(ScanAll(v, chain), v);
  }

  /** Replaying any tail of what was already scanned ends with the same map. */
  lemma ReplayTail(u: Utxos, chain: seq<Placed>, from: nat)
    requires from <= |chain|
    ensures ScanAll(ScanAll(u, chain), chain[from..]) == ScanAll(u, chain)
  {
    hide ScanAll;
    ScanAllConcat(u, chain[..from], chain[from..]);
    assert chain[..from] + chain[from..] == chain;
    RescanIsIdempotent(ScanAll(u, chain[..from]), chain[from..]);
  }

  function SpentOutpoints(b: Block): set<OutPoint> {
    set s | s in Spends(b) :: s.outpoint
  }

  lemma {:induction false} LastReceiptIn(found: seq<Receipt>, op: OutPoint)
    ensures LastReceipt(found, op).Some? ==> exists r :: r in found && r.outpoint == op && r.coin == LastReceipt(found, op).value
  {
    if found != [] {
      var n := |found| - 1;
      LastReceiptIn(found[..n], op);
      if found[n].outpoint == op {
        assert found[n] in found;
      } else if LastReceipt(found, op).Some? {
        var r :| r in found[..n] && r.outpoint == op && r.coin == LastReceipt(found, op).value;
        assert r in found;
      }
    }
  }

  lemma {:induction false} LastSpenderIn(spends: seq<Spend>, op: OutPoint)
    ensures LastSpender(spends, op).Some? <==> exists s :: s in spends && s.outpoint == op
    ensures LastSpender(spends, op).Some? ==> Spend(op, LastSpender(spends, op).value) in spends
  {
    if spends != [] {
      var n := |spends| - 1;
      assert spends == spends[..n] + [spends[n]];
      LastSpenderIn(spends[..n], op);
      if spends[n].outpoint == op {
        assert spends[n] in spends;
      }
    }
  }

  lemma {:induction false} ReceiptsFromBlock(b: Block, height: u32)
    ensures forall r :: r in Found(b, height) ==>
              && r.outpoint.txid in Txids(b) && r.coin.height == height && r.coin.spentBy == None
              && exists tx, m :: tx in b && m in Matches(tx) && r == ReceiptOf(tx, m, height)
  {
    if |b| > 1 {
      var n := |b| - 1;
      ReceiptsFromBlock(b[..n], height);
      forall r | r in Found(b, height)
        ensures r.outpoint.txid in Txids(b) && r.coin.height == height && r.coin.spentBy == None
        ensures exists tx, m :: tx in b && m in Matches(tx) && r == ReceiptOf(tx, m, height)
      {
        if r in TxFound(b[n], height) {
          var i :| 0 <= i < |TxFound(b[n], height)| && r == TxFound(b[n], height)[i];
          assert b[n] in b && Matches(b[n])[i] in Matches(b[n]);
        } else {
          assert r in Found(b[..n], height);
          var tx, m :| tx in b[..n] && m in Matches(tx) && r == ReceiptOf(tx, m, height);
          assert tx in b;
        }
      }
    }
  }

  lemma {:induction false} SpendersFromBlock(b: Block)
    ensures forall s :: s in Spends(b) ==> s.txid in Txids(b)
  {
    if b != [] {
      var n := |b| - 1;
      SpendersFromBlock(b[..n]);
      assert b[n] in b;
      forall s | s in Spends(b)
        ensures s.txid in Txids(b)
      {
        if s !in TxSpends(b[n]) {
          assert s in Spends(b[..n]);
        }
      }
    }
  }

  /** A transaction of the block other than the coinbase pays us the output `op` names. */
  ghost predicate Pays(b: Block, i: nat, m: Match, op: OutPoint) {
    1 <= i < |b| && m in Matches(b[i]) && op == OutPoint(b[i].txid, m.index % 0x1_0000_0000)
  }

  /** An unspent coin with the value and script of that output and the tweak and label of the match. */
  ghost predicate IsCoinOf(b: Block, i: nat, m: Match, height: u32, c: Coin)
    requires i < |b| && m in Matches(b[i])
  {
    var out := b[i].outputs[m.index];
    && c.value == out.value && c.script == out.script && c.tweak == m.tweak && c.tag == m.tag
    && c.height == height && c.spentBy == None
  }

  ghost predicate PaidIn(b: Block, op: OutPoint) {
    exists i: nat, m :: Pays(b, i, m, op)
  }

  ghost predicate SpentIn(b: Block, op: OutPoint) {
    exists tx :: tx in b && op in tx.inputs
  }

  lemma {:induction false} FoundHas(b: Block, height: u32, i: nat, m: Match)
    requires 1 <= i < |b| && m in Matches(b[i])
    ensures ReceiptOf(b[i], m, height) in Found(b, height)
  {
    hide Matches, ReceiptOf;
    var n := |b| - 1;
    if i < n {
      FoundHas(b[..n], height, i, m);
    } else {
      var k :| 0 <= k < |Matches(b[i])| && Matches(b[i])[k] == m;
      assert TxFound(b[i], height)[k] == ReceiptOf(b[i], m, height);
    }
  }

  lemma {:induction false} FoundFrom(b: Block, height: u32, r: Receipt) returns (i: nat, m: Match)
    requires r in Found(b, height)
    ensures Pays(b, i, m, r.outpoint) && IsCoinOf(b, i, m, height, r.coin)
  {
    var n := |b| - 1;
    if r in TxFound(b[n], height) {
      var k :| 0 <= k < |TxFound(b[n], height)| && r == TxFound(b[n], height)[k];
      i, m := n, Matches(b[n])[k];
    } else {
      i, m := FoundFrom(b[..n], height, r);
    }
  }

  lemma {:induction false} SpendsHas(b: Block, tx: Tx, op: OutPoint)
    requires tx in b && op in tx.inputs
    ensures Spend(op, tx.txid) in Spends(b)
  {
    var n := |b| - 1;
    if tx in b[..n] {
      SpendsHas(b[..n], tx, op);
    } else {
      var k :| 0 <= k < |tx.inputs| && tx.inputs[k] == op;
      assert TxSpends(tx)[k] == Spend(op, tx.txid);
    }
  }

  lemma {:induction false} SpendsFrom(b: Block, s: Spend) returns (tx: Tx)
    requires s in Spends(b)
    ensures tx in b && s.outpoint in tx.inputs && s.txid == tx.txid
  {
    var n := |b| - 1;
    if s in TxSpends(b[n]) {
      tx := b[n];
    } else {
      tx := SpendsFrom(b[..n], s);
    }
  }

  lemma {:induction false} LastReceiptSome(found: seq<Receipt>, r: Receipt)
    requires r in found
    ensures LastReceipt(found, r.outpoint).Some?
  {
    var n := |found| - 1;
    if found[n].outpoint != r.outpoint {
      LastReceiptSome(found[..n], r);
    }
  }

  lemma {:induction false} LastSpenderSome(spends: seq<Spend>, s: Spend)
    requires s in spends
    ensures LastSpender(spends, s.outpoint).Some?
  {
    var n := |spends| - 1;
    if spends[n].outpoint != s.outpoint {
      LastSpenderSome(spends[..n], s);
    }
  }

  lemma ReceiptExactly(b: Block, height: u32, op: OutPoint)
    ensures var last := LastReceipt(Found(b, height), op);
            && (last.Some? <==> PaidIn(b, op))
            && (last.Some? ==> exists i: nat, m :: Pays(b, i, m, op) && IsCoinOf(b, i, m, height, last.value))
  {
    hide Found, IsCoinOf;
    var found := Found(b, height);
    if PaidIn(b, op) {
      var i: nat, m :| Pays(b, i, m, op);
      FoundHas(b, height, i, m);
      LastReceiptSome(found, ReceiptOf(b[i], m, height));
    }
    LastReceiptIn(found, op);
    if LastReceipt(found, op).Some? {
      var r :| r in found && r.outpoint == op && r.coin == LastReceipt(found, op).value;
      var i, m := FoundFrom(b, height, r);
    }
  }

  lemma SpenderExactly(b: Block, op: OutPoint)
    ensures var last := LastSpender(Spends(b), op);
            && (last.Some? <==> SpentIn(b, op))
            && (last.Some? ==> exists tx :: tx in b && op in tx.inputs && tx.txid == last.value)
  {
    hide Spends;
    if SpentIn(b, op) {
      var tx :| tx in b && op in tx.inputs;
      SpendsHas(b, tx, op);
      LastSpenderSome(Spends(b), Spend(op, tx.txid));
    }
    LastSpenderIn(Spends(b), op);
    var last := LastSpender(Spends(b), op);
    if last.Some? {
      assert Spend(op, last.value) in Spends(b);
      var tx := SpendsFrom(b, Spend(op, last.value));
    }
  }

  /**
   What connecting a block does to an entry, read off its transactions: a paid output is there with
   the output's value and script, an entry that any input names is marked with the txid of such a
   transaction and the height, and everything else stays.
   */
  lemma ScanExactly(u: Utxos, b: Block, height: u32, op: OutPoint)
    ensures var v := Scan(u, b, height);
            && (op in v <==> op in u || PaidIn(b, op))
            && (PaidIn(b, op) ==> exists i: nat, m :: Pays(b, i, m, op) && IsCoinOf(b, i, m, height, v[op].(spentBy := None)))
            && (op in u && !PaidIn(b, op) ==> v[op].(spentBy := u[op].spentBy) == u[op])
            && (op in v && SpentIn(b, op) ==>
                  exists tx :: tx in b && op in tx.inputs && v[op].spentBy == Some(SpentBy(tx.txid, height)))
            && (op in v && !SpentIn(b, op) ==> v[op].spentBy == if PaidIn(b, op) then None else u[op].spentBy)
  {
    hide Scan, Found, Spends, PaidIn, SpentIn;
    ScanPointwise(u, b, height, op);
    ReceiptExactly(b, height, op);
    SpenderExactly(b, op);
    var v := Scan(u, b, height);
    assert Get(v, op) == Do(BlockAct(b, height, op), Get(u, op));
    if PaidIn(b, op) {
      var coin := LastReceipt(Found(b, height), op).value;
      var i: nat, m :| Pays(b, i, m, op) && IsCoinOf(b, i, m, height, coin);
      assert v[op].(spentBy := None) == coin;
    }
  }

  /** What a block can do to an entry, in terms a caller can check. */
  lemma BlockActFacts(b: Block, height: u32, op: OutPoint)
    ensures op.txid !in Txids(b) ==>
              match BlockAct(b, height, op)
              case Keep => op !in SpentOutpoints(b)
              case Stamp(s) => op in SpentOutpoints(b) && s.txid in Txids(b) && s.height == height
              case Put(_) => false
  {
    LastReceiptIn(Found(b, height), op);
    ReceiptsFromBlock(b, height);
    LastSpenderIn(Spends(b), op);
    SpendersFromBlock(b);
    if LastSpender(Spends(b), op).Some? {
      assert Spend(op, LastSpender(Spends(b), op).value) in Spends(b);
    }
  }

  /** No coin of `u` was created by `b`, and none already spent has anything to do with `b`. */
  ghost predicate Unrelated(u: Utxos, b: Block) {
    forall op :: op in u ==>
      && op.txid !in Txids(b)
      && (u[op].spentBy.Some? ==> u[op].spentBy.value.txid !in Txids(b) && op !in SpentOutpoints(b))
  }

  /** Disconnecting a block right after connecting it restores the map exactly when the block was unrelated. */
  lemma UndoExactly(u: Utxos, b: Block, height: u32)
    ensures Disconnect(Scan(u, b, height), b) == u <==> Unrelated(u, b)
  {
    var v := Scan(u, b, height);
    forall op
      ensures Get(v, op) == Do(BlockAct(b, height, op), Get(u, op))
    {
      ScanPointwise(u, b, height, op);
    }
    forall op
      ensures Get(Disconnect(v, b), op) ==
              if op.txid in Txids(b) || op !in u then None
              else if op in SpentOutpoints(b) then Some(u[op].(spentBy := None))
              else Some(Unspend(u[op], Txids(b)))
    {
      BlockActFacts(b, height, op);
      assert Get(v, op) == Do(BlockAct(b, height, op), Get(u, op));
    }
    if Unrelated(u, b) {
      SameMap(Disconnect(v, b), u);
    } else {
      var op :| op in u
        && (op.txid in Txids(b)
            || (u[op].spentBy.Some? && (u[op].spentBy.value.txid in Txids(b) || op in SpentOutpoints(b))));
      assert Get(Disconnect(v, b), op) != Get(u, op);
    }
  }

  function ChainTxids(chain: seq<Placed>): set<Txid> {
    set p, tx | p in chain && tx in p.block :: tx.txid
  }

  function ChainSpent(chain: seq<Placed>): set<OutPoint> {
    set p, op | p in chain && op in SpentOutpoints(p.block) :: op
  }

  /** `b` may follow `chain`: new transaction ids, and no output of the chain spent a second time. */
  ghost predicate Extends(chain: seq<Placed>, b: Block) {
    && Txids(b) !! ChainTxids(chain)
    && forall op :: op in SpentOutpoints(b) && op.txid in ChainTxids(chain) ==> op !in ChainSpent(chain)
  }

  /** Whatever a block leaves in an entry comes from its own transactions. */
  lemma ActSources(b: Block, height: u32, op: OutPoint)
    ensures match BlockAct(b, height, op)
            case Keep => true
            case Stamp(s) => s.txid in Txids(b) && op in SpentOutpoints(b)
            case Put(c) =>
              op.txid in Txids(b) && (c.spentBy.Some? ==> c.spentBy.value.txid in Txids(b) && op in SpentOutpoints(b))
  {
    LastReceiptIn(Found(b, height), op);
    ReceiptsFromBlock(b, height);
    LastSpenderIn(Spends(b), op);
    SpendersFromBlock(b);
    if LastSpender(Spends(b), op).Some? {
      assert Spend(op, LastSpender(Spends(b), op).value) in Spends(b);
    }
  }

  /** Coins come from transactions of the chain, and are marked spent only by transactions of the chain. */
  lemma {:induction false} FromScratchFacts(chain: seq<Placed>, op: OutPoint)
    requires op in FromScratch(chain)
    ensures op.txid in ChainTxids(chain)
    ensures var s := FromScratch(chain)[op].spentBy; s.Some? ==> s.value.txid in ChainTxids(chain) && op in ChainSpent(chain)
  {
    hide Scan, BlockAct, ChainTxids, ChainSpent, Txids, SpentOutpoints;
    if chain != [] {
      var n := |chain| - 1;
      var p, before := chain[n], chain[..n];
      assert chain == before + [p] && p in chain;
      ScanPointwise(FromScratch(before), p.block, p.height, op);
      assert Get(FromScratch(chain), op) == Do(BlockAct(p.block, p.height, op), Get(FromScratch(before), op));
      ActSources(p.block, p.height, op);
      ChainGrows(before, p);
      if op in FromScratch(before) {
        FromScratchFacts(before, op);
      }
    }
  }

  lemma ChainGrows(chain: seq<Placed>, p: Placed)
    ensures ChainTxids(chain + [p]) == ChainTxids(chain) + Txids(p.block)
    ensures ChainSpent(chain + [p]) == ChainSpent(chain) + SpentOutpoints(p.block)
  {
    assert p in chain + [p];
    assert forall q :: q in chain ==> q in chain + [p];
  }

  datatype Event = ConnectBlock(block: Block, height: u32) | DisconnectTip

  /** The blocks still connected after a run of kernel notifications. */
  function Tip(events: seq<Event>): seq<Placed> {
    if events == [] then []
    else
      var before := Tip(events[..|events| - 1]);
      match events[|events| - 1]
      case ConnectBlock(b, height) => before + [Placed(b, height)]
      case DisconnectTip => if before == [] then [] else before[..|before| - 1]
  }

  /** Blocks connect only where they may, and only a connected block is disconnected. */
  ghost predicate ValidRun(events: seq<Event>) {
    events != [] ==>
      var n := |events| - 1;
      && ValidRun(events[..n])
      && match events[n]
         case ConnectBlock(b, _) => Extends(Tip(events[..n]), b)
         case DisconnectTip => Tip(events[..n]) != []
  }

  /** What the wallet's map becomes under the same run. */
  function Track(events: seq<Event>): Utxos {
    if events == [] then map[]
    else
      var n := |events| - 1;
      match events[n]
      case ConnectBlock(b, height) => Scan(Track(events[..n]), b, height)
      case DisconnectTip =>
        var chain := Tip(events[..n]);
        if chain == [] then Track(events[..n]) else Disconnect(Track(events[..n]), chain[|chain| - 1].block)
  }

  /** Every connected chain a valid run can produce is itself a valid chain. */
  ghost predicate ValidChain(chain: seq<Placed>) {
    chain != [] ==> var n := |chain| - 1; ValidChain(chain[..n]) && Extends(chain[..n], chain[n].block)
  }

  lemma DisconnectUndoesConnect(chain: seq<Placed>, b: Block, height: u32)
    requires Extends(chain, b)
    ensures Disconnect(Scan(FromScratch(chain), b, height), b) == FromScratch(chain)
  {
    var u := FromScratch(chain);
    forall op | op in u
      ensures op.txid !in Txids(b)
      ensures u[op].spentBy.Some? ==> u[op].spentBy.value.txid !in Txids(b) && op !in SpentOutpoints(b)
    {
      FromScratchFacts(chain, op);
    }
    UndoExactly(u, b, height);
  }

  /**
   Reorganisation correctness: after any run of connects and disconnects, the coin map, spent marks
   included, is the one from scanning only the blocks still connected.
   */
  lemma {:induction false} MapFollowsChain(events: seq<Event>)
    requires ValidRun(events)
    ensures ValidChain(Tip(events)) && Track(events) == FromScratch(Tip(events))
  {
    hide Scan, Disconnect, Extends;
    if events != [] {
      var n := |events| - 1;
      MapFollowsChain(events[..n]);
      var chain := Tip(events[..n]);
      match events[n] {
        case ConnectBlock(b, height) =>
          assert (chain + [Placed(b, height)])[..|chain|] == chain;
        case DisconnectTip =>
          var p := chain[|chain| - 1];
          DisconnectUndoesConnect(chain[..|chain| - 1], p.block, p.height);
      }
    }
  }
}
