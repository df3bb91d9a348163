/** The wallet's coin map and how blocks change it (`Wallet`, `scan_block_inner`). */
module Ledger {
  import opened Basics
  import opened Bytes

  type Bytes32 = s: seq<byte> | |s| == 32 witness seq(32, _ => 0)
  type Txid = Bytes32

  const CURVE_ORDER := 0xFFFFFFFF_FFFFFFFF_FFFFFFFF_FFFFFFFE_BAAEDCE6_AF48A03B_BFD25E8C_D0364141

  predicate IsScalar(s: Bytes32) {
    FromBe(s) < CURVE_ORDER
  }

  type Scalar = s: Bytes32 | IsScalar(s) witness ZeroScalar()

  function ZeroScalar(): (s: Bytes32)
    ensures IsScalar(s)
  {
    FromBeZeros(32);
    seq(32, _ => 0)
  }

  lemma {:induction false} FromBeZeros(n: nat)
    ensures FromBe(seq(n, _ => 0)) == 0
  {
    if n > 0 {
      FromBeZeros(n - 1);
      var zeros: seq<byte> := seq(n, _ => 0);
      assert zeros[..n - 1] == seq(n - 1, _ => 0);
    }
  }

  datatype Network = Mainnet | Testnet | Regtest

  datatype OutPoint = OutPoint(txid: Txid, vout: u32)

  datatype SpentBy = SpentBy(txid: Txid, height: u32)

  datatype Coin = Coin(
    value: u64,
    script: seq<byte>,
    tweak: Scalar,
    tag: Option<Scalar>,       // the label scalar, if the payment used a label
    height: u32,
    spentBy: Option<SpentBy>)

  type Utxos = map<OutPoint, Coin>

  /** `onCurve`: the 32 bytes behind a taproot prefix are the x coordinate of a point. */
  datatype TxOut = TxOut(value: u64, script: seq<byte>, onCurve: bool)

  /** An output key that the silent payment receiver recognised as ours, with its tweak and label. */
  datatype Find = Find(key: Bytes32, tweak: Scalar, tag: Option<Scalar>)

  /** `finds` is what the receiver reports for this transaction under the wallet's keys, in any order. */
  datatype Tx = Tx(txid: Txid, inputs: seq<OutPoint>, outputs: seq<TxOut>, finds: seq<Find>)

  type Block = seq<Tx>

  predicate IsP2tr(script: seq<byte>) {
    |script| == 34 && script[0] == 0x51 && script[1] == 0x20
  }

  function ParseP2tr(out: TxOut): Option<Bytes32> {
    if IsP2tr(out.script) && out.onCurve then Some(out.script[2..]) else None
  }

  /** An output with a taproot key, by its position in the transaction. */
  datatype Keyed = Keyed(index: nat, key: Bytes32)

  function TaprootOutputs(outputs: seq<TxOut>): seq<Keyed> {
    if outputs == [] then []
    else
      var n := |outputs| - 1;
      var key := ParseP2tr(outputs[n]);
      TaprootOutputs(outputs[..n]) + if key.Some? then [Keyed(n, key.value)] else []
  }

  lemma {:induction false} TaprootListed(outputs: seq<TxOut>, e: Keyed)
    ensures e in TaprootOutputs(outputs) <==> e.index < |outputs| && ParseP2tr(outputs[e.index]) == Some(e.key)
  {
    hide ParseP2tr;
    if outputs != [] {
      TaprootListed(outputs[..|outputs| - 1], e);
    }
  }

  ghost predicate Ascends(list: seq<Keyed>) {
    forall i, j :: 0 <= i < j < |list| ==> list[i].index < list[j].index
  }

  lemma {:induction false} TaprootAscends(outputs: seq<TxOut>)
    ensures Ascends(TaprootOutputs(outputs))
  {
    hide ParseP2tr;
    if outputs != [] {
      var n := |outputs| - 1;
      var before := TaprootOutputs(outputs[..n]);
      TaprootAscends(outputs[..n]);
      forall i | 0 <= i < |before|
        ensures before[i].index < n
      {
        TaprootListed(outputs[..n], before[i]);
      }
    }
  }

  /** The first entry with this key. */
  function IndexOf(list: seq<Keyed>, key: Bytes32): (r: Option<nat>)
    ensures r.Some? ==> Keyed(r.value, key) in list
    ensures r.None? ==> forall e :: e in list ==> e.key != key
  {
    if list == [] then None
    else if list[0].key == key then Some(list[0].index)
    else IndexOf(list[1..], key)
  }

  lemma {:induction false} IndexIsFirst(list: seq<Keyed>, key: Bytes32)
    requires Ascends(list)
    ensures forall e :: e in list && e.key == key ==> IndexOf(list, key).Some? && IndexOf(list, key).value <= e.index
  {
    if list != [] && list[0].key != key {
      IndexIsFirst(list[1..], key);
    }
  }

  /** An output of a transaction that is ours. */
  datatype Match = Match(index: nat, tweak: Scalar, tag: Option<Scalar>)

  /** The finds that name a listed output, as matches of the first such output. */
  function MatchesIn(list: seq<Keyed>, finds: seq<Find>): seq<Match> {
    if finds == [] then []
    else
      var n := |finds| - 1;
      var index := IndexOf(list, finds[n].key);
      MatchesIn(list, finds[..n]) + if index.Some? then [Match(index.value, finds[n].tweak, finds[n].tag)] else []
  }

  /** A taproot output to this key: version 1, a push of 32 bytes, and the key. */
  ghost predicate PaysKey(out: TxOut, key: Bytes32) {
    out.onCurve && out.script == [0x51, 0x20] + key
  }

  lemma ParsesKey(out: TxOut, key: Bytes32)
    ensures ParseP2tr(out) == Some(key) <==> PaysKey(out, key)
  {
    if IsP2tr(out.script) {
      assert out.script == [0x51, 0x20] + out.script[2..];
    }
    assert ([0x51, 0x20] + key)[2..] == key;
  }

  /** Some find with this tweak and label names the key of the output, and no earlier output has that key. */
  ghost predicate Answers(tx: Tx, m: Match, f: Find) {
    && m.index < |tx.outputs| && PaysKey(tx.outputs[m.index], f.key) && m.tweak == f.tweak && m.tag == f.tag
    && forall i :: 0 <= i < m.index ==> !PaysKey(tx.outputs[i], f.key)
  }

  lemma LastMatch(tx: Tx, f: Find)
    ensures var index := IndexOf(TaprootOutputs(tx.outputs), f.key);
            if index.Some? then Answers(tx, Match(index.value, f.tweak, f.tag), f)
            else forall i :: 0 <= i < |tx.outputs| ==> !PaysKey(tx.outputs[i], f.key)
  {
    hide ParseP2tr, PaysKey;
    var list := TaprootOutputs(tx.outputs);
    var index := IndexOf(list, f.key);
    TaprootAscends(tx.outputs);
    IndexIsFirst(list, f.key);
    forall i | 0 <= i < |tx.outputs|
      ensures Keyed(i, f.key) in list <==> PaysKey(tx.outputs[i], f.key)
    {
      TaprootListed(tx.outputs, Keyed(i, f.key));
      ParsesKey(tx.outputs[i], f.key);
    }
    if index.Some? {
      TaprootListed(tx.outputs, Keyed(index.value, f.key));
    }
  }

  lemma {:induction false} MatchHasFind(tx: Tx, finds: seq<Find>, m: Match) returns (f: Find)
    requires m in MatchesIn(TaprootOutputs(tx.outputs), finds)
    ensures f in finds && Answers(tx, m, f)
  {
    hide ParseP2tr, PaysKey, Answers;
    var n := |finds| - 1;
    if m in MatchesIn(TaprootOutputs(tx.outputs), finds[..n]) {
      f := MatchHasFind(tx, finds[..n], m);
    } else {
      f := finds[n];
      LastMatch(tx, f);
    }
  }

  lemma {:induction false} FindHasMatch(tx: Tx, finds: seq<Find>, f: Find, i: nat) returns (m: Match)
    requires f in finds && i < |tx.outputs| && PaysKey(tx.outputs[i], f.key)
    ensures m in MatchesIn(TaprootOutputs(tx.outputs), finds) && Answers(tx, m, f)
  {
    hide ParseP2tr, PaysKey, Answers;
    var n := |finds| - 1;
    if f in finds[..n] {
      m := FindHasMatch(tx, finds[..n], f, i);
    } else {
      LastMatch(tx, f);
      m := Match(IndexOf(TaprootOutputs(tx.outputs), f.key).value, f.tweak, f.tag);
    }
  }

  function Matches(tx: Tx): (ms: seq<Match>)
    ensures forall m :: m in ms ==> m.index < |tx.outputs| && IsP2tr(tx.outputs[m.index].script)
  {
    MatchedAreTaproot(tx);
    MatchesIn(TaprootOutputs(tx.outputs), tx.finds)
  }

  lemma MatchedAreTaproot(tx: Tx)
    ensures forall m :: m in MatchesIn(TaprootOutputs(tx.outputs), tx.finds) ==>
              m.index < |tx.outputs| && IsP2tr(tx.outputs[m.index].script)
  {
    forall m | m in MatchesIn(TaprootOutputs(tx.outputs), tx.finds)
      ensures m.index < |tx.outputs| && IsP2tr(tx.outputs[m.index].script)
    {
      var f := MatchHasFind(tx, tx.finds, m);
    }
  }

  /**
   Whatever keys the receiver reports, the scan matches exactly those that are keys of taproot
   outputs of the transaction, each with the first such output.
   */
  lemma MatchesAnswerFinds(tx: Tx)
    ensures forall m :: m in Matches(tx) ==> exists f :: f in tx.finds && Answers(tx, m, f)
    ensures forall f, i :: f in tx.finds && 0 <= i < |tx.outputs| && PaysKey(tx.outputs[i], f.key) ==>
              exists m :: m in Matches(tx) && Answers(tx, m, f)
  {
    hide ParseP2tr, PaysKey, Answers;
    forall m | m in Matches(tx)
      ensures exists f :: f in tx.finds && Answers(tx, m, f)
    {
      var f := MatchHasFind(tx, tx.finds, m);
    }
    forall f, i | f in tx.finds && 0 <= i < |tx.outputs| && PaysKey(tx.outputs[i], f.key)
      ensures exists m :: m in Matches(tx) && Answers(tx, m, f)
    {
      var m := FindHasMatch(tx, tx.finds, f, i);
    }
  }

  datatype Receipt = Receipt(outpoint: OutPoint, coin: Coin)

  function ReceiptOf(tx: Tx, m: Match, height: u32): Receipt
    requires m.index < |tx.outputs|
  {
    var out := tx.outputs[m.index];
    Receipt(OutPoint(tx.txid, m.index % 0x1_0000_0000), Coin(out.value, out.script, m.tweak, m.tag, height, None))
  }

  function TxFound(tx: Tx, height: u32): seq<Receipt> {
    var ms := Matches(tx);
    seq(|ms|, i requires 0 <= i < |ms| => assert ms[i] in ms; ReceiptOf(tx, ms[i], height))
  }

  /** Everything received in a block; the coinbase transaction is skipped. */
  function Found(b: Block, height: u32): seq<Receipt> {
    if |b| <= 1 then [] else Found(b[..|b| - 1], height) + TxFound(b[|b| - 1], height)
  }

  function InsertAll(u: Utxos, found: seq<Receipt>): Utxos {
    if found == [] then u
    else
      var r := found[|found| - 1];
      InsertAll(u, found[..|found| - 1])[r.outpoint := r.coin]
  }

  datatype Spend = Spend(outpoint: OutPoint, txid: Txid)

  function TxSpends(tx: Tx): seq<Spend> {
    seq(|tx.inputs|, i requires 0 <= i < |tx.inputs| => Spend(tx.inputs[i], tx.txid))
  }

  function Spends(b: Block): seq<Spend> {
    if b == [] then [] else Spends(b[..|b| - 1]) + TxSpends(b[|b| - 1])
  }

  function Mark(u: Utxos, s: Spend, height: u32): Utxos {
    if s.outpoint in u then u[s.outpoint := u[s.outpoint].(spentBy := Some(SpentBy(s.txid, height)))] else u
  }

  function MarkAll(u: Utxos, spends: seq<Spend>, height: u32): Utxos {
    if spends == [] then u
    else Mark(MarkAll(u, spends[..|spends| - 1], height), spends[|spends| - 1], height)
  }

  /** Connecting a block: add what it pays us, then mark what it spends. */
  function Scan(u: Utxos, b: Block, height: u32): Utxos {
    MarkAll(InsertAll(u, Found(b, height)), Spends(b), height)
  }

  function Txids(b: Block): set<Txid> {
    set tx | tx in b :: tx.txid
  }

  function Unspend(c: Coin, txids: set<Txid>): Coin {
    if c.spentBy.Some? && c.spentBy.value.txid in txids then c.(spentBy := None) else c
  }

  /** Disconnecting a block: drop what it paid us and forget what it spent. */
  function Disconnect(u: Utxos, b: Block): Utxos {
    map op | op in u && op.txid !in Txids(b) :: Unspend(u[op], Txids(b))
  }

  lemma {:induction false} MarkAllConcat(u: Utxos, a: seq<Spend>, b: seq<Spend>, height: u32)
    ensures MarkAll(u, a + b, height) == MarkAll(MarkAll(u, a, height), b, height)
    decreases |b|
  {
    if b == [] {
      assert a + b == a;
    } else {
      var n := |b| - 1;
      MarkAllConcat(u, a, b[..n], height);
      assert (a + b)[..|a| + n] == a + b[..n];
    }
  }

  method ScanTransaction(list: seq<Keyed>, finds: seq<Find>) returns (matches: seq<Match>)
    ensures matches == MatchesIn(list, finds)
  {
    matches := [];
    for i := 0 to |finds|
      invariant matches == MatchesIn(list, finds[..i])
    {
      assert finds[..i + 1][..i] == finds[..i];
      var index := IndexOf(list, finds[i].key);
      if index.Some? {
        matches := matches + [Match(index.value, finds[i].tweak, finds[i].tag)];
      }
    }
    assert finds[..|finds|] == finds;
  }

  method ListTaproot(outputs: seq<TxOut>) returns (list: seq<Keyed>)
    ensures list == TaprootOutputs(outputs)
  {
    list := [];
    for i := 0 to |outputs|
      invariant list == TaprootOutputs(outputs[..i])
    {
      assert outputs[..i + 1][..i] == outputs[..i];
      var key := ParseP2tr(outputs[i]);
      if key.Some? {
        list := list + [Keyed(i, key.value)];
      }
    }
    assert outputs[..|outputs|] == outputs;
  }

  method ReceiveFrom(tx: Tx, height: u32) returns (found: seq<Receipt>)
    ensures found == TxFound(tx, height)
  {
    hide MatchesIn, TaprootOutputs;
    var list := ListTaproot(tx.outputs);
    var matches := ScanTransaction(list, tx.finds);
    found := [];
    for i := 0 to |matches|
      invariant found == TxFound(tx, height)[..i]
    {
      assert matches[i] in Matches(tx);
      found := found + [ReceiptOf(tx, matches[i], height)];
    }
  }

  method ScanBlockInner(b: Block, height: u32) returns (found: seq<Receipt>)
    ensures found == Found(b, height)
  {
    hide TxFound;
    found := [];
    if |b| <= 1 {
      return;
    }
    assert Found(b[..1], height) == [];
    for i := 1 to |b|
      invariant found == Found(b[..i], height)
    {
      assert b[..i + 1][..i] == b[..i];
      var receipts := ReceiveFrom(b[i], height);
      found := found + receipts;
    }
    assert b[..|b|] == b;
  }

  class Wallet {
    var scanHeight: u32
    var hasKeys: bool
    var hasSpendSecret: bool
    var network: Network
    var utxos: Utxos
    var reserved: set<OutPoint>

    constructor (network: Network)
      ensures scanHeight == 0 && !hasKeys && !hasSpendSecret && this.network == network && utxos == map[] && reserved == {}
    {
      scanHeight, hasKeys, hasSpendSecret, this.network, utxos, reserved := 0, false, false, network, map[], {};
    }

    method ReserveCoins(outpoints: seq<OutPoint>)
      modifies this`reserved
      ensures reserved == old(reserved) + Elems(outpoints)
    {
      reserved := reserved + Elems(outpoints);
    }

    method ReleaseCoins(outpoints: seq<OutPoint>)
      modifies this`reserved
      ensures reserved == old(reserved) - Elems(outpoints)
    {
      for i := 0 to |outpoints|
        invariant reserved == old(reserved) - Elems(outpoints[..i])
      {
        reserved := reserved - {outpoints[i]};
        assert outpoints[..i + 1] == outpoints[..i] + [outpoints[i]];
        ElemsConcat(outpoints[..i], [outpoints[i]]);
      }
      assert outpoints[..|outpoints|] == outpoints;
    }

    method InsertFound(found: seq<Receipt>)
      modifies this`utxos
      ensures utxos == InsertAll(old(utxos), found)
    {
      for i := 0 to |found|
        invariant utxos == InsertAll(old(utxos), found[..i])
      {
        assert found[..i + 1][..i] == found[..i];
        utxos := utxos[found[i].outpoint := found[i].coin];
      }
      assert found[..|found|] == found;
    }

    method ScanBlock(b: Block, height: u32) returns (count: nat)
      modifies this`utxos, this`scanHeight
      ensures !hasKeys ==> count == 0 && utxos == old(utxos) && scanHeight == old(scanHeight)
      ensures hasKeys ==> count == |Found(b, height)| && utxos == Scan(old(utxos), b, height) && scanHeight == height
    {
      hide Found, InsertAll, TxSpends;
      if !hasKeys {
        return 0;
      }
      var found := ScanBlockInner(b, height);
      count := |found|;
      InsertFound(found);
      ghost var received := utxos;
      for i := 0 to |b|
        invariant utxos == MarkAll(received, Spends(b[..i]), height)
      {
        MarkInputs(b[i], height);
        MarkAllConcat(received, Spends(b[..i]), TxSpends(b[i]), height);
        assert b[..i + 1][..i] == b[..i];
      }
      assert b[..|b|] == b;
      scanHeight := height;
    }

    method MarkInputs(tx: Tx, height: u32)
      modifies this`utxos
      ensures utxos == MarkAll(old(utxos), TxSpends(tx), height)
    {
      for j := 0 to |tx.inputs|
        invariant utxos == MarkAll(old(utxos), TxSpends(tx)[..j], height)
      {
        assert TxSpends(tx)[..j + 1][..j] == TxSpends(tx)[..j];
        if tx.inputs[j] in utxos {
          utxos := utxos[tx.inputs[j] := utxos[tx.inputs[j]].(spentBy := Some(SpentBy(tx.txid, height)))];
        }
      }
      assert TxSpends(tx)[..|tx.inputs|] == TxSpends(tx);
    }

    method ProcessDisconnect(b: Block)
      modifies this`utxos
      ensures utxos == Disconnect(old(utxos), b)
    {
      var txids := Txids(b);
      utxos := map op | op in utxos && op.txid !in txids :: utxos[op];
      var todo := utxos.Keys;
      ghost var kept := utxos;
      while todo != {}
        invariant utxos.Keys == kept.Keys && todo <= utxos.Keys
        invariant forall op :: op in kept ==> utxos[op] == if op in todo then kept[op] else Unspend(kept[op], txids)
        decreases todo
      {
        var op :| op in todo;
        var s := utxos[op].spentBy;
        if s.Some? && s.value.txid in txids {
          utxos := utxos[op := utxos[op].(spentBy := None)];
        }
        todo := todo - {op};
      }
    }
  }
}
