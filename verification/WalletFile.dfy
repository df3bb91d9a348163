/** The wallet file: a 14-byte header and one 192-byte record per coin (`wallet_store.rs`). */
module WalletFile {
  import opened Basics
  import opened Bytes
  import opened Ledger
  import opened Reorgs
  import opened Histories

  const MAGIC: seq<byte> := [0x53, 0x50, 0x57, 0x46]
  const VERSION: byte := 1
  const HEADER_LEN := 10
  const COUNT_LEN := 4
  const RECORD_LEN := 192
  const SCRIPT_LEN := 34

  const R_TXID := 1
  const R_VOUT := R_TXID + 32
  const R_VALUE := R_VOUT + 4
  const R_SCRIPT := R_VALUE + 8
  const R_TWEAK := R_SCRIPT + SCRIPT_LEN
  const R_LABEL_TAG := R_TWEAK + 32
  const R_LABEL_SCALAR := R_LABEL_TAG + 1
  const R_BLOCK_HEIGHT := R_LABEL_SCALAR + 32
  const R_SPENT_TXID := R_BLOCK_HEIGHT + 4
  const R_SPENT_HEIGHT := R_SPENT_TXID + 32

  datatype FileError =
    | BadMagic
    | WrongVersion(version: byte)
    | UnknownNetwork(code: byte)
    | UnknownSpentFlag(flag: byte)
    | UnknownLabelTag(tag: byte)
    | InvalidScalar
    | NonP2trScript(got: nat)
    | TruncatedFile

  /** The part of a wallet that is stored. */
  datatype Saved = Saved(network: Network, scanHeight: u32, utxos: Utxos)

  function Zeros(n: nat): (s: seq<byte>)
    ensures |s| == n
  {
    seq(n, _ => 0)
  }

  function Flatten(fields: seq<seq<byte>>): seq<byte> {
    if fields == [] then [] else Flatten(fields[..|fields| - 1]) + fields[|fields| - 1]
  }

  /** Each field sits right behind the fields before it. */
  lemma {:induction false} FieldAt(fields: seq<seq<byte>>, i: nat)
    requires i < |fields|
    ensures var off := |Flatten(fields[..i])|;
            && |Flatten(fields[..i + 1])| == off + |fields[i]| <= |Flatten(fields)|
            && Flatten(fields)[off..off + |fields[i]|] == fields[i]
  {
    var n := |fields| - 1;
    assert fields[..i + 1][..i] == fields[..i];
    if i == n {
      assert fields[..i + 1] == fields;
    } else {
      FieldAt(fields[..n], i);
      assert fields[..n][..i] == fields[..i] && fields[..n][..i + 1] == fields[..i + 1];
    }
  }

  /** The fields of a coin record in file order; absent parts and the reserved tail are zero. */
  function RecordFields(op: OutPoint, c: Coin): (f: seq<seq<byte>>)
    ensures |f| == 12
  {
    [[if c.spentBy.Some? then 1 else 0],
     op.txid,
     ToLe(op.vout, 4),
     ToLe(c.value, 8),
     c.script,
     c.tweak,
     [if c.tag.Some? then 1 else 0],
     if c.tag.Some? then c.tag.value else Zeros(32),
     ToLe(c.height, 4),
     if c.spentBy.Some? then c.spentBy.value.txid else Zeros(32),
     if c.spentBy.Some? then ToLe(c.spentBy.value.height, 4) else Zeros(4),
     Zeros(8)]
  }

  function Record(op: OutPoint, c: Coin): seq<byte> {
    Flatten(RecordFields(op, c))
  }

  /** Where the i-th field of a record starts. */
  function Offset(i: nat): nat {
    match i
    case 0 => 0
    case 1 => R_TXID
    case 2 => R_VOUT
    case 3 => R_VALUE
    case 4 => R_SCRIPT
    case 5 => R_TWEAK
    case 6 => R_LABEL_TAG
    case 7 => R_LABEL_SCALAR
    case 8 => R_BLOCK_HEIGHT
    case 9 => R_SPENT_TXID
    case 10 => R_SPENT_HEIGHT
    case 11 => R_SPENT_HEIGHT + 4
    case _ => RECORD_LEN
  }

  /** Every field is as wide as the layout says. */
  ghost predicate FitsLayout(fields: seq<seq<byte>>) {
    |fields| == 12 && forall i :: 0 <= i < 12 ==> Offset(i) + |fields[i]| == Offset(i + 1)
  }

  lemma RecordFits(op: OutPoint, c: Coin)
    requires |c.script| == SCRIPT_LEN
    ensures FitsLayout(RecordFields(op, c))
  {
  }

  lemma {:induction false} LayoutOffsets(fields: seq<seq<byte>>, i: nat)
    requires FitsLayout(fields) && i <= 12
    ensures |Flatten(fields[..i])| == Offset(i)
  {
    if i > 0 {
      LayoutOffsets(fields, i - 1);
      FlattenNext(fields, i - 1);
    }
  }

  lemma RecordOffsets(op: OutPoint, c: Coin, i: nat)
    requires |c.script| == SCRIPT_LEN && i <= 12
    ensures |Flatten(RecordFields(op, c)[..i])| == Offset(i)
  {
    RecordFits(op, c);
    LayoutOffsets(RecordFields(op, c), i);
  }

  lemma RecordField(op: OutPoint, c: Coin, i: nat)
    requires |c.script| == SCRIPT_LEN && i < 12
    ensures |Record(op, c)| == RECORD_LEN && Offset(i) <= Offset(i + 1) <= RECORD_LEN
    ensures Record(op, c)[Offset(i)..Offset(i + 1)] == RecordFields(op, c)[i]
  {
    RecordOffsets(op, c, 12);
    assert RecordFields(op, c)[..12] == RecordFields(op, c);
    RecordOffsets(op, c, i);
    RecordOffsets(op, c, i + 1);
    FieldAt(RecordFields(op, c), i);
  }

  function U32At(buf: seq<byte>, off: nat): u32
    requires off + 4 <= |buf|
  {
    FromLeBound(buf[off..off + 4]);
    PowValues();
    FromLe(buf[off..off + 4])
  }

  function U64At(buf: seq<byte>, off: nat): u64
    requires off + 8 <= |buf|
  {
    FromLeBound(buf[off..off + 8]);
    PowValues();
    FromLe(buf[off..off + 8])
  }

  function Bytes32At(buf: seq<byte>, off: nat): Bytes32
    requires off + 32 <= |buf|
  {
    buf[off..off + 32]
  }

  function ScalarAt(buf: seq<byte>, off: nat): Result<Scalar, FileError>
    requires off + 32 <= |buf|
  {
    if IsScalar(Bytes32At(buf, off)) then Ok(Bytes32At(buf, off)) else Err(InvalidScalar)
  }

  function LabelAt(buf: seq<byte>): Result<Option<Scalar>, FileError>
    requires |buf| == RECORD_LEN
  {
    if buf[R_LABEL_TAG] == 0 then Ok(None)
    else if buf[R_LABEL_TAG] == 1 then
      var s :- ScalarAt(buf, R_LABEL_SCALAR);
      Ok(Some(s))
    else Err(UnknownLabelTag(buf[R_LABEL_TAG]))
  }

  function DecodeRecord(buf: seq<byte>): Result<Receipt, FileError>
    requires |buf| == RECORD_LEN
  {
    var flag := buf[0];
    if flag != 0 && flag != 1 then Err(UnknownSpentFlag(flag))
    else
      var outpoint := OutPoint(Bytes32At(buf, R_TXID), U32At(buf, R_VOUT));
      var tweak :- ScalarAt(buf, R_TWEAK);
      var tag :- LabelAt(buf);
      var spentBy :=
        if flag == 1 then Some(SpentBy(Bytes32At(buf, R_SPENT_TXID), U32At(buf, R_SPENT_HEIGHT))) else None;
      Ok(Receipt(outpoint,
                 Coin(U64At(buf, R_VALUE), buf[R_SCRIPT..R_TWEAK], tweak, tag, U32At(buf, R_BLOCK_HEIGHT), spentBy)))
  }

  /** What the wallet can store: a script of taproot size. */
  predicate Storable(c: Coin) {
    |c.script| == SCRIPT_LEN
  }

  lemma RecordHead(op: OutPoint, c: Coin)
    requires |c.script| == SCRIPT_LEN
    ensures var r := Record(op, c);
            && |r| == RECORD_LEN
            && r[0] == (if c.spentBy.Some? then 1 else 0)
            && Bytes32At(r, R_TXID) == op.txid && U32At(r, R_VOUT) == op.vout && U64At(r, R_VALUE) == c.value
            && r[R_SCRIPT..R_TWEAK] == c.script
  {
    RecordField(op, c, 0);
    RecordField(op, c, 1);
    RecordField(op, c, 2);
    RecordField(op, c, 3);
    RecordField(op, c, 4);
    PowValues();
    LeRoundTrip(op.vout, 4);
    LeRoundTrip(c.value, 8);
    assert Record(op, c)[0..1][0] == RecordFields(op, c)[0][0];
  }

  lemma RecordTail(op: OutPoint, c: Coin)
    requires |c.script| == SCRIPT_LEN
    ensures var r := Record(op, c);
            && |r| == RECORD_LEN
            && Bytes32At(r, R_TWEAK) == c.tweak
            && r[R_LABEL_TAG] == (if c.tag.Some? then 1 else 0)
            && (c.tag.Some? ==> Bytes32At(r, R_LABEL_SCALAR) == c.tag.value)
            && U32At(r, R_BLOCK_HEIGHT) == c.height
            && (c.spentBy.Some? ==> Bytes32At(r, R_SPENT_TXID) == c.spentBy.value.txid
                                    && U32At(r, R_SPENT_HEIGHT) == c.spentBy.value.height)
  {
    RecordField(op, c, 5);
    RecordField(op, c, 6);
    RecordField(op, c, 7);
    RecordField(op, c, 8);
    RecordField(op, c, 9);
    RecordField(op, c, 10);
    PowValues();
    LeRoundTrip(c.height, 4);
    if c.spentBy.Some? {
      LeRoundTrip(c.spentBy.value.height, 4);
    }
    assert Record(op, c)[R_LABEL_TAG..R_LABEL_SCALAR][0] == RecordFields(op, c)[6][0];
  }

  lemma RecordRoundTrip(op: OutPoint, c: Coin)
    requires Storable(c)
    ensures |Record(op, c)| == RECORD_LEN && DecodeRecord(Record(op, c)) == Ok(Receipt(op, c))
  {
    RecordHead(op, c);
    RecordTail(op, c);
  }

  /** The bytes of a record, by their places, are those of this coin. */
  ghost predicate Holds192(b: seq<byte>, op: OutPoint, c: Coin)
    requires |b| == 192
  {
    && b[0] == (if c.spentBy.Some? then 1 else 0)
    && b[1..33] == op.txid && FromLe(b[33..37]) == op.vout && FromLe(b[37..45]) == c.value && b[45..79] == c.script
    && b[79..111] == c.tweak
    && (if c.tag.Some? then b[111] == 1 && b[112..144] == c.tag.value else b[111] == 0)
    && FromLe(b[144..148]) == c.height
    && (c.spentBy.Some? ==> b[148..180] == c.spentBy.value.txid && FromLe(b[180..184]) == c.spentBy.value.height)
  }

  /** What is absent, and the reserved end, is zero. */
  ghost predicate ZeroElsewhere(b: seq<byte>)
    requires |b| == 192
  {
    && (b[111] == 0 ==> forall i :: 112 <= i < 144 ==> b[i] == 0)
    && (b[0] == 0 ==> forall i :: 148 <= i < 184 ==> b[i] == 0)
    && forall i :: 184 <= i < 192 ==> b[i] == 0
  }

  /** Where a written record has its fields. */
  lemma RecordLayout(op: OutPoint, c: Coin)
    requires Storable(c)
    ensures |Record(op, c)| == 192 && Holds192(Record(op, c), op, c) && ZeroElsewhere(Record(op, c))
  {
    hide Record, RecordFields, FromLe;
    RecordHead(op, c);
    RecordTail(op, c);
    ZeroFields(op, c);
  }

  lemma ZeroFields(op: OutPoint, c: Coin)
    requires Storable(c)
    ensures |Record(op, c)| == 192
    ensures c.tag.None? ==> forall i :: 112 <= i < 144 ==> Record(op, c)[i] == 0
    ensures c.spentBy.None? ==> forall i :: 148 <= i < 184 ==> Record(op, c)[i] == 0
    ensures forall i :: 184 <= i < 192 ==> Record(op, c)[i] == 0
  {
    hide Record;
    RecordField(op, c, 7);
    RecordField(op, c, 9);
    RecordField(op, c, 10);
    RecordField(op, c, 11);
    var r := Record(op, c);
    assert forall i :: 112 <= i < 144 ==> r[i] == r[112..144][i - 112];
    assert forall i :: 148 <= i < 180 ==> r[i] == r[148..180][i - 148];
    assert forall i :: 180 <= i < 184 ==> r[i] == r[180..184][i - 180];
    assert forall i :: 184 <= i < 192 ==> r[i] == r[184..192][i - 184];
  }

  /** Which 192 bytes are a record, and what it is. */
  ghost predicate Readable(b: seq<byte>)
    requires |b| == 192
  {
    b[0] <= 1 && IsScalar(b[79..111]) && b[111] <= 1 && (b[111] == 1 ==> IsScalar(b[112..144]))
  }

  lemma DecodeRecordExactly(b: seq<byte>)
    requires |b| == 192
    ensures DecodeRecord(b).Ok? <==> Readable(b)
    ensures DecodeRecord(b).Ok? ==> Holds192(b, DecodeRecord(b).value.outpoint, DecodeRecord(b).value.coin)
    ensures b[0] > 1 ==> DecodeRecord(b) == Err(UnknownSpentFlag(b[0]))
    ensures b[0] <= 1 && !IsScalar(b[79..111]) ==> DecodeRecord(b) == Err(InvalidScalar)
    ensures b[0] <= 1 && IsScalar(b[79..111]) && b[111] > 1 ==> DecodeRecord(b) == Err(UnknownLabelTag(b[111]))
  {
    hide IsScalar, FromLe;
  }

  lemma ZerosSplit(a: nat, b: nat)
    ensures Zeros(a) + Zeros(b) == Zeros(a + b)
  {
  }

  /** Copies `src` behind the part of the buffer that is `done`; what follows stays zero. */
  method CopyFromSlice(buf: array<byte>, off: nat, src: seq<byte>, ghost done: seq<byte>)
    requires off == |done| && off + |src| <= buf.Length
    requires buf[..] == done + Zeros(buf.Length - off)
    modifies buf
    ensures buf[..] == done + src + Zeros(buf.Length - off - |src|)
  {
    for k := 0 to |src|
      invariant forall j :: 0 <= j < off ==> buf[j] == done[j]
      invariant forall j :: 0 <= j < k ==> buf[off + j] == src[j]
      invariant forall j :: off + k <= j < buf.Length ==> buf[j] == 0
    {
      buf[off + k] := src[k];
    }
  }

  /** The buffer holds the first `i` fields of the record and zeros from there on. */
  ghost predicate Holds(buf: array<byte>, op: OutPoint, c: Coin, i: nat)
    reads buf
  {
    && |c.script| == SCRIPT_LEN && i <= 12 && buf.Length == RECORD_LEN
    && Offset(i) <= RECORD_LEN
    && buf[..] == Flatten(RecordFields(op, c)[..i]) + Zeros(RECORD_LEN - Offset(i))
  }

  method WriteField(buf: array<byte>, ghost op: OutPoint, ghost c: Coin, off: nat, src: seq<byte>, ghost i: nat)
    requires i < 12 && Holds(buf, op, c, i) && off == Offset(i) && src == RecordFields(op, c)[i]
    modifies buf
    ensures Holds(buf, op, c, i + 1)
  {
    RecordOffsets(op, c, i);
    RecordOffsets(op, c, i + 1);
    FieldAt(RecordFields(op, c), i);
    FlattenNext(RecordFields(op, c), i);
    RecordField(op, c, i);
    CopyFromSlice(buf, off, src, Flatten(RecordFields(op, c)[..i]));
  }

  lemma FlattenNext(fields: seq<seq<byte>>, i: nat)
    requires i < |fields|
    ensures Flatten(fields[..i + 1]) == Flatten(fields[..i]) + fields[i]
  {
    assert fields[..i + 1][..i] == fields[..i];
  }

  /** A field that is all zeros is already there. */
  lemma SkipField(buf: array<byte>, op: OutPoint, c: Coin, i: nat)
    requires i < 12 && Holds(buf, op, c, i) && RecordFields(op, c)[i] == Zeros(Offset(i + 1) - Offset(i))
    requires Offset(i) <= Offset(i + 1) <= RECORD_LEN
    ensures Holds(buf, op, c, i + 1)
  {
    FlattenNext(RecordFields(op, c), i);
    ZerosSplit(Offset(i + 1) - Offset(i), RECORD_LEN - Offset(i + 1));
    assert Flatten(RecordFields(op, c)[..i]) + (Zeros(Offset(i + 1) - Offset(i)) + Zeros(RECORD_LEN - Offset(i + 1)))
        == Flatten(RecordFields(op, c)[..i]) + Zeros(Offset(i + 1) - Offset(i)) + Zeros(RECORD_LEN - Offset(i + 1));
  }

  method EncodeRecord(op: OutPoint, c: Coin) returns (r: Result<seq<byte>, FileError>)
    ensures r == if |c.script| == SCRIPT_LEN then Ok(Record(op, c)) else Err(NonP2trScript(|c.script|))
  {
    if |c.script| != SCRIPT_LEN {
      return Err(NonP2trScript(|c.script|));
    }
    var buf := new byte[RECORD_LEN](_ => 0);
    assert buf[..] == Zeros(RECORD_LEN);
    assert Flatten(RecordFields(op, c)[..0]) == [];
    WriteOutput(buf, op, c);
    WriteLabel(buf, op, c);
    WriteField(buf, op, c, R_BLOCK_HEIGHT, ToLe(c.height, 4), 8);
    WriteSpender(buf, op, c);
    assert RecordFields(op, c)[..12] == RecordFields(op, c);
    assert buf[..] == Record(op, c) + Zeros(0) == Record(op, c);
    r := Ok(buf[..]);
  }

  method WriteOutput(buf: array<byte>, op: OutPoint, c: Coin)
    requires Holds(buf, op, c, 0)
    modifies buf
    ensures Holds(buf, op, c, 6)
  {
    WriteField(buf, op, c, 0, [if c.spentBy.Some? then 1 else 0], 0);
    WriteField(buf, op, c, R_TXID, op.txid, 1);
    WriteField(buf, op, c, R_VOUT, ToLe(op.vout, 4), 2);
    WriteValue(buf, op, c);
  }

  method WriteValue(buf: array<byte>, op: OutPoint, c: Coin)
    requires Holds(buf, op, c, 3)
    modifies buf
    ensures Holds(buf, op, c, 6)
  {
    WriteField(buf, op, c, R_VALUE, ToLe(c.value, 8), 3);
    WriteField(buf, op, c, R_SCRIPT, c.script, 4);
    WriteField(buf, op, c, R_TWEAK, c.tweak, 5);
  }

  method WriteLabel(buf: array<byte>, op: OutPoint, c: Coin)
    requires Holds(buf, op, c, 6)
    modifies buf
    ensures Holds(buf, op, c, 8)
  {
    WriteField(buf, op, c, R_LABEL_TAG, [if c.tag.Some? then 1 else 0], 6);
    if c.tag.Some? {
      WriteField(buf, op, c, R_LABEL_SCALAR, c.tag.value, 7);
    } else {
      SkipField(buf, op, c, 7);
    }
  }

  method WriteSpender(buf: array<byte>, op: OutPoint, c: Coin)
    requires Holds(buf, op, c, 9)
    modifies buf
    ensures Holds(buf, op, c, 12)
  {
    if c.spentBy.Some? {
      WriteField(buf, op, c, R_SPENT_TXID, c.spentBy.value.txid, 9);
      WriteField(buf, op, c, R_SPENT_HEIGHT, ToLe(c.spentBy.value.height, 4), 10);
    } else {
      SkipField(buf, op, c, 9);
      SkipField(buf, op, c, 10);
    }
    SkipField(buf, op, c, 11);
  }

  function NetworkCode(n: Network): byte {
    match n
    case Mainnet => 0
    case Testnet => 1
    case Regtest => 2
  }

  function DecodeNetwork(b: byte): Result<Network, FileError> {
    if b == 0 then Ok(Mainnet) else if b == 1 then Ok(Testnet) else if b == 2 then Ok(Regtest) else Err(UnknownNetwork(b))
  }

  /** The records of the coins in the given iteration order. */
  function Records(u: Utxos, order: seq<OutPoint>): (r: seq<seq<byte>>)
    requires Elems(order) <= u.Keys
    ensures |r| == |order|
  {
    assert forall i :: 0 <= i < |order| ==> order[i] in Elems(order);
    seq(|order|, i requires 0 <= i < |order| => Record(order[i], u[order[i]]))
  }

  function Header(network: Network, scanHeight: u32, count: nat): seq<byte> {
    MAGIC + [VERSION] + [NetworkCode(network)] + ToLe(scanHeight, 4) + ToLe(count, 4)
  }

  function FileOf(w: Saved, order: seq<OutPoint>): seq<byte>
    requires Elems(order) <= w.utxos.Keys
  {
    Header(w.network, w.scanHeight, |w.utxos|) + Flatten(Records(w.utxos, order))
  }

  function RecordAt(bytes: seq<byte>, i: nat): (r: seq<byte>)
    requires HEADER_LEN + COUNT_LEN + RECORD_LEN * (i + 1) <= |bytes|
    ensures |r| == RECORD_LEN
  {
    bytes[HEADER_LEN + COUNT_LEN + RECORD_LEN * i..HEADER_LEN + COUNT_LEN + RECORD_LEN * (i + 1)]
  }

  /** Decodes the first `n` records one after the other; a later record replaces an earlier one. */
  function DecodeRecords(bytes: seq<byte>, n: nat): Result<Utxos, FileError>
    requires HEADER_LEN + COUNT_LEN + RECORD_LEN * n <= |bytes|
  {
    if n == 0 then Ok(map[])
    else
      var u :- DecodeRecords(bytes, n - 1);
      var r :- DecodeRecord(RecordAt(bytes, n - 1));
      Ok(u[r.outpoint := r.coin])
  }

  function DecodeFile(bytes: seq<byte>): Result<Saved, FileError> {
    if |bytes| < HEADER_LEN + COUNT_LEN then Err(TruncatedFile)
    else if bytes[0..4] != MAGIC then Err(BadMagic)
    else if bytes[4] != VERSION then Err(WrongVersion(bytes[4]))
    else
      var network :- DecodeNetwork(bytes[5]);
      var count := U32At(bytes, HEADER_LEN);
      if |bytes| != HEADER_LEN + COUNT_LEN + RECORD_LEN * count then Err(TruncatedFile)
      else
        var u :- DecodeRecords(bytes, count);
        Ok(Saved(network, U32At(bytes, 6), u))
  }

  /**
   Which files are accepted: at least a header, the letters SPWF, version 1, a known network, exactly as
   many records as announced, and every record readable. The first test that fails gives the error.
   */
  lemma DecodeFileExactly(bytes: seq<byte>)
    ensures DecodeFile(bytes).Ok? <==>
            && |bytes| >= 14 && bytes[..4] == [0x53, 0x50, 0x57, 0x46] && bytes[4] == 1 && bytes[5] <= 2
            && |bytes| == 14 + 192 * U32At(bytes, 10)
            && forall i: nat :: i < U32At(bytes, 10) ==> Readable(RecordAt(bytes, i))
    ensures DecodeFile(bytes).Ok? ==>
              var w := DecodeFile(bytes).value;
              && w.scanHeight == FromLe(bytes[6..10])
              && w.network == (if bytes[5] == 0 then Mainnet else if bytes[5] == 1 then Testnet else Regtest)
    ensures |bytes| < 14 ==> DecodeFile(bytes) == Err(TruncatedFile)
    ensures |bytes| >= 14 && bytes[..4] != [0x53, 0x50, 0x57, 0x46] ==> DecodeFile(bytes) == Err(BadMagic)
    ensures |bytes| >= 14 && bytes[..4] == [0x53, 0x50, 0x57, 0x46] && bytes[4] != 1 ==>
              DecodeFile(bytes) == Err(WrongVersion(bytes[4]))
    ensures |bytes| >= 14 && bytes[..4] == [0x53, 0x50, 0x57, 0x46] && bytes[4] == 1 && bytes[5] > 2 ==>
              DecodeFile(bytes) == Err(UnknownNetwork(bytes[5]))
  {
    hide DecodeRecord, RecordAt, Readable, FromLe;
    if |bytes| >= 14 && |bytes| == 14 + 192 * U32At(bytes, 10) {
      DecodeRecordsExactly(bytes, U32At(bytes, 10));
    }
  }

  lemma {:induction false} DecodeRecordsExactly(bytes: seq<byte>, n: nat)
    requires 14 + 192 * n <= |bytes|
    ensures DecodeRecords(bytes, n).Ok? <==> forall i: nat :: i < n ==> Readable(RecordAt(bytes, i))
  {
    hide DecodeRecord, RecordAt, Readable;
    if n > 0 {
      DecodeRecordsExactly(bytes, n - 1);
      DecodeRecordExactly(RecordAt(bytes, n - 1));
    }
  }

  lemma NoRecords(u: Utxos)
    ensures Flatten(Records(u, [])) == []
  {
  }

  lemma OneMoreRecord(head: seq<byte>, u: Utxos, order: seq<OutPoint>, op: OutPoint)
    requires op in u && Elems(order) <= u.Keys
    ensures Elems(order + [op]) <= u.Keys
    ensures head + Flatten(Records(u, order + [op])) == head + Flatten(Records(u, order)) + Record(op, u[op])
  {
    hide Record;
    ElemsConcat(order, [op]);
    var more := Records(u, order) + [Record(op, u[op])];
    assert Records(u, order + [op]) == more && more[..|order|] == Records(u, order);
  }

  method WalletToBytes(w: Wallet) returns (r: Result<seq<byte>, FileError>)
    requires |w.utxos| < 0x1_0000_0000
    ensures r.Ok? <==> forall op :: op in w.utxos ==> |w.utxos[op].script| == SCRIPT_LEN
    ensures r.Ok? ==> exists order :: Enumerates(order, w.utxos.Keys)
                                      && r.value == FileOf(Saved(w.network, w.scanHeight, w.utxos), order)
    ensures r.Err? ==> exists op :: op in w.utxos && r.error == NonP2trScript(|w.utxos[op].script|)
  {
    hide Record, Header, Records, Flatten;
    var head := Header(w.network, w.scanHeight, |w.utxos|);
    var buf := head;
    var todo := w.utxos.Keys;
    ghost var order := [];
    assert head + Flatten(Records(w.utxos, order)) == head by {
      NoRecords(w.utxos);
    }
    while todo != {}
      invariant todo <= w.utxos.Keys && Enumerates(order, w.utxos.Keys - todo)
      invariant forall op :: op in Elems(order) ==> |w.utxos[op].script| == SCRIPT_LEN
      invariant buf == head + Flatten(Records(w.utxos, order))
      decreases todo
    {
      var op :| op in todo;
      var record := EncodeRecord(op, w.utxos[op]);
      if record.Err? {
        return Err(record.error);
      }
      assert op !in Elems(order);
      NoDupConcat(order, [op]);
      ElemsConcat(order, [op]);
      OneMoreRecord(head, w.utxos, order, op);
      buf := buf + record.value;
      order := order + [op];
      todo := todo - {op};
    }
    assert w.utxos.Keys - todo == w.utxos.Keys;
    assert Enumerates(order, w.utxos.Keys);
    assert forall op :: op in w.utxos ==> op in Elems(order);
    r := Ok(buf);
  }

  method WalletFromBytes(bytes: seq<byte>) returns (r: Result<Saved, FileError>)
    ensures r == DecodeFile(bytes)
  {
    hide DecodeRecord, RecordAt, U32At;
    if |bytes| < HEADER_LEN + COUNT_LEN {
      return Err(TruncatedFile);
    }
    if bytes[0..4] != MAGIC {
      return Err(BadMagic);
    }
    if bytes[4] != VERSION {
      return Err(WrongVersion(bytes[4]));
    }
    var network := DecodeNetwork(bytes[5]);
    if network.Err? {
      return Err(network.error);
    }
    var scanHeight, count := U32At(bytes, 6), U32At(bytes, HEADER_LEN);
    if |bytes| != HEADER_LEN + COUNT_LEN + RECORD_LEN * count {
      return Err(TruncatedFile);
    }
    var utxos: Utxos := map[];
    for i := 0 to count
      invariant DecodeRecords(bytes, i) == Ok(utxos)
    {
      var record := DecodeRecord(RecordAt(bytes, i));
      if record.Err? {
        DecodeRecordsFails(bytes, i + 1, count);
        return Err(record.error);
      }
      utxos := utxos[record.value.outpoint := record.value.coin];
    }
    r := Ok(Saved(network.value, scanHeight, utxos));
  }

  lemma {:induction false} DecodeRecordsFails(bytes: seq<byte>, i: nat, n: nat)
    requires i <= n && HEADER_LEN + COUNT_LEN + RECORD_LEN * n <= |bytes| && DecodeRecords(bytes, i).Err?
    ensures DecodeRecords(bytes, n) == DecodeRecords(bytes, i)
    decreases n
  {
    hide DecodeRecord, RecordAt;
    if i < n {
      DecodeRecordsFails(bytes, i, n - 1);
    }
  }

  ghost predicate AllStorable(u: Utxos) {
    forall op :: op in u ==> Storable(u[op])
  }

  lemma HeaderFields(network: Network, scanHeight: u32, count: u32, rest: seq<byte>)
    ensures var h := Header(network, scanHeight, count) + rest;
            && |Header(network, scanHeight, count)| == HEADER_LEN + COUNT_LEN
            && h[0..4] == MAGIC && h[4] == VERSION && DecodeNetwork(h[5]) == Ok(network)
            && U32At(h, 6) == scanHeight && U32At(h, HEADER_LEN) == count
  {
    var h := Header(network, scanHeight, count) + rest;
    PowValues();
    LeRoundTrip(scanHeight, 4);
    LeRoundTrip(count, 4);
    assert h[6..10] == ToLe(scanHeight, 4);
    assert h[10..14] == ToLe(count, 4);
  }

  lemma {:induction false} RecordsLength(u: Utxos, order: seq<OutPoint>, i: nat)
    requires Elems(order) <= u.Keys && AllStorable(u) && i <= |order|
    ensures |Flatten(Records(u, order)[..i])| == RECORD_LEN * i
  {
    if i > 0 {
      RecordsLength(u, order, i - 1);
      FlattenNext(Records(u, order), i - 1);
      assert order[i - 1] in Elems(order);
      RecordRoundTrip(order[i - 1], u[order[i - 1]]);
    }
  }

  lemma StoredRecord(head: seq<byte>, u: Utxos, order: seq<OutPoint>, i: nat)
    requires Elems(order) <= u.Keys && AllStorable(u) && i < |order|
    requires |head| == HEADER_LEN + COUNT_LEN
    ensures var bytes := head + Flatten(Records(u, order));
            && |bytes| == HEADER_LEN + COUNT_LEN + RECORD_LEN * |order|
            && DecodeRecord(RecordAt(bytes, i)) == Ok(Receipt(order[i], u[order[i]]))
  {
    hide DecodeRecord, Record;
    var f := Records(u, order);
    RecordsLength(u, order, |order|);
    assert f[..|order|] == f;
    RecordsLength(u, order, i);
    FieldAt(f, i);
    assert order[i] in Elems(order);
    RecordRoundTrip(order[i], u[order[i]]);
    var bytes := head + Flatten(f);
    assert RecordAt(bytes, i) == Flatten(f)[RECORD_LEN * i..RECORD_LEN * (i + 1)];
  }

  lemma {:induction false} StoredRecords(head: seq<byte>, u: Utxos, order: seq<OutPoint>, n: nat)
    requires Elems(order) <= u.Keys && AllStorable(u) && n <= |order|
    requires |head| == HEADER_LEN + COUNT_LEN
    ensures var bytes := head + Flatten(Records(u, order));
            && |bytes| == HEADER_LEN + COUNT_LEN + RECORD_LEN * |order|
            && DecodeRecords(bytes, n) == Ok(Restricted(u, order[..n]))
  {
    hide DecodeRecord, Record;
    RecordsLength(u, order, |order|);
    assert Records(u, order)[..|order|] == Records(u, order);
    if n > 0 {
      StoredRecords(head, u, order, n - 1);
      StoredRecord(head, u, order, n - 1);
      assert order[..n] == order[..n - 1] + [order[n - 1]];
      RestrictedNext(u, order[..n - 1], order[n - 1]);
    }
  }

  function Restricted(u: Utxos, ops: seq<OutPoint>): Utxos {
    map op | op in u && op in ops :: u[op]
  }

  lemma RestrictedNext(u: Utxos, ops: seq<OutPoint>, op: OutPoint)
    requires op in u
    ensures Restricted(u, ops + [op]) == Restricted(u, ops)[op := u[op]]
  {
  }

  /** Reading back a written wallet gives the same wallet, whatever order its coins were written in. */
  lemma FileRoundTrip(w: Saved, order: seq<OutPoint>)
    requires AllStorable(w.utxos) && |w.utxos| < 0x1_0000_0000 && Enumerates(order, w.utxos.Keys)
    ensures DecodeFile(FileOf(w, order)) == Ok(w)
  {
    hide DecodeRecord, Record, Header;
    assert forall op :: op in order ==> op in Elems(order);
    var head := Header(w.network, w.scanHeight, |w.utxos|);
    HeaderFields(w.network, w.scanHeight, |w.utxos|, Flatten(Records(w.utxos, order)));
    StoredRecords(head, w.utxos, order, |order|);
    NoDupCard(order);
    assert |w.utxos| == |w.utxos.Keys|;
    assert order[..|order|] == order;
    assert Restricted(w.utxos, order) == w.utxos;
  }

  /** Whatever was found by scanning can be stored, so saving such a wallet cannot fail on a script. */
  lemma {:induction false} ScannedIsStorable(chain: seq<Placed>)
    ensures AllStorable(FromScratch(chain))
  {
    hide Scan, Found, Spends;
    if chain != [] {
      var n := |chain| - 1;
      var p, u := chain[n], FromScratch(chain[..n]);
      ScannedIsStorable(chain[..n]);
      forall op | op in FromScratch(chain)
        ensures Storable(FromScratch(chain)[op])
      {
        ScanPointwise(u, p.block, p.height, op);
        assert Get(FromScratch(chain), op) == Do(BlockAct(p.block, p.height, op), Get(u, op));
        var found := Found(p.block, p.height);
        LastReceiptIn(found, op);
        ReceiptsFromBlock(p.block, p.height);
        if LastReceipt(found, op).Some? {
          var r :| r in found && r.outpoint == op && r.coin == LastReceipt(found, op).value;
          var tx, m :| tx in p.block && m in Matches(tx) && r == ReceiptOf(tx, m, p.height);
        }
      }
    }
  }

  /** The height the wallet records: that of the last block it connected. */
  function ScanHeight(events: seq<Event>): u32 {
    if events == [] then 0
    else
      var n := |events| - 1;
      if events[n].ConnectBlock? then events[n].height else ScanHeight(events[..n])
  }

  function HeightAfter(height: u32, chain: seq<Placed>): u32 {
    if chain == [] then height else chain[|chain| - 1].height
  }

  /** The recorded height is at least that of the tip, and above it right after a disconnect. */
  lemma {:induction false} TipBelowScanHeight(events: seq<Event>)
    requires ValidRun(events) && RisingRun(events) && Tip(events) != []
    ensures var tip := Tip(events)[|Tip(events)| - 1].height;
            if events[|events| - 1].ConnectBlock? then tip == ScanHeight(events) else tip < ScanHeight(events)
  {
    var n := |events| - 1;
    if events[n].DisconnectTip? {
      var chain := Tip(events[..n]);
      TipBelowScanHeight(events[..n]);
      TipRises(events[..n]);
      assert chain[|chain| - 2].height < chain[|chain| - 1].height;
    }
  }

  /** Replaying a non-empty tail restores the recorded height exactly if the last event was a connect. */
  lemma ReplayHeightExactly(events: seq<Event>, from: nat)
    requires ValidRun(events) && RisingRun(events) && from < |Tip(events)|
    ensures HeightAfter(ScanHeight(events), Tip(events)[from..]) == ScanHeight(events) <==> events[|events| - 1].ConnectBlock?
  {
    TipBelowScanHeight(events);
  }

  /** A block connected and disconnected again leaves its height behind, and a replay of the rest lowers it. */
  lemma StaleScanHeight() returns (events: seq<Event>)
    ensures ValidRun(events) && RisingRun(events) && |events| == 3 && |Tip(events)| == 1
    ensures ScanHeight(events) == 2 && HeightAfter(ScanHeight(events), Tip(events)) == 1
  {
    events := [ConnectBlock([], 1), ConnectBlock([], 2), DisconnectTip];
    var two, one := events[..2], events[..1];
    assert two[..1] == one && one[..0] == [];
    assert Tip(one) == [Placed([], 1)];
    assert Tip(two) == [Placed([], 1), Placed([], 2)];
    assert Tip(events) == [Placed([], 1)];
    assert Extends([], []) && Extends(Tip(one), []);
    assert ValidRun(one) && ValidRun(two) && RisingRun(one) && RisingRun(two);
  }

  /**
   Crash replay: a wallet saved after any run, loaded again, and shown any tail of its chain once
   more has the same coin map. On rising heights it has the same scan height exactly if the tail is
   empty or its last event was a connect.
   */
  lemma CrashReplay(network: Network, events: seq<Event>, order: seq<OutPoint>, from: nat)
    requires ValidRun(events) && from <= |Tip(events)|
    requires |Track(events)| < 0x1_0000_0000 && Enumerates(order, Track(events).Keys)
    ensures var w := Saved(network, ScanHeight(events), Track(events));
            var tail := Tip(events)[from..];
            && DecodeFile(FileOf(w, order)) == Ok(w)
            && ScanAll(w.utxos, tail) == w.utxos
            && (events != [] && events[|events| - 1].ConnectBlock? ==> HeightAfter(w.scanHeight, tail) == w.scanHeight)
            && (RisingRun(events) ==>
                  (HeightAfter(w.scanHeight, tail) == w.scanHeight <==> tail == [] || events[|events| - 1].ConnectBlock?))
  {
    MapFollowsChain(events);
    ScannedIsStorable(Tip(events));
    FileRoundTrip(Saved(network, ScanHeight(events), Track(events)), order);
    ReplayTail(map[], Tip(events), from);
    if RisingRun(events) && from < |Tip(events)| {
      ReplayHeightExactly(events, from);
    }
  }
}
