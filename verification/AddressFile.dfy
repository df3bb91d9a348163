/** The address book file: records in the BIP 155 address encoding behind a count (`io.rs`, `Record::serialize`). */
module AddressFile {
  import opened Basics
  import opened Bytes
  import opened AddressBook

  const MAGIC: seq<byte> := [0x41, 0x44, 0x42, 0x4B]
  const NANOS: nat := 1_000_000_000

  datatype IoError = UnexpectedEof | InvalidData

  datatype Read<T> = Read(value: T, rest: seq<byte>)

  /** `read_exact`. */
  function Take(bytes: seq<byte>, n: nat): Result<Read<seq<byte>>, IoError> {
    if |bytes| < n then Err(UnexpectedEof) else Ok(Read(bytes[..n], bytes[n..]))
  }

  lemma TakeFront(a: seq<byte>, b: seq<byte>)
    ensures Take(a + b, |a|) == Ok(Read(a, b))
  {
  }

  predicate Serializable(r: Record) {
    !r.addr.Unknown?
  }

  function NetworkId(a: Addr): byte {
    match a
    case Ipv4(_) => 1
    case Ipv6(_) => 2
    case TorV2(_) => 3
    case TorV3(_) => 4
    case I2p(_) => 5
    case Cjdns(_) => 6
    case Unknown(id, _) => id
  }

  /** The length BIP 155 prescribes for a known network. */
  function KnownLength(id: byte): nat {
    match id
    case 1 => 4
    case 2 => 16
    case 3 => 10
    case 4 => 32
    case 5 => 32
    case 6 => 16
    case _ => 0
  }

  function KnownAddr(id: byte, raw: seq<byte>): Addr {
    match id
    case 1 => Ipv4(raw)
    case 2 => Ipv6(raw)
    case 3 => TorV2(raw)
    case 4 => TorV3(raw)
    case 5 => I2p(raw)
    case 6 => Cjdns(raw)
    case _ => Unknown(id, raw)
  }

  /** What the address types themselves guarantee. */
  predicate TypedAddr(a: Addr) {
    a.Unknown? || |a.raw| == KnownLength(NetworkId(a))
  }

  /** BIP 155: no OnionCat or IPv4-mapped address as IPv6, and CJDNS addresses start with 0xFC. */
  predicate WellFormed(a: Addr)
    requires TypedAddr(a)
  {
    match a
    case Ipv6(raw) =>
      && raw[..6] != [0xFD, 0x87, 0xD8, 0x7E, 0xEB, 0x43]
      && raw[..12] != [0, 0, 0, 0, 0, 0, 0, 0, 0, 0, 0xFF, 0xFF]
    case Cjdns(raw) => raw[0] == 0xFC
    case _ => true
  }

  function AddrBytes(a: Addr): seq<byte>
    requires TypedAddr(a) && !a.Unknown?
  {
    [NetworkId(a)] + [|a.raw|] + a.raw
  }

  /** A length byte of 253 or more announces more bytes than a record can hold, so it always fails. */
  function DecodeAddr(bytes: seq<byte>): Result<Read<Addr>, IoError> {
    if |bytes| < 2 then Err(InvalidData)
    else
      var id, n, rest := bytes[0], bytes[1], bytes[2..];
      if n >= 253 || |rest| < n || (1 <= id <= 6 && n != KnownLength(id)) then Err(InvalidData)
      else
        var a := KnownAddr(id, rest[..n]);
        if WellFormed(a) then Ok(Read(a, rest[n..])) else Err(InvalidData)
  }

  function Seconds(t: nat): nat {
    t / NANOS
  }

  function TimeBytes(t: Option<nat>): seq<byte> {
    match t
    case None => seq(9, _ => 0)
    case Some(nanos) => [1] + ToLe(Seconds(nanos), 8)
  }

  function DecodeTime(bytes: seq<byte>): Result<Read<Option<nat>>, IoError> {
    var flag :- Take(bytes, 1);
    if flag.value[0] > 1 then Err(InvalidData)
    else
      var secs :- Take(flag.rest, 8);
      Ok(Read(if flag.value[0] == 0 then None else Some(FromLe(secs.value) * NANOS), secs.rest))
  }

  /** What reading back a time gives: whole seconds. */
  function WholeSeconds(t: Option<nat>): Option<nat> {
    if t.None? then None else Some(Seconds(t.value) * NANOS)
  }

  ghost predicate ValidTime(t: Option<nat>) {
    t.Some? ==> Seconds(t.value) < 0x1_0000_0000_0000_0000
  }

  ghost predicate ValidRecord(r: Record) {
    TypedAddr(r.addr) && ValidTime(r.lastAttempt) && ValidTime(r.lastConnection)
  }

  function ComputeSize(r: Record): nat {
    var addr :=
      match r.addr
      case I2p(_) => 34
      case Ipv4(_) => 6
      case Ipv6(_) => 18
      case TorV2(_) => 12
      case TorV3(_) => 34
      case Cjdns(_) => 18
      case Unknown(_, _) => 0;
    addr + 2 + |r.source| + 8 + 1 + 9 + 9
  }

  predicate CanSave(r: Record) {
    TypedAddr(r.addr) && Serializable(r)
  }

  function Tail(r: Record): seq<byte> {
    [r.failedAttempts] + (TimeBytes(r.lastAttempt) + TimeBytes(r.lastConnection))
  }

  function Body(r: Record): seq<byte>
    requires CanSave(r)
  {
    AddrBytes(r.addr) + (ToLe(r.port, 2) + (r.source + (ToLe(r.services, 8) + Tail(r))))
  }

  /** The size prefix is the length of what follows. */
  lemma SizeMatches(r: Record)
    requires CanSave(r)
    ensures |Body(r)| == ComputeSize(r) < 256
  {
  }

  function Serialized(r: Record): seq<byte>
    requires CanSave(r)
  {
    SizeMatches(r);
    [ComputeSize(r)] + Body(r)
  }

  /** Appends to `buf` and consumes the front of `todo`, the part of `whole` still to be written. */
  lemma Appended(buf: seq<byte>, part: seq<byte>, todo: seq<byte>, whole: seq<byte>)
    requires buf + (part + todo) == whole
    ensures (buf + part) + todo == whole
  {
    assert (buf + part) + todo == buf + (part + todo);
  }

  method Serialize(r: Record) returns (buf: seq<byte>)
    requires CanSave(r)
    ensures buf == Serialized(r)
  {
    hide AddrBytes, ToLe, ComputeSize;
    SizeMatches(r);
    ghost var whole := Serialized(r);
    ghost var times := TimeBytes(r.lastAttempt) + TimeBytes(r.lastConnection);
    ghost var s3 := ToLe(r.services, 8) + ([r.failedAttempts] + times);
    ghost var s2 := r.source + s3;
    ghost var s1 := ToLe(r.port, 2) + s2;
    buf := [ComputeSize(r)];
    Appended(buf, AddrBytes(r.addr), s1, whole);
    buf := buf + AddrBytes(r.addr);
    Appended(buf, ToLe(r.port, 2), s2, whole);
    buf := buf + ToLe(r.port, 2);
    Appended(buf, r.source, s3, whole);
    buf := buf + r.source;
    Appended(buf, ToLe(r.services, 8), [r.failedAttempts] + times, whole);
    buf := buf + ToLe(r.services, 8);
    Appended(buf, [r.failedAttempts], times, whole);
    buf := buf + [r.failedAttempts];
    Appended(buf, TimeBytes(r.lastAttempt), TimeBytes(r.lastConnection), whole);
    buf := AppendTime(buf, r.lastAttempt);
    buf := AppendTime(buf, r.lastConnection);
  }

  method AppendTime(buf: seq<byte>, t: Option<nat>) returns (r: seq<byte>)
    ensures r == buf + TimeBytes(t)
  {
    if t.Some? {
      r := buf + [1];
      r := r + ToLe(Seconds(t.value), 8);
      Appended(buf, [1], ToLe(Seconds(t.value), 8), buf + TimeBytes(t));
    } else {
      r := buf + seq(9, _ => 0);
    }
  }

  function ReadInt(bytes: seq<byte>, n: nat): Result<Read<nat>, IoError> {
    var r :- Take(bytes, n);
    Ok(Read(FromLe(r.value), r.rest))
  }

  function DecodeBody(content: seq<byte>): Result<Record, IoError> {
    var addr :- DecodeAddr(content);
    var port :- ReadInt(addr.rest, 2);
    var source :- Take(port.rest, 4);
    var services :- ReadInt(source.rest, 8);
    var failed :- Take(services.rest, 1);
    var attempt :- DecodeTime(failed.rest);
    var connection :- DecodeTime(attempt.rest);
    ReadBounds(addr.rest, 2);
    ReadBounds(source.rest, 8);
    Ok(Record(addr.value, port.value, source.value, services.value, failed.value[0], connection.value, attempt.value))
  }

  lemma ReadBounds(bytes: seq<byte>, n: nat)
    requires n == 2 || n == 8
    ensures var r := ReadInt(bytes, n); r.Ok? ==> r.value.value < if n == 2 then 0x1_0000 else 0x1_0000_0000_0000_0000
  {
    if |bytes| >= n {
      FromLeBound(bytes[..n]);
      PowValues();
    }
  }

  function Deserialize(bytes: seq<byte>): Result<Read<Record>, IoError> {
    var size :- Take(bytes, 1);
    var content :- Take(size.rest, size.value[0]);
    var record :- DecodeBody(content.value);
    Ok(Read(record, content.rest))
  }

  /** The network numbers and address lengths of BIP 155. */
  lemma NetworkNumbers(a: Addr)
    requires TypedAddr(a) && !a.Unknown?
    ensures AddrBytes(a)[2..] == a.raw && AddrBytes(a)[1] == |a.raw|
    ensures AddrBytes(a)[0] == 1 <==> a.Ipv4?
    ensures AddrBytes(a)[0] == 2 <==> a.Ipv6?
    ensures AddrBytes(a)[0] == 3 <==> a.TorV2?
    ensures AddrBytes(a)[0] == 4 <==> a.TorV3?
    ensures AddrBytes(a)[0] == 5 <==> a.I2p?
    ensures AddrBytes(a)[0] == 6 <==> a.Cjdns?
  {
  }

  /** The bytes of a record after its address of `n` bytes: which are which, and which flags are allowed. */
  ghost predicate Describes(content: seq<byte>, n: nat, r: Record) {
    && |content| >= n + 35 && content[n + 17] <= 1 && content[n + 26] <= 1
    && r.port == FromLe(content[n + 2..n + 4]) && r.source == content[n + 4..n + 8]
    && r.services == FromLe(content[n + 8..n + 16]) && r.failedAttempts == content[n + 16]
    && r.lastAttempt ==
       (if content[n + 17] == 0 then None else Some(FromLe(content[n + 18..n + 26]) * 1_000_000_000))
    && r.lastConnection ==
       (if content[n + 26] == 0 then None else Some(FromLe(content[n + 27..n + 35]) * 1_000_000_000))
  }

  /** The tail of a record is long enough and has no other flags than 0 and 1. */
  ghost predicate TailReads(content: seq<byte>, n: nat) {
    |content| >= n + 35 && content[n + 17] <= 1 && content[n + 26] <= 1
  }

  lemma TimeExactly(bytes: seq<byte>)
    ensures var r := DecodeTime(bytes);
            && (r.Ok? <==> |bytes| >= 9 && bytes[0] <= 1)
            && (r.Ok? ==> r.value == Read(if bytes[0] == 0 then None else Some(FromLe(bytes[1..9]) * 1_000_000_000), bytes[9..]))
  {
    if |bytes| >= 9 {
      assert bytes[1..][..8] == bytes[1..9] && bytes[1..][8..] == bytes[9..];
    }
  }

  /** Reading the fields behind the address, whatever the bytes are. */
  lemma BodyExactly(content: seq<byte>, a: Addr, n: nat)
    requires n + 2 <= |content| && DecodeAddr(content) == Ok(Read(a, content[n + 2..]))
    ensures var r := DecodeBody(content);
            && (r.Ok? <==> TailReads(content, n))
            && (r.Ok? ==> r.value.addr == a && Describes(content, n, r.value))
  {
    hide DecodeAddr, DecodeTime, FromLe;
    var rest := content[n + 2..];
    if |content| >= n + 19 {
      assert rest[..2] == content[n + 2..n + 4] && rest[2..] == content[n + 4..];
      assert content[n + 4..][..4] == content[n + 4..n + 8] && content[n + 4..][4..] == content[n + 8..];
      assert content[n + 8..][..8] == content[n + 8..n + 16] && content[n + 8..][8..] == content[n + 16..];
      assert content[n + 16..][..1] == [content[n + 16]] && content[n + 16..][1..] == content[n + 17..];
    }
    if |content| >= n + 17 {
      TimeExactly(content[n + 17..]);
    }
    if |content| >= n + 26 {
      assert content[n + 17..][9..] == content[n + 26..] && content[n + 17..][1..9] == content[n + 18..n + 26];
      TimeExactly(content[n + 26..]);
    }
    if |content| >= n + 35 {
      assert content[n + 26..][1..9] == content[n + 27..n + 35];
    }
  }

  /** The address at the front of `content`: known networks have their length, and BIP 155 must allow it. */
  ghost predicate AddrReads(content: seq<byte>) {
    |content| >= 2 &&
    var id, n := content[0], content[1];
    && n < 253 && |content| >= n + 2
    && (id == 1 ==> n == 4) && (id == 2 || id == 6 ==> n == 16) && (id == 3 ==> n == 10) && (id == 4 || id == 5 ==> n == 32)
    && (id == 2 ==> content[2..8] != [0xFD, 0x87, 0xD8, 0x7E, 0xEB, 0x43]
                    && content[2..14] != [0, 0, 0, 0, 0, 0, 0, 0, 0, 0, 0xFF, 0xFF])
    && (id == 6 ==> content[2] == 0xFC)
  }

  lemma AddrExactly(content: seq<byte>)
    ensures var r := DecodeAddr(content);
            && (r.Ok? <==> AddrReads(content))
            && (r.Ok? ==> var n := content[1];
                          && r.value.value == KnownAddr(content[0], content[2..n + 2]) && r.value.rest == content[n + 2..])
  {
    if |content| >= 2 && |content| >= content[1] as int + 2 {
      var n, rest := content[1], content[2..];
      assert rest[..n] == content[2..n + 2] && rest[n..] == content[n + 2..];
      if n == 16 {
        assert rest[..n][..6] == content[2..8] && rest[..n][..12] == content[2..14];
      }
    }
  }

  /**
   Which bytes are a record: the size prefix, an address BIP 155 allows and a tail with proper flags.
   The fields are read off their places, and reading goes on behind the size prefix's last byte.
   */
  lemma DeserializeExactly(bytes: seq<byte>)
    ensures var r := Deserialize(bytes);
            && (r.Ok? <==> |bytes| > 0 && |bytes| > bytes[0] as int
                           && var content := bytes[1..bytes[0] + 1]; AddrReads(content) && TailReads(content, content[1]))
            && (r.Ok? ==> var content := bytes[1..bytes[0] + 1];
                          && r.value.rest == bytes[bytes[0] + 1..] && Describes(content, content[1], r.value.value)
                          && r.value.value.addr == KnownAddr(content[0], content[2..content[1] + 2]))
  {
    hide DecodeAddr, AddrReads, DecodeTime, FromLe, KnownAddr;
    if |bytes| > 0 && |bytes| > bytes[0] as int {
      var content := bytes[1..bytes[0] + 1];
      assert bytes[1..][..bytes[0]] == content && bytes[1..][bytes[0]..] == bytes[bytes[0] + 1..];
      AddrExactly(content);
      if AddrReads(content) {
        HasLength(content);
        BodyExactly(content, DecodeAddr(content).value.value, content[1]);
      }
    }
  }

  lemma HasLength(content: seq<byte>)
    requires AddrReads(content)
    ensures |content| >= 2 && |content| >= content[1] + 2
  {
  }

  lemma AddrRoundTrip(a: Addr, rest: seq<byte>)
    requires TypedAddr(a) && !a.Unknown?
    ensures DecodeAddr(AddrBytes(a) + rest) == if WellFormed(a) then Ok(Read(a, rest)) else Err(InvalidData)
  {
    var n: byte := |a.raw|;
    assert AddrBytes(a) + rest == [NetworkId(a), n] + (a.raw + rest);
    assert (a.raw + rest)[..n] == a.raw && (a.raw + rest)[n..] == rest;
  }

  lemma TimeRoundTrip(t: Option<nat>, rest: seq<byte>)
    requires ValidTime(t)
    ensures DecodeTime(TimeBytes(t) + rest) == Ok(Read(WholeSeconds(t), rest))
  {
    hide ToLe, FromLe;
    PowValues();
    match t {
      case None =>
        var zeros: seq<byte> := seq(8, _ => 0);
        assert TimeBytes(t) + rest == [0] + (zeros + rest);
        TakeFront([0], zeros + rest);
        TakeFront(zeros, rest);
      case Some(nanos) =>
        var secs := ToLe(Seconds(nanos), 8);
        assert TimeBytes(t) + rest == [1] + (secs + rest);
        TakeFront([1], secs + rest);
        TakeFront(secs, rest);
        LeRoundTrip(Seconds(nanos), 8);
    }
  }

  lemma IntRoundTrip(x: nat, n: nat, rest: seq<byte>)
    requires x < Pow256(n)
    ensures ReadInt(ToLe(x, n) + rest, n) == Ok(Read(x, rest))
  {
    TakeFront(ToLe(x, n), rest);
    LeRoundTrip(x, n);
  }

  /** The record as it is read back. */
  function Rounded(r: Record): Record {
    r.(lastAttempt := WholeSeconds(r.lastAttempt), lastConnection := WholeSeconds(r.lastConnection))
  }

  lemma BodyRoundTrip(r: Record)
    requires ValidRecord(r) && Serializable(r)
    ensures DecodeBody(Body(r)) == if WellFormed(r.addr) then Ok(Rounded(r)) else Err(InvalidData)
  {
    hide DecodeAddr, AddrBytes, ReadInt, Take, DecodeTime, TimeBytes, WellFormed;
    PowValues();
    var times := TimeBytes(r.lastAttempt) + TimeBytes(r.lastConnection);
    var tail := [r.failedAttempts] + times;
    var s3 := ToLe(r.services, 8) + tail;
    var s2 := r.source + s3;
    var s1 := ToLe(r.port, 2) + s2;
    AddrRoundTrip(r.addr, s1);
    IntRoundTrip(r.port, 2, s2);
    TakeFront(r.source, s3);
    IntRoundTrip(r.services, 8, tail);
    TakeFront([r.failedAttempts], times);
    TimeRoundTrip(r.lastAttempt, TimeBytes(r.lastConnection));
    TimeRoundTrip(r.lastConnection, []);
    assert TimeBytes(r.lastConnection) + [] == TimeBytes(r.lastConnection);
  }

  /** Reading a written record gives it back to the second, exactly if its address is well formed. */
  lemma RecordRoundTrip(r: Record, rest: seq<byte>)
    requires ValidRecord(r) && Serializable(r)
    ensures Deserialize(Serialized(r) + rest) == if WellFormed(r.addr) then Ok(Read(Rounded(r), rest)) else Err(InvalidData)
  {
    hide DecodeBody, Body, WellFormed;
    SizeMatches(r);
    BodyRoundTrip(r);
    var size: byte := ComputeSize(r);
    assert Serialized(r) + rest == [size] + (Body(r) + rest);
    TakeFront([size], Body(r) + rest);
    TakeFront(Body(r), rest);
  }

  function Records(records: seq<Record>): seq<byte>
    requires forall r :: r in records ==> CanSave(r)
  {
    if records == [] then []
    else
      assert records[0] in records;
      Serialized(records[0]) + Records(records[1..])
  }

  /** The file of a table whose serializable records are `records`. */
  function FileOf(records: seq<Record>): seq<byte>
    requires forall r :: r in records ==> CanSave(r)
  {
    MAGIC + (ToLe(|records|, 8) + Records(records))
  }

  function ReadRecords(sh: Shape, bytes: seq<byte>, n: nat, g: Grid): Result<Grid, IoError>
    requires sh.Valid()
  {
    if n == 0 then Ok(g)
    else
      var r :- Deserialize(bytes);
      ReadRecords(sh, r.rest, n - 1, AddTo(sh, g, r.value))
  }

  function ReadFile(sh: Shape, bytes: seq<byte>): Result<Grid, IoError>
    requires sh.Valid()
  {
    var magic :- Take(bytes, 4);
    if magic.value != MAGIC then Err(InvalidData)
    else
      var size :- ReadInt(magic.rest, 8);
      ReadRecords(sh, size.rest, size.value, map[])
  }

  /** A file without the four letters ADBK is rejected, and one that ends within its header is cut short. */
  lemma FileStart(sh: Shape, bytes: seq<byte>)
    requires sh.Valid()
    ensures |bytes| < 4 ==> ReadFile(sh, bytes) == Err(UnexpectedEof)
    ensures |bytes| >= 4 && bytes[..4] != [0x41, 0x44, 0x42, 0x4B] ==> ReadFile(sh, bytes) == Err(InvalidData)
    ensures |bytes| >= 4 && bytes[..4] == [0x41, 0x44, 0x42, 0x4B] && |bytes| < 12 ==> ReadFile(sh, bytes) == Err(UnexpectedEof)
    ensures |bytes| >= 12 && bytes[..4] == [0x41, 0x44, 0x42, 0x4B] ==>
              ReadFile(sh, bytes) == ReadRecords(sh, bytes[12..], FromLe(bytes[4..12]), map[])
  {
    if |bytes| >= 12 {
      assert bytes[4..][..8] == bytes[4..12] && bytes[4..][8..] == bytes[12..];
    }
  }

  function SavedCells(g: Grid): set<Cell> {
    set c | c in g && Serializable(g[c])
  }

  /** Every cell of `order` holds a record that can be written. */
  ghost predicate Listed(g: Grid, order: seq<Cell>) {
    forall c :: c in order ==> c in g && CanSave(g[c])
  }

  ghost function RecordsAt(g: Grid, order: seq<Cell>): (r: seq<Record>)
    requires Listed(g, order)
    ensures |r| == |order| && forall x :: x in r ==> CanSave(x)
  {
    seq(|order|, i requires 0 <= i < |order| => g[order[i]])
  }

  /** What a table becomes by being written and read: unknown addresses gone, times in whole seconds. */
  function Rebuilt(g: Grid): Grid {
    map c | c in g && Serializable(g[c]) :: Rounded(g[c])
  }

  ghost predicate AllValid(g: Grid) {
    forall c :: c in g ==> ValidRecord(g[c])
  }

  ghost predicate AllWellFormed(g: Grid)
    requires AllValid(g)
  {
    forall c :: c in g && Serializable(g[c]) ==> WellFormed(g[c].addr)
  }

  function Extend(h: Grid, g: Grid, order: seq<Cell>): Grid
    requires forall c :: c in order ==> c in g
    decreases |order|
  {
    if order == [] then h else Extend(h[order[0] := Rounded(g[order[0]])], g, order[1..])
  }

  lemma {:induction false} ExtendFacts(h: Grid, g: Grid, order: seq<Cell>)
    requires forall c :: c in order ==> c in g
    ensures var e := Extend(h, g, order);
            && e.Keys == h.Keys + Elems(order)
            && forall c :: c in e ==> e[c] == if c in order then Rounded(g[c]) else h[c]
    decreases |order|
  {
    if order != [] {
      ExtendFacts(h[order[0] := Rounded(g[order[0]])], g, order[1..]);
      assert order == [order[0]] + order[1..];
    }
  }

  ghost predicate GoodAddrs(g: Grid, order: seq<Cell>)
    requires Listed(g, order)
  {
    forall c :: c in order ==> WellFormed(g[c].addr)
  }

  lemma NoAddrs(g: Grid)
    ensures GoodAddrs(g, [])
  {
  }

  lemma GoodAddrsHead(g: Grid, order: seq<Cell>)
    requires Listed(g, order) && order != []
    ensures Listed(g, order[1..])
    ensures GoodAddrs(g, order) <==> WellFormed(g[order[0]].addr) && GoodAddrs(g, order[1..])
  {
    hide WellFormed, CanSave;
    assert order == [order[0]] + order[1..];
  }

  lemma SameCell(sh: Shape, r: Record)
    requires sh.Valid()
    ensures CellOf(sh, Rounded(r)) == CellOf(sh, r)
  {
  }

  /** Reading the records one by one re-adds each at its own free cell, up to the first ill-formed address. */
  lemma {:induction false} ReadBack(sh: Shape, g: Grid, order: seq<Cell>, h: Grid)
    requires sh.Valid() && Placed(sh, g) && NoDup(order)
    requires Listed(g, order) && forall c :: c in order ==> ValidRecord(g[c]) && c !in h
    ensures ReadRecords(sh, Records(RecordsAt(g, order)), |order|, h) ==
            if GoodAddrs(g, order) then Ok(Extend(h, g, order)) else Err(InvalidData)
    decreases |order|
  {
    hide Deserialize, Serialized, WellFormed, ValidRecord, TypedAddr, CellOf, Rounded, GoodAddrs;
    if order == [] {
      assert GoodAddrs(g, order) by {
        NoAddrs(g);
      }
    } else {
      GoodAddrsHead(g, order);
      var c, rest := order[0], order[1..];
      var records := RecordsAt(g, order);
      assert records[0] == g[c] && records[1..] == RecordsAt(g, rest);
      RecordRoundTrip(g[c], Records(RecordsAt(g, rest)));
      assert order == [c] + rest;
      if WellFormed(g[c].addr) {
        SameCell(sh, g[c]);
        ReadBack(sh, g, rest, h[c := Rounded(g[c])]);
      }
    }
  }

  lemma SavedAreListed(g: Grid, order: seq<Cell>)
    requires AllValid(g) && Elems(order) <= SavedCells(g)
    ensures Listed(g, order)
  {
    assert forall c :: c in order ==> c in Elems(order);
  }

  /**
   Writing a table and reading it back: it succeeds exactly if every stored address is well formed,
   and then every record is in its old cell again.
   */
  lemma FileRebuildsTable(sh: Shape, ops: seq<Op>, order: seq<Cell>)
    requires sh.Valid() && AllValid(After(sh, ops))
    requires Enumerates(order, SavedCells(After(sh, ops))) && |order| < 0x1_0000_0000_0000_0000
    ensures Listed(After(sh, ops), order)
    ensures var g := After(sh, ops);
            ReadFile(sh, FileOf(RecordsAt(g, order))) == if AllWellFormed(g) then Ok(Rebuilt(g)) else Err(InvalidData)
  {
    hide Records, WellFormed, CanSave, ReadRecords, ReadInt, After;
    var g := After(sh, ops);
    AlwaysPlaced(sh, ops);
    assert forall c :: c in order ==> c in Elems(order);
    assert forall c :: c in g ==> ValidRecord(g[c]);
    assert Listed(g, order) by {
      SavedAreListed(g, order);
    }
    var records := RecordsAt(g, order);
    PowValues();
    TakeFront(MAGIC, ToLe(|records|, 8) + Records(records));
    IntRoundTrip(|records|, 8, Records(records));
    ReadBack(sh, g, order, map[]);
    ExtendAll(g, order);
    assert AllWellFormed(g) <==> GoodAddrs(g, order) by {
      assert forall c :: c in SavedCells(g) ==> c in order;
    }
  }

  /**
   What a reader of the file gets back from a table of well-formed addresses: every record of a known
   network, in its cell and with all its fields, times in whole seconds; records of unknown networks
   are the only ones missing.
   */
  lemma KnownPeersSurvive(sh: Shape, ops: seq<Op>, order: seq<Cell>)
    requires sh.Valid() && AllValid(After(sh, ops)) && AllWellFormed(After(sh, ops))
    requires Enumerates(order, SavedCells(After(sh, ops))) && |order| < 0x1_0000_0000_0000_0000
    ensures Listed(After(sh, ops), order)
    ensures var g := After(sh, ops);
            var r := ReadFile(sh, FileOf(RecordsAt(g, order)));
            && r.Ok? && (forall c :: c in r.value <==> c in g && !g[c].addr.Unknown?)
            && forall c :: c in r.value ==>
                 && SamePeer(r.value[c], g[c]) && r.value[c].services == g[c].services
                 && r.value[c].failedAttempts == g[c].failedAttempts
                 && SameSecond(r.value[c].lastAttempt, g[c].lastAttempt)
                 && SameSecond(r.value[c].lastConnection, g[c].lastConnection)
  {
    hide ReadFile, FileOf, After, WellFormed, TypedAddr;
    FileRebuildsTable(sh, ops, order);
  }

  /** The stored time is the latest whole second not after the given one. */
  ghost predicate SameSecond(stored: Option<nat>, t: Option<nat>) {
    if t.None? then stored.None?
    else stored.Some? && stored.value % 1_000_000_000 == 0 && stored.value <= t.value < stored.value + 1_000_000_000
  }

  /** An IPv4-mapped address as a seed lookup may return it: ten zero bytes, two bytes 0xFF, then the IPv4 part. */
  function Mapped(a: byte, b: byte, c: byte, d: byte): Addr {
    Ipv6([0, 0, 0, 0, 0, 0, 0, 0, 0, 0, 0xFF, 0xFF, a, b, c, d])
  }

  /** A table holding just one such address is written without complaint and cannot be read back. */
  lemma MappedAddressUnreadable(sh: Shape, r: Record, a: byte, b: byte, c: byte, d: byte)
    requires sh.Valid() && r.addr == Mapped(a, b, c, d) && ValidRecord(r)
    ensures After(sh, [AddRecord(r)]) == map[CellOf(sh, r) := r]
    ensures CanSave(r) && ReadFile(sh, FileOf([r])) == Err(InvalidData)
  {
    hide ReadFile, FileOf, CellOf;
    var ops, order := [AddRecord(r)], [CellOf(sh, r)];
    var g := After(sh, ops);
    assert g == AddTo(sh, After(sh, ops[..0]), r) && After(sh, ops[..0]) == map[];
    assert SavedCells(g) == {CellOf(sh, r)} == Elems(order);
    FileRebuildsTable(sh, ops, order);
    assert RecordsAt(g, order) == [r];
    assert r.addr.raw[..12] == [0, 0, 0, 0, 0, 0, 0, 0, 0, 0, 0xFF, 0xFF];
    assert !WellFormed(g[CellOf(sh, r)].addr);
  }

  lemma ExtendAll(g: Grid, order: seq<Cell>)
    requires Elems(order) == SavedCells(g) && forall c :: c in order ==> c in g
    ensures Extend(map[], g, order) == Rebuilt(g)
  {
    hide Rounded;
    ExtendFacts(map[], g, order);
    assert forall c :: c in Elems(order) <==> c in order;
  }

  /** The serializable cells of the first `b` buckets and of the first `s` slots of the next. */
  ghost function CellsUpTo(g: Grid, b: nat, s: nat): set<Cell> {
    set c | c in g && Serializable(g[c]) && (c.bucket < b || (c.bucket == b && c.slot < s))
  }

  lemma NextCell(t: Table, b: nat, s: nat) returns (here: seq<Cell>)
    requires t.Valid() && b < t.shape.buckets && s < t.shape.slots
    ensures here == if t.cells[b, s].Some? && Serializable(t.cells[b, s].value) then [Cell(b, s)] else []
    ensures CellsUpTo(t.Grid(), b, s) !! Elems(here)
    ensures CellsUpTo(t.Grid(), b, s + 1) == CellsUpTo(t.Grid(), b, s) + Elems(here)
  {
    here := if t.cells[b, s].Some? && Serializable(t.cells[b, s].value) then [Cell(b, s)] else [];
    assert t.cells[b, s].Some? ==> Cell(b, s) in t.Grid() && t.Grid()[Cell(b, s)] == t.cells[b, s].value;
  }

  /** `records` are those of `order`, which lists the serializable cells up to a position. */
  ghost predicate Collected(g: Grid, b: nat, s: nat, order: seq<Cell>, records: seq<Record>) {
    Enumerates(order, CellsUpTo(g, b, s)) && Listed(g, order) && records == RecordsAt(g, order)
  }

  lemma CollectedNext(t: Table, b: nat, s: nat, order: seq<Cell>, records: seq<Record>, here: seq<Cell>, found: seq<Record>)
    requires t.Valid() && b < t.shape.buckets && s < t.shape.slots
    requires Listed(t.Grid(), here) && found == RecordsAt(t.Grid(), here) && |here| <= 1
    requires Collected(t.Grid(), b, s, order, records)
    requires CellsUpTo(t.Grid(), b, s) !! Elems(here)
    requires CellsUpTo(t.Grid(), b, s + 1) == CellsUpTo(t.Grid(), b, s) + Elems(here)
    ensures Collected(t.Grid(), b, s + 1, order + here, records + found)
  {
    NoDupConcat(order, here);
    ElemsConcat(order, here);
    assert Listed(t.Grid(), order + here);
    assert RecordsAt(t.Grid(), order + here) == records + found;
  }

  method CollectRecords(t: Table) returns (records: seq<Record>, ghost order: seq<Cell>)
    requires t.Valid() && forall c :: c in t.Grid() ==> TypedAddr(t.Grid()[c].addr)
    ensures Enumerates(order, SavedCells(t.Grid())) && Listed(t.Grid(), order) && records == RecordsAt(t.Grid(), order)
  {
    hide Collected, CellsUpTo, TypedAddr;
    records, order := [], [];
    ghost var g := t.Grid();
    NoneCollected(g);
    for b := 0 to t.shape.buckets
      invariant Collected(g, b, 0, order, records)
    {
      for s := 0 to t.shape.slots
        invariant Collected(g, b, s, order, records)
      {
        var record := t.cells[b, s];
        ghost var here := NextCell(t, b, s);
        if record.Some? && Serializable(record.value) {
          assert g[Cell(b, s)] == record.value;
          CollectedNext(t, b, s, order, records, here, [record.value]);
          records := records + [record.value];
        } else {
          CollectedNext(t, b, s, order, records, here, []);
          assert records + [] == records;
        }
        order := order + here;
      }
      RowCollected(t, b, order, records);
    }
    AllCollected(t, order, records);
  }

  lemma NoneCollected(g: Grid)
    ensures Collected(g, 0, 0, [], [])
  {
  }

  lemma RowCollected(t: Table, b: nat, order: seq<Cell>, records: seq<Record>)
    requires t.Valid() && Collected(t.Grid(), b, t.shape.slots, order, records)
    ensures Collected(t.Grid(), b + 1, 0, order, records)
  {
    assert CellsUpTo(t.Grid(), b, t.shape.slots) == CellsUpTo(t.Grid(), b + 1, 0);
  }

  lemma AllCollected(t: Table, order: seq<Cell>, records: seq<Record>)
    requires t.Valid() && Collected(t.Grid(), t.shape.buckets, 0, order, records)
    ensures Enumerates(order, SavedCells(t.Grid())) && Listed(t.Grid(), order) && records == RecordsAt(t.Grid(), order)
  {
    assert CellsUpTo(t.Grid(), t.shape.buckets, 0) == SavedCells(t.Grid());
  }

  method WriteTable(t: Table) returns (bytes: seq<byte>)
    requires t.Valid() && forall c :: c in t.Grid() ==> TypedAddr(t.Grid()[c].addr)
    ensures exists order :: Enumerates(order, SavedCells(t.Grid())) && Listed(t.Grid(), order)
                            && bytes == FileOf(RecordsAt(t.Grid(), order))
  {
    hide Serialized, CanSave, Serializable;
    var records, order := CollectRecords(t);
    bytes := WriteRecords(MAGIC + ToLe(|records|, 8), records);
    assert MAGIC + ToLe(|records|, 8) + Records(records) == MAGIC + (ToLe(|records|, 8) + Records(records));
    assert bytes == FileOf(records);
    assert records == RecordsAt(t.Grid(), order);
  }

  method WriteRecords(head: seq<byte>, records: seq<Record>) returns (bytes: seq<byte>)
    requires forall r :: r in records ==> CanSave(r)
    ensures bytes == head + Records(records)
  {
    hide Serialized, CanSave;
    bytes := head;
    assert records[0..] == records;
    for i := 0 to |records|
      invariant bytes + Records(records[i..]) == head + Records(records)
    {
      assert records[i] in records;
      var record := Serialize(records[i]);
      assert records[i..][1..] == records[i + 1..];
      assert bytes + record + Records(records[i + 1..]) == bytes + (record + Records(records[i + 1..]));
      bytes := bytes + record;
    }
    assert bytes + Records(records[|records|..]) == bytes;
  }

  method ReadTable(shape: Shape, bytes: seq<byte>) returns (r: Result<Table, IoError>)
    requires shape.Valid()
    ensures match ReadFile(shape, bytes)
            case Ok(g) => r.Ok? && r.value.Valid() && r.value.shape == shape && r.value.Grid() == g
            case Err(e) => r == Err(e)
  {
    hide Deserialize, AddTo, Take, ReadInt;
    var magic := Take(bytes, 4);
    if magic.Err? {
      return Err(magic.error);
    }
    if magic.value.value != MAGIC {
      return Err(InvalidData);
    }
    var table := new Table(shape);
    var size := ReadInt(magic.value.rest, 8);
    if size.Err? {
      return Err(size.error);
    }
    var rest := size.value.rest;
    for i := 0 to size.value.value
      invariant table.Valid() && table.shape == shape && fresh(table.cells)
      invariant ReadFile(shape, bytes) == ReadRecords(shape, rest, size.value.value - i, table.Grid())
    {
      var record := Deserialize(rest);
      if record.Err? {
        return Err(record.error);
      }
      var conflict := table.Add(record.value.value);
      rest := record.value.rest;
    }
    r := Ok(table);
  }
}
