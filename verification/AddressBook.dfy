/** The bucketed table of peer addresses (`Table`, `Bucket`, `Record`). */
module AddressBook {
  import opened Basics
  import opened Bytes

  type Bytes4 = s: seq<byte> | |s| == 4 witness [0, 0, 0, 0]

  /** A network address with its raw bytes, as BIP 155 lists them. */
  datatype Addr =
    | Ipv4(raw: seq<byte>)
    | Ipv6(raw: seq<byte>)
    | TorV2(raw: seq<byte>)
    | TorV3(raw: seq<byte>)
    | I2p(raw: seq<byte>)
    | Cjdns(raw: seq<byte>)
    | Unknown(id: byte, raw: seq<byte>)

  /** Times are nanoseconds since the epoch. */
  datatype Record = Record(
    addr: Addr,
    port: u16,
    source: Bytes4,
    services: u64,
    failedAttempts: byte,
    lastConnection: Option<nat>,
    lastAttempt: Option<nat>)

  const ONE_MINUTE: nat := 60_000_000_000

  /** Table dimensions and the hash functions, which may be anything. */
  datatype Shape = Shape(buckets: nat, slots: nat, width: nat, destId: Addr -> u32, slotHash: u32 -> u64) {
    predicate Valid() {
      0 < width <= buckets && 0 < slots
    }
  }

  datatype Cell = Cell(bucket: nat, slot: nat)

  /** The occupied cells. */
  type Grid = map<Cell, Record>

  function Salt(sh: Shape, source: Bytes4): nat
    requires sh.Valid()
  {
    FromLe(source) % sh.width
  }

  /** The i-th bucket of the run that a source is assigned. */
  function RunBucket(sh: Shape, source: Bytes4, i: nat): (b: nat)
    requires sh.Valid()
    ensures b < sh.buckets
  {
    var run := sh.buckets / sh.width;
    var range := Salt(sh, source) * run % sh.buckets;
    (range + i) % sh.buckets
  }

  function DeriveBucket(sh: Shape, r: Record): (b: nat)
    requires sh.Valid()
    ensures b < sh.buckets
  {
    RunBucket(sh, r.source, sh.destId(r.addr) % sh.width)
  }

  function DeriveSlot(sh: Shape, r: Record): (s: nat)
    requires sh.Valid()
    ensures s < sh.slots
  {
    sh.slotHash(sh.destId(r.addr)) % sh.slots
  }

  function CellOf(sh: Shape, r: Record): Cell
    requires sh.Valid()
  {
    Cell(DeriveBucket(sh, r), DeriveSlot(sh, r))
  }

  function AddTo(sh: Shape, g: Grid, r: Record): Grid
    requires sh.Valid()
  {
    if CellOf(sh, r) in g then g else g[CellOf(sh, r) := r]
  }

  /** The reports change whatever record occupies the cell of the reported one. */
  function Succeeded(sh: Shape, g: Grid, r: Record, attempt: nat, connection: nat): Grid
    requires sh.Valid()
  {
    var c := CellOf(sh, r);
    if c !in g then g
    else g[c := g[c].(lastAttempt := Some(attempt), lastConnection := Some(connection), failedAttempts := 0, services := r.services)]
  }

  function Failed(sh: Shape, g: Grid, r: Record, attempt: nat): Grid
    requires sh.Valid()
  {
    var c := CellOf(sh, r);
    if c !in g then g
    else
      var failures := if g[c].failedAttempts == 255 then 255 else g[c].failedAttempts + 1;
      g[c := g[c].(lastAttempt := Some(attempt), failedAttempts := failures)]
  }

  /** The record was attempted within the last minute. */
  predicate Recent(now: nat, r: Record) {
    r.lastAttempt.Some? && now <= r.lastAttempt.value + ONE_MINUTE
  }

  /** The buckets in which a record equal to `r` occupies the slot of `r`. */
  function Holders(sh: Shape, g: Grid, r: Record): set<nat>
    requires sh.Valid()
  {
    set b | 0 <= b < sh.buckets && Cell(b, DeriveSlot(sh, r)) in g && g[Cell(b, DeriveSlot(sh, r))] == r
  }

  /** `i` lies after `start` and before `end` on the circle. */
  predicate Between(start: nat, i: nat, end: nat) {
    if start < end then start < i < end else start < i || i < end
  }

  function Advance(i: nat, n: nat): (r: nat)
    requires i < n
    ensures r == if i == n - 1 then 0 else i + 1
  {
    (i + 1) % n
  }

  class Table {
    const shape: Shape
    const cells: array2<Option<Record>>

    ghost predicate Valid()
      reads this
    {
      shape.Valid() && cells.Length0 == shape.buckets && cells.Length1 == shape.slots
    }

    ghost function Grid(): Grid
      reads this, cells
    {
      map b, s | 0 <= b < cells.Length0 && 0 <= s < cells.Length1 && cells[b, s].Some? :: Cell(b, s) := cells[b, s].value
    }

    constructor (shape: Shape)
      requires shape.Valid()
      ensures Valid() && this.shape == shape && fresh(cells) && Grid() == map[]
    {
      this.shape := shape;
      cells := new Option<Record>[shape.buckets, shape.slots]((_, _) => None);
    }

    method Add(r: Record) returns (conflict: Option<Record>)
      requires Valid()
      modifies cells
      ensures Grid() == AddTo(shape, old(Grid()), r)
      ensures conflict == if CellOf(shape, r) in old(Grid()) then Some(old(Grid())[CellOf(shape, r)]) else None
      ensures Grid() == if conflict.None? then old(Grid())[CellOf(shape, r) := r] else old(Grid())
    {
      var b, s := DeriveBucket(shape, r), DeriveSlot(shape, r);
      conflict := cells[b, s];
      if conflict.None? {
        cells[b, s] := Some(r);
      }
    }

    method Remove(r: Record)
      requires Valid()
      modifies cells
      ensures Grid() == old(Grid()) - {CellOf(shape, r)}
    {
      cells[DeriveBucket(shape, r), DeriveSlot(shape, r)] := None;
    }

    method SuccessfulConnection(r: Record, attempt: nat, connection: nat)
      requires Valid()
      modifies cells
      ensures Grid() == Succeeded(shape, old(Grid()), r, attempt, connection)
    {
      var b, s := DeriveBucket(shape, r), DeriveSlot(shape, r);
      if cells[b, s].Some? {
        cells[b, s] := Some(cells[b, s].value.(lastAttempt := Some(attempt), lastConnection := Some(connection),
                                               failedAttempts := 0, services := r.services));
      }
    }

    method FailedConnection(r: Record, attempt: nat)
      requires Valid()
      modifies cells
      ensures Grid() == Failed(shape, old(Grid()), r, attempt)
    {
      var b, s := DeriveBucket(shape, r), DeriveSlot(shape, r);
      if cells[b, s].Some? {
        var f := cells[b, s].value.failedAttempts;
        cells[b, s] := Some(cells[b, s].value.(lastAttempt := Some(attempt), failedAttempts := if f == 255 then 255 else f + 1));
      }
    }

    method Count(r: Record) returns (count: nat)
      requires Valid()
      ensures count == |Holders(shape, Grid(), r)|
    {
      count := 0;
      var slot := DeriveSlot(shape, r);
      ghost var seen: set<nat> := {};
      for b := 0 to shape.buckets
        invariant count == |seen|
        invariant forall a: nat :: a in seen <==> a < b && cells[a, slot] == Some(r)
      {
        if cells[b, slot] == Some(r) {
          count := count + 1;
          seen := seen + {b};
        }
      }
      assert seen == Holders(shape, Grid(), r) by {
        HoldersAt(r);
      }
    }

    lemma HoldersAt(r: Record)
      requires Valid()
      ensures forall a: nat :: a in Holders(shape, Grid(), r) <==> a < shape.buckets && cells[a, DeriveSlot(shape, r)] == Some(r)
    {
    }

    ghost predicate EmptyBucket(b: nat)
      requires Valid() && b < shape.buckets
      reads this, cells
    {
      forall s: nat :: s < shape.slots ==> cells[b, s].None?
    }

    /** `r` is in bucket `b`, and was attempted recently only if every record of the bucket was. */
    ghost predicate Preferred(b: nat, r: Record, now: nat)
      requires Valid() && b < shape.buckets
      reads this, cells
    {
      && (exists s: nat :: s < shape.slots && cells[b, s] == Some(r))
      && (Recent(now, r) ==>
            forall s: nat :: s < shape.slots && cells[b, s].Some? ==> Recent(now, cells[b, s].value))
    }

    method BucketIsEmpty(b: nat) returns (empty: bool)
      requires Valid() && b < shape.buckets
      ensures empty <==> EmptyBucket(b)
    {
      for s := 0 to shape.slots
        invariant forall i: nat :: i < s ==> cells[b, i].None?
      {
        if cells[b, s].Some? {
          return false;
        }
      }
      empty := true;
    }

    method IsEmpty() returns (empty: bool)
      requires Valid()
      ensures empty <==> forall b: nat :: b < shape.buckets ==> EmptyBucket(b)
    {
      for b := 0 to shape.buckets
        invariant forall a: nat :: a < b ==> EmptyBucket(a)
      {
        var e := BucketIsEmpty(b);
        if !e {
          return false;
        }
      }
      empty := true;
    }

    method RandomFromBucket(b: nat, now: nat) returns (r: Option<Record>)
      requires Valid() && b < shape.buckets
      ensures r.None? <==> EmptyBucket(b)
      ensures r.Some? ==> Preferred(b, r.value, now)
    {
      var empty := BucketIsEmpty(b);
      if empty {
        return None;
      }
      var start: nat :| start < shape.slots;
      var i := Advance(start, shape.slots);
      while i != start
        invariant 0 <= i < shape.slots
        invariant forall s: nat :: s < shape.slots && s != start && Between(start, s, i) && cells[b, s].Some? ==>
                    Recent(now, cells[b, s].value)
        decreases if i > start then shape.slots - i + start else start - i
      {
        var record := cells[b, i];
        if record.Some? && !Recent(now, record.value) {
          return record;
        }
        i := Advance(i, shape.slots);
      }
      r := cells[b, start];
      if r.None? {
        r := FirstOf(b);
      }
    }

    method FirstOf(b: nat) returns (r: Option<Record>)
      requires Valid() && b < shape.buckets
      ensures r.None? <==> EmptyBucket(b)
      ensures r.Some? ==> exists s: nat :: s < shape.slots && cells[b, s] == r && forall i: nat :: i < s ==> cells[b, i].None?
    {
      for s := 0 to shape.slots
        invariant forall i: nat :: i < s ==> cells[b, i].None?
      {
        if cells[b, s].Some? {
          return cells[b, s];
        }
      }
      r := None;
    }

    lemma EmptyGrid()
      requires Valid()
      ensures Grid() == map[] <==> forall b: nat :: b < shape.buckets ==> EmptyBucket(b)
    {
      if Grid() == map[] {
        forall b: nat, s: nat | b < shape.buckets && s < shape.slots
          ensures cells[b, s].None?
        {
          assert Cell(b, s) !in Grid();
        }
      } else {
        assert Grid().Keys != {};
        var c :| c in Grid();
        assert cells[c.bucket, c.slot].Some?;
        assert !EmptyBucket(c.bucket);
      }
    }

    /** Finds a record exactly when there is one, whatever bucket and slots the search starts from. */
    method Select(now: nat) returns (r: Option<Record>)
      requires Valid()
      ensures r.Some? <==> Grid() != map[]
      ensures r.Some? ==> exists b: nat :: b < shape.buckets && Preferred(b, r.value, now)
    {
      hide EmptyBucket, Preferred, Grid;
      var empty := IsEmpty();
      EmptyGrid();
      if empty {
        return None;
      }
      var start: nat :| start < shape.buckets;
      var startEmpty := BucketIsEmpty(start);
      if !startEmpty {
        r := RandomFromBucket(start, now);
        return;
      }
      var i := Advance(start, shape.buckets);
      while i != start
        invariant 0 <= i < shape.buckets
        invariant forall a: nat :: a < shape.buckets && a != start && Between(start, a, i) ==> EmptyBucket(a)
        decreases if i > start then shape.buckets - i + start else start - i
      {
        r := RandomFromBucket(i, now);
        if r.Some? {
          return;
        }
        i := Advance(i, shape.buckets);
      }
      EmptyGrid();
      r := None;
    }
  }

  /** Every record sits in the cell derived from it. */
  ghost predicate Placed(sh: Shape, g: Grid)
    requires sh.Valid()
  {
    forall c :: c in g ==> c == CellOf(sh, g[c])
  }

  datatype Op =
    | AddRecord(r: Record)
    | RemoveRecord(r: Record)
    | ReportSuccess(r: Record, attempt: nat, connection: nat)
    | ReportFailure(r: Record, attempt: nat)

  function Perform(sh: Shape, g: Grid, op: Op): Grid
    requires sh.Valid()
  {
    match op
    case AddRecord(r) => AddTo(sh, g, r)
    case RemoveRecord(r) => g - {CellOf(sh, r)}
    case ReportSuccess(r, attempt, connection) => Succeeded(sh, g, r, attempt, connection)
    case ReportFailure(r, attempt) => Failed(sh, g, r, attempt)
  }

  function After(sh: Shape, ops: seq<Op>): Grid
    requires sh.Valid()
  {
    if ops == [] then map[] else Perform(sh, After(sh, ops[..|ops| - 1]), ops[|ops| - 1])
  }

  lemma {:induction false} AlwaysPlaced(sh: Shape, ops: seq<Op>)
    requires sh.Valid()
    ensures Placed(sh, After(sh, ops))
  {
    if ops != [] {
      AlwaysPlaced(sh, ops[..|ops| - 1]);
    }
  }

  /** The buckets that hold some record learned from `source`. */
  function BucketsOf(g: Grid, source: Bytes4): set<nat> {
    set c | c in g && g[c].source == source :: c.bucket
  }

  function CellsOf(g: Grid, source: Bytes4): set<Cell> {
    set c | c in g && g[c].source == source
  }

  /** The run of buckets open to a source. */
  function OpenTo(sh: Shape, source: Bytes4, n: nat): set<nat>
    requires sh.Valid()
  {
    set i | 0 <= i < n :: RunBucket(sh, source, i)
  }

  lemma {:induction false} OpenCard(sh: Shape, source: Bytes4, n: nat)
    requires sh.Valid()
    ensures |OpenTo(sh, source, n)| <= n
  {
    if n > 0 {
      OpenCard(sh, source, n - 1);
      assert OpenTo(sh, source, n) == OpenTo(sh, source, n - 1) + {RunBucket(sh, source, n - 1)};
    }
  }

  function CellsIn(buckets: set<nat>, slots: nat): set<Cell> {
    set b, s | b in buckets && 0 <= s < slots :: Cell(b, s)
  }

  lemma {:induction false} RowCard(b: nat, slots: nat)
    ensures |CellsIn({b}, slots)| == slots
  {
    if slots > 0 {
      RowCard(b, slots - 1);
      assert CellsIn({b}, slots) == CellsIn({b}, slots - 1) + {Cell(b, slots - 1)};
    } else {
      assert CellsIn({b}, slots) == {};
    }
  }

  lemma SplitRow(buckets: set<nat>, b: nat, slots: nat)
    requires b in buckets
    ensures |CellsIn(buckets, slots)| == |CellsIn(buckets - {b}, slots)| + |CellsIn({b}, slots)|
    ensures |buckets| == |buckets - {b}| + 1
  {
    assert CellsIn(buckets, slots) == CellsIn(buckets - {b}, slots) + CellsIn({b}, slots);
    assert CellsIn(buckets - {b}, slots) !! CellsIn({b}, slots);
  }

  lemma OneMore(n: nat, slots: nat)
    ensures (n + 1) * slots == n * slots + slots
  {
  }

  lemma {:induction false} CellsCard(buckets: set<nat>, slots: nat)
    ensures |CellsIn(buckets, slots)| == |buckets| * slots
    decreases buckets
  {
    if buckets == {} {
      assert CellsIn(buckets, slots) == {};
    } else {
      var b :| b in buckets;
      CellsCard(buckets - {b}, slots);
      RowCard(b, slots);
      SplitRow(buckets, b, slots);
      OneMore(|buckets - {b}|, slots);
    }
  }

  lemma {:induction false} SubsetCard<T>(a: set<T>, b: set<T>)
    requires a <= b
    ensures |a| <= |b|
    decreases a
  {
    if a != {} {
      var x :| x in a;
      SubsetCard(a - {x}, b - {x});
    }
  }

  /** However much a single source sends, it reaches at most `width` buckets and `width * slots` cells. */
  lemma SourceLimit(sh: Shape, ops: seq<Op>, source: Bytes4)
    requires sh.Valid()
    ensures var g := After(sh, ops);
            |BucketsOf(g, source)| <= sh.width && |CellsOf(g, source)| <= sh.width * sh.slots
  {
    var g := After(sh, ops);
    AlwaysPlaced(sh, ops);
    OpenCard(sh, source, sh.width);
    SourceStaysOpen(sh, g, source);
    SubsetCard(BucketsOf(g, source), OpenTo(sh, source, sh.width));
    SubsetCard(CellsOf(g, source), CellsIn(OpenTo(sh, source, sh.width), sh.slots));
    CellsCard(OpenTo(sh, source, sh.width), sh.slots);
    Scale(|OpenTo(sh, source, sh.width)|, sh.width, sh.slots);
  }

  lemma Scale(a: nat, b: nat, c: nat)
    requires a <= b
    ensures a * c <= b * c
  {
  }

  lemma SourceStaysOpen(sh: Shape, g: Grid, source: Bytes4)
    requires sh.Valid() && Placed(sh, g)
    ensures BucketsOf(g, source) <= OpenTo(sh, source, sh.width)
    ensures CellsOf(g, source) <= CellsIn(OpenTo(sh, source, sh.width), sh.slots)
  {
    forall c | c in g && g[c].source == source
      ensures c.bucket in OpenTo(sh, source, sh.width) && c in CellsIn(OpenTo(sh, source, sh.width), sh.slots)
    {
      var i := sh.destId(g[c].addr) % sh.width;
      assert c == CellOf(sh, g[c]) && 0 <= i < sh.width;
      assert c == Cell(c.bucket, c.slot);
    }
  }

  /** No record is ever stored twice, and it is stored exactly when its own cell holds it. */
  lemma CountAtMostOne(sh: Shape, ops: seq<Op>, r: Record)
    requires sh.Valid()
    ensures var g := After(sh, ops);
            |Holders(sh, g, r)| == if CellOf(sh, r) in g && g[CellOf(sh, r)] == r then 1 else 0
  {
    var g := After(sh, ops);
    AlwaysPlaced(sh, ops);
    var c := CellOf(sh, r);
    if c in g && g[c] == r {
      assert Holders(sh, g, r) == {c.bucket};
    } else {
      assert Holders(sh, g, r) == {};
    }
  }

  /** The same peer: address, port and the source that reported it. */
  predicate SamePeer(a: Record, b: Record) {
    a.addr == b.addr && a.port == b.port && a.source == b.source
  }

  /** One operation changes at most the cell of its record; there it stores, empties or updates as reported. */
  lemma PerformExactly(sh: Shape, g: Grid, op: Op)
    requires sh.Valid()
    ensures var g', c := Perform(sh, g, op), CellOf(sh, op.r);
            && (forall d :: d != c ==> (d in g' <==> d in g) && (d in g' ==> g'[d] == g[d]))
            && match op
               case AddRecord(r) => c in g' && g'[c] == if c in g then g[c] else r
               case RemoveRecord(_) => c !in g'
               case ReportSuccess(r, attempt, connection) =>
                 (c in g' <==> c in g) && (c in g ==>
                   && SamePeer(g'[c], g[c]) && g'[c].services == r.services && g'[c].failedAttempts == 0
                   && g'[c].lastAttempt == Some(attempt) && g'[c].lastConnection == Some(connection))
               case ReportFailure(_, attempt) =>
                 (c in g' <==> c in g) && (c in g ==>
                   && SamePeer(g'[c], g[c]) && g'[c].services == g[c].services
                   && g'[c].failedAttempts as int == (if g[c].failedAttempts < 255 then g[c].failedAttempts + 1 else 255)
                   && g'[c].lastAttempt == Some(attempt) && g'[c].lastConnection == g[c].lastConnection)
  {
  }

  /** A stored peer keeps its place against whatever is added or reported, until a removal of its cell. */
  lemma {:induction false} KeptUntilRemoved(sh: Shape, ops: seq<Op>, more: seq<Op>, c: Cell)
    requires sh.Valid() && c in After(sh, ops)
    requires forall op :: op in more && op.RemoveRecord? ==> CellOf(sh, op.r) != c
    ensures c in After(sh, ops + more) && SamePeer(After(sh, ops + more)[c], After(sh, ops)[c])
  {
    hide Perform, CellOf;
    if more == [] {
      assert ops + more == ops;
    } else {
      var n := |more| - 1;
      assert (ops + more)[..|ops| + n] == ops + more[..n];
      KeptUntilRemoved(sh, ops, more[..n], c);
      assert more[n] in more;
      PerformExactly(sh, After(sh, ops + more[..n]), more[n]);
    }
  }

  /** A record counts as recently attempted for one minute, to the nanosecond. */
  lemma RestsForAMinute(now: nat, r: Record)
    ensures Recent(now, r) <==> r.lastAttempt.Some? && now - r.lastAttempt.value <= 60 * 1_000_000_000
  {
  }

  lemma RunIsWide(buckets: nat, width: nat)
    requires width > 0 && width * width <= buckets
    ensures width <= buckets / width && width * (buckets / width) <= buckets
  {
    if buckets / width < width {
      Scale(buckets / width + 1, width, width);
    }
  }

  lemma NoWrap(start: nat, index: nat, buckets: nat)
    requires start + index < buckets
    ensures (start % buckets + index) % buckets == start + index
  {
  }

  lemma BucketInGroup(sh: Shape, r: Record)
    requires sh.Valid() && sh.width * sh.width <= sh.buckets
    ensures var run, group, index := sh.buckets / sh.width, FromLe(r.source) % sh.width, sh.destId(r.addr) % sh.width;
            index < run && DeriveBucket(sh, r) == group * run + index
  {
    hide FromLe;
    var run, group := sh.buckets / sh.width, FromLe(r.source) % sh.width;
    RunIsWide(sh.buckets, sh.width);
    Scale(group + 1, sh.width, run);
    OneMore(group, run);
    NoWrap(group * run, sh.destId(r.addr) % sh.width, sh.buckets);
  }

  lemma SamePlace(run: nat, g: nat, i: nat, h: nat, j: nat)
    requires i < run && j < run
    ensures g * run + i == h * run + j <==> g == h && i == j
  {
    if g < h {
      Scale(g + 1, h, run);
      OneMore(g, run);
    } else if h < g {
      Scale(h + 1, g, run);
      OneMore(h, run);
    }
  }

  /**
   With enough buckets two peers compete for a cell exactly if their sources are in the same group and
   their addresses agree in bucket and slot number; sources of different groups cannot crowd each other out.
   */
  lemma CompeteExactly(sh: Shape, a: Record, b: Record)
    requires sh.Valid() && sh.width * sh.width <= sh.buckets
    ensures CellOf(sh, a) == CellOf(sh, b) <==>
            && FromLe(a.source) % sh.width == FromLe(b.source) % sh.width
            && sh.destId(a.addr) % sh.width == sh.destId(b.addr) % sh.width
            && sh.slotHash(sh.destId(a.addr)) % sh.slots == sh.slotHash(sh.destId(b.addr)) % sh.slots
  {
    hide FromLe, DeriveBucket;
    BucketInGroup(sh, a);
    BucketInGroup(sh, b);
    SamePlace(sh.buckets / sh.width, FromLe(a.source) % sh.width, sh.destId(a.addr) % sh.width,
              FromLe(b.source) % sh.width, sh.destId(b.addr) % sh.width);
  }
}
