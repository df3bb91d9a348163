/** Balance and history, both read off the coin map (`balance`, `utxo_count`, `history`). */
module Histories {
  import opened Basics
  import opened Bytes
  import opened Ledger
  import opened Reorgs

  const AMOUNT_LIMIT: nat := 0x1_0000_0000_0000_0000

  datatype Entry = Received(outpoint: OutPoint, value: u64, height: u32) | Spent(outpoint: OutPoint, value: u64, height: u32)

  function Signed(e: Entry): int {
    if e.Received? then e.value else -(e.value as int)
  }

  function Total(s: seq<Entry>): int {
    if s == [] then 0 else Signed(s[0]) + Total(s[1..])
  }

  function CoinEntries(op: OutPoint, c: Coin): seq<Entry> {
    [Received(op, c.value, c.height)]
    + if c.spentBy.Some? then [Spent(op, c.value, c.spentBy.value.height)] else []
  }

  /** The entries of all coins, coins taken in the given iteration order. */
  function Entries(u: Utxos, order: seq<OutPoint>): seq<Entry>
    requires Elems(order) <= u.Keys
  {
    if order == [] then []
    else
      assert order[0] in Elems(order);
      CoinEntries(order[0], u[order[0]]) + Entries(u, order[1..])
  }

  /** Stable insertion: before the first entry that is not earlier. */
  function Insert(e: Entry, s: seq<Entry>): seq<Entry> {
    if s == [] || e.height <= s[0].height then [e] + s else [s[0]] + Insert(e, s[1..])
  }

  /** The stable sort by height. */
  function Sort(s: seq<Entry>): seq<Entry> {
    if s == [] then [] else Insert(s[0], Sort(s[1..]))
  }

  ghost predicate Sorted(s: seq<Entry>) {
    forall i, j :: 0 <= i < j < |s| ==> s[i].height <= s[j].height
  }

  function AtHeight(s: seq<Entry>, h: u32): seq<Entry> {
    if s == [] then [] else (if s[0].height == h then [s[0]] else []) + AtHeight(s[1..], h)
  }

  lemma {:induction false} InsertAdds(e: Entry, s: seq<Entry>)
    ensures multiset(Insert(e, s)) == multiset{e} + multiset(s)
    ensures forall x :: x in Insert(e, s) ==> x == e || x in s
  {
    if s != [] && e.height > s[0].height {
      InsertAdds(e, s[1..]);
      assert s == [s[0]] + s[1..];
    }
  }

  lemma {:induction false} InsertSorted(e: Entry, s: seq<Entry>)
    requires Sorted(s)
    ensures Sorted(Insert(e, s))
  {
    if s != [] && e.height > s[0].height {
      InsertSorted(e, s[1..]);
      InsertAdds(e, s[1..]);
      var t := Insert(e, s[1..]);
      forall i | 0 <= i < |t|
        ensures s[0].height <= t[i].height
      {
        assert t[i] == e || t[i] in s[1..];
      }
    }
  }

  lemma AtHeightCons(x: Entry, s: seq<Entry>, h: u32)
    ensures AtHeight([x] + s, h) == if x.height == h then [x] + AtHeight(s, h) else AtHeight(s, h)
  {
    assert ([x] + s)[1..] == s;
  }

  lemma {:induction false} InsertAtHeight(e: Entry, s: seq<Entry>, h: u32)
    ensures AtHeight(Insert(e, s), h) == if e.height == h then [e] + AtHeight(s, h) else AtHeight(s, h)
  {
    if s == [] || e.height <= s[0].height {
      AtHeightCons(e, s, h);
    } else {
      InsertAtHeight(e, s[1..], h);
      AtHeightCons(s[0], Insert(e, s[1..]), h);
      AtHeightCons(s[0], s[1..], h);
      assert s == [s[0]] + s[1..];
    }
  }

  /** Sorting orders by height, keeps every entry, and keeps entries of one height in their order. */
  lemma {:induction false} SortIsStable(s: seq<Entry>)
    ensures Sorted(Sort(s)) && multiset(Sort(s)) == multiset(s)
    ensures forall h :: AtHeight(Sort(s), h) == AtHeight(s, h)
  {
    if s != [] {
      SortIsStable(s[1..]);
      InsertSorted(s[0], Sort(s[1..]));
      InsertAdds(s[0], Sort(s[1..]));
      assert s == [s[0]] + s[1..];
      forall h
        ensures AtHeight(Sort(s), h) == AtHeight(s, h)
      {
        InsertAtHeight(s[0], Sort(s[1..]), h);
        AtHeightCons(s[0], s[1..], h);
      }
    }
  }

  lemma {:induction false} AtHeightEmpty(s: seq<Entry>, h: u32)
    requires forall i :: 0 <= i < |s| ==> s[i].height > h
    ensures AtHeight(s, h) == []
  {
    if s != [] {
      AtHeightEmpty(s[1..], h);
    }
  }

  function FirstHeight(s: seq<Entry>): u32 {
    if s == [] then 0 else s[0].height
  }

  /** These properties leave no choice: any stable sort gives this very sequence. */
  lemma {:induction false} StableSortUnique(a: seq<Entry>, b: seq<Entry>)
    requires Sorted(a) && Sorted(b) && forall h :: AtHeight(a, h) == AtHeight(b, h)
    ensures a == b
    decreases |a|
  {
    var x, y := FirstHeight(a), FirstHeight(b);
    assert AtHeight(a, x) == AtHeight(b, x) && AtHeight(a, y) == AtHeight(b, y);
    if a != [] && b != [] {
      SameHead(a, b);
      forall h
        ensures AtHeight(a[1..], h) == AtHeight(b[1..], h)
      {
        assert AtHeight(a, h) == AtHeight(b, h);
        var here := if a[0].height == h then [a[0]] else [];
        assert AtHeight(a, h)[|here|..] == AtHeight(a[1..], h);
        assert AtHeight(b, h)[|here|..] == AtHeight(b[1..], h);
      }
      StableSortUnique(a[1..], b[1..]);
      assert a == [a[0]] + a[1..] && b == [b[0]] + b[1..];
    }
  }

  lemma SameHead(a: seq<Entry>, b: seq<Entry>)
    requires a != [] && b != [] && Sorted(a) && Sorted(b) && forall h :: AtHeight(a, h) == AtHeight(b, h)
    ensures a[0] == b[0]
  {
    hide AtHeight;
    var x, y := a[0].height, b[0].height;
    HeadAtHeight(a);
    HeadAtHeight(b);
    assert AtHeight(a, x) == AtHeight(b, x) && AtHeight(a, y) == AtHeight(b, y);
    if x < y {
      AtHeightEmpty(b, x);
    } else if y < x {
      AtHeightEmpty(a, y);
    }
  }

  lemma HeadAtHeight(s: seq<Entry>)
    requires s != []
    ensures var t := AtHeight(s, s[0].height); t != [] && t[0] == s[0]
  {
  }

  datatype Payment = Payment(outpoint: OutPoint, value: u64)

  /** From balance `acc` and receipts `seen`, the total never drops below zero and only received coins are spent. */
  ghost predicate Fair(acc: int, seen: set<Payment>, s: seq<Entry>)
    decreases |s|
  {
    && acc >= 0
    && (s != [] ==>
          && (s[0].Spent? ==> Payment(s[0].outpoint, s[0].value) in seen)
          && Fair(acc + Signed(s[0]), seen + Receipts(s[0]), s[1..]))
  }

  function Receipts(e: Entry): set<Payment> {
    if e.Received? then {Payment(e.outpoint, e.value)} else {}
  }

  lemma {:induction false} FairMono(acc: int, seen: set<Payment>, more: int, extra: set<Payment>, s: seq<Entry>)
    requires Fair(acc, seen, s) && acc <= more && seen <= extra
    ensures Fair(more, extra, s)
    decreases |s|
  {
    if s != [] {
      FairMono(acc + Signed(s[0]), seen + Receipts(s[0]), more + Signed(s[0]), extra + Receipts(s[0]), s[1..]);
    }
  }

  lemma {:induction false} FairInsertSpent(acc: int, seen: set<Payment>, e: Entry, s: seq<Entry>)
    requires Fair(acc, seen, s) && e.Spent?
    ensures Fair(acc + e.value, seen + {Payment(e.outpoint, e.value)}, Insert(e, s))
    decreases |s|
  {
    var p := {Payment(e.outpoint, e.value)};
    if s == [] || e.height <= s[0].height {
      assert ([e] + s)[1..] == s;
      FairMono(acc, seen, acc, seen + p + Receipts(e), s);
    } else {
      FairInsertSpent(acc + Signed(s[0]), seen + Receipts(s[0]), e, s[1..]);
      assert ([s[0]] + Insert(e, s[1..]))[1..] == Insert(e, s[1..]);
      assert seen + p + Receipts(s[0]) == seen + Receipts(s[0]) + p;
    }
  }

  /** Inserting a coin's entries keeps the ledger fair: the receipt lands before the spend. */
  lemma {:induction false} FairInsertCoin(acc: int, seen: set<Payment>, r: Entry, t: seq<Entry>, s: seq<Entry>)
    requires Fair(acc, seen, s) && r.Received?
    requires t == s || exists e :: IsSpendOf(e, r) && t == Insert(e, s)
    ensures Fair(acc, seen, Insert(r, t))
    decreases |s|
  {
    if t == [] || r.height <= t[0].height {
      assert ([r] + t)[1..] == t;
      if t == s {
        FairMono(acc, seen, acc + r.value, seen + Receipts(r), s);
      } else {
        var e :| IsSpendOf(e, r) && t == Insert(e, s);
        FairInsertSpent(acc, seen, e, s);
      }
    } else {
      assert ([t[0]] + Insert(r, t[1..]))[1..] == Insert(r, t[1..]);
      if t != s {
        var e :| IsSpendOf(e, r) && t == Insert(e, s);
        assert s != [] && !(e.height <= s[0].height) && t == [s[0]] + Insert(e, s[1..]);
        assert t[1..] == Insert(e, s[1..]);
      }
      FairInsertCoin(acc + Signed(s[0]), seen + Receipts(s[0]), r, t[1..], s[1..]);
    }
  }

  /** `e` spends what `r` received, no earlier. */
  ghost predicate IsSpendOf(e: Entry, r: Entry) {
    e.Spent? && r.Received? && e.outpoint == r.outpoint && e.value == r.value && r.height <= e.height
  }

  /** No coin is spent before the height at which it was received. */
  ghost predicate Chronological(u: Utxos) {
    forall op :: op in u && u[op].spentBy.Some? ==> u[op].height <= u[op].spentBy.value.height
  }

  lemma {:induction false} HistoryFair(u: Utxos, order: seq<OutPoint>)
    requires Elems(order) <= u.Keys && Chronological(u)
    ensures Fair(0, {}, Sort(Entries(u, order)))
  {
    if order != [] {
      HistoryFair(u, order[1..]);
      var c, rest := u[order[0]], Entries(u, order[1..]);
      var r := Received(order[0], c.value, c.height);
      if c.spentBy.Some? {
        var e := Spent(order[0], c.value, c.spentBy.value.height);
        assert ([r, e] + rest)[1..] == [e] + rest && ([e] + rest)[1..] == rest;
        assert Entries(u, order) == [r, e] + rest;
        assert IsSpendOf(e, r);
        FairInsertCoin(0, {}, r, Insert(e, Sort(rest)), Sort(rest));
      } else {
        assert Entries(u, order) == [r] + rest && ([r] + rest)[1..] == rest;
        FairInsertCoin(0, {}, r, Sort(rest), Sort(rest));
      }
    }
  }

  lemma {:induction false} FairPrefixes(acc: int, seen: set<Payment>, s: seq<Entry>, k: nat)
    requires Fair(acc, seen, s) && k <= |s|
    ensures acc + Total(s[..k]) >= 0
    ensures k < |s| && s[k].Spent? ==>
              || Payment(s[k].outpoint, s[k].value) in seen
              || exists j :: 0 <= j < k && s[j].Received? && s[j].outpoint == s[k].outpoint && s[j].value == s[k].value
    decreases k
  {
    if k > 0 {
      FairPrefixes(acc + Signed(s[0]), seen + Receipts(s[0]), s[1..], k - 1);
      assert s[..k][1..] == s[1..][..k - 1];
      if k < |s| && s[k].Spent? && Payment(s[k].outpoint, s[k].value) !in seen + Receipts(s[0]) {
        var j :| 0 <= j < k - 1 && s[1..][j].Received? && s[1..][j].outpoint == s[k].outpoint && s[1..][j].value == s[k].value;
        assert s[j + 1] == s[1..][j];
      }
    }
  }

  function Unspent(c: Coin): nat {
    if c.spentBy.None? then c.value else 0
  }

  ghost function Pick(u: Utxos): OutPoint
    requires u != map[]
  {
    var op :| op in u;
    op
  }

  /** The sum of the unspent coins. */
  ghost function SumUnspent(u: Utxos): nat
    decreases |u|
  {
    if u == map[] then 0
    else
      var op := Pick(u);
      Unspent(u[op]) + SumUnspent(u - {op})
  }

  lemma SumNone()
    ensures SumUnspent(map[]) == 0
  {
  }

  lemma {:induction false} SumRemove(u: Utxos, op: OutPoint)
    requires op in u
    ensures SumUnspent(u) == Unspent(u[op]) + SumUnspent(u - {op})
    decreases |u|
  {
    var p := Pick(u);
    if p != op {
      SumRemove(u - {p}, op);
      SumRemove(u - {op}, p);
      assert u - {p} - {op} == u - {op} - {p};
    }
  }

  lemma {:induction false} EntriesCongruent(u: Utxos, v: Utxos, order: seq<OutPoint>)
    requires Elems(order) <= u.Keys && Elems(order) <= v.Keys && forall op :: op in order ==> op in u && op in v && u[op] == v[op]
    ensures Entries(u, order) == Entries(v, order)
  {
    if order != [] {
      EntriesCongruent(u, v, order[1..]);
    }
  }

  lemma {:induction false} TotalConcat(a: seq<Entry>, b: seq<Entry>)
    ensures Total(a + b) == Total(a) + Total(b)
  {
    if a == [] {
      assert a + b == b;
    } else {
      TotalConcat(a[1..], b);
      assert (a + b)[1..] == a[1..] + b;
    }
  }

  lemma {:induction false} EntriesTotal(u: Utxos, order: seq<OutPoint>)
    requires Enumerates(order, u.Keys)
    ensures Total(Entries(u, order)) == SumUnspent(u)
    decreases |order|
  {
    assert forall op :: op in order ==> op in Elems(order);
    if order == [] {
      assert u.Keys == {};
    } else {
      var op, rest := order[0], order[1..];
      var v := u - {op};
      assert order == [op] + rest;
      ElemsConcat([op], rest);
      assert op in Elems(order) && op !in Elems(rest);
      assert v.Keys == Elems(rest);
      EntriesTotal(v, rest);
      EntriesCongruent(u, v, rest);
      TotalConcat(CoinEntries(op, u[op]), Entries(u, rest));
      SumRemove(u, op);
    }
  }

  lemma {:induction false} InsertTotal(e: Entry, s: seq<Entry>)
    ensures Total(Insert(e, s)) == Signed(e) + Total(s)
  {
    if s == [] || e.height <= s[0].height {
      assert ([e] + s)[1..] == s;
    } else {
      InsertTotal(e, s[1..]);
      assert ([s[0]] + Insert(e, s[1..]))[1..] == Insert(e, s[1..]);
    }
  }

  lemma {:induction false} SortTotal(s: seq<Entry>)
    ensures Total(Sort(s)) == Total(s)
  {
    if s != [] {
      SortTotal(s[1..]);
      InsertTotal(s[0], Sort(s[1..]));
    }
  }

  /** History and balance tell the same story, whatever order the map is iterated in. */
  lemma HistoryAgreesWithBalance(u: Utxos, order: seq<OutPoint>)
    requires Enumerates(order, u.Keys) && Chronological(u)
    ensures var h := Sort(Entries(u, order));
            && Sorted(h) && multiset(h) == multiset(Entries(u, order))
            && Total(h) == SumUnspent(u)
            && (forall k :: 0 <= k <= |h| ==> Total(h[..k]) >= 0)
            && (forall k :: 0 <= k < |h| && h[k].Spent? ==>
                  exists j :: 0 <= j < k && h[j].Received? && h[j].outpoint == h[k].outpoint && h[j].value == h[k].value)
  {
    EntriesTotal(u, order);
    var s := Entries(u, order);
    SortIsStable(s);
    SortTotal(s);
    HistoryFair(u, order);
    var h := Sort(s);
    forall k | 0 <= k <= |h|
      ensures Total(h[..k]) >= 0
      ensures k < |h| && h[k].Spent? ==>
                exists j :: 0 <= j < k && h[j].Received? && h[j].outpoint == h[k].outpoint && h[j].value == h[k].value
    {
      FairPrefixes(0, {}, h, k);
    }
  }

  ghost predicate Rising(chain: seq<Placed>) {
    forall i, j :: 0 <= i < j < |chain| ==> chain[i].height < chain[j].height
  }

  /** Every map built by scanning a chain upwards is chronological, so the agreement holds for it. */
  lemma {:induction false} ScannedIsChronological(chain: seq<Placed>)
    requires Rising(chain)
    ensures Chronological(FromScratch(chain))
    ensures forall op :: op in FromScratch(chain) ==>
              chain != [] && FromScratch(chain)[op].height <= chain[|chain| - 1].height
  {
    if chain != [] {
      var n := |chain| - 1;
      var p, u := chain[n], FromScratch(chain[..n]);
      ScannedIsChronological(chain[..n]);
      forall op | op in FromScratch(chain)
        ensures var c := FromScratch(chain)[op];
                c.height <= p.height && (c.spentBy.Some? ==> c.height <= c.spentBy.value.height)
      {
        ScanPointwise(u, p.block, p.height, op);
        assert Get(FromScratch(chain), op) == Do(BlockAct(p.block, p.height, op), Get(u, op));
        LastReceiptIn(Found(p.block, p.height), op);
        ReceiptsFromBlock(p.block, p.height);
      }
    }
  }

  datatype AmountError = AmountOverflow

  /** Adds up the unspent coins in any order; the sum panics exactly if the total exceeds 64 bits. */
  method Balance(w: Wallet) returns (r: Result<u64, AmountError>)
    ensures r == if SumUnspent(w.utxos) < AMOUNT_LIMIT then Ok(SumUnspent(w.utxos)) else Err(AmountOverflow)
  {
    hide SumUnspent;
    var sats: u64 := 0;
    var todo := w.utxos;
    while todo != map[]
      invariant sats + SumUnspent(todo) == SumUnspent(w.utxos)
      decreases |todo|
    {
      var op :| op in todo;
      SumRemove(todo, op);
      if todo[op].spentBy.None? {
        if sats + todo[op].value >= AMOUNT_LIMIT {
          return Err(AmountOverflow);
        }
        sats := sats + todo[op].value;
      }
      todo := todo - {op};
    }
    SumNone();
    r := Ok(sats);
  }

  method UtxoCount(w: Wallet) returns (count: nat)
    ensures count == |set op | op in w.utxos && w.utxos[op].spentBy.None?|
  {
    count := 0;
    var todo := w.utxos.Keys;
    ghost var seen: set<OutPoint> := {};
    while todo != {}
      invariant todo <= w.utxos.Keys && count == |seen|
      invariant seen == set op | op in w.utxos && op !in todo && w.utxos[op].spentBy.None?
      decreases todo
    {
      var op :| op in todo;
      if w.utxos[op].spentBy.None? {
        count := count + 1;
        seen := seen + {op};
      }
      todo := todo - {op};
    }
    assert seen == set op | op in w.utxos && w.utxos[op].spentBy.None?;
  }

  /** `e` tells of the receipt or of the spend of a coin of `u`. */
  ghost predicate Tells(u: Utxos, e: Entry) {
    e.outpoint in u &&
    var c := u[e.outpoint];
    || e == Received(e.outpoint, c.value, c.height)
    || (c.spentBy.Some? && e == Spent(e.outpoint, c.value, c.spentBy.value.height))
  }

  lemma {:induction false} EntriesTell(u: Utxos, order: seq<OutPoint>, e: Entry)
    requires Elems(order) <= u.Keys && NoDup(order)
    ensures multiset(Entries(u, order))[e] == if e.outpoint in order && Tells(u, e) then 1 else 0
  {
    if order != [] {
      assert order[0] in Elems(order);
      assert order == [order[0]] + order[1..];
      ElemsConcat([order[0]], order[1..]);
      EntriesTell(u, order[1..], e);
      var first := CoinEntries(order[0], u[order[0]]);
      assert multiset(Entries(u, order)) == multiset(first) + multiset(Entries(u, order[1..]));
      CoinEntriesTell(u, order[0], e);
    }
  }

  lemma CoinEntriesTell(u: Utxos, op: OutPoint, e: Entry)
    requires op in u
    ensures multiset(CoinEntries(op, u[op]))[e] == if e.outpoint == op && Tells(u, e) then 1 else 0
  {
    var c := u[op];
    if c.spentBy.Some? {
      assert CoinEntries(op, c) == [Received(op, c.value, c.height), Spent(op, c.value, c.spentBy.value.height)];
    } else {
      assert CoinEntries(op, c) == [Received(op, c.value, c.height)];
    }
  }

  lemma HistoryTells(u: Utxos, order: seq<OutPoint>)
    requires Enumerates(order, u.Keys)
    ensures forall e :: multiset(Sort(Entries(u, order)))[e] == if Tells(u, e) then 1 else 0
  {
    hide Entries, Sort, Tells;
    SortIsStable(Entries(u, order));
    forall e
      ensures multiset(Sort(Entries(u, order)))[e] == if Tells(u, e) then 1 else 0
    {
      EntriesTell(u, order, e);
      assert e.outpoint in u.Keys <==> e.outpoint in Elems(order);
      assert Tells(u, e) ==> e.outpoint in u by {
        TellsOfCoin(u, e);
      }
    }
  }

  lemma TellsOfCoin(u: Utxos, e: Entry)
    ensures Tells(u, e) ==> e.outpoint in u
  {
  }

  /** A history has every coin's receipt once, every spent coin's spend once, and nothing else. */
  lemma HistoryLists(u: Utxos, order: seq<OutPoint>)
    requires Enumerates(order, u.Keys)
    ensures var h := multiset(Sort(Entries(u, order)));
            && (forall op :: op in u ==> h[Received(op, u[op].value, u[op].height)] == 1)
            && (forall op :: op in u && u[op].spentBy.Some? ==> h[Spent(op, u[op].value, u[op].spentBy.value.height)] == 1)
            && (forall e :: e in h ==> Tells(u, e))
  {
    hide Entries, Sort;
    HistoryTells(u, order);
  }

  method History(w: Wallet) returns (h: seq<Entry>)
    ensures exists order :: Enumerates(order, w.utxos.Keys) && h == Sort(Entries(w.utxos, order))
    ensures forall e :: multiset(h)[e] == if Tells(w.utxos, e) then 1 else 0
  {
    hide Sort, Tells, CoinEntries;
    var entries := [];
    var todo := w.utxos.Keys;
    ghost var order := [];
    while todo != {}
      invariant todo <= w.utxos.Keys && Enumerates(order, w.utxos.Keys - todo)
      invariant entries == Entries(w.utxos, order)
      decreases todo
    {
      var op :| op in todo;
      assert op !in Elems(order);
      NoDupConcat(order, [op]);
      ElemsConcat(order, [op]);
      EntriesAppend(w.utxos, order, op);
      order := order + [op];
      entries := entries + CoinEntries(op, w.utxos[op]);
      todo := todo - {op};
    }
    assert w.utxos.Keys - {} == w.utxos.Keys;
    h := Sort(entries);
    HistoryTells(w.utxos, order);
  }

  lemma {:induction false} EntriesAppend(u: Utxos, order: seq<OutPoint>, op: OutPoint)
    requires op in u && Elems(order) <= u.Keys
    ensures Elems(order + [op]) <= u.Keys
    ensures Entries(u, order + [op]) == Entries(u, order) + CoinEntries(op, u[op])
  {
    ElemsConcat(order, [op]);
    if order == [] {
      assert order + [op] == [op];
      assert [op][1..] == [];
    } else {
      EntriesAppend(u, order[1..], op);
      assert (order + [op])[1..] == order[1..] + [op];
    }
  }

  /** Connected blocks rise: each is higher than the tip it is connected to. */
  ghost predicate RisingRun(events: seq<Event>) {
    events != [] ==>
      var n := |events| - 1;
      var chain := Tip(events[..n]);
      RisingRun(events[..n]) && (events[n].ConnectBlock? && chain != [] ==> chain[|chain| - 1].height < events[n].height)
  }

  lemma {:induction false} TipRises(events: seq<Event>)
    requires RisingRun(events)
    ensures Rising(Tip(events))
  {
    if events != [] {
      TipRises(events[..|events| - 1]);
    }
  }

  /** In every reachable wallet, reorganisations included, history and balance agree. */
  lemma LedgerAndHistoryAgree(events: seq<Event>, order: seq<OutPoint>)
    requires ValidRun(events) && RisingRun(events) && Enumerates(order, Track(events).Keys)
    ensures var h := Sort(Entries(Track(events), order));
            && Sorted(h) && Total(h) == SumUnspent(Track(events))
            && (forall k :: 0 <= k <= |h| ==> Total(h[..k]) >= 0)
            && (forall k :: 0 <= k < |h| && h[k].Spent? ==>
                  exists j :: 0 <= j < k && h[j].Received? && h[j].outpoint == h[k].outpoint && h[j].value == h[k].value)
  {
    MapFollowsChain(events);
    TipRises(events);
    ScannedIsChronological(Tip(events));
    HistoryAgreesWithBalance(Track(events), order);
  }
}
