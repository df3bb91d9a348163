/**
 Coin reservation across sending, broadcasting and releasing: `send_to_address` under the wallet
 lock, the broadcast thread behind a one-place channel, and the scan thread, as one state machine.
 */
module Sends {
  import opened Basics
  import opened Bytes
  import opened Ledger

  const CHANNEL_SIZE := 1

  /** A transaction on its way out: one the wallet built, by number, or one given from outside. */
  datatype Outgoing = Built(id: nat) | Raw(inputs: set<OutPoint>)

  datatype Desk = Desk(
    utxos: Utxos,
    reserved: set<OutPoint>,
    holder: Option<nat>,             // the send that holds the wallet lock: pushed, not yet reserved
    sent: seq<set<OutPoint>>,        // inputs of every transaction the send path accepted
    failed: set<nat>,                // those whose broadcast was reported failed
    channel: seq<Outgoing>,
    sending: Option<Outgoing>)       // what the broadcast thread is working on

  datatype Step =
    | Push(selected: set<OutPoint>)
    | Reserve
    | PushRaw(inputs: set<OutPoint>)
    | Receive
    | Succeed
    | Fail
    | ScanBlock(block: Block, height: u32)
    | DisconnectBlock(block: Block)

  /** The coins a transaction may be built from: unspent and not reserved. */
  function Spendable(u: Utxos, reserved: set<OutPoint>): set<OutPoint> {
    set op | op in u && u[op].spentBy.None? && op !in reserved
  }

  /** Everything that touches the wallet needs its lock; channel and network operations do not. */
  predicate Enabled(s: Desk, step: Step) {
    match step
    case Push(selected) => s.holder.None? && |s.channel| < CHANNEL_SIZE && selected <= Spendable(s.utxos, s.reserved)
    case Reserve => s.holder.Some? && s.holder.value < |s.sent|
    case PushRaw(_) => |s.channel| < CHANNEL_SIZE
    case Receive => s.sending.None? && s.channel != []
    case Succeed => s.sending.Some?
    case Fail => s.sending.Some? && s.holder.None?
    case ScanBlock(_, _) => s.holder.None?
    case DisconnectBlock(_) => s.holder.None?
  }

  function InputsOf(s: Desk, o: Outgoing): set<OutPoint> {
    match o
    case Built(id) => if id < |s.sent| then s.sent[id] else {}
    case Raw(inputs) => inputs
  }

  function Apply(s: Desk, step: Step): Desk
    requires Enabled(s, step)
  {
    match step
    case Push(selected) =>
      s.(sent := s.sent + [selected], channel := s.channel + [Built(|s.sent|)], holder := Some(|s.sent|))
    case Reserve => s.(reserved := s.reserved + s.sent[s.holder.value], holder := None)
    case PushRaw(inputs) => s.(channel := s.channel + [Raw(inputs)])
    case Receive => s.(sending := Some(s.channel[0]), channel := s.channel[1..])
    case Succeed => s.(sending := None)
    case Fail =>
      s.(reserved := s.reserved - InputsOf(s, s.sending.value),
         failed := s.failed + (if s.sending.value.Built? then {s.sending.value.id} else {}),
         sending := None)
    case ScanBlock(b, height) => s.(utxos := Scan(s.utxos, b, height))
    case DisconnectBlock(b) => s.(utxos := Disconnect(s.utxos, b))
  }

  ghost predicate Init(s: Desk) {
    s.reserved == {} && s.holder == None && s.sent == [] && s.failed == {} && s.channel == [] && s.sending == None
  }

  ghost predicate IsRun(states: seq<Desk>, steps: seq<Step>) {
    && |states| == |steps| + 1
    && forall i :: 0 <= i < |steps| ==> Enabled(states[i], steps[i]) && states[i + 1] == Apply(states[i], steps[i])
  }

  /** Accepted and not reported failed. */
  predicate Live(s: Desk, id: nat) {
    id < |s.sent| && id !in s.failed
  }

  ghost predicate Reserved(s: Desk) {
    forall id: nat :: Live(s, id) && s.holder != Some(id) ==> s.sent[id] <= s.reserved
  }

  /** No two live transactions spend the same coin. */
  ghost predicate Disjoint(s: Desk) {
    forall i: nat, j: nat :: Live(s, i) && Live(s, j) && i != j ==> s.sent[i] !! s.sent[j]
  }

  /** What is on its way out, the one being broadcast first. */
  function Pending(s: Desk): seq<Outgoing> {
    (if s.sending.Some? then [s.sending.value] else []) + s.channel
  }

  ghost predicate PendingLive(s: Desk) {
    && (forall o :: o in Pending(s) && o.Built? ==> Live(s, o.id))
    && (forall i, j :: 0 <= i < j < |Pending(s)| && Pending(s)[i].Built? ==> Pending(s)[i] != Pending(s)[j])
  }

  ghost predicate HolderLive(s: Desk) {
    s.holder.Some? ==> Live(s, s.holder.value)
  }

  ghost predicate Inv(s: Desk) {
    && Reserved(s) && Disjoint(s) && PendingLive(s) && HolderLive(s)
    && forall id :: id in s.failed ==> id < |s.sent|
  }

  /** A failing raw transaction does not release a coin that a live transaction spends. */
  ghost predicate RawHarmless(s: Desk, step: Step) {
    step.Fail? && s.sending.Some? && s.sending.value.Raw? ==>
      forall id: nat :: Live(s, id) ==> s.sent[id] !! s.sending.value.inputs
  }

  lemma PushKeeps(s: Desk, step: Step)
    requires Inv(s) && Enabled(s, step) && step.Push?
    ensures Inv(Apply(s, step))
  {
    var s' := Apply(s, step);
    assert Pending(s') == Pending(s) + [Built(|s.sent|)];
    forall i: nat, j: nat | Live(s', i) && Live(s', j) && i < j
      ensures s'.sent[i] !! s'.sent[j]
    {
      assert Live(s, i);
      if j < |s.sent| {
        assert Live(s, j);
      }
    }
    assert forall id: nat :: Live(s, id) ==> Live(s', id);
  }

  lemma FailKeeps(s: Desk, step: Step)
    requires Inv(s) && Enabled(s, step) && step.Fail? && RawHarmless(s, step)
    ensures Inv(Apply(s, step))
  {
    var s' := Apply(s, step);
    assert Pending(s) == [s.sending.value] + Pending(s');
    assert forall id: nat :: Live(s', id) ==> Live(s, id);
    forall o | o in Pending(s') && o.Built?
      ensures Live(s', o.id)
    {
      var k :| 0 <= k < |Pending(s')| && Pending(s')[k] == o;
      assert Pending(s)[k + 1] == o && Pending(s)[0] == s.sending.value;
    }
    forall i, j | 0 <= i < j < |Pending(s')| && Pending(s')[i].Built?
      ensures Pending(s')[i] != Pending(s')[j]
    {
      assert Pending(s)[i + 1] == Pending(s')[i] && Pending(s)[j + 1] == Pending(s')[j];
    }
  }

  lemma OtherKeeps(s: Desk, step: Step)
    requires Inv(s) && Enabled(s, step) && !step.Push? && !step.Fail?
    ensures Inv(Apply(s, step))
  {
    hide Scan, Disconnect, Spendable;
    var s' := Apply(s, step);
    assert forall id: nat :: Live(s', id) <==> Live(s, id);
    match step {
      case PushRaw(inputs) =>
        assert Pending(s') == Pending(s) + [Raw(inputs)];
      case Receive =>
        assert Pending(s') == Pending(s);
      case Succeed =>
        assert Pending(s) == [s.sending.value] + Pending(s');
        forall i, j | 0 <= i < j < |Pending(s')| && Pending(s')[i].Built?
          ensures Pending(s')[i] != Pending(s')[j]
        {
          assert Pending(s)[i + 1] == Pending(s')[i] && Pending(s)[j + 1] == Pending(s')[j];
        }
      case Reserve =>
        assert Pending(s') == Pending(s);
      case ScanBlock(_, _) =>
        assert Pending(s') == Pending(s);
      case DisconnectBlock(_) =>
        assert Pending(s') == Pending(s);
      case _ =>
    }
  }

  /** No double selection: over every interleaving, two live transactions never share an input. */
  lemma {:induction false} NoDoubleSelection(states: seq<Desk>, steps: seq<Step>, i: nat)
    requires IsRun(states, steps) && Init(states[0]) && i < |states|
    requires forall k :: 0 <= k < i ==> RawHarmless(states[k], steps[k])
    ensures Inv(states[i]) && Disjoint(states[i])
  {
    if i > 0 {
      NoDoubleSelection(states, steps, i - 1);
      var s, step := states[i - 1], steps[i - 1];
      match step {
        case Push(_) => PushKeeps(s, step);
        case Fail => FailKeeps(s, step);
        case _ => OtherKeeps(s, step);
      }
    }
  }

  /** `RawHarmless` is exactly what a failure needs for live transactions to keep their coins reserved. */
  lemma RawHarmlessExactly(s: Desk)
    requires Inv(s) && Enabled(s, Fail)
    ensures Reserved(Apply(s, Fail)) <==> RawHarmless(s, Fail)
  {
    if RawHarmless(s, Fail) {
      FailKeeps(s, Fail);
    } else {
      var id: nat :| Live(s, id) && !(s.sent[id] !! s.sending.value.inputs);
      var s' := Apply(s, Fail);
      assert Live(s', id);
      var op :| op in s.sent[id] && op in s.sending.value.inputs;
      assert op !in s'.reserved;
    }
  }

  /** What a step puts into the channel, and what it finishes broadcasting. */
  function Handed(s: Desk, step: Step): seq<Outgoing> {
    match step
    case Push(_) => [Built(|s.sent|)]
    case PushRaw(inputs) => [Raw(inputs)]
    case _ => []
  }

  function Finished(s: Desk, step: Step): seq<Outgoing> {
    if (step.Succeed? || step.Fail?) && s.sending.Some? then [s.sending.value] else []
  }

  function AllHanded(states: seq<Desk>, steps: seq<Step>, n: nat): seq<Outgoing>
    requires n <= |steps| < |states|
  {
    if n == 0 then [] else AllHanded(states, steps, n - 1) + Handed(states[n - 1], steps[n - 1])
  }

  function AllFinished(states: seq<Desk>, steps: seq<Step>, n: nat): seq<Outgoing>
    requires n <= |steps| < |states|
  {
    if n == 0 then [] else AllFinished(states, steps, n - 1) + Finished(states[n - 1], steps[n - 1])
  }

  lemma PendingMoves(s: Desk, step: Step)
    requires Enabled(s, step)
    ensures Finished(s, step) + Pending(Apply(s, step)) == Pending(s) + Handed(s, step)
    ensures |s.channel| <= 1 ==> |Apply(s, step).channel| <= 1
  {
    hide Scan, Disconnect, Spendable;
    var s' := Apply(s, step);
    if step.Receive? {
      assert s.channel == [s.channel[0]] + s.channel[1..];
    }
  }

  /**
   No transaction accepted for broadcast is lost, repeated or overtaken: in every run those handed over
   are, in order, those finished followed by those pending, of which there are at most two.
   */
  lemma {:induction false} BroadcastInOrder(states: seq<Desk>, steps: seq<Step>, n: nat)
    requires IsRun(states, steps) && Init(states[0]) && n <= |steps|
    ensures AllHanded(states, steps, n) == AllFinished(states, steps, n) + Pending(states[n])
    ensures |states[n].channel| <= 1 && |Pending(states[n])| <= 2
  {
    if n > 0 {
      hide Enabled, Apply, Pending, Finished, Handed;
      BroadcastInOrder(states, steps, n - 1);
      var s, step, s' := states[n - 1], steps[n - 1], states[n];
      PendingMoves(s, step);
      Regroup(AllFinished(states, steps, n - 1), Pending(s), Handed(s, step), Finished(s, step), Pending(s'));
      PendingSize(s');
    }
  }

  lemma Regroup(a: seq<Outgoing>, p: seq<Outgoing>, h: seq<Outgoing>, f: seq<Outgoing>, p': seq<Outgoing>)
    requires f + p' == p + h
    ensures a + p + h == a + f + p'
  {
    assert a + p + h == a + (p + h) && a + f + p' == a + (f + p');
  }

  lemma PendingSize(s: Desk)
    ensures |Pending(s)| <= |s.channel| + 1
  {
  }

  /** Every reserved coin is an input of a live transaction, and so is the one about to be reserved. */
  ghost predicate Backed(s: Desk) {
    && HolderLive(s) && (forall id :: id in s.failed ==> id < |s.sent|)
    && (forall o :: o in Pending(s) && o.Built? ==> o.id < |s.sent|)
    && forall op :: op in s.reserved ==> exists id: nat :: Live(s, id) && op in s.sent[id]
  }

  lemma BackedStep(s: Desk, step: Step)
    requires Backed(s) && Enabled(s, step)
    ensures Backed(Apply(s, step))
  {
    hide Scan, Disconnect, Spendable;
    var s' := Apply(s, step);
    forall op | op in s'.reserved
      ensures exists id: nat :: Live(s', id) && op in s'.sent[id]
    {
      if op in s.reserved {
        var id: nat :| Live(s, id) && op in s.sent[id];
        assert Live(s', id) && op in s'.sent[id];
      } else {
        assert Live(s', s.holder.value);
      }
    }
    assert forall o :: o in Pending(s') && o.Built? ==> o in Pending(s) || o.id < |s'.sent|;
  }

  /** Nothing stays reserved without reason: in every run a reserved coin is an input of a live transaction. */
  lemma {:induction false} BackedInAnyRun(states: seq<Desk>, steps: seq<Step>, i: nat)
    requires IsRun(states, steps) && Init(states[0]) && i < |states|
    ensures Backed(states[i])
  {
    if i > 0 {
      BackedInAnyRun(states, steps, i - 1);
      BackedStep(states[i - 1], steps[i - 1]);
    }
  }

  /** A failed send gives its coins back: whatever of them is still unspent can be selected at once. */
  lemma FailedCoinsReturn(s: Desk, op: OutPoint)
    requires Enabled(s, Fail) && s.sending.value.Built? && s.sending.value.id < |s.sent|
    requires op in s.sent[s.sending.value.id] && op in s.utxos && s.utxos[op].spentBy.None?
    ensures op in Spendable(Apply(s, Fail).utxos, Apply(s, Fail).reserved)
    ensures |s.channel| < CHANNEL_SIZE ==> Enabled(Apply(s, Fail), Push({op}))
  {
  }

  /** A send selects only coins that are in the wallet, unspent, and in no live transaction. */
  lemma SelectsOnlyFree(s: Desk, selected: set<OutPoint>, op: OutPoint)
    requires Inv(s) && Enabled(s, Push(selected)) && op in selected
    ensures op in s.utxos && s.utxos[op].spentBy.None?
    ensures forall id: nat :: Live(s, id) ==> op !in s.sent[id]
  {
  }

  /** No raw transaction on its way out shares an input with a live transaction. */
  ghost predicate RawApart(s: Desk) {
    forall o, id: nat :: o in Pending(s) && o.Raw? && Live(s, id) ==> o.inputs !! s.sent[id]
  }

  /**
   What the two callers can check beforehand: a raw transaction spends no input of a live one when
   it is pushed, and a send selects no input of a raw transaction still on its way out.
   */
  ghost predicate KeepsApart(s: Desk, step: Step) {
    && (step.PushRaw? ==> forall id: nat :: Live(s, id) ==> s.sent[id] !! step.inputs)
    && (step.Push? ==> forall o :: o in Pending(s) && o.Raw? ==> o.inputs !! step.selected)
  }

  lemma PushApart(s: Desk, step: Step)
    requires Inv(s) && RawApart(s) && Enabled(s, step) && step.Push?
    ensures RawApart(Apply(s, step)) <==> KeepsApart(s, step)
  {
    var s', n := Apply(s, step), |s.sent|;
    assert Pending(s') == Pending(s) + [Built(n)];
    assert Live(s', n) && s'.sent[n] == step.selected;
    assert forall id: nat :: Live(s', id) <==> Live(s, id) || id == n;
    forall o | o in Pending(s) && o.Raw?
      ensures o in Pending(s')
    {
    }
    if RawApart(s') {
      forall o | o in Pending(s) && o.Raw?
        ensures o.inputs !! step.selected
      {
        assert o in Pending(s') && Live(s', n);
      }
    }
  }

  lemma PushRawApart(s: Desk, step: Step)
    requires Inv(s) && RawApart(s) && Enabled(s, step) && step.PushRaw?
    ensures RawApart(Apply(s, step)) <==> KeepsApart(s, step)
  {
    var s' := Apply(s, step);
    assert Pending(s') == Pending(s) + [Raw(step.inputs)];
    assert Raw(step.inputs) in Pending(s');
    assert forall id: nat :: Live(s', id) <==> Live(s, id);
  }

  lemma OtherApart(s: Desk, step: Step)
    requires Inv(s) && RawApart(s) && Enabled(s, step) && !step.Push? && !step.PushRaw?
    ensures RawApart(Apply(s, step))
  {
    hide Scan, Disconnect, Spendable;
    var s' := Apply(s, step);
    assert forall id: nat :: Live(s', id) ==> Live(s, id);
    forall o | o in Pending(s')
      ensures o in Pending(s)
    {
    }
  }

  /** Raw and built transactions stay apart exactly if both callers made their check. */
  lemma KeepsApartExactly(s: Desk, step: Step)
    requires Inv(s) && RawApart(s) && Enabled(s, step)
    ensures RawApart(Apply(s, step)) <==> KeepsApart(s, step)
  {
    match step {
      case Push(_) => PushApart(s, step);
      case PushRaw(_) => PushRawApart(s, step);
      case _ => OtherApart(s, step);
    }
  }

  /** A coin of a live transaction that is neither reserved nor spent can be selected a second time. */
  lemma PushShared(s: Desk, id: nat, op: OutPoint)
    requires s.holder.None? && s.channel == [] && Live(s, id) && op in s.sent[id] && op in Spendable(s.utxos, s.reserved)
    requires forall i :: i in s.failed ==> i < |s.sent|
    ensures Enabled(s, Push({op})) && !Disjoint(Apply(s, Push({op})))
  {
    var t, n := Apply(s, Push({op})), |s.sent|;
    assert Live(t, id) && Live(t, n) && id != n;
    assert op in t.sent[id] * t.sent[n];
  }

  /**
   `RawApart` is needed: while a pending raw transaction shares an unspent coin with a live one, some
   way of going on selects that coin again.
   */
  lemma ApartIsNeeded(s: Desk, o: Outgoing, id: nat, op: OutPoint) returns (states: seq<Desk>, steps: seq<Step>)
    requires Inv(s) && s.holder.None? && |s.channel| <= CHANNEL_SIZE
    requires o in Pending(s) && o.Raw? && Live(s, id) && op in o.inputs && op in s.sent[id]
    requires op in s.utxos && s.utxos[op].spentBy.None?
    ensures IsRun(states, steps) && states[0] == s && !Disjoint(states[|steps|])
  {
    if s.sending == Some(o) {
      var a := Apply(s, Fail);
      if a.channel == [] {
        PushShared(a, id, op);
        states, steps := [s, a, Apply(a, Push({op}))], [Fail, Push({op})];
      } else {
        var b := Apply(a, Receive);
        PushShared(b, id, op);
        states, steps := [s, a, b, Apply(b, Push({op}))], [Fail, Receive, Push({op})];
      }
    } else {
      assert s.channel == [o];
      if s.sending.None? {
        states, steps := FromChannel(s, o, id, op);
      } else {
        var a := Apply(s, Succeed);
        var rest, more := FromChannel(a, o, id, op);
        states, steps := [s] + rest, [Succeed] + more;
      }
    }
  }

  lemma FromChannel(s: Desk, o: Outgoing, id: nat, op: OutPoint) returns (states: seq<Desk>, steps: seq<Step>)
    requires s.holder.None? && s.sending.None? && s.channel == [o] && forall i :: i in s.failed ==> i < |s.sent|
    requires o.Raw? && Live(s, id) && op in o.inputs && op in s.sent[id]
    requires op in s.utxos && s.utxos[op].spentBy.None?
    ensures IsRun(states, steps) && states[0] == s && !Disjoint(states[|steps|])
  {
    var a := Apply(s, Receive);
    var b := Apply(a, Fail);
    PushShared(b, id, op);
    states, steps := [s, a, b, Apply(b, Push({op}))], [Receive, Fail, Push({op})];
  }

  /** No double selection, from conditions that are checked when a transaction enters the channel. */
  lemma {:induction false} NoDoubleSelectionForCallers(states: seq<Desk>, steps: seq<Step>, i: nat)
    requires IsRun(states, steps) && Init(states[0]) && i < |states|
    requires forall k :: 0 <= k < i ==> KeepsApart(states[k], steps[k])
    ensures RawApart(states[i]) && Inv(states[i]) && Disjoint(states[i])
    ensures forall k :: 0 <= k < i ==> RawHarmless(states[k], steps[k])
  {
    if i > 0 {
      NoDoubleSelectionForCallers(states, steps, i - 1);
      var s, step := states[i - 1], steps[i - 1];
      KeepsApartExactly(s, step);
      assert step.Fail? ==> s.sending.value in Pending(s);
      NoDoubleSelection(states, steps, i);
    }
  }

  /** Under the wallet lock, looking at the reserved set is enough for the first of the two checks. */
  lemma UnreservedSuffices(s: Desk, inputs: set<OutPoint>)
    requires Inv(s) && s.holder.None? && inputs !! s.reserved
    ensures KeepsApart(s, PushRaw(inputs))
  {
  }

  function Busy(u: Utxos, reserved: set<OutPoint>, holder: Option<nat>, sent: seq<set<OutPoint>>,
                channel: seq<Outgoing>, sending: Option<Outgoing>): Desk {
    Desk(u, reserved, holder, sent, {}, channel, sending)
  }

  function At(i: nat, u: Utxos, own: set<OutPoint>): Desk {
    match i
    case 0 => Busy(u, {}, None, [], [], None)
    case 1 => Busy(u, {}, None, [], [Raw(own)], None)
    case 2 => Busy(u, {}, None, [], [], Some(Raw(own)))
    case 3 => Busy(u, {}, Some(0), [own], [Built(0)], Some(Raw(own)))
    case 4 => Busy(u, own, None, [own], [Built(0)], Some(Raw(own)))
    case 5 => Busy(u, {}, None, [own], [Built(0)], None)
    case 6 => Busy(u, {}, None, [own], [], Some(Built(0)))
    case _ => Busy(u, {}, Some(1), [own, own], [Built(1)], Some(Built(0)))
  }

  function By(i: nat, own: set<OutPoint>): Step {
    match i
    case 0 => PushRaw(own)
    case 1 => Receive
    case 2 => Push(own)
    case 3 => Reserve
    case 4 => Fail
    case 5 => Receive
    case _ => Push(own)
  }

  lemma Moves(i: nat, u: Utxos, own: set<OutPoint>)
    requires i < 7 && own <= Spendable(u, {})
    ensures Enabled(At(i, u, own), By(i, own)) && Apply(At(i, u, own), By(i, own)) == At(i + 1, u, own)
  {
  }

  /**
   For every spendable coin: a raw transaction spends it while it is unreserved; a send then selects
   and reserves it; the raw broadcast fails and releases it; a second send selects it again.
   */
  lemma DoubleSelectionRun(u: Utxos, op: OutPoint) returns (states: seq<Desk>, steps: seq<Step>)
    requires op in Spendable(u, {})
    ensures IsRun(states, steps) && Init(states[0]) && states[0].utxos == u && |steps| == 7
    ensures forall i :: 0 <= i < 7 && steps[i].PushRaw? ==> states[i].holder.None? && steps[i].inputs !! states[i].reserved
    ensures !Disjoint(states[7])
  {
    var own := {op};
    states := seq(8, i requires 0 <= i < 8 => At(i, u, own));
    steps := seq(7, i requires 0 <= i < 7 => By(i, own));
    forall i | 0 <= i < 7
      ensures Enabled(At(i, u, own), By(i, own)) && Apply(At(i, u, own), By(i, own)) == At(i + 1, u, own)
    {
      Moves(i, u, own);
    }
    assert Live(At(7, u, own), 0) && Live(At(7, u, own), 1);
    assert op in At(7, u, own).sent[0] * At(7, u, own).sent[1];
  }

  datatype SendError =
    | InvalidFeeRate
    | InvalidRecipient
    | NetworkMismatch
    | WatchOnly
    | NoSpendableCoins
    | DustAmount
    | InsufficientFunds
    | SigningFailed
    | BroadcastUnavailable

  /** A transaction in the channel, with its inputs in order. */
  datatype Parcel = BuiltTx(id: nat, inputs: seq<OutPoint>) | RawTx(inputs: seq<OutPoint>)

  function Label(p: Parcel): Outgoing {
    match p
    case BuiltTx(id, _) => Built(id)
    case RawTx(inputs) => Raw(Elems(inputs))
  }

  function Labels(parcels: seq<Parcel>): seq<Outgoing> {
    seq(|parcels|, i requires 0 <= i < |parcels| => Label(parcels[i]))
  }

  /** The wallet with its broadcast channel, each method one or two steps of the machine above. */
  class Office {
    const wallet: Wallet
    var channel: seq<Parcel>
    var sending: Option<Parcel>
    var sent: seq<set<OutPoint>>
    var failed: set<nat>

    ghost predicate Valid()
      reads this
    {
      && (forall p :: p in channel ==> Numbered(p))
      && (sending.Some? ==> Numbered(sending.value))
    }

    ghost predicate Numbered(p: Parcel)
      reads this
    {
      p.BuiltTx? ==> p.id < |sent| && sent[p.id] == Elems(p.inputs)
    }

    /** The machine's state between two calls, when nobody holds the wallet lock. */
    function View(): Desk
      reads this, wallet
    {
      Desk(wallet.utxos, wallet.reserved, None, sent, failed,
           Labels(channel),
           if sending.Some? then Some(Label(sending.value)) else None)
    }

    constructor (wallet: Wallet)
      requires wallet.reserved == {}
      ensures Valid() && this.wallet == wallet && Init(View())
    {
      this.wallet := wallet;
      channel, sending, sent, failed := [], None, [], {};
    }

    /**
     `refused` tells why the fee rates or the recipient are rejected, if they are. `build` is what
     building from the spendable coins gives: the inputs selected, or why there is no transaction.
     */
    method SendToAddress(refused: Option<SendError>, build: Result<seq<OutPoint>, SendError>)
      returns (r: Result<nat, SendError>)
      requires Valid() && (build.Ok? ==> Elems(build.value) <= Spendable(wallet.utxos, wallet.reserved))
      modifies this, wallet`reserved
      ensures Valid()
      ensures r.Ok? <==> && refused.None? && old(wallet.hasKeys && wallet.hasSpendSecret) && build.Ok?
                         && old(Spendable(wallet.utxos, wallet.reserved)) != {} && |old(channel)| < CHANNEL_SIZE
      ensures r.Err? ==> View() == old(View())
      ensures r.Ok? ==>
                var s, push := old(View()), Push(Elems(build.value));
                && Enabled(s, push) && Enabled(Apply(s, push), Reserve)
                && View() == Apply(Apply(s, push), Reserve) && r.value == |old(sent)|
    {
      if refused.Some? {
        return Err(refused.value);
      }
      if !wallet.hasKeys || !wallet.hasSpendSecret {
        return Err(WatchOnly);
      }
      if Spendable(wallet.utxos, wallet.reserved) == {} {
        return Err(NoSpendableCoins);
      }
      var selection :- build;
      if |channel| >= CHANNEL_SIZE {
        return Err(BroadcastUnavailable);
      }
      var id := |sent|;
      channel := channel + [BuiltTx(id, selection)];
      sent := sent + [Elems(selection)];
      wallet.ReserveCoins(selection);
      r := Ok(id);
    }

    /** `decoded` has the inputs of the transaction unless its bytes do not decode. */
    method BroadcastRawTx(decoded: Option<seq<OutPoint>>) returns (ok: bool)
      requires Valid()
      modifies this
      ensures Valid() && ok == (decoded.Some? && |old(channel)| < CHANNEL_SIZE)
      ensures if !ok then View() == old(View())
              else var push := PushRaw(Elems(decoded.value)); Enabled(old(View()), push) && View() == Apply(old(View()), push)
    {
      ok := decoded.Some? && |channel| < CHANNEL_SIZE;
      if ok {
        channel := channel + [RawTx(decoded.value)];
      }
    }

    method ReceiveNext()
      requires Valid() && sending.None? && channel != []
      modifies this
      ensures Valid() && Enabled(old(View()), Receive) && View() == Apply(old(View()), Receive)
    {
      assert Labels(channel[1..]) == Labels(channel)[1..];
      assert channel[0] in channel && forall p :: p in channel[1..] ==> p in channel && Numbered(p);
      sending := Some(channel[0]);
      channel := channel[1..];
    }

    method FinishBroadcast(delivered: bool)
      requires Valid() && sending.Some?
      modifies this, wallet`reserved
      ensures Valid()
      ensures var step := if delivered then Succeed else Fail;
              Enabled(old(View()), step) && View() == Apply(old(View()), step)
      ensures !delivered ==> wallet.reserved == old(wallet.reserved) - Elems(old(sending).value.inputs)
    {
      if !delivered {
        wallet.ReleaseCoins(sending.value.inputs);
        if sending.value.BuiltTx? {
          failed := failed + {sending.value.id};
        }
      }
      sending := None;
    }
  }
}
