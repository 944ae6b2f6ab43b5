/**
 The streaming upload loop of handleSend in web/public/js/zmodem-sentry.js: send the file in subpackets, rewind when the
 receiver asks for it (ZRPOS), within a budget, and finish when it acknowledges the end of the file (ZRINIT after ZEOF).
 */
module ResendLoop {
  import opened Bytes

  const SUBPACKET_1K := 1024
  const SUBPACKET_8K := 8192
  const MAX_REWINDS := 3

  function ChooseBlockSize(configured: int): (n: nat)
    ensures n in {SUBPACKET_1K, SUBPACKET_8K}
    ensures n == SUBPACKET_8K <==> configured == SUBPACKET_8K
  {
    if configured == SUBPACKET_1K || configured == SUBPACKET_8K then configured else SUBPACKET_1K
  }

  /** What the sender puts on the line: a ZDATA header with its offset, a data subpacket, a ZEOF header. */
  datatype Frame = Zdata(offset: nat) | Data(payload: seq<byte>) | Zeof(offset: nat)

  /** The file offset at which the next subpacket on the line stands: as last announced, plus what was sent since. */
  function Position(wire: seq<Frame>): nat {
    if wire == [] then 0
    else match Last(wire)
      case Zdata(o) => o
      case Data(p) => Position(Front(wire)) + |p|
      case Zeof(_) => Position(Front(wire))
  }

  /** A frame that says the truth about the file, coming at position `pos`. */
  predicate TruthfulAt(file: seq<byte>, pos: nat, f: Frame) {
    match f
    case Zdata(_) => true
    case Data(p) => p == [] || (pos + |p| <= |file| && p == file[pos..pos + |p|])
    case Zeof(o) => o == pos && o >= |file|
  }

  /** Every subpacket is the file's own content at its announced offset, and every ZEOF stands at or past the end. */
  predicate Truthful(file: seq<byte>, wire: seq<Frame>) {
    wire == [] || (Truthful(file, Front(wire)) && TruthfulAt(file, Position(Front(wire)), Last(wire)))
  }

  function Volume(wire: seq<Frame>): nat {
    if wire == [] then 0 else Volume(Front(wire)) + if Last(wire).Data? then |Last(wire).payload| else 0
  }

  lemma Append(file: seq<byte>, wire: seq<Frame>, f: Frame)
    ensures Truthful(file, wire + [f]) <==> Truthful(file, wire) && TruthfulAt(file, Position(wire), f)
    ensures Volume(wire + [f]) == Volume(wire) + if f.Data? then |f.payload| else 0
    ensures Position(wire + [f]) ==
            match f { case Zdata(o) => o case Data(p) => Position(wire) + |p| case Zeof(_) => Position(wire) }
  {
    assert Front(wire + [f]) == wire;
  }

  // ---------- the receiver ----------

  /** What the receiver has, whether it takes the next subpacket for a continuation, and whether it saw the file end. */
  datatype Receiver = Receiver(got: seq<byte>, inSync: bool, complete: bool)

  /**
   The receiver after hearing `wire`, of which frame k arrived intact or not. It keeps a prefix: a subpacket is taken
   only in step, and once out of step it ignores data until a ZDATA announces the offset it has reached.
   */
  function Hears(wire: seq<Frame>, intact: seq<bool>): Receiver
    requires |wire| == |intact|
  {
    if wire == [] then Receiver([], false, false)
    else
      var r := Hears(Front(wire), Front(intact));
      if Last(intact) then HearsOne(r, Last(wire)) else r.(inSync := false)
  }

  function HearsOne(r: Receiver, f: Frame): Receiver {
    match f
    case Zdata(o) => r.(inSync := o == |r.got|)
    case Data(p) => if r.inSync then r.(got := r.got + p) else r
    case Zeof(o) => r.(complete := r.complete || o == |r.got|)
  }

  /**
   From a truthful sender, through any losses, the receiver only ever holds a prefix, and the whole file when complete.
   */
  lemma {:induction false} HoldsPrefix(file: seq<byte>, wire: seq<Frame>, intact: seq<bool>)
    requires |wire| == |intact| && Truthful(file, wire)
    ensures var r := Hears(wire, intact);
            && r.got <= file
            && (r.inSync ==> |r.got| == Position(wire))
            && (r.complete ==> r.got == file)
  {
    if wire == [] {
    } else {
      HoldsPrefix(file, Front(wire), Front(intact));
    }
  }

  lemma {:induction false} TruthfulPrefix(file: seq<byte>, wire: seq<Frame>, n: nat)
    requires n <= |wire| && Truthful(file, wire)
    ensures Truthful(file, wire[..n])
  {
    if n == |wire| {
      assert wire[..n] == wire;
    } else {
      assert Front(wire)[..n] == wire[..n];
      TruthfulPrefix(file, Front(wire), n);
    }
  }

  function AllIntact(n: nat): (r: seq<bool>)
    ensures |r| == n && forall k :: 0 <= k < n ==> r[k]
  {
    seq(n, _ => true)
  }

  lemma {:induction false} StaysInStep(wire: seq<Frame>, intact: seq<bool>, pass: seq<Frame>)
    requires |wire| == |intact| && Hears(wire, intact).inSync
    requires forall f :: f in pass ==> f.Data?
    ensures Hears(wire + pass, intact + AllIntact(|pass|)).inSync
  {
    var w, i := wire + pass, intact + AllIntact(|pass|);
    if pass == [] {
      assert w == wire && i == intact;
    } else {
      assert Front(w) == wire + Front(pass) && Front(i) == intact + AllIntact(|pass| - 1);
      assert Last(w) == Last(pass) && Last(pass) in pass && Last(i);
      StaysInStep(wire, intact, Front(pass));
    }
  }

  /**
   Rewinding repairs. Whatever was lost before, if the sender resumes at the offset the receiver has reached and that
   one pass to the end of the file arrives intact, the receiver has the whole file.
   */
  lemma ResumedPassDelivers(file: seq<byte>, wire: seq<Frame>, intact: seq<bool>, pass: seq<Frame>, end: nat)
    requires |wire| == |intact| && (forall f :: f in pass ==> f.Data?)
    requires Truthful(file, wire + [Zdata(|Hears(wire, intact).got|)] + pass + [Zeof(end)])
    ensures var all := wire + [Zdata(|Hears(wire, intact).got|)] + pass + [Zeof(end)];
            var r := Hears(all, intact + AllIntact(|pass| + 2));
            r.complete && r.got == file
  {
    var w1, i1 := wire + [Zdata(|Hears(wire, intact).got|)], intact + [true];
    assert Front(w1) == wire && Front(i1) == intact;
    StaysInStep(w1, i1, pass);
    var w2, i2 := w1 + pass, i1 + AllIntact(|pass|);
    var w3, i3 := w2 + [Zeof(end)], intact + AllIntact(|pass| + 2);
    assert Front(w3) == w2 && Front(i3) == i2;
    HoldsPrefix(file, w2, i2);
    HoldsPrefix(file, w3, i3);
  }

  // ---------- what is sent ----------

  /** Every subpacket from index `from` on is at most n octets. */
  predicate SmallFrom(wire: seq<Frame>, from: nat, n: nat) {
    forall k :: from <= k < |wire| && wire[k].Data? ==> |wire[k].payload| <= n
  }

  /** Subpackets are as large as allowed: 8 KiB at most, and 1 KiB from the first rewind on. */
  predicate Sized(wire: seq<Frame>, chunk: nat, rewinds: nat, firstRewind: nat) {
    && chunk in {SUBPACKET_1K, SUBPACKET_8K}
    && SmallFrom(wire, 0, SUBPACKET_8K)
    && (rewinds > 0 ==> chunk == SUBPACKET_1K && SmallFrom(wire, firstRewind, SUBPACKET_1K))
  }

  lemma SizedGrows(wire: seq<Frame>, more: seq<Frame>, chunk: nat, rewinds: nat, firstRewind: nat)
    requires Sized(wire, chunk, rewinds, firstRewind) && SmallFrom(more, 0, chunk)
    ensures Sized(wire + more, chunk, rewinds, firstRewind)
  {
    var all := wire + more;
    forall k | |wire| <= k < |all| && all[k].Data?
      ensures |all[k].payload| <= chunk
    {
      assert all[k] == more[k - |wire|];
    }
  }

  /** The size of a full subpacket at place k of the wire: as chosen at first, 1 KiB from the first rewind on. */
  function BlockAt(block: nat, rewinds: nat, firstRewind: nat, k: nat): nat {
    if rewinds > 0 && k >= firstRewind then SUBPACKET_1K else block
  }

  /** Every subpacket that is not empty is a full one, or shorter and the last of the file. */
  predicate Blocks(file: seq<byte>, wire: seq<Frame>, block: nat, rewinds: nat, firstRewind: nat) {
    wire == [] ||
    var n := BlockAt(block, rewinds, firstRewind, |wire| - 1);
    && Blocks(file, Front(wire), block, rewinds, firstRewind)
    && (Last(wire).Data? && Last(wire).payload != [] ==>
          var p := Last(wire).payload;
          |p| == n || (|p| < n && Position(Front(wire)) + |p| == |file|))
  }

  lemma {:induction false} BlocksTurn(file: seq<byte>, wire: seq<Frame>, block: nat, rewinds: nat, first: nat)
    requires Blocks(file, wire, block, rewinds, first) && (rewinds == 0 || first <= |wire|)
    ensures Blocks(file, wire, block, rewinds + 1, if rewinds == 0 then |wire| else first)
  {
    if rewinds == 0 {
      BlocksBefore(file, wire, block, |wire|, first);
    } else {
      BlocksSame(file, wire, block, rewinds, first);
    }
  }

  lemma {:induction false} BlocksBefore(file: seq<byte>, wire: seq<Frame>, block: nat, first: nat, any: nat)
    requires Blocks(file, wire, block, 0, any) && |wire| <= first
    ensures Blocks(file, wire, block, 1, first)
  {
    if wire == [] {
    } else {
      BlocksBefore(file, Front(wire), block, first, any);
    }
  }

  lemma {:induction false} BlocksSame(file: seq<byte>, wire: seq<Frame>, block: nat, rewinds: nat, first: nat)
    requires Blocks(file, wire, block, rewinds, first) && rewinds > 0
    ensures Blocks(file, wire, block, rewinds + 1, first)
  {
    if wire == [] {
    } else {
      BlocksSame(file, Front(wire), block, rewinds, first);
    }
  }

  lemma BlocksOne(file: seq<byte>, wire: seq<Frame>, f: Frame, block: nat, rewinds: nat, first: nat)
    requires Blocks(file, wire, block, rewinds, first)
    requires f.Data? && f.payload != [] ==>
               var n := BlockAt(block, rewinds, first, |wire|);
               |f.payload| == n || (|f.payload| < n && Position(wire) + |f.payload| == |file|)
    ensures Blocks(file, wire + [f], block, rewinds, first)
  {
    assert Front(wire + [f]) == wire && Last(wire + [f]) == f;
  }

  /** A subpacket as _send_file_part sends it, behind a ZDATA if one is due. */
  function Part(announced: bool, offset: nat, payload: seq<byte>): seq<Frame> {
    (if announced then [] else [Zdata(offset)]) + [Data(payload)]
  }

  lemma PartSplits(wire: seq<Frame>, announced: bool, offset: nat, payload: seq<byte>)
    ensures wire + Part(announced, offset, payload) ==
            (if announced then wire else wire + [Zdata(offset)]) + [Data(payload)]
    ensures |Part(announced, offset, payload)| == if announced then 1 else 2
  {
  }

  lemma PartSmall(announced: bool, offset: nat, payload: seq<byte>, chunk: nat)
    requires |payload| <= chunk
    ensures SmallFrom(Part(announced, offset, payload), 0, chunk)
    ensures SmallFrom(Part(announced, offset, payload) + [Zeof(offset)], 0, chunk)
  {
  }

  function Times(n: nat, size: nat): nat {
    if n == 0 then 0 else Times(n - 1, size) + size
  }

  lemma TimesBound(n: nat, size: nat)
    requires n <= MAX_REWINDS
    ensures Times(n, size) <= MAX_REWINDS * size
    ensures n <= 1 ==> Times(n, size) <= size
  {
    assert Times(1, size) == size;
    assert Times(2, size) == Times(1, size) + size;
    assert Times(3, size) == Times(2, size) + size;
  }

  function Larger(a: nat, b: nat): nat {
    if b > a then b else a
  }

  function Budget(accepted: nat): nat {
    if accepted > 0 then MAX_REWINDS else 1
  }

  /** How far into the file a pass has got that is at `off`. */
  function Reached(off: nat, size: nat): nat {
    if off < size then off else size
  }

  /** The furthest of the offsets that the receiver has asked for. */
  function Furthest(targets: seq<nat>): nat {
    if targets == [] then 0 else Larger(Furthest(Front(targets)), Last(targets))
  }

  lemma {:induction false} FurthestNowhere(targets: seq<nat>)
    ensures Furthest(targets) == 0 <==> forall k :: 0 <= k < |targets| ==> targets[k] == 0
  {
    if targets == [] {
    } else {
      FurthestNowhere(Front(targets));
      assert forall k :: 0 <= k < |targets| - 1 ==> targets[k] == Front(targets)[k];
    }
  }

  /** Too many rewinds: four of them, or two that both go back to the start. */
  predicate TooMany(targets: seq<nat>) {
    |targets| == 4 || (|targets| == 2 && targets[0] == 0 && targets[1] == 0)
  }

  /** The budget in the terms of what was asked for. */
  lemma BudgetMeans(targets: seq<nat>, target: nat)
    requires |targets| <= Budget(Furthest(targets))
    ensures var all := targets + [target];
            && Furthest(all) == Larger(Furthest(targets), target)
            && (|targets| >= Budget(Furthest(all)) <==> TooMany(all))
  {
    var all := targets + [target];
    assert Front(all) == targets;
    FurthestNowhere(all);
  }

  /** The sender keeps to the truth, to its sizes and to its budget. */
  ghost predicate Honest(file: seq<byte>, wire: seq<Frame>, chunk: nat, off: nat, rewinds: nat, accepted: nat,
                         firstRewind: nat)
  {
    && Truthful(file, wire)
    && rewinds <= Budget(accepted)
    && Sized(wire, chunk, rewinds, firstRewind)
    && Volume(wire) <= Times(rewinds, |file|) + Reached(off, |file|)
  }

  /** What holds however the upload ends. */
  ghost predicate BoundedAt(file: seq<byte>, wire: seq<Frame>, targets: seq<nat>, firstRewind: nat) {
    && Truthful(file, wire)
    && Volume(wire) <= 4 * |file|
    && ((forall k :: 0 <= k < |targets| ==> targets[k] == 0) ==> Volume(wire) <= 2 * |file|)
    && SmallFrom(wire, 0, SUBPACKET_8K) && (targets != [] ==> SmallFrom(wire, firstRewind, SUBPACKET_1K))
  }

  lemma HonestBounded(file: seq<byte>, wire: seq<Frame>, chunk: nat, off: nat, targets: seq<nat>, firstRewind: nat)
    requires Honest(file, wire, chunk, off, |targets|, Furthest(targets), firstRewind)
    ensures BoundedAt(file, wire, targets, firstRewind)
  {
    TimesBound(|targets|, |file|);
    FurthestNowhere(targets);
  }

  lemma OneTooMany(file: seq<byte>, wire: seq<Frame>, targets: seq<nat>, target: nat, firstRewind: nat)
    requires BoundedAt(file, wire, targets, firstRewind) && targets != []
    ensures BoundedAt(file, wire, targets + [target], firstRewind)
  {
    var all := targets + [target];
    assert forall k :: 0 <= k < |targets| ==> targets[k] == all[k];
  }

  lemma MoreHonest(file: seq<byte>, wire: seq<Frame>, more: seq<Frame>, chunk: nat, off: nat, end: nat, rewinds: nat,
                   accepted: nat, firstRewind: nat)
    requires Honest(file, wire, chunk, off, rewinds, accepted, firstRewind)
    requires SmallFrom(more, 0, chunk) && Truthful(file, wire + more)
    requires Volume(wire + more) == Volume(wire) + Reached(end, |file|) - Reached(off, |file|)
    ensures Honest(file, wire + more, chunk, end, rewinds, accepted, firstRewind)
  {
    SizedGrows(wire, more, chunk, rewinds, firstRewind);
  }

  /** A subpacket of the file, sent from where the library believes it is. */
  lemma PartOut(file: seq<byte>, wire: seq<Frame>, announced: bool, offset: nat, payload: seq<byte>)
    requires Truthful(file, wire) && (announced ==> Position(wire) == offset)
    requires TruthfulAt(file, offset, Data(payload))
    ensures var after := wire + Part(announced, offset, payload);
            && Truthful(file, after) && Position(after) == offset + |payload|
            && Volume(after) == Volume(wire) + |payload|
  {
    if announced {
      assert [] + [Data(payload)] == [Data(payload)];
      Append(file, wire, Data(payload));
    } else {
      Append(file, wire, Zdata(offset));
      Append(file, wire + [Zdata(offset)], Data(payload));
      Associative(wire, [Zdata(offset)], [Data(payload)]);
    }
  }

  lemma ZeofOut(file: seq<byte>, wire: seq<Frame>, announced: bool, offset: nat)
    requires Truthful(file, wire) && (announced ==> Position(wire) == offset) && offset >= |file|
    ensures var after := wire + Part(announced, offset, []) + [Zeof(offset)];
            Truthful(file, after) && Volume(after) == Volume(wire)
  {
    PartOut(file, wire, announced, offset, []);
    Append(file, wire + Part(announced, offset, []), Zeof(offset));
  }

  /** One subpacket of the data phase keeps the sender honest. */
  lemma ChunkHonest(file: seq<byte>, wire: seq<Frame>, chunk: nat, off: nat, end: nat, rewinds: nat, accepted: nat,
                    firstRewind: nat, announced: bool)
    requires Honest(file, wire, chunk, off, rewinds, accepted, firstRewind)
    requires (announced ==> Position(wire) == off) && off < end <= |file| && end <= off + chunk
    ensures var after := wire + Part(announced, off, file[off..end]);
            Honest(file, after, chunk, end, rewinds, accepted, firstRewind) && Position(after) == end
  {
    var slice := file[off..end];
    PartSmall(announced, off, slice, chunk);
    PartOut(file, wire, announced, off, slice);
    MoreHonest(file, wire, Part(announced, off, slice), chunk, off, end, rewinds, accepted, firstRewind);
  }

  /** So does the end of the file. */
  lemma ZeofHonest(file: seq<byte>, wire: seq<Frame>, chunk: nat, off: nat, rewinds: nat, accepted: nat,
                   firstRewind: nat, announced: bool)
    requires Honest(file, wire, chunk, off, rewinds, accepted, firstRewind)
    requires (announced ==> Position(wire) == off) && off >= |file|
    ensures Honest(file, wire + Part(announced, off, []) + [Zeof(off)], chunk, off, rewinds, accepted, firstRewind)
  {
    var part := Part(announced, off, []);
    PartSmall(announced, off, [], chunk);
    ZeofOut(file, wire, announced, off);
    Associative(wire, part, [Zeof(off)]);
    MoreHonest(file, wire, part + [Zeof(off)], chunk, off, off, rewinds, accepted, firstRewind);
  }

  lemma RewindHonest(file: seq<byte>, wire: seq<Frame>, chunk: nat, off: nat, rewinds: nat, accepted: nat,
                     firstRewind: nat, target: nat)
    requires Honest(file, wire, chunk, off, rewinds, accepted, firstRewind)
    requires rewinds < Budget(Larger(accepted, target))
    ensures Honest(file, wire, SUBPACKET_1K, target, rewinds + 1, Larger(accepted, target),
                   if rewinds == 0 then |wire| else firstRewind)
  {
    assert Times(rewinds + 1, |file|) == Times(rewinds, |file|) + |file|;
  }

  lemma PartPacked(file: seq<byte>, wire: seq<Frame>, block: nat, rewinds: nat, first: nat, announced: bool, off: nat,
                   payload: seq<byte>)
    requires Blocks(file, wire, block, rewinds, first) && first <= |wire| && (announced ==> Position(wire) == off)
    requires payload != [] ==>
               var n := BlockAt(block, rewinds, first, |wire|);
               |payload| == n || (|payload| < n && off + |payload| == |file|)
    ensures Blocks(file, wire + Part(announced, off, payload), block, rewinds, first)
  {
    PartSplits(wire, announced, off, payload);
    if announced {
      BlocksOne(file, wire, Data(payload), block, rewinds, first);
    } else {
      BlocksOne(file, wire, Zdata(off), block, rewinds, first);
      Append(file, wire, Zdata(off));
      BlocksOne(file, wire + [Zdata(off)], Data(payload), block, rewinds, first);
    }
  }

  lemma ZeofPacked(file: seq<byte>, wire: seq<Frame>, block: nat, rewinds: nat, first: nat, announced: bool, off: nat)
    requires Blocks(file, wire, block, rewinds, first) && first <= |wire| && (announced ==> Position(wire) == off)
    ensures Blocks(file, wire + Part(announced, off, []) + [Zeof(off)], block, rewinds, first)
  {
    PartPacked(file, wire, block, rewinds, first, announced, off, []);
    BlocksOne(file, wire + Part(announced, off, []), Zeof(off), block, rewinds, first);
  }

  function FirstAt(targets: seq<nat>, firstRewind: nat, now: nat): nat {
    if targets == [] then now else firstRewind
  }

  /** One rewind more: the books stay good if the budget allows it, and bounded in any case. */
  lemma OneRewind(file: seq<byte>, wire: seq<Frame>, chunk: nat, off: nat, targets: seq<nat>, block: nat,
                  firstRewind: nat, target: nat)
    requires Honest(file, wire, chunk, off, |targets|, Furthest(targets), firstRewind)
    requires Blocks(file, wire, block, |targets|, firstRewind) && firstRewind <= |wire|
    ensures var all, first := targets + [target], FirstAt(targets, firstRewind, |wire|);
            && Furthest(all) == Larger(Furthest(targets), target)
            && (|targets| >= Budget(Furthest(all)) <==> TooMany(all))
            && Blocks(file, wire, block, |all|, first)
            && (if TooMany(all) then BoundedAt(file, wire, all, first)
                else Honest(file, wire, SUBPACKET_1K, target, |all|, Furthest(all), first))
  {
    BudgetMeans(targets, target);
    BlocksTurn(file, wire, block, |targets|, firstRewind);
    if TooMany(targets + [target]) {
      HonestBounded(file, wire, chunk, off, targets, firstRewind);
      OneTooMany(file, wire, targets, target, firstRewind);
    } else {
      RewindHonest(file, wire, chunk, off, |targets|, Furthest(targets), firstRewind, target);
    }
  }

  // ---------- a pass ----------

  /** The receiver once all of the wire has come through a line on which frame k arrives intact or not. */
  function LineHears(line: nat -> bool, wire: seq<Frame>): Receiver {
    if wire == [] then Receiver([], false, false)
    else
      var r := LineHears(line, Front(wire));
      if line(|wire| - 1) then HearsOne(r, Last(wire)) else r.(inSync := false)
  }

  lemma {:induction false} LineIsHears(line: nat -> bool, wire: seq<Frame>, heard: seq<bool>)
    requires |heard| == |wire| && forall k :: 0 <= k < |heard| ==> heard[k] == line(k)
    ensures LineHears(line, wire) == Hears(wire, heard)
  {
    if wire == [] {
    } else {
      LineIsHears(line, Front(wire), Front(heard));
    }
  }

  lemma LineOne(line: nat -> bool, wire: seq<Frame>, f: Frame)
    requires line(|wire|)
    ensures LineHears(line, wire + [f]) == HearsOne(LineHears(line, wire), f)
  {
    assert Front(wire + [f]) == wire;
  }

  /** From frame `start` on all arrives, and the receiver was at `target` then. */
  ghost predicate PassIntact(line: nat -> bool, wire: seq<Frame>, start: nat, target: nat) {
    && start <= |wire| && |LineHears(line, wire[..start]).got| == target
    && forall k :: start <= k < |wire| ==> line(k)
  }

  lemma PassPrefix(line: nat -> bool, wire: seq<Frame>, more: seq<Frame>, start: nat, target: nat)
    requires PassIntact(line, wire + more, start, target) && start <= |wire|
    ensures PassIntact(line, wire, start, target)
    ensures forall k :: |wire| <= k < |wire| + |more| ==> line(k)
  {
    assert (wire + more)[..start] == wire[..start];
  }

  /** If this pass has come through intact so far, it has brought the receiver to `off`. */
  ghost predicate Tracking(file: seq<byte>, line: nat -> bool, wire: seq<Frame>, start: nat, target: nat, off: nat,
                           announced: bool)
  {
    && start <= |wire|
    && (PassIntact(line, wire, start, target) ==>
          var r := LineHears(line, wire);
          off <= |file| && r.got == file[..off] && (announced ==> r.inSync))
  }

  lemma DataTaken(file: seq<byte>, r: Receiver, off: nat, end: nat)
    requires off <= end <= |file| && r.got == file[..off] && r.inSync
    ensures var r' := HearsOne(r, Data(file[off..end])); r'.got == file[..end] && r'.inSync
  {
    assert file[..off] + file[off..end] == file[..end];
  }

  lemma PartHeard(file: seq<byte>, line: nat -> bool, wire: seq<Frame>, announced: bool, off: nat, end: nat)
    requires off <= end <= |file| && LineHears(line, wire).got == file[..off]
    requires announced ==> LineHears(line, wire).inSync
    requires line(|wire|) && (!announced ==> line(|wire| + 1))
    ensures var r := LineHears(line, wire + Part(announced, off, file[off..end]));
            r.got == file[..end] && r.inSync
  {
    PartSplits(wire, announced, off, file[off..end]);
    var slice, r := file[off..end], LineHears(line, wire);
    if announced {
      LineOne(line, wire, Data(slice));
      DataTaken(file, r, off, end);
    } else {
      LineOne(line, wire, Zdata(off));
      LineOne(line, wire + [Zdata(off)], Data(slice));
      DataTaken(file, HearsOne(r, Zdata(off)), off, end);
    }
  }

  lemma TrackPart(file: seq<byte>, line: nat -> bool, wire: seq<Frame>, start: nat, target: nat, announced: bool,
                  off: nat, end: nat)
    requires off <= end <= |file| && Tracking(file, line, wire, start, target, off, announced)
    ensures Tracking(file, line, wire + Part(announced, off, file[off..end]), start, target, end, true)
  {
    var part := Part(announced, off, file[off..end]);
    if PassIntact(line, wire + part, start, target) {
      PassPrefix(line, wire, part, start, target);
      PartSplits(wire, announced, off, file[off..end]);
      PartHeard(file, line, wire, announced, off, end);
    }
  }

  /** A pass that comes through intact to its ZEOF completes the file. */
  lemma TrackZeof(file: seq<byte>, line: nat -> bool, wire: seq<Frame>, start: nat, target: nat, announced: bool,
                  off: nat)
    requires off >= |file| && Tracking(file, line, wire, start, target, off, announced)
    ensures var all := wire + Part(announced, off, []) + [Zeof(off)];
            PassIntact(line, all, start, target) ==> LineHears(line, all).complete
  {
    var part := Part(announced, off, []);
    var all := wire + part + [Zeof(off)];
    if PassIntact(line, all, start, target) {
      PassPrefix(line, wire + part, [Zeof(off)], start, target);
      assert line(|wire + part|);
      PassPrefix(line, wire, part, start, target);
      PartSplits(wire, announced, off, []);
      assert file[off..off] == [];
      PartHeard(file, line, wire, announced, off, off);
      LineOne(line, wire + part, Zeof(off));
    }
  }

  /** A rewind starts a pass anew, from wherever the receiver says it is. */
  lemma TrackRewind(file: seq<byte>, line: nat -> bool, wire: seq<Frame>, target: nat)
    requires Truthful(file, wire)
    ensures Tracking(file, line, wire, |wire|, target, target, false)
  {
    var heard := seq(|wire|, k requires 0 <= k < |wire| => line(k));
    LineIsHears(line, wire, heard);
    HoldsPrefix(file, wire, heard);
    assert wire[..|wire|] == wire;
  }

  // ---------- the sender's books ----------

  /** Where the last rewind went, and with it the pass under way. */
  function Target(targets: seq<nat>): nat {
    if targets == [] then 0 else Last(targets)
  }

  /** What holds of the wire, wherever the sender is in its loop. */
  ghost predicate Books(file: seq<byte>, wire: seq<Frame>, block: nat, chunk: nat, off: nat, targets: seq<nat>,
                        first: nat)
  {
    && Honest(file, wire, chunk, off, |targets|, Furthest(targets), first)
    && first <= |wire| && chunk == BlockAt(block, |targets|, first, |wire|)
    && Blocks(file, wire, block, |targets|, first)
  }

  /** And in the course of a pass. */
  ghost predicate PassBooks(file: seq<byte>, line: nat -> bool, wire: seq<Frame>, block: nat, chunk: nat, off: nat,
                            targets: seq<nat>, first: nat, start: nat, announced: bool)
  {
    && Books(file, wire, block, chunk, off, targets, first)
    && Tracking(file, line, wire, start, Target(targets), off, announced)
    && (announced ==> Position(wire) == off)
  }

  lemma ChunkStep(file: seq<byte>, line: nat -> bool, wire: seq<Frame>, block: nat, chunk: nat, off: nat,
                  targets: seq<nat>, first: nat, start: nat, announced: bool, end: nat)
    requires PassBooks(file, line, wire, block, chunk, off, targets, first, start, announced)
    requires off < |file| && end == if off + chunk < |file| then off + chunk else |file|
    ensures off < end <= |file|
    ensures PassBooks(file, line, wire + Part(announced, off, file[off..end]), block, chunk, end, targets, first, start,
                      true)
  {
    PartSplits(wire, announced, off, file[off..end]);
    ChunkHonest(file, wire, chunk, off, end, |targets|, Furthest(targets), first, announced);
    PartPacked(file, wire, block, |targets|, first, announced, off, file[off..end]);
    TrackPart(file, line, wire, start, Target(targets), announced, off, end);
  }

  lemma ZeofStep(file: seq<byte>, line: nat -> bool, wire: seq<Frame>, block: nat, chunk: nat, off: nat,
                 targets: seq<nat>, first: nat, start: nat, announced: bool)
    requires PassBooks(file, line, wire, block, chunk, off, targets, first, start, announced) && off >= |file|
    ensures var all := wire + Part(announced, off, []) + [Zeof(off)];
            && Books(file, all, block, chunk, off, targets, first)
            && (PassIntact(line, all, start, Target(targets)) ==> LineHears(line, all).complete)
  {
    PartSplits(wire, announced, off, []);
    ZeofHonest(file, wire, chunk, off, |targets|, Furthest(targets), first, announced);
    ZeofPacked(file, wire, block, |targets|, first, announced, off);
    TrackZeof(file, line, wire, start, Target(targets), announced, off);
  }

  lemma RewindStep(file: seq<byte>, line: nat -> bool, wire: seq<Frame>, block: nat, chunk: nat, off: nat,
                   targets: seq<nat>, first: nat, target: nat)
    requires Books(file, wire, block, chunk, off, targets, first)
    ensures var all, first' := targets + [target], FirstAt(targets, first, |wire|);
            && Furthest(all) == Larger(Furthest(targets), target)
            && (|targets| >= Budget(Furthest(all)) <==> TooMany(all))
            && (if TooMany(all) then
                  BoundedAt(file, wire, all, first') && Blocks(file, wire, block, |all|, first')
                else
                  PassBooks(file, line, wire, block, SUBPACKET_1K, target, all, first', |wire|, false))
  {
    OneRewind(file, wire, chunk, off, targets, block, first, target);
    TrackRewind(file, line, wire, target);
  }

  lemma BooksBounded(file: seq<byte>, wire: seq<Frame>, block: nat, chunk: nat, off: nat, targets: seq<nat>, first: nat)
    requires Books(file, wire, block, chunk, off, targets, first)
    ensures BoundedAt(file, wire, targets, first) && Blocks(file, wire, block, |targets|, first) && Truthful(file, wire)
    ensures targets == [] ==> Volume(wire) <= |file|
  {
    HonestBounded(file, wire, chunk, off, targets, first);
  }

  /** The receiver has no more than was sent. */
  lemma {:induction false} GotWithinVolume(wire: seq<Frame>, intact: seq<bool>)
    requires |wire| == |intact|
    ensures |Hears(wire, intact).got| <= Volume(wire)
  {
    if wire == [] {
    } else {
      GotWithinVolume(Front(wire), Front(intact));
    }
  }

  lemma {:induction false} VolumePrefix(wire: seq<Frame>, n: nat)
    requires n <= |wire|
    ensures Volume(wire[..n]) <= Volume(wire)
  {
    if n == |wire| {
      assert wire[..n] == wire;
    } else {
      assert Front(wire)[..n] == wire[..n];
      VolumePrefix(Front(wire), n);
    }
  }

  // ---------- the sender ----------

  datatype Rewind = NoRewind | ResumeAt(offset: nat) | Abandon

  /** What happens while the sender waits: all but `lag` frames are heard, and a ZRPOS or a stray ZRINIT may come in. */
  datatype Happening = Happening(lag: nat, asked: Option<nat>, reannounced: bool)

  /** What the receiver says to a ZEOF: ZRINIT, having heard all but `lag` frames; ZRPOS; or nothing in time. */
  datatype Reply = Accepts(lag: nat) | AsksFor(offset: nat) | Silent

  /** What becomes of it for the sender. */
  datatype Answer = Acknowledged | RewindAsked | TimedOut

  /** The receiver has announced itself anew; it has asked for one rewind too many; it did not answer the ZEOF. */
  datatype Failure = Reannounced | BudgetSpent | Unanswered

  datatype Outcome = Done | Failed(why: Failure)

  class Upload {
    const file: seq<byte>
    // the line and the far end: whether frame k arrives intact, what the k-th wait brings, the reply to the k-th ZEOF
    const line: nat -> bool
    const far: nat -> Happening
    const replies: nat -> Reply
    var chunk: nat
    var off: nat
    var rewinds: nat
    var accepted: nat
    var rewindOffset: Option<nat>
    var gaveUp: bool
    // zmodem.js's own idea of where it is
    var fileOffset: nat
    var sentZdata: bool
    var wire: seq<Frame>
    // how the frames the receiver has heard so far fared; the rest are still on their way
    var heard: seq<bool>
    var waits: nat
    var zeofs: nat
    const block: nat             // the subpacket size chosen at first
    ghost var targets: seq<nat>  // where each rewind taken up so far went
    ghost var firstRewind: nat   // the length of `wire` at the first of them
    ghost var stray: nat         // the wait in which a ZRINIT came astray, if one did
    ghost var passStart: nat     // and at the last of them, where the pass under way began

    ghost predicate Sound()
      reads this
    {
      Hearing() && Counting() && Books(file, wire, block, chunk, off, targets, firstRewind)
    }

    ghost predicate Bounded()
      reads this
    {
      && Hearing() && |targets| == rewinds && BoundedAt(file, wire, targets, firstRewind)
      && Blocks(file, wire, block, rewinds, firstRewind)
    }

    /** The counters are what has been asked for, and by whom. */
    ghost predicate Counting()
      reads this
    {
      |targets| == rewinds && accepted == Furthest(targets) && (gaveUp ==> stray < waits && far(stray).reannounced)
    }

    /** All of the wire has been heard, and its last pass, begun where the receiver was, has come through intact. */
    ghost predicate LastPassIntact()
      reads this
    {
      |heard| == |wire| && PassIntact(line, wire, passStart, Target(targets))
    }

    /** The receiver has heard a beginning of what was sent, as the line let it through. */
    ghost predicate Hearing()
      reads this
    {
      |heard| <= |wire| && forall k :: 0 <= k < |heard| ==> heard[k] == line(k)
    }

    function FarEnd(): Receiver
      requires |heard| <= |wire|
      reads this
    {
      Hears(wire[..|heard|], heard)
    }

    /** Nothing is lost, no rewind is asked for, no ZRINIT comes astray, and the first ZEOF is heard and accepted. */
    ghost predicate Undisturbed()
      reads this
    {
      && (forall k :: line(k))
      && (forall k :: far(k).asked == None && !far(k).reannounced)
      && replies(0) == Accepts(0)
    }

    /** A first pass that nothing has happened to. */
    ghost predicate Smooth()
      reads this
    {
      rewinds == 0 && zeofs == 0 && rewindOffset == None && !gaveUp && passStart == 0
    }

    /** The loop goes on, and if nothing is to disturb it nothing has. */
    ghost predicate Going(smooth: bool)
      reads this
    {
      && Hearing() && Counting() && fileOffset == off
      && PassBooks(file, line, wire, block, chunk, off, targets, firstRewind, passStart, sentZdata)
      && (smooth ==> Undisturbed() && Smooth())
    }

    constructor (file: seq<byte>, configured: int, line: nat -> bool, far: nat -> Happening, replies: nat -> Reply)
      ensures this.file == file && this.line == line && this.far == far && this.replies == replies
      ensures Going(false) && Smooth() && off == 0 && wire == [] && block == ChooseBlockSize(configured)
    {
      this.file, this.line, this.far, this.replies := file, line, far, replies;
      block := ChooseBlockSize(configured);
      chunk := ChooseBlockSize(configured);
      off, rewinds, accepted, rewindOffset, gaveUp := 0, 0, 0, None, false;
      fileOffset, sentZdata, wire, heard, firstRewind := 0, false, [], [], 0;
      waits, zeofs, targets, passStart, stray := 0, 0, [], 0, 0;
    }

    /** The receiver hears what is on its way, but for the last `lag` frames. */
    method CatchUp(lag: nat)
      requires Hearing()
      modifies this`heard
      ensures Hearing()
      ensures lag == 0 ==> |heard| == |wire|
    {
      while |heard| + lag < |wire|
        invariant Hearing()
        decreases |wire| - |heard|
      {
        heard := heard + [line(|heard|)];
      }
    }

    /** Anything may happen while the sender waits. */
    method Meanwhile()
      requires Hearing()
      modifies this`heard, this`rewindOffset, this`gaveUp, this`waits, this`stray
      ensures Hearing()
      ensures var h := far(old(waits));
              && rewindOffset == (if h.asked.Some? then h.asked else old(rewindOffset))
              && gaveUp == (old(gaveUp) || h.reannounced) && waits == old(waits) + 1
              && stray == if h.reannounced then old(waits) else old(stray)
    {
      var h := far(waits);
      waits := waits + 1;
      CatchUp(h.lag);
      if h.asked.Some? {
        rewindOffset := h.asked;
      }
      if h.reannounced {
        gaveUp := true;
        stray := waits - 1;
      }
    }

    /** The wait for the socket to drain, between subpackets and before the ZEOF. */
    method Drain(ghost smooth: bool)
      requires Going(smooth)
      modifies this`heard, this`rewindOffset, this`gaveUp, this`waits, this`stray
      ensures Going(smooth)
    {
      Meanwhile();
    }

    method Emit(f: Frame)
      modifies this`wire
      ensures wire == old(wire) + [f]
    {
      wire := wire + [f];
    }

    /** _send_file_part: a subpacket, behind a fresh ZDATA if one is due. */
    method SendPart(payload: seq<byte>)
      modifies this`fileOffset, this`sentZdata, this`wire
      ensures wire == old(wire) + Part(old(sentZdata), old(fileOffset), payload)
      ensures fileOffset == old(fileOffset) + |payload| && sentZdata
    {
      if !sentZdata {
        Emit(Zdata(fileOffset));
        sentZdata := true;
      }
      Emit(Data(payload));
      fileOffset := fileOffset + |payload|;
    }

    /** Takes up a pending ZRPOS, or abandons the transfer when resending has stopped being worth it. */
    method TakeRewind() returns (r: Rewind)
      requires Sound()
      modifies this`chunk, this`off, this`rewinds, this`accepted, this`rewindOffset, this`fileOffset, this`sentZdata,
               this`firstRewind, this`targets, this`passStart
      ensures r == Abandon <==>
              gaveUp || (old(rewindOffset).Some? && TooMany(old(targets) + [old(rewindOffset).value]))
      ensures r == NoRewind <==> !gaveUp && old(rewindOffset) == None
      ensures r == NoRewind ==> unchanged(this)
      ensures r == Abandon ==> Bounded() && (gaveUp || TooMany(targets))
      ensures r.ResumeAt? ==>
                && Going(false) && rewinds == old(rewinds) + 1 && chunk == 1024
                && old(rewindOffset) == Some(r.offset) && rewindOffset == None && off == r.offset
                && targets == old(targets) + [r.offset]
    {
      BooksBounded(file, wire, block, chunk, off, targets, firstRewind);
      if gaveUp {
        return Abandon;
      }
      if rewindOffset == None {
        return NoRewind;
      }
      var target := rewindOffset.value;
      rewindOffset := None;
      r := Rewound(target);
    }

    /** The rewind itself, if the budget allows it. */
    method Rewound(target: nat) returns (r: Rewind)
      requires Counting() && Books(file, wire, block, chunk, off, targets, firstRewind)
      modifies this`chunk, this`off, this`rewinds, this`accepted, this`fileOffset, this`sentZdata,
               this`firstRewind, this`targets, this`passStart
      ensures Counting() && targets == old(targets) + [target]
      ensures r == if TooMany(targets) then Abandon else ResumeAt(target)
      ensures r == Abandon ==>
                BoundedAt(file, wire, targets, firstRewind) && Blocks(file, wire, block, |targets|, firstRewind)
      ensures r.ResumeAt? ==>
                && PassBooks(file, line, wire, block, chunk, off, targets, firstRewind, passStart, sentZdata)
                && chunk == 1024 && fileOffset == off == target && !sentZdata
    {
      RewindStep(file, line, wire, block, chunk, off, targets, firstRewind, target);
      if target > accepted {
        accepted := target;
      }
      var budget := Budget(accepted);
      rewinds := rewinds + 1;
      firstRewind, targets, passStart := FirstAt(targets, firstRewind, |wire|), targets + [target], |wire|;
      if rewinds > budget {
        return Abandon;
      }
      Resume(target);
      return ResumeAt(target);
    }

    /** Makes zmodem.js emit a fresh ZDATA with the offset asked for. */
    method Resume(target: nat)
      modifies this`chunk, this`off, this`fileOffset, this`sentZdata
      ensures chunk == SUBPACKET_1K && fileOffset == off == target && !sentZdata
    {
      if chunk != SUBPACKET_1K {
        chunk := SUBPACKET_1K;
      }
      fileOffset := target;
      sentZdata := false;
      off := target;
    }

    /** One subpacket of the data phase. */
    method SendChunk(ghost smooth: bool)
      requires Going(smooth) && off < |file|
      modifies this`off, this`fileOffset, this`sentZdata, this`wire
      ensures Going(smooth) && old(off) < off <= |file|
    {
      var end := if off + chunk < |file| then off + chunk else |file|;
      var slice := file[off..end];
      ChunkStep(file, line, wire, block, chunk, off, targets, firstRewind, passStart, sentZdata, end);
      SendPart(slice);
      off := end;
    }

    /** The closing subpacket and ZEOF. */
    method SendZeof()
      requires PassBooks(file, line, wire, block, chunk, off, targets, firstRewind, passStart, sentZdata)
      requires fileOffset == off >= |file|
      modifies this`fileOffset, this`sentZdata, this`wire, this`zeofs
      ensures Books(file, wire, block, chunk, off, targets, firstRewind) && zeofs == old(zeofs) + 1
      ensures |wire| >= |old(wire)| && wire[..|old(wire)|] == old(wire)
      ensures PassIntact(line, wire, passStart, Target(targets)) ==> LineHears(line, wire).complete
    {
      ZeofStep(file, line, wire, block, chunk, off, targets, firstRewind, passStart, sentZdata);
      SendPart([]);
      Emit(Zeof(fileOffset));
      zeofs := zeofs + 1;
      fileOffset := 0;
    }

    /** Waits for the answer to the ZEOF. A ZRINIT comes only from a receiver that is complete. */
    method AwaitReply(ghost smooth: bool) returns (a: Answer)
      requires Hearing() && Counting() && zeofs > 0
      requires smooth ==> Undisturbed() && zeofs == 1 && passStart == 0 && targets == []
      requires PassIntact(line, wire, passStart, Target(targets)) ==> LineHears(line, wire).complete
      modifies this`heard, this`rewindOffset, this`gaveUp, this`waits, this`stray
      ensures Hearing() && Counting() && Answered(a) && (smooth ==> a == Acknowledged)
      ensures replies(zeofs - 1).Accepts? && LastPassIntact() ==> a == Acknowledged
    {
      var reply := replies(zeofs - 1);
      Meanwhile();
      match reply {
        case AsksFor(target) =>
          rewindOffset := Some(target);
          return RewindAsked;
        case Silent =>
          return TimedOut;
        case Accepts(lag) =>
          CatchUp(lag);
          if |heard| == |wire| {
            HeardAll();
          }
          return if FarEnd().complete then Acknowledged else TimedOut;
      }
    }

    lemma HeardAll()
      requires Hearing() && |heard| == |wire|
      ensures FarEnd() == LineHears(line, wire)
    {
      assert wire[..|heard|] == wire;
      LineIsHears(line, wire, heard);
    }

    /** Sends the ZEOF and sees what comes of it. */
    method EndFile(ghost smooth: bool) returns (a: Answer)
      requires Going(smooth) && off >= |file|
      modifies this`fileOffset, this`sentZdata, this`wire, this`heard, this`rewindOffset, this`gaveUp, this`waits,
               this`stray, this`zeofs
      ensures Sound() && Answered(a) && (smooth ==> a == Acknowledged)
      ensures replies(zeofs - 1).Accepts? && LastPassIntact() ==> a == Acknowledged
    {
      SendZeof();
      a := AwaitReply(smooth);
    }

    /** What an answer means: how the last ZEOF was replied to, and whether the receiver has the file. */
    ghost predicate Answered(a: Answer)
      requires |heard| <= |wire|
      reads this
    {
      zeofs > 0 &&
      match a
      case Acknowledged => replies(zeofs - 1).Accepts? && FarEnd().complete
      case RewindAsked => replies(zeofs - 1).AsksFor? && rewindOffset == Some(replies(zeofs - 1).offset)
      case TimedOut => !replies(zeofs - 1).AsksFor? && (replies(zeofs - 1).Silent? || !FarEnd().complete)
    }

    /** Why an upload has failed. */
    ghost predicate FailedFor(why: Failure)
      requires |heard| <= |wire|
      reads this
    {
      match why
      case Reannounced => exists k :: 0 <= k < waits && far(k).reannounced
      case BudgetSpent => TooMany(targets)
      case Unanswered => Answered(TimedOut) && !(replies(zeofs - 1).Accepts? && LastPassIntact())
    }

    /** One turn of the inner loop: a subpacket, what comes in meanwhile, and a rewind if one was asked for. */
    method DataTurn(ghost smooth: bool) returns (r: Rewind)
      requires Going(smooth) && off < |file|
      modifies this`chunk, this`off, this`rewinds, this`accepted, this`rewindOffset, this`fileOffset, this`sentZdata,
               this`firstRewind, this`targets, this`passStart, this`wire, this`heard, this`gaveUp, this`waits,
               this`stray
      ensures r == Abandon ==> !smooth && Bounded() && FailedFor(if gaveUp then Reannounced else BudgetSpent)
      ensures r == NoRewind ==> Going(smooth) && rewinds == old(rewinds) && old(off) < off <= |file|
      ensures r.ResumeAt? ==> Going(smooth) && rewinds > old(rewinds)
    {
      SendChunk(smooth);
      Drain(smooth);
      r := TakeRewind();
    }

    /** The inner loop of the upload: subpackets up to the end of the file, over all rewinds asked for meanwhile. */
    method SendData(ghost smooth: bool) returns (why: Option<Failure>)
      requires Going(smooth)
      modifies this`chunk, this`off, this`rewinds, this`accepted, this`rewindOffset, this`fileOffset, this`sentZdata,
               this`firstRewind, this`targets, this`passStart, this`wire, this`heard, this`gaveUp, this`waits,
               this`stray
      ensures why == None ==> Going(smooth) && off >= |file| && rewinds >= old(rewinds)
      ensures why.Some? ==> !smooth && Bounded() && why.value != Unanswered && FailedFor(why.value)
    {
      while off < |file|
        invariant Going(smooth) && rewinds >= old(rewinds)
        decreases MAX_REWINDS - rewinds, |file| - off
      {
        var r := DataTurn(smooth);
        if r == Abandon {
          return Some(if gaveUp then Reannounced else BudgetSpent);
        }
      }
      return None;
    }

    /** The end of the file: acknowledged, refused for good, or followed by a rewind. */
    method Finish(ghost smooth: bool) returns (end: Option<Outcome>)
      requires Going(smooth) && off >= |file|
      modifies this
      ensures end == None ==> Going(smooth) && rewinds == old(rewinds) + 1
      ensures end.Some? ==> Ended(end.value, smooth)
    {
      Drain(smooth);
      var a := EndFile(smooth);
      match a {
        case Acknowledged =>
          Delivered(smooth);
          return Some(Done);
        case TimedOut =>
          GivenUp(smooth);
          return Some(Failed(Unanswered));
        case RewindAsked =>
          end := RewindAfterZeof(smooth);
      }
    }

    method RewindAfterZeof(ghost smooth: bool) returns (end: Option<Outcome>)
      requires Sound() && rewindOffset.Some? && !smooth
      modifies this`chunk, this`off, this`rewinds, this`accepted, this`rewindOffset, this`fileOffset, this`sentZdata,
               this`firstRewind, this`targets, this`passStart
      ensures end == None ==> Going(smooth) && rewinds == old(rewinds) + 1
      ensures end.Some? ==> Ended(end.value, smooth)
    {
      var r := TakeRewind();
      if r == Abandon {
        return Some(Failed(if gaveUp then Reannounced else BudgetSpent));
      }
      return None;
    }

    lemma GivenUp(smooth: bool)
      requires Sound() && FailedFor(Unanswered) && !smooth
      ensures Ended(Failed(Unanswered), smooth)
    {
      BooksBounded(file, wire, block, chunk, off, targets, firstRewind);
    }

    /** How an upload may end: done with the whole file delivered, or failed for a reason. */
    ghost predicate Ended(outcome: Outcome, smooth: bool)
      reads this
    {
      && Bounded()
      && (outcome == Done ==> FarEnd().got == file && Answered(Acknowledged))
      && (outcome.Failed? ==> FailedFor(outcome.why))
      && (smooth ==> outcome == Done && Volume(wire) == |file|)
    }

    /**
     Nothing that the far end does not put right: at most three rewinds, not all of the first two back to the start; no
     stray ZRINIT; a last pass from where the receiver was that comes through intact, and its ZEOF accepted.
     */
    ghost predicate Repaired()
      reads this
    {
      && |targets| <= 3 && (|targets| >= 2 ==> targets[0] > 0 || targets[1] > 0)
      && (forall k :: 0 <= k < waits ==> !far(k).reannounced)
      && zeofs > 0 && replies(zeofs - 1).Accepts? && LastPassIntact()
    }

    /**
     The upload of one file. Whatever is lost on the way and whatever the receiver asks for: the loop ends; every
     subpacket is truthful, and a full one unless it ends the file; at most four times the file is sent, at most twice
     if no rewind goes past offset 0; after the first rewind no subpacket exceeds 1024 octets; a transfer that ends as
     done has delivered exactly the file; one that fails has been given up by the receiver, rewound once too often, or
     left unanswered or unfinished; so one that has been repaired is done; and one that nothing disturbs is done, having
     sent the file once.
     */
    method Run() returns (outcome: Outcome)
      requires Going(false) && off == 0 && rewinds == 0
      modifies this
      ensures Bounded()
      ensures outcome == Done ==> FarEnd().got == file && Answered(Acknowledged)
      ensures outcome.Failed? ==> FailedFor(outcome.why)
      ensures Repaired() ==> outcome == Done
      ensures Undisturbed() && old(Smooth()) ==> outcome == Done && Volume(wire) == |file|
    {
      ghost var smooth := Undisturbed() && Smooth();
      while true
        invariant Going(smooth)
        decreases MAX_REWINDS - rewinds
      {
        var why := SendData(smooth);
        if why.Some? {
          return Failed(why.value);
        }
        var end := Finish(smooth);
        if end.Some? {
          return end.value;
        }
      }
    }

    lemma Delivered(smooth: bool)
      requires Sound() && Answered(Acknowledged) && (smooth ==> rewinds == 0)
      ensures Ended(Done, smooth)
    {
      BooksBounded(file, wire, block, chunk, off, targets, firstRewind);
      TruthfulPrefix(file, wire, |heard|);
      HoldsPrefix(file, wire[..|heard|], heard);
      GotWithinVolume(wire[..|heard|], heard);
      VolumePrefix(wire, |heard|);
    }
  }
}
