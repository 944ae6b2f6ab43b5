/**
 applyWindowedSend of web/public/js/zmodem-sentry.js: a sender that honours the receive window of its peer. It closes
 the frame with ZCRCW whenever the window is full and at the end of the file, and waits for the ZACK before going on.
 */
module WindowedSend {
  import opened Bytes

  /** One data subpacket: its payload, and whether it ends the frame and asks for a ZACK (ZCRCW) or not (ZCRCG). */
  datatype Subpacket = Subpacket(payload: seq<byte>, endAck: bool)

  /** The receiver's answer to a ZCRCW; a ZACK carries an offset when the library could read one. */
  datatype Reply = Zack(offset: Option<nat>) | Zrpos(resumeAt: nat) | Zrinit

  function Payload(log: seq<Subpacket>): seq<byte> {
    if log == [] then [] else log[0].payload + Payload(log[1..])
  }

  /** How many ZACKs the sender waits for. */
  function Waits(log: seq<Subpacket>): nat {
    if log == [] then 0 else (if log[0].endAck then 1 else 0) + Waits(log[1..])
  }

  /**
   The pacing a window of w octets calls for, from file position `pos` on, in a file of `total` octets: every subpacket
   fits in what is left of the window, and ends in ZCRCW exactly at a multiple of w or at the end of the file.
   */
  predicate Paced(w: nat, pos: nat, log: seq<Subpacket>, total: nat)
    requires w > 0
    decreases |log|
  {
    log == [] ||
    var n := |log[0].payload|;
    && n > 0
    && pos % w + n <= w
    && (log[0].endAck <==> (pos + n) % w == 0 || pos + n == total)
    && Paced(w, pos + n, log[1..], total)
  }

  /** The next subpacket of a slice: as much as the window and the slice allow, closing the frame where either ends. */
  function Piece(w: nat, unacked: nat, bytes: seq<byte>, offset: nat, final: bool): (p: Subpacket)
    requires unacked < w && offset < |bytes|
    ensures 0 < |p.payload| <= |bytes| - offset && unacked + |p.payload| <= w
    ensures unacked + |p.payload| == w ==> p.endAck
  {
    var take := if w - unacked < |bytes| - offset then w - unacked else |bytes| - offset;
    Subpacket(bytes[offset..offset + take], unacked + take >= w || (final && offset + take >= |bytes|))
  }

  function Used(unacked: nat, p: Subpacket): nat {
    if p.endAck then 0 else unacked + |p.payload|
  }

  /** How much of a slice is out, and how much of the window that leaves used. */
  datatype Place = Place(offset: nat, used: nat)

  function Reached(u: nat, sent: seq<Subpacket>): Place {
    if sent == [] then Place(0, u)
    else
      var q := Reached(u, Front(sent));
      Place(q.offset + |Last(sent).payload|, Used(q.used, Last(sent)))
  }

  /** `sent` is what goes out first of a slice, u octets of the window being used before it. */
  predicate Packing(w: nat, u: nat, bytes: seq<byte>, final: bool, sent: seq<Subpacket>) {
    sent == [] ||
    var q := Reached(u, Front(sent));
    && Packing(w, u, bytes, final, Front(sent))
    && q.used < w && q.offset < |bytes|
    && Last(sent) == Piece(w, q.used, bytes, q.offset, final)
  }

  /** The offset of the last of the first n ZACKs that carried one, and 0 if none did. */
  function LastOffset(receiver: nat -> Reply, n: nat): nat {
    if n == 0 then 0
    else match receiver(n - 1)
      case Zack(Some(offset)) => offset
      case _ => LastOffset(receiver, n - 1)
  }

  // ---------- arithmetic of windows ----------

  lemma DivUnique(w: nat, q: nat, r: nat)
    requires r < w
    ensures (w * q + r) / w == q && (w * q + r) % w == r
  {
    var n := w * q + r;
    var k := n / w - q;
    assert w * k == w * (n / w) - w * q == r - n % w;
    SmallMultiple(w, k);
  }

  lemma SmallMultiple(w: int, k: int)
    requires -w < w * k < w
    ensures k == 0
  {
    assert k >= 1 ==> w * k >= w;
    assert k <= -1 ==> w * k <= -w;
  }

  /** Moving on within a window, or exactly to its end. */
  lemma Advance(w: nat, pos: nat, n: nat)
    requires w > 0 && pos % w + n <= w
    ensures pos % w + n < w ==> (pos + n) % w == pos % w + n && (pos + n) / w == pos / w
    ensures pos % w + n == w ==> (pos + n) % w == 0 && (pos + n) / w == pos / w + 1
  {
    var q, r := pos / w, pos % w;
    assert pos == w * q + r;
    if r + n < w {
      assert pos + n == w * q + (r + n);
      DivUnique(w, q, r + n);
    } else {
      assert pos + n == w * (q + 1) + 0;
      DivUnique(w, q + 1, 0);
    }
  }

  // ---------- facts about logs ----------

  lemma {:induction false} PayloadConcat(a: seq<Subpacket>, b: seq<Subpacket>)
    ensures Payload(a + b) == Payload(a) + Payload(b) && Waits(a + b) == Waits(a) + Waits(b)
  {
    if a == [] {
      assert a + b == b;
    } else {
      assert (a + b)[1..] == a[1..] + b;
      PayloadConcat(a[1..], b);
    }
  }

  lemma {:induction false} PacedConcat(w: nat, pos: nat, a: seq<Subpacket>, b: seq<Subpacket>, total: nat)
    requires w > 0
    ensures Paced(w, pos, a + b, total) <==> Paced(w, pos, a, total) && Paced(w, pos + |Payload(a)|, b, total)
    decreases |a|
  {
    if a == [] {
      assert a + b == b;
    } else {
      assert (a + b)[1..] == a[1..] + b && (a + b)[0] == a[0];
      PacedConcat(w, pos + |a[0].payload|, a[1..], b, total);
    }
  }

  /** There is only one way to pack a slice. */
  lemma {:induction false} PackingUnique(w: nat, u: nat, bytes: seq<byte>, final: bool, a: seq<Subpacket>,
                                         b: seq<Subpacket>)
    requires Packing(w, u, bytes, final, a) && Packing(w, u, bytes, final, b) && |a| <= |b|
    ensures a <= b
    decreases |b|
  {
    if |a| < |b| {
      PackingUnique(w, u, bytes, final, a, Front(b));
    } else if a != [] {
      PackingUnique(w, u, bytes, final, Front(a), Front(b));
      assert Front(a) == Front(b);
      assert a == Front(a) + [Last(a)] && b == Front(b) + [Last(b)];
    }
  }

  /** A slice goes out in order, whatever its subpackets. */
  lemma {:induction false} PackCarries(w: nat, u: nat, bytes: seq<byte>, final: bool, sent: seq<Subpacket>)
    requires Packing(w, u, bytes, final, sent)
    ensures var q := Reached(u, sent);
            q.offset <= |bytes| && Payload(sent) == bytes[..q.offset]
  {
    if sent == [] {
    } else {
      var before, p := Front(sent), Last(sent);
      var q := Reached(u, before);
      PackCarries(w, u, bytes, final, before);
      assert sent == before + [p];
      OneMore(bytes, before, p, q.offset);
    }
  }

  lemma OneMore(bytes: seq<byte>, before: seq<Subpacket>, p: Subpacket, offset: nat)
    requires offset + |p.payload| <= |bytes| && p.payload == bytes[offset..offset + |p.payload|]
    requires Payload(before) == bytes[..offset]
    ensures Payload(before + [p]) == bytes[..offset + |p.payload|]
  {
    PayloadConcat(before, [p]);
    assert [p][1..] == [] && p.payload + [] == p.payload;
    assert bytes[..offset] + p.payload == bytes[..offset + |p.payload|];
  }

  /**
   A file of `total` octets fills one window after the other: every subpacket fits in what is left of the window, and is
   a ZCRCW exactly if it ends the window or the file.
   */
  predicate Fills(w: nat, log: seq<Subpacket>, total: nat) {
    log == [] ||
    var q, n := Reached(0, Front(log)), |Last(log).payload|;
    && Fills(w, Front(log), total)
    && 0 < n && q.used + n <= w && q.offset + n <= total
    && (Last(log).endAck <==> q.used + n == w || q.offset + n == total)
  }

  /** However a file is sliced, each slice, or a beginning of it, goes on filling the windows. */
  lemma {:induction false} SliceFills(w: nat, log: seq<Subpacket>, bytes: seq<byte>, final: bool, sent: seq<Subpacket>,
                                      total: nat)
    requires Fills(w, log, total) && Packing(w, Reached(0, log).used, bytes, final, sent)
    requires Reached(0, log).offset + |bytes| <= total && (final <==> Reached(0, log).offset + |bytes| == total)
    ensures var q := Reached(Reached(0, log).used, sent);
            Reached(0, log + sent) == Place(Reached(0, log).offset + q.offset, q.used)
    ensures Fills(w, log + sent, total)
    decreases |sent|
  {
    if sent == [] {
      assert log + sent == log;
    } else {
      assert Front(log + sent) == log + Front(sent) && Last(log + sent) == Last(sent);
      SliceFills(w, log, bytes, final, Front(sent), total);
    }
  }

  lemma PacedOne(w: nat, pos: nat, p: Subpacket, total: nat)
    requires w > 0 && |p.payload| > 0 && pos % w + |p.payload| <= w && pos + |p.payload| <= total
    requires p.endAck <==> pos % w + |p.payload| == w || pos + |p.payload| == total
    ensures Paced(w, pos, [p], total) && Payload([p]) == p.payload
    ensures pos + |p.payload| < total ==> Used(pos % w, p) == (pos + |p.payload|) % w
  {
    Advance(w, pos, |p.payload|);
    assert [p][1..] == [] && p.payload + [] == p.payload;
  }

  /** Filling windows is pacing: a ZCRCW exactly at each multiple of the window and at the end of the file. */
  lemma {:induction false} FillsIsPaced(w: nat, log: seq<Subpacket>, total: nat)
    requires w > 0 && Fills(w, log, total)
    ensures Paced(w, 0, log, total) && |Payload(log)| == Reached(0, log).offset
    ensures var q := Reached(0, log); q.offset < total ==> q.used == q.offset % w
  {
    if log == [] {
      Advance(w, 0, 0);
    } else {
      var before, p := Front(log), Last(log);
      var q := Reached(0, before);
      FillsIsPaced(w, before, total);
      assert log == before + [p];
      PacedOne(w, q.offset, p, total);
      PayloadConcat(before, [p]);
      PacedConcat(w, 0, before, [p], total);
    }
  }

  /** A paced file of n octets is waited for ceil(n / w) times. */
  lemma {:induction false} WaitsExactly(w: nat, pos: nat, log: seq<Subpacket>, total: nat)
    requires w > 0 && Paced(w, pos, log, total) && pos + |Payload(log)| == total
    ensures Waits(log) == if log == [] then 0 else (total + w - 1) / w - pos / w
    decreases |log|
  {
    if log == [] {
    } else {
      var n := |log[0].payload|;
      Advance(w, pos, n);
      WaitsExactly(w, pos + n, log[1..], total);
      if log[1..] == [] {
        CeilAt(w, total, pos / w);
      } else {
        assert |log[1].payload| > 0;
      }
    }
  }

  /** A beginning of a paced file is waited for no more often than the whole. */
  lemma {:induction false} WaitsAtMost(w: nat, pos: nat, log: seq<Subpacket>, total: nat)
    requires w > 0 && Paced(w, pos, log, total) && pos + |Payload(log)| <= total && log != []
    ensures Waits(log) <= (total + w - 1) / w - pos / w
    decreases |log|
  {
    var n := |log[0].payload|;
    Advance(w, pos, n);
    if log[1..] != [] {
      assert |log[1].payload| > 0;
      WaitsAtMost(w, pos + n, log[1..], total);
    } else {
      CeilBeyond(w, pos, total);
    }
  }

  lemma CeilBeyond(w: nat, pos: nat, total: nat)
    requires w > 0 && pos < total
    ensures (total + w - 1) / w >= pos / w + 1
  {
    var a := total + w - 1;
    var qa, qb := a / w, pos / w;
    assert a == w * qa + a % w && pos == w * qb + pos % w;
    assert qa <= qb ==> w * qa <= w * qb;
  }

  lemma CeilAt(w: nat, total: nat, q: nat)
    requires w > 0
    requires (total / w == q && total % w > 0) || (total / w == q + 1 && total % w == 0)
    ensures (total + w - 1) / w == q + 1
  {
    var r := total % w;
    assert total == w * (total / w) + r;
    if r > 0 {
      assert total + w - 1 == w * (q + 1) + (r - 1);
      DivUnique(w, q + 1, r - 1);
    } else {
      assert total + w - 1 == w * (q + 1) + (w - 1);
      DivUnique(w, q + 1, w - 1);
    }
  }

  // ---------- one slice, underway ----------

  /** The last subpacket is a ZCRCW, so that nothing went out behind it. */
  predicate Refused(log: seq<Subpacket>) {
    log != [] && log[|log| - 1].endAck
  }

  /** The loop over a slice, one subpacket on. */
  lemma NextPiece(w: nat, u: nat, bytes: seq<byte>, final: bool, sent: seq<Subpacket>)
    requires Packing(w, u, bytes, final, sent)
    requires Reached(u, sent).used < w && Reached(u, sent).offset < |bytes|
    ensures var q := Reached(u, sent);
            var p := Piece(w, q.used, bytes, q.offset, final);
            && Packing(w, u, bytes, final, sent + [p])
            && Reached(u, sent + [p]) == Place(q.offset + |p.payload|, Used(q.used, p))
            && Waits(sent + [p]) == Waits(sent) + (if p.endAck then 1 else 0)
            && (Refused(sent + [p]) <==> p.endAck)
  {
    var q := Reached(u, sent);
    var p := Piece(w, q.used, bytes, q.offset, final);
    assert Front(sent + [p]) == sent && Last(sent + [p]) == p;
    PayloadConcat(sent, [p]);
    assert [p][1..] == [];
  }

  /** The loop over a slice: `sent` is out, up to `offset`, the log being log0 before, ack0 ZACKs having come before. */
  predicate Sending(w: nat, u: nat, bytes: seq<byte>, final: bool, sent: seq<Subpacket>, offset: nat, used: nat,
                    log0: seq<Subpacket>, log: seq<Subpacket>, ack0: nat, ack: nat)
  {
    && Packing(w, u, bytes, final, sent) && Reached(u, sent) == Place(offset, used)
    && log == log0 + sent && ack == ack0 + Waits(sent)
  }

  lemma SendingStep(w: nat, u: nat, bytes: seq<byte>, final: bool, sent: seq<Subpacket>, offset: nat, used: nat,
                    log0: seq<Subpacket>, log: seq<Subpacket>, ack0: nat, ack: nat)
    requires Sending(w, u, bytes, final, sent, offset, used, log0, log, ack0, ack) && used < w && offset < |bytes|
    ensures var p := Piece(w, used, bytes, offset, final);
            && Sending(w, u, bytes, final, sent + [p], offset + |p.payload|, Used(used, p), log0, log + [p], ack0,
                       ack + if p.endAck then 1 else 0)
            && (Refused(sent + [p]) <==> p.endAck)
  {
    NextPiece(w, u, bytes, final, sent);
    Associative(log0, sent, [Piece(w, used, bytes, offset, final)]);
  }

  // ---------- one file, underway ----------

  /** The first `off` octets of a file are out, leaving u octets of the window used and `waits` ZCRCWs behind. */
  predicate Out(w: nat, file: seq<byte>, log: seq<Subpacket>, off: nat, u: nat, waits: nat) {
    && off <= |file| && Payload(log) == file[..off]
    && Fills(w, log, |file|) && Reached(0, log) == Place(off, u) && waits == Waits(log)
  }

  lemma TextGrows(file: seq<byte>, log: seq<Subpacket>, off: nat, end: nat, sent: seq<Subpacket>)
    requires off <= end <= |file| && Payload(log) == file[..off] && Payload(sent) == file[off..end]
    ensures Payload(log + sent) == file[..end] && Waits(log + sent) == Waits(log) + Waits(sent)
  {
    assert file[..off] + file[off..end] == file[..end];
    PayloadConcat(log, sent);
  }

  lemma SubRange(file: seq<byte>, off: nat, end: nat, n: nat)
    requires off + n <= end <= |file|
    ensures file[off..end][..n] == file[off..off + n]
  {
  }

  /** One more slice, or a beginning of it. */
  lemma SliceOut(w: nat, file: seq<byte>, log: seq<Subpacket>, off: nat, end: nat, u: nat, waits: nat,
                 sent: seq<Subpacket>, q: Place)
    requires Out(w, file, log, off, u, waits) && off < end <= |file|
    requires Packing(w, u, file[off..end], end == |file|, sent) && Reached(u, sent) == q
    ensures Out(w, file, log + sent, off + q.offset, q.used, waits + Waits(sent))
  {
    SliceFills(w, log, file[off..end], end == |file|, sent, |file|);
    PackCarries(w, u, file[off..end], end == |file|, sent);
    SubRange(file, off, end, q.offset);
    TextGrows(file, log, off, off + q.offset, sent);
  }

  // ---------- where subpackets end ----------

  /** How much of the slice under way is out, in a file cut into slices of `chunk` octets. */
  function InSlice(chunk: nat, log: seq<Subpacket>): nat {
    if log == [] then 0
    else
      var v := InSlice(chunk, Front(log)) + |Last(log).payload|;
      if v == chunk then 0 else v
  }

  /** No subpacket goes over the end of a slice, and each is as long as window, slice and file allow. */
  predicate Whole(w: nat, chunk: nat, log: seq<Subpacket>, total: nat) {
    log == [] ||
    var q, v, n := Reached(0, Front(log)), InSlice(chunk, Front(log)), |Last(log).payload|;
    && Whole(w, chunk, Front(log), total)
    && v + n <= chunk
    && (q.used + n == w || v + n == chunk || q.offset + n == total)
  }

  lemma WholeOne(w: nat, chunk: nat, log: seq<Subpacket>, p: Subpacket, total: nat, q: Place, v: nat)
    requires Whole(w, chunk, log, total) && q == Reached(0, log) && v == InSlice(chunk, log)
    requires v + |p.payload| <= chunk
    requires q.used + |p.payload| == w || v + |p.payload| == chunk || q.offset + |p.payload| == total
    ensures Whole(w, chunk, log + [p], total)
    ensures InSlice(chunk, log + [p]) == if v + |p.payload| == chunk then 0 else v + |p.payload|
  {
    assert Front(log + [p]) == log && Last(log + [p]) == p;
  }

  lemma {:induction false} ReachedJoin(log: seq<Subpacket>, sent: seq<Subpacket>, o: nat, u: nat)
    requires Reached(0, log) == Place(o, u)
    ensures var q := Reached(u, sent); Reached(0, log + sent) == Place(o + q.offset, q.used)
  {
    if sent == [] {
      assert log + sent == log;
    } else {
      assert Front(log + sent) == log + Front(sent) && Last(log + sent) == Last(sent);
      ReachedJoin(log, Front(sent), o, u);
    }
  }

  /** Of a slice of n octets, v of them out, one subpacket more. */
  lemma SliceOne(w: nat, chunk: nat, log: seq<Subpacket>, p: Subpacket, total: nat, q: Place, o: nat, n: nat)
    requires Whole(w, chunk, log, total) && Reached(0, log) == Place(o + q.offset, q.used)
    requires q.offset < n <= chunk && InSlice(chunk, log) == q.offset
    requires o + n == total || n == chunk
    requires q.offset + |p.payload| <= n
    requires q.used + |p.payload| == w || q.offset + |p.payload| == n
    ensures Whole(w, chunk, log + [p], total)
    ensures var v := q.offset + |p.payload|; InSlice(chunk, log + [p]) == if v == chunk then 0 else v
  {
    WholeOne(w, chunk, log, p, total, Place(o + q.offset, q.used), q.offset);
  }

  lemma LastPiece(w: nat, u: nat, bytes: seq<byte>, final: bool, sent: seq<Subpacket>, q: Place)
    requires Packing(w, u, bytes, final, sent) && sent != [] && q == Reached(u, Front(sent))
    ensures Packing(w, u, bytes, final, Front(sent))
    ensures var n := |Last(sent).payload|;
            && q.offset < |bytes| && q.offset + n <= |bytes| && (q.used + n == w || q.offset + n == |bytes|)
            && Reached(u, sent).offset == q.offset + n
  {
  }

  lemma {:induction false} SliceWhole(w: nat, chunk: nat, log: seq<Subpacket>, bytes: seq<byte>, final: bool,
                                      sent: seq<Subpacket>, total: nat, o: nat, u: nat)
    requires Whole(w, chunk, log, total) && InSlice(chunk, log) == 0 && Reached(0, log) == Place(o, u)
    requires Packing(w, u, bytes, final, sent) && 0 < |bytes| <= chunk && (o + |bytes| == total || |bytes| == chunk)
    ensures Whole(w, chunk, log + sent, total)
    ensures var q := Reached(u, sent);
            q.offset <= |bytes| && InSlice(chunk, log + sent) == if q.offset == chunk then 0 else q.offset
    decreases |sent|
  {
    if sent == [] {
      assert log + sent == log;
    } else {
      var before, p := Front(sent), Last(sent);
      var q := Reached(u, before);
      assert log + sent == (log + before) + [p];
      LastPiece(w, u, bytes, final, sent, q);
      SliceWhole(w, chunk, log, bytes, final, before, total, o, u);
      ReachedJoin(log, before, o, u);
      SliceOne(w, chunk, log + before, p, total, q, o, |bytes|);
    }
  }

  /** All of that for one slice of a file. */
  lemma SliceDone(w: nat, chunk: nat, file: seq<byte>, log: seq<Subpacket>, off: nat, end: nat, u: nat, waits: nat,
                  sent: seq<Subpacket>, q: Place)
    requires Out(w, file, log, off, u, waits) && off < |file| && chunk > 0
    requires end == if off + chunk < |file| then off + chunk else |file|
    requires Whole(w, chunk, log, |file|) && InSlice(chunk, log) == 0
    requires Packing(w, u, file[off..end], end == |file|, sent) && Reached(u, sent) == q
    ensures Out(w, file, log + sent, off + q.offset, q.used, waits + Waits(sent))
    ensures Whole(w, chunk, log + sent, |file|)
    ensures off + q.offset == end && end < |file| ==> InSlice(chunk, log + sent) == 0
  {
    SliceOut(w, file, log, off, end, u, waits, sent, q);
    SliceWhole(w, chunk, log, file[off..end], end == |file|, sent, |file|, off, u);
  }

  // ---------- the sender ----------

  /** How the data phase of a file ends, seen from handleSend. */
  datatype Outcome = Confirmed | Rejected | NeverAcknowledged | Incomplete(confirmed: nat)

  class WindowedSender {
    const window: nat
    const receiver: nat -> Reply  // the answer to the k-th ZCRCW of the session
    var unacked: nat
    var ackedOffset: nat
    var ackCount: nat
    var ackFinalPiece: bool
    var log: seq<Subpacket>

    predicate Valid()
      reads this
    {
      unacked < window
    }

    constructor (window: nat, receiver: nat -> Reply)
      requires window > 0
      ensures Valid() && this.window == window && this.receiver == receiver
      ensures unacked == 0 && ackCount == 0 && ackedOffset == 0 && log == []
    {
      this.window, this.receiver := window, receiver;
      unacked, ackedOffset, ackCount, ackFinalPiece, log := 0, 0, 0, false, [];
    }

    /** The k-th ZCRCW is answered by ZACK. */
    ghost predicate Acked(k: nat) {
      receiver(k).Zack?
    }

    /** So are the first n. */
    ghost predicate AllAcked(n: nat) {
      forall k :: 0 <= k < n ==> Acked(k)
    }

    /** What the sender makes of the ZACKs so far is what they said. */
    ghost predicate Heeded()
      reads this
    {
      AllAcked(ackCount) && ackedOffset == LastOffset(receiver, ackCount)
    }

    /** Waits for the answer to a ZCRCW. */
    method AwaitAck() returns (ok: bool)
      modifies this`ackedOffset, this`ackCount
      ensures ok <==> Acked(old(ackCount))
      ensures ackCount == old(ackCount) + if ok then 1 else 0
      ensures old(Heeded()) ==> Heeded()
    {
      match receiver(ackCount) {
        case Zack(offset) =>
          if offset.Some? {
            ackedOffset := offset.value;
          }
          ackCount := ackCount + 1;
          ok := true;
        case _ =>
          ok := false;
      }
    }

    /** Sends one subpacket and, if it closes the frame, waits for the ZACK. */
    method SendSubpacket(slice: seq<byte>, closes: bool) returns (ok: bool)
      requires unacked + |slice| <= window && (unacked + |slice| == window ==> closes)
      modifies this`unacked, this`ackedOffset, this`ackCount, this`log
      ensures log == old(log) + [Subpacket(slice, closes)]
      ensures ok ==> unacked == (if closes then 0 else old(unacked) + |slice|)
      ensures ok ==> ackCount == old(ackCount) + if closes then 1 else 0
      ensures ok && closes ==> Acked(old(ackCount))
      ensures old(Heeded()) ==> Heeded()
      ensures !ok ==> closes && ackCount == old(ackCount) && !Acked(ackCount)
    {
      ok := true;
      unacked := unacked + |slice|;
      log := log + [Subpacket(slice, closes)];
      if closes {
        ok := AwaitAck();
        if ok {
          unacked := 0;
        }
      }
    }

    /** The next subpacket of a slice, and the wait for its ZACK if it closes the frame. */
    method SendNext(bytes: seq<byte>, offset: nat) returns (ok: bool, next: nat)
      requires Valid() && Heeded() && offset < |bytes|
      modifies this`unacked, this`ackedOffset, this`ackCount, this`log
      ensures var p := Piece(window, old(unacked), bytes, offset, ackFinalPiece);
              && log == old(log) + [p] && next == offset + |p.payload|
              && (ok ==> unacked == Used(old(unacked), p) && ackCount == old(ackCount) + if p.endAck then 1 else 0)
              && (!ok ==> p.endAck && ackCount == old(ackCount) && !Acked(ackCount))
      ensures Heeded()
    {
      var take := if window - unacked < |bytes| - offset then window - unacked else |bytes| - offset;
      var slice := bytes[offset..offset + take];
      next := offset + take;
      var lastOfFile := ackFinalPiece && next >= |bytes|;
      var closes := unacked + take >= window || lastOfFile;
      ok := SendSubpacket(slice, closes);
    }

    /**
     Sends one slice. When the receiver answers a ZCRCW with anything but a ZACK, sending stops right behind that ZCRCW:
     what went out is a beginning of what should have.
     */
    method SendInterimFilePiece(bytes: seq<byte>) returns (ok: bool, ghost sent: seq<Subpacket>)
      requires Valid() && Heeded()
      modifies this`unacked, this`ackedOffset, this`ackCount, this`log
      ensures log == old(log) + sent && Packing(window, old(unacked), bytes, ackFinalPiece, sent)
      ensures ok ==>
                && Reached(old(unacked), sent) == Place(|bytes|, unacked) && Valid()
                && ackCount == old(ackCount) + Waits(sent)
      ensures !ok ==> !Acked(ackCount) && Refused(sent) && ackCount + 1 == old(ackCount) + Waits(sent)
      ensures Heeded()
      ensures bytes == [] ==> ok
    {
      var offset := 0;
      sent := [];
      ghost var u, log0, ack0 := unacked, log, ackCount;
      assert log + sent == log;
      while offset < |bytes|
        invariant Valid() && Heeded() && offset <= |bytes|
        invariant Sending(window, u, bytes, ackFinalPiece, sent, offset, unacked, log0, log, ack0, ackCount)
      {
        ok, offset, sent := SendAnother(bytes, offset, u, sent, log0, ack0);
        if !ok {
          return;
        }
      }
      ok := true;
    }

    /** One turn of that loop. */
    method SendAnother(bytes: seq<byte>, offset: nat, ghost u: nat, ghost sent: seq<Subpacket>,
                       ghost log0: seq<Subpacket>, ghost ack0: nat)
      returns (ok: bool, next: nat, ghost sent': seq<Subpacket>)
      requires Valid() && Heeded() && offset < |bytes|
      requires Sending(window, u, bytes, ackFinalPiece, sent, offset, unacked, log0, log, ack0, ackCount)
      modifies this`unacked, this`ackedOffset, this`ackCount, this`log
      ensures Heeded() && offset < next <= |bytes|
      ensures ok ==>
                Valid() && Sending(window, u, bytes, ackFinalPiece, sent', next, unacked, log0, log, ack0, ackCount)
      ensures !ok ==>
                && Packing(window, u, bytes, ackFinalPiece, sent') && log == log0 + sent'
                && !Acked(ackCount) && Refused(sent') && ackCount + 1 == ack0 + Waits(sent')
    {
      ghost var p := Piece(window, unacked, bytes, offset, ackFinalPiece);
      SendingStep(window, u, bytes, ackFinalPiece, sent, offset, unacked, log0, log, ack0, ackCount);
      sent' := sent + [p];
      ok, next := SendNext(bytes, offset);
    }

    /** One slice of a file, marked if it is the last. */
    method SendSlice(file: seq<byte>, off: nat, chunk: nat) returns (ok: bool, end: nat)
      requires Valid() && Heeded() && off < |file| && chunk > 0
      requires Out(window, file, log, off, unacked, ackCount)
      requires Whole(window, chunk, log, |file|) && InSlice(chunk, log) == 0
      modifies this
      ensures Heeded() && (ok ==> Valid() && off < end && Out(window, file, log, end, unacked, ackCount))
      ensures Whole(window, chunk, log, |file|) && (ok && end < |file| ==> InSlice(chunk, log) == 0)
      ensures !ok ==> CutShort(file)
    {
      end := if off + chunk < |file| then off + chunk else |file|;
      var slice := file[off..end];
      ackFinalPiece := off + chunk >= |file|;
      ghost var before, u, waits, sent := log, unacked, ackCount, [];
      ok, sent := SendInterimFilePiece(slice);
      SliceDone(window, chunk, file, before, off, end, u, waits, sent, Reached(u, sent));
    }

    /** A beginning of the file is out, up to a ZCRCW that was not answered by ZACK. */
    ghost predicate CutShort(file: seq<byte>)
      reads this
    {
      && Payload(log) <= file && Fills(window, log, |file|)
      && !Acked(ackCount) && Refused(log) && ackCount + 1 == Waits(log)
    }

    /** The slices of a file, `chunk` octets each. */
    method SendSlices(file: seq<byte>, chunk: nat) returns (ok: bool)
      requires Valid() && unacked == 0 && ackCount == 0 && ackedOffset == 0 && log == [] && chunk > 0
      modifies this
      ensures Whole(window, chunk, log, |file|)
      ensures ok ==> Payload(log) == file && Fills(window, log, |file|) && ackCount == Waits(log)
      ensures !ok ==> CutShort(file)
      ensures Heeded()
      ensures file == [] ==> ok
    {
      var off := 0;
      while off < |file|
        invariant Out(window, file, log, off, unacked, ackCount) && Valid() && Heeded()
        invariant Whole(window, chunk, log, |file|) && (off < |file| ==> InSlice(chunk, log) == 0)
      {
        ok, off := SendSlice(file, off, chunk);
        if !ok {
          return;
        }
      }
      assert file[..off] == file;
      ok := true;
    }

    /**
     The data phase of handleSend for one file, the first of its session, with the check that follows it. However it
     ends, what has gone out is a paced beginning of the file, with no octet behind a ZCRCW that was not answered by
     ZACK.
     */
    method SendFile(file: seq<byte>, chunk: nat) returns (outcome: Outcome)
      requires Valid() && unacked == 0 && ackCount == 0 && ackedOffset == 0 && log == [] && chunk > 0
      modifies this
      ensures Payload(log) <= file && Paced(window, 0, log, |file|) && Whole(window, chunk, log, |file|)
      ensures outcome != Rejected ==>
                && Payload(log) == file
                && ackCount == Waits(log) == (|file| + window - 1) / window
      ensures outcome == Rejected <==> !AllAcked((|file| + window - 1) / window)
      ensures outcome == Rejected ==>
                !Acked(ackCount) && Refused(log) && ackCount + 1 == Waits(log)
      ensures outcome == NeverAcknowledged <==> file == []
      ensures var n := (|file| + window - 1) / window;
              var confirmed := LastOffset(receiver, n);
              && (outcome == Confirmed <==> file != [] && AllAcked(n) && confirmed in {0, |file|})
              && (outcome.Incomplete? <==> file != [] && AllAcked(n) && confirmed !in {0, |file|})
              && (outcome.Incomplete? ==> outcome.confirmed == confirmed)
    {
      var ok := SendSlices(file, chunk);
      FillsIsPaced(window, log, |file|);
      if !ok {
        WaitsAtMost(window, 0, log, |file|);
        return Rejected;
      }
      FileWaits(window, log, |file|);
      if ackCount == 0 {
        return NeverAcknowledged;
      }
      if ackedOffset > 0 && ackedOffset != |file| {
        return Incomplete(ackedOffset);
      }
      return Confirmed;
    }
  }

  // ---------- the window is never exceeded ----------

  /**
   The octets sent since the last ZCRCW before the end of the log: those no ZACK has covered when the last goes out.
   */
  function InFlight(log: seq<Subpacket>, before: nat): nat {
    if log == [] then before
    else if |log| == 1 then before + |log[0].payload|
    else InFlight(log[1..], if log[0].endAck then 0 else before + |log[0].payload|)
  }

  /** At every moment of a paced transfer, at most a window's worth of octets is unacknowledged. */
  lemma {:induction false} WindowNeverExceeded(w: nat, pos: nat, log: seq<Subpacket>, total: nat, k: nat)
    requires w > 0 && Paced(w, pos, log, total) && pos + |Payload(log)| <= total && k <= |log|
    ensures InFlight(log[..k], pos % w) <= w
    decreases k
  {
    if k == 0 {
      assert log[..k] == [];
    } else if k == 1 {
      assert log[..k] == [log[0]];
    } else {
      var n := |log[0].payload|;
      Advance(w, pos, n);
      assert log[..k][1..] == log[1..][..k - 1];
      assert |log[1].payload| > 0;
      WindowNeverExceeded(w, pos + n, log[1..], total, k - 1);
    }
  }

  /** A whole file is waited for ceil(size / window) times: never if it is empty, at least once if it is not. */
  lemma FileWaits(w: nat, log: seq<Subpacket>, size: nat)
    requires w > 0 && Paced(w, 0, log, size) && |Payload(log)| == size
    ensures Waits(log) == (size + w - 1) / w
    ensures Waits(log) == 0 <==> size == 0
  {
    WaitsExactly(w, 0, log, size);
    if size == 0 {
      CeilOfNothing(w);
    } else {
      CeilOfSomething(w, size);
    }
  }

  lemma CeilOfNothing(w: nat)
    requires w > 0
    ensures (0 + w - 1) / w == 0 && 0 / w == 0
  {
    DivUnique(w, 0, w - 1);
    DivUnique(w, 0, 0);
  }

  lemma CeilOfSomething(w: nat, n: nat)
    requires w > 0 && n > 0
    ensures (n + w - 1) / w > 0 && 0 / w == 0
  {
    DivUnique(w, 0, 0);
    var q, r := (n + w - 1) / w, (n + w - 1) % w;
    assert n + w - 1 == w * q + r;
    assert q == 0 ==> w * q == 0;
  }
}
