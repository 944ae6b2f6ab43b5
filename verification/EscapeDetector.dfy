/**
 The `+++` escape detector of dataLoop in internal/server/session.go. It withholds escape characters that may be the
 start of an escape, and either consumes them (the caller escaped to command mode) or forwards them late.
 Times are clock readings in nanoseconds; None stands for Go's zero time, which is further back than any guard time.
 */
module EscapeDetection {
  import opened Bytes
  import opened SRegisterFile
  import opened TelnetFilters

  const BULK_CHUNK := 64
  const BULK_QUIET := 5_000_000_000

  datatype Settings = Settings(escapeChar: byte, guard: int, doubles: bool)

  datatype Detector = Detector(count: nat, lastEscape: int, lastBulk: Option<int>, lastInput: Option<int>)

  /** What the loop sees: an octet of client data, the arrival of a large chunk, or a read timeout. */
  datatype Event = Byte(b: byte, at: int) | Bulk(at: int) | Timeout(at: int)

  /** The detector, the data released to the BBS so far, and whether the caller has escaped. */
  datatype Progress = Progress(det: Detector, forwarded: seq<byte>, escaped: bool)

  predicate Since(last: Option<int>, now: int, d: int) {
    last.None? || now - last.value >= d
  }

  predicate MoreThan(last: Option<int>, now: int, d: int) {
    last.None? || now - last.value > d
  }

  /** This octet is examined for an escape rather than treated as data. */
  predicate Examined(cfg: Settings, d: Detector, e: Event) {
    e.Byte? && e.b == cfg.escapeChar && Since(d.lastBulk, e.at, BULK_QUIET)
  }

  /** The branch that restarts the count over characters still withheld. */
  predicate LateRestart(cfg: Settings, d: Detector, e: Event) {
    Examined(cfg, d, e) && d.count > 0 && e.at - d.lastEscape >= cfg.guard
  }

  function Advance(cfg: Settings, p: Progress, e: Event): Progress {
    var d := p.det;
    if p.escaped then p
    else match e
      case Bulk(at) => p.(det := d.(lastBulk := Some(at)))
      case Timeout(at) =>
        if d.count > 0 && at - d.lastEscape > cfg.guard then
          if d.count >= 3 then p.(escaped := true)
          else p.(det := d.(count := 0), forwarded := p.forwarded + Repeat(cfg.escapeChar, d.count))
        else p
      case Byte(b, at) =>
        if Examined(cfg, d, e) then
          if d.count == 0 && !MoreThan(d.lastInput, at, cfg.guard) then
            p.(det := d.(lastInput := Some(at)), forwarded := p.forwarded + [b])
          else if d.count > 0 && at - d.lastEscape < cfg.guard then
            p.(det := d.(count := d.count + 1, lastEscape := at, lastInput := Some(at)))
          else
            p.(det := d.(count := 1, lastEscape := at, lastInput := Some(at)))
        else
          p.(det := d.(count := 0, lastInput := Some(at)),
             forwarded := p.forwarded + Repeat(cfg.escapeChar, d.count) + [b])
  }

  function RunTrace(cfg: Settings, p: Progress, tr: seq<Event>): Progress {
    if tr == [] then p else Advance(cfg, RunTrace(cfg, p, Front(tr)), Last(tr))
  }

  function Received(tr: seq<Event>): seq<byte> {
    if tr == [] then [] else Received(Front(tr)) + if Last(tr).Byte? then [Last(tr).b] else []
  }

  lemma TraceOne(cfg: Settings, p: Progress, e: Event)
    ensures RunTrace(cfg, p, [e]) == Advance(cfg, p, e)
  {
    assert Front([e]) == [];
  }

  lemma {:induction false} TraceConcat(cfg: Settings, p: Progress, a: seq<Event>, b: seq<Event>)
    ensures RunTrace(cfg, p, a + b) == RunTrace(cfg, RunTrace(cfg, p, a), b)
  {
    if b == [] {
      assert a + b == a;
    } else {
      assert Front(a + b) == a + Front(b);
      TraceConcat(cfg, p, a, Front(b));
    }
  }

  // ---------- the loop itself ----------

  function Encode(cfg: Settings, s: seq<byte>): seq<byte> {
    if cfg.doubles then Double(s) else s
  }

  lemma EncodeConcat(cfg: Settings, a: seq<byte>, b: seq<byte>)
    ensures Encode(cfg, a + b) == Encode(cfg, a) + Encode(cfg, b)
  {
    DoubleConcat(a, b);
  }

  lemma EncodeOne(cfg: Settings, b: byte)
    ensures Encode(cfg, [b]) == if b == IAC && cfg.doubles then [IAC, IAC] else [b]
  {
    assert Front([b]) == [] && Double([]) == [];
    assert Double([b]) == [] + if b == IAC then [IAC, IAC] else [b];
  }

  lemma EncodeEmpty(cfg: Settings, s: seq<byte>)
    ensures Encode(cfg, s) == [] <==> s == []
  {
  }

  function ByteEvents(s: seq<byte>, clock: nat -> int): seq<Event> {
    seq(|s|, i requires 0 <= i < |s| => Byte(s[i], clock(i)))
  }

  /** The events of one read that yields the data `s`. */
  function ReadEvents(s: seq<byte>, bulkAt: int, clock: nat -> int): seq<Event> {
    (if |s| >= BULK_CHUNK then [Bulk(bulkAt)] else []) + ByteEvents(s, clock)
  }

  datatype Mode = DataMode | CommandMode | HungUp

  class DataLoop {
    const clientFilter: TelnetFilter
    const cfg: Settings
    var escapeCount: nat
    var lastEscapeTime: int
    var lastBulk: Option<int>
    var lastInput: Option<int>
    var mode: Mode
    var remote: seq<byte>           // everything written to the BBS
    ghost var forwarded: seq<byte>  // the same before 255s are doubled

    ghost predicate Valid()
      reads this
    {
      && cfg.escapeChar != IAC
      && (mode != HungUp ==> remote == Encode(cfg, forwarded))
    }

    function Det(): Detector
      reads this
    {
      Detector(escapeCount, lastEscapeTime, lastBulk, lastInput)
    }

    ghost function Snapshot(): Progress
      reads this
    {
      Progress(Det(), forwarded, mode == CommandMode)
    }

    constructor (filter: TelnetFilter, registers: SRegisters, doubles: bool, lastInput: Option<int>)
      requires registers.Valid()
      ensures Valid() && mode == DataMode && clientFilter == filter
      ensures cfg == Settings(registers.EscapeChar(), registers.EscapeGuardTime() * 1_000_000, doubles)
      ensures Det() == Detector(0, 0, None, lastInput) && forwarded == [] && remote == []
    {
      clientFilter := filter;
      cfg := Settings(registers.EscapeChar(), registers.EscapeGuardTime() * 1_000_000, doubles);
      escapeCount, lastEscapeTime, lastBulk := 0, 0, None;
      this.lastInput := lastInput;
      mode, remote, forwarded := DataMode, [], [];
    }

    method AppendRemote(out: seq<byte>, b: byte) returns (out': seq<byte>)
      ensures out' == out + Encode(cfg, [b])
    {
      EncodeOne(cfg, b);
      if b != IAC {
        return out + [b];
      }
      if cfg.doubles {
        return out + [IAC, IAC];
      }
      return out + [b];
    }

    /** Releases the withheld characters, in front of whatever follows. */
    method AppendPending(out: seq<byte>) returns (out': seq<byte>)
      ensures out' == out + Encode(cfg, Repeat(cfg.escapeChar, escapeCount))
    {
      out' := out;
      for i := 0 to escapeCount
        invariant out' == out + Encode(cfg, Repeat(cfg.escapeChar, i))
      {
        EncodeConcat(cfg, Repeat(cfg.escapeChar, i), [cfg.escapeChar]);
        out' := AppendRemote(out', cfg.escapeChar);
      }
    }

    /** The 100 ms read timeout. */
    method OnTimeout(now: int, writeOk: bool)
      requires Valid() && mode == DataMode
      modifies this
      ensures Valid()
      ensures mode != HungUp ==> Snapshot() == RunTrace(cfg, old(Snapshot()), [Timeout(now)])
      ensures mode == HungUp ==> !writeOk
      ensures old(escapeCount) > 0 && now - old(lastEscapeTime) > cfg.guard ==>
                if old(escapeCount) >= 3 then mode == CommandMode && remote == old(remote)
                else escapeCount == 0 && mode != CommandMode &&
                     (writeOk ==> remote == old(remote) + Encode(cfg, Repeat(cfg.escapeChar, old(escapeCount))))
      ensures !(old(escapeCount) > 0 && now - old(lastEscapeTime) > cfg.guard) ==> unchanged(this)
    {
      TraceOne(cfg, Snapshot(), Timeout(now));
      if escapeCount > 0 && now - lastEscapeTime > cfg.guard {
        if escapeCount >= 3 {
          mode := CommandMode;
          return;
        }
        var pending := AppendPending([]);
        ghost var released := Repeat(cfg.escapeChar, escapeCount);
        escapeCount := 0;
        if !writeOk {
          mode := HungUp;
          return;
        }
        EncodeConcat(cfg, forwarded, released);
        remote, forwarded := remote + pending, forwarded + released;
      }
    }

    /** One octet of a chunk, with the clock read for it. */
    method OnByte(b: byte, now: int, out: seq<byte>, ghost pre: seq<byte>)
      returns (out': seq<byte>, ghost pre': seq<byte>)
      requires Valid() && mode == DataMode && out == Encode(cfg, pre)
      modifies this`escapeCount, this`lastEscapeTime, this`lastInput
      ensures Valid() && out' == Encode(cfg, pre')
      ensures Progress(Det(), pre', false) == Advance(cfg, Progress(old(Det()), pre, false), Byte(b, now))
    {
      out', pre' := out, pre;
      if b == cfg.escapeChar && Since(lastBulk, now, BULK_QUIET) {
        if escapeCount == 0 {
          if MoreThan(lastInput, now, cfg.guard) {
            escapeCount := 1;
            lastEscapeTime := now;
          } else {
            out' := AppendRemote(out', b);
            EncodeConcat(cfg, pre', [b]);
            pre' := pre' + [b];
          }
        } else {
          if now - lastEscapeTime < cfg.guard {
            escapeCount := escapeCount + 1;
            lastEscapeTime := now;
          } else {
            escapeCount := 1;
            lastEscapeTime := now;
          }
        }
      } else {
        out' := AppendPending(out');
        EncodeConcat(cfg, pre', Repeat(cfg.escapeChar, escapeCount));
        pre' := pre' + Repeat(cfg.escapeChar, escapeCount);
        escapeCount := 0;
        out' := AppendRemote(out', b);
        EncodeConcat(cfg, pre', [b]);
        pre' := pre' + [b];
      }
      lastInput := Some(now);
    }

    /** The loop over the filtered octets of one read; what it queues for the BBS is `newly`, before doubling. */
    method ProcessChunk(filtered: seq<byte>, clock: nat -> int) returns (out: seq<byte>, ghost newly: seq<byte>)
      requires Valid() && mode == DataMode
      modifies this`escapeCount, this`lastEscapeTime, this`lastInput
      ensures Valid() && out == Encode(cfg, newly)
      ensures Progress(Det(), forwarded + newly, false) == RunTrace(cfg, old(Snapshot()), ByteEvents(filtered, clock))
    {
      out, newly := [], [];
      assert forwarded + newly == forwarded;
      ghost var events := ByteEvents(filtered, clock);
      for i := 0 to |filtered|
        invariant Valid() && out == Encode(cfg, newly)
        invariant Progress(Det(), forwarded + newly, false) == RunTrace(cfg, old(Snapshot()), events[..i])
      {
        assert Front(events[..i + 1]) == events[..i] && Last(events[..i + 1]) == Byte(filtered[i], clock(i));
        AdvanceFrames(cfg, Det(), forwarded, newly, events[i]);
        out, newly := OnByte(filtered[i], clock(i), out, newly);
      }
      assert events[..|filtered|] == events;
    }

    /** A single write of what is queued, if anything is. */
    method Write(out: seq<byte>, ghost newly: seq<byte>, writeOk: bool)
      requires Valid() && mode == DataMode && out == Encode(cfg, newly)
      modifies this`remote, this`forwarded, this`mode
      ensures Valid() && (mode == DataMode ==> forwarded == old(forwarded) + newly)
      ensures mode == DataMode || (mode == HungUp && !writeOk)
    {
      EncodeEmpty(cfg, newly);
      if |out| == 0 {
        assert forwarded + newly == forwarded;
      } else if writeOk {
        EncodeConcat(cfg, forwarded, newly);
        remote := remote + out;
        forwarded := forwarded + newly;
      } else {
        mode := HungUp;
      }
    }

    /** The detector over the data of one read. */
    method Detect(filtered: seq<byte>, bulkAt: int, clock: nat -> int, writeOk: bool)
      requires Valid() && mode == DataMode
      modifies this
      ensures Valid()
      ensures mode == DataMode ==> Snapshot() == RunTrace(cfg, old(Snapshot()), ReadEvents(filtered, bulkAt, clock))
      ensures lastBulk == if |filtered| >= 64 then Some(bulkAt) else old(lastBulk)
      ensures mode == DataMode || (mode == HungUp && !writeOk)
    {
      ghost var lead := if |filtered| >= BULK_CHUNK then [Bulk(bulkAt)] else [];
      if |filtered| >= BULK_CHUNK {
        lastBulk := Some(bulkAt);
        TraceOne(cfg, old(Snapshot()), Bulk(bulkAt));
      }
      TraceConcat(cfg, old(Snapshot()), lead, ByteEvents(filtered, clock));
      var out;
      ghost var newly;
      out, newly := ProcessChunk(filtered, clock);
      Write(out, newly, writeOk);
    }

    /** One successful read of raw client bytes: TELNET filter, detector, and a single write to the BBS. */
    method OnRead(buf: seq<byte>, bulkAt: int, clock: nat -> int, writeOk: bool) returns (responses: seq<byte>)
      requires Valid() && mode == DataMode
      modifies this, clientFilter
      ensures Valid() && mode != CommandMode
      ensures var o := TelnetFilters.Run(old(clientFilter.View()), buf);
              && clientFilter.View() == o.next && responses == o.responses
              && (mode == DataMode ==> Snapshot() == RunTrace(cfg, old(Snapshot()), ReadEvents(o.data, bulkAt, clock)))
              && lastBulk == if |o.data| >= 64 then Some(bulkAt) else old(lastBulk)
      ensures mode == HungUp ==> !writeOk
    {
      var filtered;
      filtered, responses := clientFilter.Filter(buf);
      Detect(filtered, bulkAt, clock, writeOk);
    }
  }

  /** A step only ever adds to what has been forwarded. */
  lemma AdvanceFrames(cfg: Settings, d: Detector, before: seq<byte>, pre: seq<byte>, e: Event)
    requires e.Byte?
    ensures var p := Advance(cfg, Progress(d, pre, false), e);
            Advance(cfg, Progress(d, before + pre, false), e) == p.(forwarded := before + p.forwarded)
  {
    var held := Repeat(cfg.escapeChar, d.count);
    assert before + pre + held + [e.b] == before + (pre + held + [e.b]);
    assert before + pre + [e.b] == before + (pre + [e.b]);
  }

  // ---------- conservation ----------

  function Flags(v: bool, n: nat): (r: seq<bool>)
    ensures |r| == n && forall i :: 0 <= i < n ==> r[i] == v
  {
    seq(n, _ => v)
  }

  /** For each octet received, whether it survives: a late restart overwrites the characters then withheld. */
  function Survives(cfg: Settings, p: Progress, tr: seq<Event>): seq<bool> {
    if tr == [] then []
    else
      var marks := Survives(cfg, p, Front(tr));
      var d := RunTrace(cfg, p, Front(tr)).det;
      Mark(cfg, d, Last(tr), marks)
  }

  /** The octets of `s` whose mark is set. */
  function Select(s: seq<byte>, marks: seq<bool>): seq<byte>
    requires |s| == |marks|
  {
    if s == [] then []
    else Select(Front(s), Front(marks)) + if Last(marks) then [Last(s)] else []
  }

  lemma {:induction false} SelectConcat(a: seq<byte>, b: seq<byte>, m: seq<bool>, n: seq<bool>)
    requires |a| == |m| && |b| == |n|
    ensures Select(a + b, m + n) == Select(a, m) + Select(b, n)
  {
    if b == [] {
      assert a + b == a && m + n == m;
    } else {
      assert Front(a + b) == a + Front(b) && Front(m + n) == m + Front(n);
      SelectConcat(a, Front(b), m, Front(n));
    }
  }

  lemma {:induction false} SelectAll(s: seq<byte>, v: bool)
    ensures Select(s, Flags(v, |s|)) == if v then s else []
  {
    if s == [] {
    } else {
      SelectAll(Front(s), v);
      assert Front(Flags(v, |s|)) == Flags(v, |s| - 1);
      assert s == Front(s) + [Last(s)];
    }
  }

  lemma {:induction false} SelectShrinks(s: seq<byte>, marks: seq<bool>)
    requires |s| == |marks|
    ensures |Select(s, marks)| <= |s|
    ensures Select(s, marks) == s <==> false !in marks
  {
    if s == [] {
    } else {
      SelectShrinks(Front(s), Front(marks));
      assert s == Front(s) + [Last(s)] && marks == Front(marks) + [Last(marks)];
    }
  }

  /** `received` and its marks split into what has been settled and the characters still withheld. */
  predicate Holding(cfg: Settings, p: Progress, received: seq<byte>, marks: seq<bool>,
                    settled: seq<byte>, fate: seq<bool>)
  {
    && received == settled + Repeat(cfg.escapeChar, p.det.count)
    && marks == fate + Flags(true, p.det.count)
    && |settled| == |fate|
    && p.forwarded == Select(settled, fate)
    && forall k :: 0 <= k < |fate| && !fate[k] ==> settled[k] == cfg.escapeChar
  }

  lemma {:induction false} HoldingKept(cfg: Settings, p: Progress, tr: seq<Event>)
    returns (settled: seq<byte>, fate: seq<bool>)
    requires p.det.count == 0 && p.forwarded == []
    requires tr != [] ==> !RunTrace(cfg, p, Front(tr)).escaped
    ensures Holding(cfg, RunTrace(cfg, p, tr), Received(tr), Survives(cfg, p, tr), settled, fate)
  {
    settled, fate := [], [];
    if tr == [] {
    } else {
      var t, e := Front(tr), Last(tr);
      EscapeIsFinal(cfg, p, t);
      settled, fate := HoldingKept(cfg, p, t);
      settled, fate := HoldingStep(cfg, RunTrace(cfg, p, t), e, Received(t), Survives(cfg, p, t), settled, fate);
      assert Received(t) + [] == Received(t);
    }
  }

  function Mark(cfg: Settings, d: Detector, e: Event, marks: seq<bool>): seq<bool> {
    if !e.Byte? then marks
    else if LateRestart(cfg, d, e) && d.count <= |marks| then
      marks[..|marks| - d.count] + Flags(false, d.count) + [true]
    else marks + [true]
  }

  lemma HoldingStep(cfg: Settings, q: Progress, e: Event, received: seq<byte>, marks: seq<bool>,
                    settled: seq<byte>, fate: seq<bool>)
    returns (settled': seq<byte>, fate': seq<bool>)
    requires !q.escaped && Holding(cfg, q, received, marks, settled, fate)
    ensures Holding(cfg, Advance(cfg, q, e), received + (if e.Byte? then [e.b] else []), Mark(cfg, q.det, e, marks),
                    settled', fate')
  {
    var c := q.det.count;
    var q' := Advance(cfg, q, e);
    assert received + [] == received;
    if LateRestart(cfg, q.det, e) {
      assert marks[..|marks| - c] == fate;
      settled', fate' := HoldRestart(cfg, q, received, settled, fate);
    } else if q'.det.count == 0 && (e.Byte? || c > 0) {
      settled', fate' := HoldRelease(cfg, q, received, marks, settled, fate, if e.Byte? then [e.b] else []);
      assert q.forwarded + Repeat(cfg.escapeChar, c) + [] == q.forwarded + Repeat(cfg.escapeChar, c);
      assert c == 0 ==> forall x: seq<byte> :: q.forwarded + Repeat(cfg.escapeChar, c) + x == q.forwarded + x;
      assert Flags(true, 1) == [true];
      assert marks + [] == marks;
    } else {
      settled', fate' := settled, fate;
      if e.Byte? {
        assert received + [e.b] == settled + (Repeat(cfg.escapeChar, c) + [e.b]);
        assert marks + [true] == fate + Flags(true, c + 1);
      }
    }
  }

  /** A new escape character takes the place of those withheld. */
  lemma HoldRestart(cfg: Settings, q: Progress, received: seq<byte>, settled: seq<byte>, fate: seq<bool>)
    returns (settled': seq<byte>, fate': seq<bool>)
    requires Holding(cfg, q, received, fate + Flags(true, q.det.count), settled, fate)
    ensures received + [cfg.escapeChar] == settled' + Repeat(cfg.escapeChar, 1)
    ensures fate + Flags(false, q.det.count) + [true] == fate' + Flags(true, 1)
    ensures |settled'| == |fate'| && q.forwarded == Select(settled', fate')
    ensures forall k :: 0 <= k < |fate'| && !fate'[k] ==> settled'[k] == cfg.escapeChar
  {
    var held := Repeat(cfg.escapeChar, q.det.count);
    SelectConcat(settled, held, fate, Flags(false, q.det.count));
    SelectAll(held, false);
    settled', fate' := settled + held, fate + Flags(false, q.det.count);
    assert Flags(true, 1) == [true] && Repeat(cfg.escapeChar, 1) == [cfg.escapeChar];
  }

  /** All withheld characters are released, in front of at most one more octet. */
  lemma HoldRelease(cfg: Settings, q: Progress, received: seq<byte>, marks: seq<bool>,
                    settled: seq<byte>, fate: seq<bool>, more: seq<byte>)
    returns (settled': seq<byte>, fate': seq<bool>)
    requires Holding(cfg, q, received, marks, settled, fate)
    ensures received + more == settled' + Repeat(cfg.escapeChar, 0)
    ensures marks + Flags(true, |more|) == fate' + Flags(true, 0)
    ensures |settled'| == |fate'|
    ensures Select(settled', fate') == q.forwarded + Repeat(cfg.escapeChar, q.det.count) + more
    ensures forall k :: 0 <= k < |fate'| && !fate'[k] ==> settled'[k] == cfg.escapeChar
  {
    var held, flags := Repeat(cfg.escapeChar, q.det.count), Flags(true, q.det.count);
    SelectConcat(settled, held, fate, flags);
    SelectAll(held, true);
    SelectConcat(received, more, marks, Flags(true, |more|));
    SelectAll(more, true);
    settled', fate' := received + more, marks + Flags(true, |more|);
  }

  /** An escape, once made, is final. */
  lemma EscapeIsFinal(cfg: Settings, p: Progress, tr: seq<Event>)
    ensures tr != [] && !RunTrace(cfg, p, tr).escaped ==> !RunTrace(cfg, p, Front(tr)).escaped
  {
  }

  /**
   Every octet received is forwarded once and in order, or is one of the last `count` characters still withheld, or
   is an escape character that a late restart overwrote. This holds after every event up to and including an escape.
   */
  lemma Conservation(cfg: Settings, p: Progress, tr: seq<Event>)
    requires p.det.count == 0 && p.forwarded == []
    requires tr != [] ==> !RunTrace(cfg, p, Front(tr)).escaped
    ensures |Survives(cfg, p, tr)| == |Received(tr)|
    ensures var q := RunTrace(cfg, p, tr);
            q.forwarded + Repeat(cfg.escapeChar, q.det.count) == Select(Received(tr), Survives(cfg, p, tr))
    ensures forall k :: 0 <= k < |Received(tr)| && !Survives(cfg, p, tr)[k] ==> Received(tr)[k] == cfg.escapeChar
  {
    var settled, fate := HoldingKept(cfg, p, tr);
    var held := Repeat(cfg.escapeChar, RunTrace(cfg, p, tr).det.count);
    SelectConcat(settled, held, fate, Flags(true, |held|));
    SelectAll(held, true);
  }

  /** Some event of the trace takes the late-restart branch. */
  predicate RestartsLate(cfg: Settings, p: Progress, tr: seq<Event>) {
    exists i :: 0 <= i < |tr| && LateRestart(cfg, RunTrace(cfg, p, tr[..i]).det, tr[i])
  }

  lemma RestartsLateExtends(cfg: Settings, p: Progress, t: seq<Event>, e: Event)
    ensures RestartsLate(cfg, p, t + [e]) <==> RestartsLate(cfg, p, t) || LateRestart(cfg, RunTrace(cfg, p, t).det, e)
  {
    var tr := t + [e];
    assert tr[..|t|] == t;
    assert forall i :: 0 <= i < |t| ==> tr[..i] == t[..i] && tr[i] == t[i];
    if RestartsLate(cfg, p, t) {
      var i :| 0 <= i < |t| && LateRestart(cfg, RunTrace(cfg, p, t[..i]).det, t[i]);
      assert LateRestart(cfg, RunTrace(cfg, p, tr[..i]).det, tr[i]);
    }
    if LateRestart(cfg, RunTrace(cfg, p, t).det, e) {
      assert LateRestart(cfg, RunTrace(cfg, p, tr[..|t|]).det, tr[|t|]);
    }
  }

  lemma {:induction false} AllSurvive(cfg: Settings, p: Progress, tr: seq<Event>)
    requires p.det.count == 0 && p.forwarded == []
    requires tr != [] ==> !RunTrace(cfg, p, Front(tr)).escaped
    ensures false !in Survives(cfg, p, tr) <==> !RestartsLate(cfg, p, tr)
  {
    if tr == [] {
    } else {
      var t, e := Front(tr), Last(tr);
      assert tr == t + [e];
      RestartsLateExtends(cfg, p, t, e);
      EscapeIsFinal(cfg, p, t);
      AllSurvive(cfg, p, t);
      var settled, fate := HoldingKept(cfg, p, t);
      var c, marks := RunTrace(cfg, p, t).det.count, Survives(cfg, p, t);
      if LateRestart(cfg, RunTrace(cfg, p, t).det, e) {
        assert Survives(cfg, p, tr)[|marks| - c] == false;
      }
    }
  }

  /** Nothing is lost, duplicated or reordered if and only if the late-restart branch is never taken. */
  lemma ConservationExact(cfg: Settings, p: Progress, tr: seq<Event>)
    requires p.det.count == 0 && p.forwarded == []
    requires tr != [] ==> !RunTrace(cfg, p, Front(tr)).escaped
    ensures var q := RunTrace(cfg, p, tr);
            q.forwarded + Repeat(cfg.escapeChar, q.det.count) == Received(tr) <==> !RestartsLate(cfg, p, tr)
  {
    Conservation(cfg, p, tr);
    AllSurvive(cfg, p, tr);
    SelectShrinks(Received(tr), Survives(cfg, p, tr));
  }

  /**
   The loss is real. With the default guard time of one second and a read timeout every 100 ms, two plus signs typed
   1.05 s apart reach the BBS as one: the timeout at 1.0 s is not yet late enough to release the first.
   */
  lemma TwoSlowPlusesLoseOne()
    ensures var cfg := Settings(43, 1_000_000_000, false);
            var p := Progress(Detector(0, 0, None, None), [], false);
            var tr := [Byte(43, 0), Timeout(1_000_000_000), Byte(43, 1_050_000_000), Timeout(2_050_000_001)];
            Received(tr) == [43, 43] && RunTrace(cfg, p, tr).forwarded == [43] && !RunTrace(cfg, p, tr).escaped
  {
    var cfg := Settings(43, 1_000_000_000, false);
    var p := Progress(Detector(0, 0, None, None), [], false);
    var t1 := [Byte(43, 0)];
    var t2 := t1 + [Timeout(1_000_000_000)];
    var t3 := t2 + [Byte(43, 1_050_000_000)];
    var t4 := t3 + [Timeout(2_050_000_001)];
    assert Front(t1) == [] && Front(t2) == t1 && Front(t3) == t2 && Front(t4) == t3;
    assert Received(t1) == [43];
    assert Received(t3) == [43] + [43];
    assert RunTrace(cfg, p, t2).det == Detector(1, 0, None, Some(0));
    assert RunTrace(cfg, p, t3).det.count == 1;
    assert t4 == [Byte(43, 0), Timeout(1_000_000_000), Byte(43, 1_050_000_000), Timeout(2_050_000_001)];
  }
}
