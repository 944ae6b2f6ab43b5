/** The whole path of a caller's bytes: browser message, proxy, TCP, client filter, escape detector, BBS. */
module BytePath {
  import opened Bytes
  import opened TelnetFilters
  import opened Proxy
  import opened EscapeDetection
  import EscapeExactness

  /** What the data loop is given: the raw bytes of a read with the clock readings taken over it, or a read timeout. */
  datatype Input = Read(buf: seq<byte>, bulkAt: int, clock: nat -> int) | Wait(at: int)

  function Reads(inputs: seq<Input>): seq<seq<byte>> {
    if inputs == [] then []
    else Reads(Front(inputs)) + if Last(inputs).Read? then [Last(inputs).buf] else []
  }

  /** The events the escape detector sees, the client filter starting as `f`. */
  function Events(f: Automaton, inputs: seq<Input>): seq<Event> {
    if inputs == [] then []
    else Events(f, Front(inputs)) + EventsOf(RunChunks(f, Reads(Front(inputs))).next, Last(inputs))
  }

  function EventsOf(f: Automaton, i: Input): seq<Event> {
    match i
    case Wait(at) => [Timeout(at)]
    case Read(buf, bulkAt, clock) => ReadEvents(Run(f, buf).data, bulkAt, clock)
  }

  lemma {:induction false} ReceivedConcat(a: seq<Event>, b: seq<Event>)
    ensures Received(a + b) == Received(a) + Received(b)
  {
    if b == [] {
      assert a + b == a;
    } else {
      assert Front(a + b) == a + Front(b);
      ReceivedConcat(a, Front(b));
    }
  }

  lemma {:induction false} ReceivedBytes(s: seq<byte>, clock: nat -> int)
    ensures Received(ByteEvents(s, clock)) == s
  {
    if s == [] {
    } else {
      assert Front(ByteEvents(s, clock)) == ByteEvents(Front(s), clock);
      ReceivedBytes(Front(s), clock);
      assert s == Front(s) + [Last(s)];
    }
  }

  lemma ReceivedRead(s: seq<byte>, bulkAt: int, clock: nat -> int)
    ensures Received(ReadEvents(s, bulkAt, clock)) == s
  {
    ReceivedBytes(s, clock);
    var bulk := [Bulk(bulkAt)];
    assert Front(bulk) == [] && Received(bulk) == [];
    ReceivedConcat(bulk, ByteEvents(s, clock));
    assert [] + ByteEvents(s, clock) == ByteEvents(s, clock) && [] + s == s;
  }

  /** The detector is given exactly what the filter lets through, however the stream was cut into reads. */
  lemma {:induction false} DetectorSeesFiltered(f: Automaton, inputs: seq<Input>)
    ensures Received(Events(f, inputs)) == RunChunks(f, Reads(inputs)).data
  {
    if inputs == [] {
    } else {
      var before, i := Reads(Front(inputs)), Last(inputs);
      DetectorSeesFiltered(f, Front(inputs));
      var g := RunChunks(f, before).next;
      ReceivedConcat(Events(f, Front(inputs)), EventsOf(g, i));
      match i {
        case Wait(at) =>
          assert before + [] == before;
          assert Front([Timeout(at)]) == [] && Received([Timeout(at)]) == [];
        case Read(buf, bulkAt, clock) =>
          assert Front(before + [buf]) == before && Last(before + [buf]) == buf;
          ReceivedRead(Run(g, buf).data, bulkAt, clock);
      }
    }
  }

  /** The reads of `inputs` bring exactly what the proxy sends for `ms`, and each resize in it closes. */
  predicate Carries(inputs: seq<Input>, ms: seq<Message>) {
    ResizesClose(ms) && Flatten(Reads(inputs)) == Wire(ms)
  }

  /**
   The client-side layers cancel: from any filter between commands, the detector is given the data and nothing else.
   */
  lemma DetectorSeesData(f: Automaton, ms: seq<Message>, inputs: seq<Input>)
    requires Proxy.Idle(f) && Carries(inputs, ms)
    ensures Received(Events(f, inputs)) == DataOf(ms)
    ensures RunChunks(f, Reads(inputs)).responses == [] && Proxy.Idle(RunChunks(f, Reads(inputs)).next)
  {
    DetectorSeesFiltered(f, inputs);
    ChunkingIndependence(f, Reads(inputs));
    LayersCancel(f, ms);
  }

  /** What a BBS makes of the bytes sent to it, when the gateway was right about whether it speaks TELNET. */
  function BbsReads(cfg: Settings, wire: seq<byte>): seq<byte> {
    if cfg.doubles then Undouble(wire) else wire
  }

  /** What the BBS has, once the characters still withheld have reached it too. */
  function BbsGets(cfg: Settings, q: Progress): seq<byte> {
    BbsReads(cfg, Encode(cfg, q.forwarded)) + Repeat(cfg.escapeChar, q.det.count)
  }

  /**
   End to end. Input mixed with window-size messages, cut into any reads with any timeouts between them: the BBS gets
   exactly what was typed and uploaded, up to the characters still withheld, if and only if no message of it was misread
   as a resize and no escape character came late after a withheld one.
   */
  lemma EndToEnd(cfg: Settings, p: Progress, f: Automaton, intents: seq<Intent>, inputs: seq<Input>)
    requires Proxy.Idle(f) && Carries(inputs, AllSent(intents))
    requires p.det.count == 0 && p.forwarded == []
    requires var tr := Events(f, inputs); tr != [] ==> !RunTrace(cfg, p, Front(tr)).escaped
    ensures var tr := Events(f, inputs);
            BbsGets(cfg, RunTrace(cfg, p, tr)) == Meant(intents) <==> NoneMisread(intents) && !RestartsLate(cfg, p, tr)
  {
    var tr := Events(f, inputs);
    DetectorSeesData(f, AllSent(intents), inputs);
    MisreadLoses(intents);
    Conservation(cfg, p, tr);
    SelectShrinks(Received(tr), Survives(cfg, p, tr));
    ConservationExact(cfg, p, tr);
    UndoubleDouble(RunTrace(cfg, p, tr).forwarded);
  }

  lemma {:induction false} PlainDataPasses(cfg: Settings, p: Progress, tr: seq<Event>)
    requires p.det.count == 0 && p.forwarded == [] && !p.escaped
    requires cfg.escapeChar !in Received(tr)
    ensures var q := RunTrace(cfg, p, tr); q.det.count == 0 && !q.escaped && q.forwarded == Received(tr)
  {
    if tr == [] {
    } else {
      var t, e := Front(tr), Last(tr);
      assert Received(tr) == Received(t) + if e.Byte? then [e.b] else [];
      assert forall b :: b in Received(t) ==> b in Received(tr);
      assert e.Byte? ==> Last(Received(tr)) == e.b && e.b in Received(tr);
      PlainDataPasses(cfg, p, t);
      var f := RunTrace(cfg, p, t).forwarded;
      assert f + Repeat(cfg.escapeChar, 0) == f;
    }
  }

  /**
   End-to-end transparency: data free of the escape character reaches the BBS whole, unchanged and at once, whether the
   BBS takes pairs of 255s for one, runs a TELNET filter of its own, or is raw.
   */
  lemma Transparency(cfg: Settings, p: Progress, f: Automaton, ms: seq<Message>, inputs: seq<Input>)
    requires Proxy.Idle(f) && Carries(inputs, ms)
    requires p.det.count == 0 && p.forwarded == [] && !p.escaped
    requires cfg.escapeChar !in DataOf(ms)
    ensures var q := RunTrace(cfg, p, Events(f, inputs));
            && !q.escaped && q.det.count == 0
            && BbsReads(cfg, Encode(cfg, q.forwarded)) == DataOf(ms)
            && (cfg.doubles ==> Run(CLIENT_FILTER, Encode(cfg, q.forwarded)).data == DataOf(ms))
  {
    DetectorSeesData(f, ms, inputs);
    PlainDataPasses(cfg, p, Events(f, inputs));
    UndoubleDouble(DataOf(ms));
    DoubledRoundTrip(CLIENT_FILTER, DataOf(ms));
  }

  // ---------- the data loop, run ----------

  lemma {:induction false} EventsPrefix(f: Automaton, inputs: seq<Input>, k: nat)
    requires k <= |inputs|
    ensures |Events(f, inputs[..k])| <= |Events(f, inputs)|
    ensures Events(f, inputs[..k]) == Events(f, inputs)[..|Events(f, inputs[..k])|]
    decreases |inputs|
  {
    if k == |inputs| {
      assert inputs[..k] == inputs;
    } else {
      assert Front(inputs)[..k] == inputs[..k];
      EventsPrefix(f, Front(inputs), k);
    }
  }

  /** What the client filter has done with one input. */
  function Filtered(f: Automaton, i: Input): Outcome {
    if i.Read? then Run(f, i.buf) else Quiet(f)
  }

  lemma FilterOne(f: Automaton, before: seq<Input>, i: Input)
    ensures var o := RunChunks(f, Reads(before));
            var q := RunChunks(f, Reads(before + [i]));
            q.next == Filtered(o.next, i).next && q.responses == o.responses + Filtered(o.next, i).responses
  {
    var inputs, bufs := before + [i], Reads(before);
    assert Front(inputs) == before && bufs + [] == bufs;
    if i.Read? {
      assert Front(bufs + [i.buf]) == bufs && Last(bufs + [i.buf]) == i.buf;
    } else {
      assert RunChunks(f, bufs).responses + [] == RunChunks(f, bufs).responses;
    }
  }

  /** The caller has come through `inputs` to `q`, and did not escape before the last event of them. */
  predicate Reached(cfg: Settings, p: Progress, f: Automaton, inputs: seq<Input>, q: Progress) {
    var tr := Events(f, inputs);
    q == RunTrace(cfg, p, tr) && (tr != [] ==> !RunTrace(cfg, p, Front(tr)).escaped)
  }

  lemma ReachOne(cfg: Settings, p: Progress, f: Automaton, before: seq<Input>, q: Progress, i: Input, q': Progress)
    requires Reached(cfg, p, f, before, q) && !q.escaped
    requires q' == RunTrace(cfg, q, EventsOf(RunChunks(f, Reads(before)).next, i))
    requires q'.escaped ==> i.Wait?
    ensures Reached(cfg, p, f, before + [i], q')
  {
    var tr, more := Events(f, before), EventsOf(RunChunks(f, Reads(before)).next, i);
    assert Front(before + [i]) == before;
    TraceConcat(cfg, p, tr, more);
    if q'.escaped {
      assert Front(tr + more) == tr;
    } else {
      EscapeIsFinal(cfg, p, tr + more);
    }
  }

  /** Where the loop is after `inputs`: filter and answers, and the detector's progress unless a write has failed. */
  predicate Through(cfg: Settings, p: Progress, f: Automaton, inputs: seq<Input>, g: Automaton, answers: seq<byte>,
                    q: Progress, hungUp: bool)
  {
    var o := RunChunks(f, Reads(inputs));
    g == o.next && answers == o.responses && (!hungUp ==> Reached(cfg, p, f, inputs, q))
  }

  lemma ThroughNothing(cfg: Settings, p: Progress, f: Automaton)
    ensures Through(cfg, p, f, [], f, [], p, false)
  {
  }

  /** One input takes filter and detector from g and q to g' and q', unless a write fails. */
  predicate Turned(cfg: Settings, i: Input, g: Automaton, q: Progress, g': Automaton, more: seq<byte>, q': Progress,
                   hungUp: bool)
  {
    && g' == Filtered(g, i).next && more == Filtered(g, i).responses
    && (!hungUp ==> q' == RunTrace(cfg, q, EventsOf(g, i)) && (q'.escaped ==> i.Wait?))
  }

  lemma ThroughOne(cfg: Settings, p: Progress, f: Automaton, before: seq<Input>, g: Automaton, answers: seq<byte>,
                   q: Progress, i: Input, g': Automaton, more: seq<byte>, q': Progress, hungUp: bool)
    requires Through(cfg, p, f, before, g, answers, q, false) && !q.escaped
    requires Turned(cfg, i, g, q, g', more, q', hungUp)
    ensures Through(cfg, p, f, before + [i], g', answers + more, q', hungUp)
  {
    FilterOne(f, before, i);
    if !hungUp {
      ReachOne(cfg, p, f, before, q, i, q');
    }
  }

  /** One turn of the loop. */
  method OneInput(loop: DataLoop, i: Input, writeOk: bool) returns (answers: seq<byte>)
    requires loop.Valid() && loop.mode == DataMode
    modifies loop, loop.clientFilter
    ensures loop.Valid()
    ensures Turned(loop.cfg, i, old(loop.clientFilter.View()), old(loop.Snapshot()), loop.clientFilter.View(), answers,
                   loop.Snapshot(), loop.mode == HungUp)
    ensures loop.mode == HungUp ==> !writeOk
  {
    match i {
      case Wait(at) =>
        loop.OnTimeout(at, writeOk);
        answers := [];
      case Read(buf, bulkAt, clock) =>
        answers := loop.OnRead(buf, bulkAt, clock, writeOk);
    }
  }

  method Turn(loop: DataLoop, i: Input, writeOk: bool, answers: seq<byte>, ghost p: Progress, ghost f: Automaton,
              ghost seen: seq<Input>)
    returns (answers': seq<byte>)
    requires loop.Valid() && loop.mode == DataMode
    requires Through(loop.cfg, p, f, seen, loop.clientFilter.View(), answers, loop.Snapshot(), false)
    modifies loop, loop.clientFilter
    ensures loop.Valid() && (loop.mode == HungUp ==> !writeOk)
    ensures Through(loop.cfg, p, f, seen + [i], loop.clientFilter.View(), answers', loop.Snapshot(),
                    loop.mode == HungUp)
  {
    ghost var q, g := loop.Snapshot(), loop.clientFilter.View();
    var more := OneInput(loop, i, writeOk);
    ThroughOne(loop.cfg, p, f, seen, g, answers, q, i,
               loop.clientFilter.View(), more, loop.Snapshot(), loop.mode == HungUp);
    answers' := answers + more;
  }

  /**
   The loop of dataLoop over reads and timeouts, until the caller has escaped or a write has failed: what it leaves
   behind is what the trace of all that came in says.
   */
  method RunLoop(loop: DataLoop, inputs: seq<Input>, writeOk: nat -> bool) returns (done: nat, answers: seq<byte>)
    requires loop.Valid() && loop.mode == DataMode
    modifies loop, loop.clientFilter
    ensures loop.Valid() && done <= |inputs|
    ensures loop.mode == DataMode ==> done == |inputs|
    ensures loop.mode == HungUp ==> done > 0 && !writeOk(done - 1)
    ensures Through(loop.cfg, old(loop.Snapshot()), old(loop.clientFilter.View()), inputs[..done],
                    loop.clientFilter.View(), answers, loop.Snapshot(), loop.mode == HungUp)
  {
    done, answers := 0, [];
    ghost var cfg, f, p, seen := loop.cfg, loop.clientFilter.View(), loop.Snapshot(), [];
    ThroughNothing(cfg, p, f);
    while done < |inputs| && loop.mode == DataMode
      invariant loop.Valid() && done <= |inputs| && seen == inputs[..done]
      invariant loop.mode == HungUp ==> done > 0 && !writeOk(done - 1)
      invariant Through(cfg, p, f, seen, loop.clientFilter.View(), answers, loop.Snapshot(), loop.mode == HungUp)
      decreases |inputs| - done
    {
      answers := Turn(loop, inputs[done], writeOk(done), answers, p, f, seen);
      seen := seen + [inputs[done]];
      done := done + 1;
    }
  }

  /** The last input is a timeout more than the guard time after the last octet. */
  predicate EndsQuietly(cfg: Settings, p: Progress, f: Automaton, inputs: seq<Input>) {
    && inputs != [] && Last(inputs).Wait?
    && MoreThan(EscapeExactness.LastByteAt(Events(f, Front(inputs)), p.det.lastInput), Last(inputs).at, cfg.guard)
  }

  /** Then nothing is withheld any more, unless the caller has escaped. */
  lemma QuietSettles(cfg: Settings, p: Progress, f: Automaton, inputs: seq<Input>)
    requires p.det.count == 0 && EndsQuietly(cfg, p, f, inputs) && !RunTrace(cfg, p, Events(f, inputs)).escaped
    ensures RunTrace(cfg, p, Events(f, inputs)).det.count == 0
  {
    var tr := Events(f, Front(inputs));
    var at := Last(inputs).at;
    assert Events(f, inputs) == tr + [Timeout(at)];
    EscapeIsFinal(cfg, p, tr + [Timeout(at)]);
    assert Front(tr + [Timeout(at)]) == tr;
    if p.escaped {
      EscapedFromStart(cfg, p, tr);
    }
    EscapeExactness.TimeoutSettles(cfg, p, tr, at);
  }

  lemma {:induction false} EscapedFromStart(cfg: Settings, p: Progress, tr: seq<Event>)
    requires p.escaped
    ensures RunTrace(cfg, p, tr).escaped
  {
    if tr == [] {
    } else {
      EscapedFromStart(cfg, p, Front(tr));
    }
  }

  /**
   The data loop as a browser and a BBS see it. Taken up with the client filter between commands, it answers the browser
   nothing; what the BBS makes of the bytes written to it, with the characters withheld, is what was typed and uploaded
   if and only if nothing was misread and no restart came late; none are withheld once a timeout comes late enough after
   the last octet; and input without the escape character is all written at once, without leaving data mode.
   */
  method Relay(loop: DataLoop, ghost intents: seq<Intent>, inputs: seq<Input>, writeOk: nat -> bool)
    returns (done: nat, answers: seq<byte>)
    requires loop.Valid() && loop.mode == DataMode && loop.escapeCount == 0 && loop.forwarded == []
    requires Proxy.Idle(loop.clientFilter.View()) && Carries(inputs, AllSent(intents))
    modifies loop, loop.clientFilter
    ensures loop.Valid() && done <= |inputs|
    ensures done == |inputs| ==> answers == []
    ensures done == |inputs| && loop.mode != HungUp ==>
              (BbsReads(loop.cfg, loop.remote) + Repeat(loop.cfg.escapeChar, loop.escapeCount) == Meant(intents)
               <==> NoneMisread(intents) &&
                    !RestartsLate(loop.cfg, old(loop.Snapshot()), Events(old(loop.clientFilter.View()), inputs)))
    ensures done == |inputs| && loop.mode == DataMode &&
            EndsQuietly(loop.cfg, old(loop.Snapshot()), old(loop.clientFilter.View()), inputs) ==>
              && loop.escapeCount == 0
              && (BbsReads(loop.cfg, loop.remote) == Meant(intents) <==>
                    NoneMisread(intents) &&
                    !RestartsLate(loop.cfg, old(loop.Snapshot()), Events(old(loop.clientFilter.View()), inputs)))
    ensures loop.cfg.escapeChar !in DataOf(AllSent(intents)) && (forall k :: writeOk(k)) ==>
              && done == |inputs| && loop.mode == DataMode
              && BbsReads(loop.cfg, loop.remote) == DataOf(AllSent(intents))
  {
    ghost var f, p := loop.clientFilter.View(), loop.Snapshot();
    DetectorSeesData(f, AllSent(intents), inputs);
    done, answers := RunLoop(loop, inputs, writeOk);
    assert done == |inputs| ==> inputs[..done] == inputs;
    if done == |inputs| && loop.mode != HungUp {
      EndToEnd(loop.cfg, p, f, intents, inputs);
      if EndsQuietly(loop.cfg, p, f, inputs) && loop.mode == DataMode {
        QuietSettles(loop.cfg, p, f, inputs);
        assert BbsReads(loop.cfg, loop.remote) + Repeat(loop.cfg.escapeChar, 0) == BbsReads(loop.cfg, loop.remote);
      }
    }
    if loop.cfg.escapeChar !in DataOf(AllSent(intents)) && loop.mode != HungUp {
      Transparency(loop.cfg, p, f, AllSent(intents), inputs);
      EventsPrefix(f, inputs, done);
      if loop.mode == CommandMode {
        EscapeExactness.EscapedStays(loop.cfg, p, Events(f, inputs), |Events(f, inputs[..done])|);
      }
    }
  }
}
