/**
 The browser-to-gateway half of web/server.js: every WebSocket message becomes either a window-size
 subnegotiation (section 2 of RFC 1073) or data with its 255s doubled.
 */
module Proxy {
  import opened Bytes
  import opened TelnetFilters

  // ---------- escapeIAC ----------

  function CountIac(s: seq<byte>): (n: nat) {
    if s == [] then 0 else CountIac(Front(s)) + (if Last(s) == IAC then 1 else 0)
  }

  lemma {:induction false} DoubleLength(s: seq<byte>)
    ensures |Double(s)| == |s| + CountIac(s)
    ensures CountIac(s) == 0 ==> Double(s) == s
  {
    if s == [] {
    } else {
      assert s == Front(s) + [Last(s)];
      DoubleLength(Front(s));
    }
  }

  lemma {:induction false} DoublePrefix(s: seq<byte>, i: nat)
    requires i < |s|
    ensures Double(s[..i + 1]) == Double(s[..i]) + if s[i] == IAC then [IAC, IAC] else [s[i]]
    ensures |Double(s[..i + 1])| <= |Double(s)|
    decreases |s| - i
  {
    assert Front(s[..i + 1]) == s[..i];
    if i + 1 < |s| {
      DoublePrefix(s, i + 1);
    } else {
      assert s[..i + 1] == s;
    }
  }

  /** Counts, then fills a buffer of exactly the right size; a buffer without 255s is handed back as it is. */
  method EscapeIac(buf: array<byte>) returns (out: array<byte>)
    ensures out[..] == Double(buf[..])
    ensures out == buf <==> IAC !in buf[..]
    ensures out != buf ==> fresh(out)
  {
    var hits := 0;
    for i := 0 to buf.Length
      invariant hits == CountIac(buf[..i])
      invariant hits == 0 <==> IAC !in buf[..i]
    {
      assert Front(buf[..i + 1]) == buf[..i];
      if buf[i] == IAC {
        hits := hits + 1;
      }
    }
    assert buf[..buf.Length] == buf[..];
    DoubleLength(buf[..]);
    if hits == 0 {
      return buf;
    }
    out := new byte[buf.Length + hits];
    var j := 0;
    for i := 0 to buf.Length
      invariant j == |Double(buf[..i])| <= out.Length == |Double(buf[..])|
      invariant out[..j] == Double(buf[..i])
    {
      DoublePrefix(buf[..], i);
      assert buf[..][..i] == buf[..i] && buf[..][..i + 1] == buf[..i + 1];
      out[j] := buf[i];
      j := j + 1;
      if buf[i] == IAC {
        out[j] := IAC;
        j := j + 1;
      }
    }
    assert buf[..buf.Length] == buf[..];
    assert out[..out.Length] == out[..];
  }

  // ---------- the message multiplexer ----------

  datatype Message = Message(payload: seq<byte>, isBinary: bool)

  predicate IsResize(m: Message) {
    m.isBinary && |m.payload| >= 5 && m.payload[0] == 0
  }

  function NawsFrame(size: seq<byte>): seq<byte> {
    [IAC, SB, NAWS] + size + [IAC, SE]
  }

  /** The two dimensions as they are sent, high octet first. */
  function Octets(cols: nat, rows: nat): (size: seq<byte>)
    ensures |size| == 4
  {
    [(cols / 256) % 256, cols % 256, (rows / 256) % 256, rows % 256]
  }

  /** What one message puts on the connection to the gateway. */
  function Frame(m: Message): seq<byte> {
    if IsResize(m) then
      NawsFrame(Octets(m.payload[1] as int * 256 + m.payload[2], m.payload[3] as int * 256 + m.payload[4]))
    else
      Double(m.payload)
  }

  function Wire(ms: seq<Message>): seq<byte> {
    if ms == [] then [] else Wire(Front(ms)) + Frame(Last(ms))
  }

  /** The messages that are passed on as data: all that are not read as a resize. */
  function DataOf(ms: seq<Message>): seq<byte> {
    if ms == [] then [] else DataOf(Front(ms)) + if IsResize(Last(ms)) then [] else Last(ms).payload
  }

  /**
   When the size octets of a frame, sent undoubled, leave the frame intact. A 255 among them must be followed by
   another one; otherwise the subnegotiation ends there, and what is left of it must be nothing or a lone command.
   */
  predicate Closes(size: seq<byte>) {
    if size == [] then true
    else if size[0] != IAC then Closes(size[1..])
    else if |size| == 1 then false
    else if size[1] == IAC then Closes(size[2..])
    else |size| == 2 || (|size| == 4 && size[2] == IAC && SE <= size[3] < SB)
  }

  predicate ResizesClose(ms: seq<Message>) {
    forall m :: m in ms && IsResize(m) ==> Closes(m.payload[1..5])
  }

  /** A client-facing filter between commands. */
  predicate Idle(f: Automaton) {
    f.state == Data && !f.learnPeer
  }

  predicate Invisible(o: Outcome) {
    Idle(o.next) && o.data == [] && o.responses == []
  }

  lemma RunHead(f: Automaton, s: seq<byte>)
    requires s != []
    ensures Run(f, s) == Then(Step(f, s[0]), Run(Step(f, s[0]).next, s[1..]))
  {
    assert s == [s[0]] + s[1..];
    RunOne(f, s[0]);
    Homomorphism(f, [s[0]], s[1..]);
  }

  lemma InvisibleThen(f: Automaton, s: seq<byte>)
    requires s != []
    requires Step(f, s[0]).data == [] && Step(f, s[0]).responses == []
    ensures Invisible(Run(f, s)) <==> Invisible(Run(Step(f, s[0]).next, s[1..]))
  {
    RunHead(f, s);
    QuietThen(Step(f, s[0]), Run(Step(f, s[0]).next, s[1..]));
  }

  lemma QuietThen(o: Outcome, p: Outcome)
    requires o.data == [] && o.responses == []
    ensures Invisible(Then(o, p)) <==> Invisible(p)
  {
    assert [] + p.data == p.data && [] + p.responses == p.responses;
  }

  lemma VisibleThen(f: Automaton, s: seq<byte>)
    requires s != []
    requires Step(f, s[0]).data != [] || Step(f, s[0]).responses != []
    ensures !Invisible(Run(f, s))
  {
    RunHead(f, s);
  }

  /** The end of a frame, IAC SE, from each state a malformed frame can be in. */
  lemma FrameEnd(f: Automaton)
    requires !f.learnPeer
    requires f.state == SbData ==> |f.optData| >= 1 && f.optData[0] == NAWS
    requires |f.optData| + 1 < MAX_OPT_DATA
    ensures Invisible(Run(f, [IAC, SE])) <==> f.state in {SbData, Data}
  {
    var s := [IAC, SE];
    assert s[1..] == [SE];
    var o := Step(f, IAC);
    RunOne(o.next, SE);
    if o.data != [] || o.responses != [] {
      VisibleThen(f, s);
    } else {
      InvisibleThen(f, s);
      FrameEndStates(f);
    }
  }

  lemma FrameEndStates(f: Automaton)
    requires !f.learnPeer && |f.optData| + 1 < MAX_OPT_DATA
    requires f.state == SbData ==> |f.optData| >= 1 && f.optData[0] == NAWS
    requires Step(f, IAC).data == [] && Step(f, IAC).responses == []
    ensures Invisible(Step(Step(f, IAC).next, SE)) <==> f.state in {SbData, Data}
    ensures f.state != Iac
  {
  }

  lemma EarlyOne(f: Automaton, b: byte)
    requires f.state == Data && !f.learnPeer && |f.optData| + 1 < MAX_OPT_DATA
    ensures !Invisible(Run(f, [b] + [IAC, SE]))
  {
    EarlyOctet(f, b, [IAC, SE]);
    FrameEnd(f.(state := Iac));
  }

  lemma EarlyTwo(f: Automaton, b: byte, c: byte)
    requires f.state == Data && !f.learnPeer && |f.optData| + 1 < MAX_OPT_DATA
    ensures Invisible(Run(f, [b] + [c, IAC, SE])) <==> b == IAC && SE <= c < SB
  {
    EarlyOctet(f, b, [c, IAC, SE]);
    EarlyCommand(f.(state := Iac), c);
  }

  /** The tail of a frame after its subnegotiation has ended early. */
  lemma EarlyEnd(f: Automaton, rest: seq<byte>)
    requires f.state == Data && !f.learnPeer && |rest| <= 2 && |f.optData| + 1 < MAX_OPT_DATA
    ensures Invisible(Run(f, rest + [IAC, SE])) <==>
            rest == [] || (|rest| == 2 && rest[0] == IAC && SE <= rest[1] < SB)
  {
    if rest == [] {
      assert rest + [IAC, SE] == [IAC, SE];
      FrameEnd(f);
    } else if |rest| == 1 {
      assert rest == [rest[0]];
      EarlyOne(f, rest[0]);
    } else {
      assert rest + [IAC, SE] == [rest[0]] + [rest[1], IAC, SE];
      EarlyTwo(f, rest[0], rest[1]);
    }
  }

  /** In the data state anything but a 255 is data; a 255 goes by, for the moment. */
  lemma EarlyOctet(f: Automaton, b: byte, rest: seq<byte>)
    requires f.state == Data && !f.learnPeer
    ensures Invisible(Run(f, [b] + rest)) <==> b == IAC && Invisible(Run(f.(state := Iac), rest))
  {
    var s := [b] + rest;
    assert s[1..] == rest;
    if b == IAC {
      InvisibleThen(f, s);
    } else {
      VisibleThen(f, s);
    }
  }

  lemma EarlyCommand(g: Automaton, b: byte)
    requires g.state == Iac && !g.learnPeer && |g.optData| + 1 < MAX_OPT_DATA
    ensures Invisible(Run(g, [b, IAC, SE])) <==> SE <= b < SB
  {
    var s := [b, IAC, SE];
    assert s[1..] == [IAC, SE];
    var o := Step(g, b);
    if b == IAC || b < SE {
      VisibleThen(g, s);
    } else {
      InvisibleThen(g, s);
      FrameEnd(o.next);
    }
  }

  /** From inside the subnegotiation, the rest of the frame is invisible exactly when it closes. */
  lemma {:induction false} ClosesExactly(f: Automaton, size: seq<byte>)
    requires f.state == SbData && !f.learnPeer && |size| <= 4
    requires |f.optData| >= 1 && f.optData[0] == NAWS && |f.optData| + |size| + 1 < MAX_OPT_DATA
    ensures Invisible(Run(f, size + [IAC, SE])) <==> Closes(size)
    decreases |size|
  {
    var s := size + [IAC, SE];
    if size == [] {
      assert s == [IAC, SE];
      FrameEnd(f);
    } else {
      assert s[1..] == size[1..] + [IAC, SE];
      InvisibleThen(f, s);
      var g := Step(f, size[0]).next;
      if size[0] != IAC {
        ClosesExactly(g, size[1..]);
      } else if |size| == 1 {
        assert s[1..] == [IAC, SE];
        FrameEnd(g);
      } else {
        var s1 := s[1..];
        assert s1[0] == size[1] && s1[1..] == size[2..] + [IAC, SE];
        InvisibleThen(g, s1);
        if size[1] == IAC {
          ClosesExactly(Step(g, IAC).next, size[2..]);
        } else {
          EarlyEnd(Step(g, size[1]).next, size[2..]);
        }
      }
    }
  }

  /** A window-size frame goes by unnoticed if and only if its size octets close it. */
  lemma NawsInvisibleExactly(f: Automaton, size: seq<byte>)
    requires Idle(f) && |size| == 4
    ensures Invisible(Run(f, NawsFrame(size))) <==> Closes(size)
  {
    var s := NawsFrame(size);
    assert s[1..] == [SB, NAWS] + size + [IAC, SE];
    assert s[1..][1..] == [NAWS] + size + [IAC, SE];
    assert s[1..][1..][1..] == size + [IAC, SE];
    InvisibleThen(f, s);
    var f1 := f.(state := Iac);
    InvisibleThen(f1, s[1..]);
    var f2 := f1.(state := Sb, optData := []);
    InvisibleThen(f2, s[1..][1..]);
    ClosesExactly(f2.(optData := [] + [NAWS], state := SbData), size);
  }

  /** No octet of the size is 255: the ordinary case. */
  lemma {:induction false} PlainSizeCloses(size: seq<byte>)
    requires IAC !in size
    ensures Closes(size)
  {
    if size == [] {
    } else {
      PlainSizeCloses(size[1..]);
    }
  }

  /** What is left of a frame that an undoubled 255 has ended early. */
  lemma LeakEnd(g: Automaton)
    requires g.state == SbIac && !g.learnPeer
    ensures 24 in Run(g, [0] + ([24] + [IAC, SE])).data
  {
    var h := g.(state := Data);
    RunOne(g, 0);
    AfterQuiet(g, [0], h, [24] + [IAC, SE]);
    RunFront(h, 24, [IAC, SE]);
  }

  /** A terminal exactly 255 columns wide and 24 rows high leaks its row count into the data, as a CAN. */
  lemma WideTerminalLeaks()
    ensures !Closes([0, 255, 0, 24])
    ensures 24 in Run(CLIENT_FILTER, NawsFrame([0, 255, 0, 24])).data
  {
    assert [0, 255, 0, 24][1..] == [255, 0, 24];
    var f1 := CLIENT_FILTER.(state := SbData, optData := [NAWS]);
    var f2 := f1.(optData := [NAWS] + [0]);
    var g := f2.(state := SbIac);
    var t := [0] + ([24] + [IAC, SE]);
    assert NawsFrame([0, 255, 0, 24]) == Opening(NAWS) + ([0] + ([IAC] + t));
    Opens(CLIENT_FILTER, NAWS);
    RunOne(f1, 0);
    AfterTwoQuiet(CLIENT_FILTER, Opening(NAWS), f1, [0], f2, [IAC] + t);
    RunOne(f2, IAC);
    AfterQuiet(f2, [IAC], g, t);
    LeakEnd(g);
  }

  // ---------- the two layers cancel ----------

  lemma FrameOfResize(m: Message)
    requires IsResize(m)
    ensures Frame(m) == NawsFrame(m.payload[1..5])
  {
    var p := m.payload;
    assert p[1..5] == [p[1], p[2], p[3], p[4]];
  }

  lemma FrameCancels(f: Automaton, m: Message)
    requires Idle(f) && (IsResize(m) ==> Closes(m.payload[1..5]))
    ensures var o := Run(f, Frame(m));
            Idle(o.next) && o.data == (if IsResize(m) then [] else m.payload) && o.responses == []
  {
    if IsResize(m) {
      FrameOfResize(m);
      NawsInvisibleExactly(f, m.payload[1..5]);
    } else {
      DoubledRun(f, m.payload);
    }
  }

  /**
   Whatever messages the browser sends, if every resize among them closes, the gateway's client filter hands on
   exactly the data, answers nothing and is ready for the next message.
   */
  lemma {:induction false} LayersCancel(f: Automaton, ms: seq<Message>)
    requires Idle(f) && ResizesClose(ms)
    ensures var o := Run(f, Wire(ms));
            Idle(o.next) && o.data == DataOf(ms) && o.responses == []
  {
    if ms == [] {
    } else {
      var m := Last(ms);
      LayersCancel(f, Front(ms));
      var g := Run(f, Wire(Front(ms))).next;
      Homomorphism(f, Wire(Front(ms)), Frame(m));
      FrameCancels(g, m);
    }
  }

  // ---------- what was meant ----------

  /** What a client of the proxy wants to say, before it is put into a message. */
  datatype Intent = ResizeTo(cols: nat, rows: nat) | Type(input: seq<byte>, isBinary: bool)

  function Sent(i: Intent): Message {
    match i
    case ResizeTo(cols, rows) => Message([0] + Octets(cols, rows), true)
    case Type(input, isBinary) => Message(input, isBinary)
  }

  function AllSent(intents: seq<Intent>): (ms: seq<Message>)
    ensures |ms| == |intents| && forall k :: 0 <= k < |ms| ==> ms[k] == Sent(intents[k])
  {
    seq(|intents|, k requires 0 <= k < |intents| => Sent(intents[k]))
  }

  /** All that was typed or uploaded. */
  function Meant(intents: seq<Intent>): seq<byte> {
    if intents == [] then []
    else Meant(Front(intents)) + if Last(intents).Type? then Last(intents).input else []
  }

  /** Input that the proxy takes for a resize. */
  predicate Misread(i: Intent) {
    i.Type? && IsResize(Sent(i))
  }

  predicate NoneMisread(intents: seq<Intent>) {
    forall i :: i in intents ==> !Misread(i)
  }

  /** Input is passed on whole unless one of its messages is misread; then there is too little of it. */
  lemma {:induction false} MisreadLoses(intents: seq<Intent>)
    ensures |DataOf(AllSent(intents))| <= |Meant(intents)|
    ensures if NoneMisread(intents) then DataOf(AllSent(intents)) == Meant(intents)
            else |DataOf(AllSent(intents))| < |Meant(intents)|
  {
    if intents == [] {
    } else {
      var before, i := Front(intents), Last(intents);
      assert intents == before + [i] && Front(AllSent(intents)) == AllSent(before);
      MisreadLoses(before);
      assert NoneMisread(intents) <==> NoneMisread(before) && !Misread(i);
      var ms := AllSent(intents);
      assert DataOf(ms) == DataOf(AllSent(before)) + if IsResize(Sent(i)) then [] else Sent(i).payload;
      if i.ResizeTo? {
        ResizeUnderstood(i.cols, i.rows);
        assert Meant(intents) == Meant(before);
      } else {
        assert Meant(intents) == Meant(before) + i.input;
        assert DataOf(ms) == DataOf(AllSent(before)) + if Misread(i) then [] else i.input;
      }
    }
  }

  /**
   What comes out of the gateway's client filter is what was typed and uploaded if and only if none of it was misread:
   no binary message of five or more octets began with a NUL.
   */
  lemma DeliveredExactly(f: Automaton, intents: seq<Intent>)
    requires Idle(f) && ResizesClose(AllSent(intents))
    ensures Run(f, Wire(AllSent(intents))).data == Meant(intents) <==> NoneMisread(intents)
  {
    LayersCancel(f, AllSent(intents));
    MisreadLoses(intents);
  }

  /** Five octets of binary input with a NUL in front are not delivered at all. */
  lemma NulInputVanishes(f: Automaton)
    requires Idle(f)
    ensures var intents := [Type([0, 1, 2, 3, 4], true)];
            Meant(intents) == [0, 1, 2, 3, 4] && Run(f, Wire(AllSent(intents))).data == []
  {
    var i := Type([0, 1, 2, 3, 4], true);
    assert Front([i]) == [] && [] + i.input == i.input;
    OneMisread(i, [0, 1, 2, 3, 4]);
    assert i.input[1..] == [1, 2, 3, 4];
    PlainSizeCloses([1, 2, 3, 4]);
    LayersCancel(f, AllSent([i]));
  }

  lemma OneMisread(i: Intent, input: seq<byte>)
    requires i == Type(input, true) && |input| == 5 && input[0] == 0
    ensures DataOf(AllSent([i])) == [] && (Closes(input[1..]) ==> ResizesClose(AllSent([i])))
  {
    var ms := AllSent([i]);
    assert ms == [Sent(i)] && Front(ms) == [] && input[1..5] == input[1..];
  }

  /** A resize that is meant is never taken for input. */
  lemma ResizeUnderstood(cols: nat, rows: nat)
    ensures IsResize(Sent(ResizeTo(cols, rows))) && Frame(Sent(ResizeTo(cols, rows))) == NawsFrame(Octets(cols, rows))
  {
    var m := Sent(ResizeTo(cols, rows));
    FrameOfResize(m);
    assert m.payload[1..5] == Octets(cols, rows);
  }
}
