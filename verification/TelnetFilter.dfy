/**
 The streaming TELNET filter of internal/dialer/dialer.go: a six-state automaton that removes commands
 from a byte stream, answers negotiation, and learns whether its peer speaks TELNET at all.
 */
module TelnetFilters {
  import opened Bytes

  const DONT: byte := 254
  const DO: byte := 253
  const WONT: byte := 252
  const WILL: byte := 251
  const SB: byte := 250
  const SE: byte := 240

  const ECHO: byte := 1
  const SUPPRESS_GO_AHEAD: byte := 3
  const TERMINAL_TYPE: byte := 24
  const NAWS: byte := 31

  const TTYPE_IS: byte := 0
  const TTYPE_SEND: byte := 1
  const MAX_OPT_DATA := 512

  // ZMODEM framing octets
  const ZPAD: byte := 42
  const ZDLE: byte := 24
  const ZBIN: byte := 65
  const ZHEX: byte := 66
  const ZBIN32: byte := 67

  datatype State = Data | Iac | Command | Sb | SbData | SbIac

  /** The fields of a filter as one value. */
  datatype Automaton = Automaton(
    state: State,
    command: byte,
    optData: seq<byte>,
    learnPeer: bool,
    peerNegotiated: bool,
    peerLocked: bool,
    frame0: byte,
    frame1: byte)
  {
    /** The peer is settled as raw TCP, so 255 is ordinary data. */
    predicate Raw() {
      learnPeer && peerLocked && !peerNegotiated
    }

    function Note(b: byte): Automaton {
      if !learnPeer then this
      else this.(peerLocked := peerLocked || (frame0 == ZPAD && frame1 == ZDLE && b in {ZBIN, ZHEX, ZBIN32}),
                 frame0 := frame1,
                 frame1 := b)
    }

    function Negotiated(): Automaton {
      if peerLocked then this else this.(peerNegotiated := true)
    }
  }

  const CLIENT_FILTER := Automaton(Data, 0, [], false, false, false, 0, 0)
  const REMOTE_FILTER := Automaton(Data, 0, [], true, false, false, 0, 0)

  function RespondToOption(cmd: byte, opt: byte): seq<byte> {
    if cmd == DO then
      if opt in {SUPPRESS_GO_AHEAD, TERMINAL_TYPE, NAWS} then [IAC, WILL, opt] else [IAC, WONT, opt]
    else if cmd == WILL then
      if opt in {SUPPRESS_GO_AHEAD, ECHO} then [IAC, DO, opt] else [IAC, DONT, opt]
    else []
  }

  /** The terminal-type answer, "ANSI"; every other subnegotiation is ignored. */
  function HandleSubnegotiation(optData: seq<byte>): seq<byte> {
    if |optData| >= 2 && optData[0] == TERMINAL_TYPE && optData[1] == TTYPE_SEND
    then [IAC, SB, TERMINAL_TYPE, TTYPE_IS, 65, 78, 83, 73, IAC, SE]
    else []
  }

  /** A filter after some input: its new state, the data let through, the answers owed, and the data octets it noted. */
  datatype Outcome = Outcome(next: Automaton, data: seq<byte>, responses: seq<byte>, noted: seq<byte>)

  function Pass(f: Automaton, b: byte): Outcome {
    Outcome(f.Note(b).(state := Data), [b], [], [b])
  }

  function Quiet(f: Automaton): Outcome {
    Outcome(f, [], [], [])
  }

  /** One octet through the automaton. */
  function Step(f: Automaton, b: byte): Outcome {
    match f.state
    case Data =>
      if b == IAC && !f.Raw() then Quiet(f.(state := Iac)) else Pass(f, b)
    case Iac =>
      if b == IAC then Pass(f, IAC)
      else if b in {WILL, WONT, DO, DONT} then Quiet(f.(command := b, state := Command))
      else if b == SB then Quiet(f.(state := Sb, optData := []))
      else Outcome(f.(state := Data), if b < SE then [IAC, b] else [], [], [])
    case Command =>
      Outcome(f.Negotiated().(state := Data), [], RespondToOption(f.command, b), [])
    case Sb =>
      Quiet(f.(optData := f.optData + [b], state := SbData))
    case SbData =>
      if b == IAC then Quiet(f.(state := SbIac))
      else if |f.optData| < MAX_OPT_DATA then Quiet(f.(optData := f.optData + [b]))
      else Quiet(f.(optData := [], state := Data))
    case SbIac =>
      if b == SE then Outcome(f.Negotiated().(state := Data), [], HandleSubnegotiation(f.optData), [])
      else if b == IAC then Quiet(f.(optData := f.optData + [IAC], state := SbData))
      else Quiet(f.(state := Data))
  }

  function Then(o: Outcome, p: Outcome): Outcome {
    Outcome(p.next, o.data + p.data, o.responses + p.responses, o.noted + p.noted)
  }

  /** A whole stream through the automaton. */
  function Run(f: Automaton, s: seq<byte>): Outcome {
    if s == [] then Quiet(f)
    else var o := Run(f, Front(s)); Then(o, Step(o.next, Last(s)))
  }

  /** A stream that arrives as TCP chunks, one Filter call each. */
  function RunChunks(f: Automaton, chunks: seq<seq<byte>>): Outcome {
    if chunks == [] then Quiet(f)
    else var o := RunChunks(f, Front(chunks)); Then(o, Run(o.next, Last(chunks)))
  }

  class TelnetFilter {
    var state: State
    var command: byte
    var optData: seq<byte>
    const learnPeer: bool
    var peerNegotiated: bool
    var peerLocked: bool
    var frame0: byte
    var frame1: byte

    function View(): Automaton
      reads this
    {
      Automaton(state, command, optData, learnPeer, peerNegotiated, peerLocked, frame0, frame1)
    }

    constructor (learnPeer: bool)
      ensures View() == if learnPeer then REMOTE_FILTER else CLIENT_FILTER
    {
      this.learnPeer := learnPeer;
      state, command, optData := Data, 0, [];
      peerNegotiated, peerLocked := false, false;
      frame0, frame1 := 0, 0;
    }

    predicate IacIsData()
      reads this
    {
      learnPeer && peerLocked && !peerNegotiated
    }

    method NoteDataByte(b: byte)
      modifies this
      ensures View() == old(View()).Note(b)
    {
      if !learnPeer {
        return;
      }
      if !peerLocked && frame0 == ZPAD && frame1 == ZDLE && (b == ZBIN || b == ZHEX || b == ZBIN32) {
        peerLocked := true;
      }
      frame0, frame1 := frame1, b;
    }

    /** One octet; the body of the loop over a chunk. */
    method FilterByte(b: byte, filtered: seq<byte>, responses: seq<byte>)
      returns (filtered': seq<byte>, responses': seq<byte>)
      modifies this
      ensures var o := Step(old(View()), b);
              View() == o.next && filtered' == filtered + o.data && responses' == responses + o.responses
    {
      filtered', responses' := filtered, responses;
      match state {
        case Data =>
          if b == IAC && !IacIsData() {
            state := Iac;
          } else {
            filtered' := filtered' + [b];
            NoteDataByte(b);
          }
        case Iac =>
          if b == IAC {
            filtered' := filtered' + [IAC];
            NoteDataByte(IAC);
            state := Data;
          } else if b == WILL || b == WONT || b == DO || b == DONT {
            command := b;
            state := Command;
          } else if b == SB {
            state := Sb;
            optData := [];
          } else {
            if b < SE {
              filtered' := filtered' + [IAC, b];
            }
            state := Data;
          }
        case Command =>
          if !peerLocked {
            peerNegotiated := true;
          }
          responses' := responses' + RespondToOption(command, b);
          state := Data;
        case Sb =>
          optData := optData + [b];
          state := SbData;
        case SbData =>
          if b == IAC {
            state := SbIac;
          } else if |optData| < MAX_OPT_DATA {
            optData := optData + [b];
          } else {
            optData := [];
            state := Data;
          }
        case SbIac =>
          if b == SE {
            if !peerLocked {
              peerNegotiated := true;
            }
            responses' := responses' + HandleSubnegotiation(optData);
            state := Data;
          } else if b == IAC {
            optData := optData + [IAC];
            state := SbData;
          } else {
            state := Data;
          }
      }
    }

    method Filter(data: seq<byte>) returns (filtered: seq<byte>, responses: seq<byte>)
      modifies this
      ensures var o := Run(old(View()), data);
              View() == o.next && filtered == o.data && responses == o.responses
    {
      filtered, responses := [], [];
      for i := 0 to |data|
        invariant var o := Run(old(View()), data[..i]);
                  View() == o.next && filtered == o.data && responses == o.responses
      {
        assert Front(data[..i + 1]) == data[..i];
        filtered, responses := FilterByte(data[i], filtered, responses);
      }
      assert data[..|data|] == data;
    }
  }

  // ---------- chunking does not matter ----------

  lemma ThenAssociative(o: Outcome, p: Outcome, q: Outcome)
    ensures Then(Then(o, p), q) == Then(o, Then(p, q))
  {
    assert (o.data + p.data) + q.data == o.data + (p.data + q.data);
    assert (o.responses + p.responses) + q.responses == o.responses + (p.responses + q.responses);
    assert (o.noted + p.noted) + q.noted == o.noted + (p.noted + q.noted);
  }

  /** Filtering `a` and then `b` is filtering `a + b`, in every state and at every split. */
  lemma {:induction false} Homomorphism(f: Automaton, a: seq<byte>, b: seq<byte>)
    ensures Run(f, a + b) == Then(Run(f, a), Run(Run(f, a).next, b))
  {
    if b == [] {
      assert a + b == a;
    } else {
      assert Front(a + b) == a + Front(b);
      Homomorphism(f, a, Front(b));
      var o := Run(Run(f, a).next, Front(b));
      ThenAssociative(Run(f, a), o, Step(o.next, Last(b)));
    }
  }

  lemma {:induction false} ChunkingIndependence(f: Automaton, chunks: seq<seq<byte>>)
    ensures RunChunks(f, chunks) == Run(f, Flatten(chunks))
  {
    if chunks == [] {
    } else {
      ChunkingIndependence(f, Front(chunks));
      Homomorphism(f, Flatten(Front(chunks)), Last(chunks));
    }
  }

  // ---------- the peer verdict ----------

  /** `w` holds the start of a ZMODEM frame: ZPAD ZDLE and one of the three frame kinds. */
  predicate HoldsZmodemHeader(w: seq<byte>) {
    exists i :: 0 <= i < |w| - 2 && HeaderAt(w, i)
  }

  predicate HeaderAt(w: seq<byte>, i: int)
    requires 0 <= i < |w| - 2
  {
    w[i] == ZPAD && w[i + 1] == ZDLE && w[i + 2] in {ZBIN, ZHEX, ZBIN32}
  }

  /** A step either notes one octet or leaves the lock and the frame memory alone. */
  lemma StepNotes(f: Automaton, b: byte)
    ensures var p := Step(f, b);
            if p.noted == [] then
              p.next.learnPeer == f.learnPeer && p.next.peerLocked == f.peerLocked
              && p.next.frame0 == f.frame0 && p.next.frame1 == f.frame1
            else
              p.noted == [b] && p.data == [b] && p.responses == [] && p.next == f.Note(b).(state := Data)
  {
  }

  /** The verdict locks exactly when a ZMODEM header has gone by in the noted data. */
  lemma {:induction false} LocksExactlyAtHeader(f: Automaton, s: seq<byte>)
    requires f.learnPeer && !f.peerLocked
    ensures LockFollows(f, Run(f, s))
  {
    if s == [] {
      assert !HoldsZmodemHeader([f.frame0, f.frame1]);
    } else {
      LocksExactlyAtHeader(f, Front(s));
      var o := Run(f, Front(s));
      var p := Step(o.next, Last(s));
      LockStep(f, o, p, Last(s));
    }
  }

  /** What the lock and the frame memory say, given the data noted since `f`. */
  predicate LockFollows(f: Automaton, o: Outcome) {
    var w := [f.frame0, f.frame1] + o.noted;
    && o.next.learnPeer
    && (o.next.peerLocked <==> HoldsZmodemHeader(w))
    && o.next.frame0 == w[|w| - 2] && o.next.frame1 == w[|w| - 1]
  }

  lemma LockStep(f: Automaton, o: Outcome, p: Outcome, b: byte)
    requires LockFollows(f, o) && p == Step(o.next, b)
    ensures LockFollows(f, Then(o, p))
  {
    StepNotes(o.next, b);
    var w := [f.frame0, f.frame1] + o.noted;
    if p.noted == [] {
      assert o.noted + p.noted == o.noted;
    } else {
      assert [f.frame0, f.frame1] + (o.noted + p.noted) == w + [b];
      ExtendHeader(w, b);
    }
  }

  lemma ExtendHeader(w: seq<byte>, b: byte)
    requires |w| >= 2
    ensures HoldsZmodemHeader(w + [b]) <==>
            HoldsZmodemHeader(w) || (w[|w| - 2] == ZPAD && w[|w| - 1] == ZDLE && b in {ZBIN, ZHEX, ZBIN32})
  {
    var v := w + [b];
    if HoldsZmodemHeader(w) {
      var i :| 0 <= i < |w| - 2 && HeaderAt(w, i);
      assert HeaderAt(v, i);
    }
    if w[|w| - 2] == ZPAD && w[|w| - 1] == ZDLE && b in {ZBIN, ZHEX, ZBIN32} {
      assert HeaderAt(v, |w| - 2);
    }
    if HoldsZmodemHeader(v) {
      var i :| 0 <= i < |v| - 2 && HeaderAt(v, i);
      assert i < |w| - 2 ==> HeaderAt(w, i);
    }
  }

  lemma LockHolds(f: Automaton, b: byte)
    requires f.peerLocked
    ensures var g := Step(f, b).next;
            g.peerLocked && g.peerNegotiated == f.peerNegotiated && g.learnPeer == f.learnPeer
  {
  }

  /** Once locked, the verdict never changes, whatever arrives. */
  lemma {:induction false} VerdictFrozen(f: Automaton, s: seq<byte>)
    requires f.peerLocked
    ensures Run(f, s).next.peerLocked
    ensures Run(f, s).next.peerNegotiated == f.peerNegotiated
    ensures Run(f, s).next.learnPeer == f.learnPeer
  {
    if s == [] {
    } else {
      VerdictFrozen(f, Front(s));
      LockHolds(Run(f, Front(s)).next, Last(s));
    }
  }

  /** A reachable filter that is settled as raw is in the data state. */
  lemma {:induction false} RawMeansData(f: Automaton, s: seq<byte>)
    requires f.Raw() ==> f.state == Data
    ensures Run(f, s).next.Raw() ==> Run(f, s).next.state == Data
  {
    if s == [] {
    } else {
      RawMeansData(f, Front(s));
    }
  }

  /** A raw peer in the data state is passed through untouched and unanswered. */
  lemma {:induction false} RawPassesAll(f: Automaton, s: seq<byte>)
    requires f.Raw() && f.state == Data
    ensures var o := Run(f, s);
            o.data == s && o.responses == [] && o.noted == s && o.next.Raw() && o.next.state == Data
  {
    if s == [] {
    } else {
      RawPassesAll(f, Front(s));
      assert s == Front(s) + [Last(s)];
    }
  }

  /**
   From connection on: if the first `a` octets of a call settle the peer as raw, everything after them reaches the
   caller unchanged and nothing is ever sent back, 255s and imitation negotiation included.
   */
  lemma RawPeerTransparent(a: seq<byte>, b: seq<byte>)
    requires Run(REMOTE_FILTER, a).next.Raw()
    ensures Run(REMOTE_FILTER, a + b).data == Run(REMOTE_FILTER, a).data + b
    ensures Run(REMOTE_FILTER, a + b).responses == Run(REMOTE_FILTER, a).responses
  {
    RawMeansData(REMOTE_FILTER, a);
    RawPassesAll(Run(REMOTE_FILTER, a).next, b);
    Homomorphism(REMOTE_FILTER, a, b);
  }

  // ---------- doubled data ----------

  /** Having let the data `p` through, the filter has settled on a raw peer. */
  predicate RawAfter(f: Automaton, p: seq<byte>) {
    f.learnPeer && !f.peerNegotiated && (f.peerLocked || HoldsZmodemHeader([f.frame0, f.frame1] + p))
  }

  /** No 255 of `d` comes after the point where the filter gives its peer up as raw. */
  predicate SafeToDouble(f: Automaton, d: seq<byte>) {
    forall k :: 0 <= k < |d| && d[k] == IAC ==> !RawAfter(f, d[..k])
  }

  lemma RunOne(f: Automaton, b: byte)
    ensures Run(f, [b]) == Step(f, b)
  {
    assert Front([b]) == [];
    var p := Step(f, b);
    assert [] + p.data == p.data && [] + p.responses == p.responses && [] + p.noted == p.noted;
  }

  lemma RunIacPair(f: Automaton)
    requires f.state == Data
    ensures Run(f, [IAC, IAC]) ==
            if f.Raw() then Then(Pass(f, IAC), Pass(f.Note(IAC), IAC)) else Pass(f, IAC)
  {
    assert [IAC] + [IAC] == [IAC, IAC];
    Homomorphism(f, [IAC], [IAC]);
    RunOne(f, IAC);
    var o := Step(f, IAC);
    RunOne(o.next, IAC);
    assert !f.Raw() ==> o == Quiet(f.(state := Iac)) && f.(state := Iac).Note(IAC).(state := Data) == f.Note(IAC);
  }

  /** An outcome that leaves the filter between commands, unanswered, with its verdict inputs as they were. */
  predicate Clean(f: Automaton, o: Outcome) {
    && o.next.state == Data && o.responses == [] && o.data == o.noted
    && o.next.learnPeer == f.learnPeer && o.next.peerNegotiated == f.peerNegotiated
  }

  /** One datum in doubled form, from the data state. */
  lemma DoubledStep(f: Automaton, b: byte)
    requires f.state == Data
    ensures var o := Run(f, Double([b]));
            Clean(f, o) && o.data == if b == IAC && f.Raw() then [IAC, IAC] else [b]
  {
    assert Front([b]) == [] && Double([b]) == if b == IAC then [IAC, IAC] else [b];
    if b == IAC {
      RunIacPair(f);
    } else {
      RunOne(f, b);
    }
  }

  /**
   While every 255 is safe, doubled data passes one for one; from the first unsafe one on, there is too much of it.
   */
  lemma {:induction false} DoubledRun(f: Automaton, d: seq<byte>)
    requires f.state == Data
    ensures var o := Run(f, Double(d));
            Clean(f, o) && (if SafeToDouble(f, d) then o.data == d else |o.data| > |d|)
  {
    if d == [] {
    } else {
      var d', b := Front(d), Last(d);
      assert d == d' + [b];
      DoubleConcat(d', [b]);
      DoubledRun(f, d');
      var o := Run(f, Double(d'));
      RawExactlyAfter(f, Double(d'));
      DoubledStep(o.next, b);
      var p := Run(o.next, Double([b]));
      SafeToDoubleExtends(f, d', b);
      DoubledJoin(f, d', b, o, p);
      Homomorphism(f, Double(d'), Double([b]));
    }
  }

  lemma DoubledJoin(f: Automaton, d: seq<byte>, b: byte, o: Outcome, p: Outcome)
    requires Clean(f, o) && (if SafeToDouble(f, d) then o.data == d else |o.data| > |d|)
    requires o.next.Raw() <==> RawAfter(f, o.noted)
    requires Clean(o.next, p) && p.data == if b == IAC && o.next.Raw() then [IAC, IAC] else [b]
    requires SafeToDouble(f, d + [b]) <==> SafeToDouble(f, d) && (b == IAC ==> !RawAfter(f, d))
    ensures Clean(f, Then(o, p))
    ensures if SafeToDouble(f, d + [b]) then Then(o, p).data == d + [b] else |Then(o, p).data| > |d + [b]|
  {
  }

  lemma SafeToDoubleExtends(f: Automaton, d: seq<byte>, b: byte)
    ensures SafeToDouble(f, d + [b]) <==> SafeToDouble(f, d) && (b == IAC ==> !RawAfter(f, d))
  {
    var e := d + [b];
    assert e[..|d|] == d;
    assert forall k :: 0 <= k < |d| ==> e[..k] == d[..k];
  }

  lemma RawExactlyAfter(f: Automaton, s: seq<byte>)
    requires Run(f, s).next.learnPeer == f.learnPeer && Run(f, s).next.peerNegotiated == f.peerNegotiated
    ensures Run(f, s).next.Raw() <==> RawAfter(f, Run(f, s).noted)
  {
    if f.peerLocked {
      VerdictFrozen(f, s);
    } else if f.learnPeer {
      LocksExactlyAtHeader(f, s);
    }
  }

  /**
   A filter between commands turns the doubled form of `d` back into `d` if and only if no 255 of `d` follows the
   moment the filter settles on a raw peer. A client-facing filter never does, nor one whose peer has negotiated.
   */
  lemma DoubledRoundTripExact(f: Automaton, d: seq<byte>)
    requires f.state == Data
    ensures Run(f, Double(d)).data == d <==> SafeToDouble(f, d)
    ensures Run(f, Double(d)).responses == [] && Run(f, Double(d)).next.state == Data
  {
    DoubledRun(f, d);
  }

  /** The two kinds of filter for which every datum is safe, before and after the lock. */
  lemma DoubledRoundTrip(f: Automaton, d: seq<byte>)
    requires f.state == Data
    requires !f.learnPeer || f.peerNegotiated
    ensures Run(f, Double(d)).data == d
    ensures var g := Run(f, Double(d)).next; g.state == Data && (!g.learnPeer || g.peerNegotiated)
  {
    DoubledRun(f, d);
  }

  // ---------- negotiation ----------

  /** One octet after another, from the front. */
  lemma RunFront(f: Automaton, b: byte, rest: seq<byte>)
    ensures Run(f, [b] + rest) == Then(Step(f, b), Run(Step(f, b).next, rest))
  {
    RunOne(f, b);
    Homomorphism(f, [b], rest);
  }

  /** What a filter between commands answers to a single option command. */
  function Reply(message: seq<byte>): seq<byte> {
    Run(CLIENT_FILTER, message).responses
  }

  lemma ReplyToOption(cmd: byte, opt: byte)
    requires cmd in {WILL, WONT, DO, DONT}
    ensures Reply([IAC, cmd, opt]) == RespondToOption(cmd, opt)
  {
    var f := CLIENT_FILTER;
    var g := f.(state := Iac);
    var h := g.(command := cmd, state := Command);
    assert [IAC, cmd, opt] == [IAC] + ([cmd] + [opt]);
    RunFront(f, IAC, [cmd] + [opt]);
    RunFront(g, cmd, [opt]);
    RunOne(h, opt);
    var r := RespondToOption(cmd, opt);
    assert [] + ([] + r) == r;
  }

  /**
   The filter keeps no record of what has been agreed, so it answers every request. Between two such filters an
   exchange about any option dies out after at most two answers, with one exception: suppress-go-ahead, once offered or
   asked for, is offered and asked for without end.
   */
  lemma ExchangeEndsExactly(cmd: byte, opt: byte)
    requires cmd in {WILL, WONT, DO, DONT}
    ensures var m := [IAC, cmd, opt];
            && (Reply(Reply(Reply(m))) == [] <==> !(cmd in {DO, WILL} && opt == SUPPRESS_GO_AHEAD))
            && (cmd in {DO, WILL} && opt == SUPPRESS_GO_AHEAD ==> Reply(Reply(m)) == m)
  {
    ReplyToOption(cmd, opt);
    ReplyToNothing();
    if cmd in {DO, WILL} {
      var cmd1 := RespondToOption(cmd, opt)[1];
      ReplyToOption(cmd1, opt);
      if cmd1 in {DO, WILL} {
        var cmd2 := RespondToOption(cmd1, opt)[1];
        ReplyToOption(cmd2, opt);
      }
    }
  }

  lemma ReplyToNothing()
    ensures Reply([]) == []
  {
  }

  // ---------- subnegotiation ----------

  /** Inside a subnegotiation, payload with its 255s doubled is collected as it was. */
  lemma {:induction false} CollectsPayload(f: Automaton, p: seq<byte>)
    requires f.state == SbData && |f.optData| + |p| <= MAX_OPT_DATA
    ensures Run(f, Double(p)) == Quiet(f.(optData := f.optData + p))
  {
    if p == [] {
      assert f.optData + [] == f.optData;
    } else {
      var q, b := Front(p), Last(p);
      assert p == q + [b];
      assert f.optData + p == f.optData + q + [b];
      CollectsPayload(f, q);
      DoubleConcat(q, [b]);
      Homomorphism(f, Double(q), Double([b]));
      CollectsOne(f.(optData := f.optData + q), b);
    }
  }

  lemma CollectsOne(f: Automaton, b: byte)
    requires f.state == SbData && |f.optData| < MAX_OPT_DATA
    ensures Run(f, Double([b])) == Quiet(f.(optData := f.optData + [b]))
  {
    assert Front([b]) == [] && Double([b]) == if b == IAC then [IAC, IAC] else [b];
    if b == IAC {
      assert [IAC, IAC] == [IAC] + [IAC];
      RunFront(f, IAC, [IAC]);
      RunOne(f.(state := SbIac), IAC);
    } else {
      RunOne(f, b);
    }
  }

  /** A subnegotiation as RFC 854 frames it: option code, payload with 255s doubled. */
  function Subnegotiation(opt: byte, payload: seq<byte>): seq<byte> {
    Opening(opt) + (Double(payload) + ([IAC] + [SE]))
  }

  function Opening(opt: byte): seq<byte> {
    [IAC] + ([SB] + [opt])
  }

  /** Input that is taken in silently only moves the filter on. */
  lemma AfterQuiet(f: Automaton, a: seq<byte>, g: Automaton, b: seq<byte>)
    requires Run(f, a) == Quiet(g)
    ensures Run(f, a + b) == Run(g, b)
  {
    var o := Run(g, b);
    assert [] + o.data == o.data && [] + o.responses == o.responses && [] + o.noted == o.noted;
    Homomorphism(f, a, b);
  }

  lemma AfterTwoQuiet(f: Automaton, a: seq<byte>, g: Automaton, b: seq<byte>, h: Automaton, c: seq<byte>)
    requires Run(f, a) == Quiet(g) && Run(g, b) == Quiet(h)
    ensures Run(f, a + (b + c)) == Run(h, c)
  {
    AfterQuiet(f, a, g, b + c);
    AfterQuiet(g, b, h, c);
  }

  lemma Opens(f: Automaton, opt: byte)
    requires f.state == Data && !f.Raw()
    ensures Run(f, Opening(opt)) == Quiet(f.(state := SbData, optData := [opt]))
  {
    var f1 := f.(state := Iac);
    var f2 := f.(state := Sb, optData := []);
    assert [] + [opt] == [opt];
    RunOne(f, IAC);
    RunOne(f1, SB);
    RunOne(f2, opt);
    AfterTwoQuiet(f, [IAC], f1, [SB], f2, [opt]);
  }

  lemma Closes(f: Automaton)
    requires f.state == SbData
    ensures Run(f, [IAC] + [SE]) ==
            Outcome(f.Negotiated().(state := Data), [], HandleSubnegotiation(f.optData), [])
  {
    var g := f.(state := SbIac);
    RunOne(f, IAC);
    AfterQuiet(f, [IAC], g, [SE]);
    RunOne(g, SE);
    assert g.Negotiated().(state := Data) == f.Negotiated().(state := Data);
  }

  /**
   A well-framed subnegotiation of up to 511 octets of payload is taken whole out of the data and leaves nothing behind
   but its answer, and the knowledge that the peer negotiates unless the verdict was already locked.
   */
  lemma SubnegotiationTaken(f: Automaton, opt: byte, payload: seq<byte>)
    requires f.state == Data && !f.Raw() && |payload| < MAX_OPT_DATA
    ensures Run(f, Subnegotiation(opt, payload)) ==
            Outcome(f.(optData := [opt] + payload, peerNegotiated := f.peerNegotiated || !f.peerLocked),
                    [], HandleSubnegotiation([opt] + payload), [])
  {
    var g := f.(state := SbData, optData := [opt]);
    var h := f.(state := SbData, optData := [opt] + payload);
    Opens(f, opt);
    CollectsPayload(g, payload);
    AfterTwoQuiet(f, Opening(opt), g, Double(payload), h, [IAC] + [SE]);
    Closes(h);
  }

  /** The terminal type is sent exactly when it is asked for; nothing else is ever answered. */
  lemma TerminalTypeAnswered(f: Automaton, opt: byte, payload: seq<byte>)
    requires f.state == Data && !f.Raw() && |payload| < MAX_OPT_DATA
    ensures Run(f, Subnegotiation(opt, payload)).responses ==
            if opt == TERMINAL_TYPE && |payload| >= 1 && payload[0] == TTYPE_SEND
            then [IAC, SB, TERMINAL_TYPE, TTYPE_IS, 65, 78, 83, 73, IAC, SE] else []
  {
    SubnegotiationTaken(f, opt, payload);
  }

  // ---------- what a peer is, and what passes ----------

  /** An option command, from between commands: no data, its answer, and the knowledge that the peer negotiates. */
  lemma OptionTaken(f: Automaton, cmd: byte, opt: byte)
    requires f.state == Data && !f.Raw() && cmd in {WILL, WONT, DO, DONT}
    ensures Run(f, [IAC] + ([cmd] + [opt])) ==
            Outcome(f.(command := cmd, peerNegotiated := f.peerNegotiated || !f.peerLocked), [],
                    RespondToOption(cmd, opt), [])
  {
    var f1 := f.(state := Iac);
    var f2 := f.(state := Command, command := cmd);
    RunOne(f, IAC);
    RunOne(f1, cmd);
    RunOne(f2, opt);
    AfterTwoQuiet(f, [IAC], f1, [cmd], f2, [opt]);
  }

  /**
   A peer that negotiates before its verdict is locked is a TELNET peer from then on: whatever data it sends doubled
   comes out as it was, though a ZMODEM header among it locks the verdict; and it is never taken for a raw one.
   */
  lemma NegotiatorIsTelnet(f: Automaton, cmd: byte, opt: byte, d: seq<byte>)
    requires f.state == Data && !f.peerLocked && cmd in {WILL, WONT, DO, DONT}
    ensures var o := Run(f, [IAC] + ([cmd] + [opt]) + Double(d));
            o.data == d && o.responses == RespondToOption(cmd, opt) && !o.next.Raw() && o.next.peerNegotiated
  {
    OptionTaken(f, cmd, opt);
    var g := Run(f, [IAC] + ([cmd] + [opt])).next;
    Homomorphism(f, [IAC] + ([cmd] + [opt]), Double(d));
    DoubledRun(g, d);
    DoubledRoundTripExact(g, d);
    var r := RespondToOption(cmd, opt);
    assert r + [] == r && [] + d == d;
  }

  /** Which options are granted: suppress-go-ahead both ways, terminal type and window size here, echo there. */
  lemma OptionsGranted(f: Automaton, cmd: byte, opt: byte)
    requires f.state == Data && !f.Raw() && cmd in {WILL, WONT, DO, DONT}
    ensures var r := Run(f, [IAC] + ([cmd] + [opt])).responses;
            && (cmd == 253 && opt in {3, 24, 31} ==> r == [255, 251, opt])
            && (cmd == 253 && opt !in {3, 24, 31} ==> r == [255, 252, opt])
            && (cmd == 251 && opt in {1, 3} ==> r == [255, 253, opt])
            && (cmd == 251 && opt !in {1, 3} ==> r == [255, 254, opt])
            && (cmd in {252, 254} ==> r == [])
  {
    OptionTaken(f, cmd, opt);
  }

  /** A command without an option goes by unseen. */
  lemma PlainCommandSwallowed(f: Automaton, b: byte)
    requires f.state == Data && !f.Raw() && 240 <= b < 250
    ensures Run(f, [IAC] + [b]) == Quiet(f)
  {
    var g := f.(state := Iac);
    RunOne(f, IAC);
    AfterQuiet(f, [IAC], g, [b]);
    RunOne(g, b);
  }

  /** No 255 of s could begin a command: each is followed by an octet below 240. */
  predicate Undoubled(s: seq<byte>) {
    s == [] ||
    if |s| >= 2 && s[|s| - 2] == IAC then s[|s| - 1] < 240 && Undoubled(s[..|s| - 2])
    else Last(s) != IAC && Undoubled(Front(s))
  }

  /** Let through as it is, unanswered. */
  predicate Passes(f: Automaton, s: seq<byte>) {
    var o := Run(f, s);
    o.data == s && o.responses == [] && o.next.state == Data
  }

  lemma PassesThen(f: Automaton, a: seq<byte>, b: seq<byte>)
    requires Passes(f, a) && Passes(Run(f, a).next, b)
    ensures Passes(f, a + b)
  {
    Homomorphism(f, a, b);
  }

  lemma PassesOne(f: Automaton, b: byte)
    requires f.state == Data && (b != IAC || f.Raw())
    ensures Passes(f, [b])
  {
    RunOne(f, b);
  }

  lemma PassesPair(f: Automaton, b: byte)
    requires f.state == Data && b < 240
    ensures Passes(f, [IAC] + [b])
  {
    if f.Raw() {
      PassesOne(f, IAC);
      PassesOne(Run(f, [IAC]).next, b);
      PassesThen(f, [IAC], [b]);
    } else {
      var g := f.(state := Iac);
      RunOne(f, IAC);
      AfterQuiet(f, [IAC], g, [b]);
      RunOne(g, b);
      assert [IAC] + [b] == [IAC, b];
    }
  }

  /** Data with its 255s not doubled passes whole, its sender known to be raw or not, if no 255 looks like a command. */
  lemma {:induction false} UndoubledPasses(f: Automaton, s: seq<byte>)
    requires f.state == Data && Undoubled(s)
    ensures Passes(f, s)
    decreases |s|
  {
    if s == [] {
    } else if |s| >= 2 && s[|s| - 2] == IAC {
      assert s == s[..|s| - 2] + ([IAC] + [Last(s)]);
      UndoubledPasses(f, s[..|s| - 2]);
      PassesPair(Run(f, s[..|s| - 2]).next, Last(s));
      PassesThen(f, s[..|s| - 2], [IAC] + [Last(s)]);
    } else {
      assert s == Front(s) + [Last(s)];
      UndoubledPasses(f, Front(s));
      PassesOne(Run(f, Front(s)).next, Last(s));
      PassesThen(f, Front(s), [Last(s)]);
    }
  }

  // ---------- subnegotiations that go wrong ----------

  lemma {:induction false} CollectsPlain(f: Automaton, p: seq<byte>)
    requires f.state == SbData && IAC !in p && |f.optData| + |p| <= MAX_OPT_DATA
    ensures Run(f, p) == Quiet(f.(optData := f.optData + p))
  {
    DoubleIdentity(p);
    CollectsPayload(f, p);
  }

  /**
   A subnegotiation of more than 512 octets is given up at the next one: that octet is dropped with all the others, and
   what follows is data again.
   */
  lemma OverlongGivenUp(f: Automaton, opt: byte, payload: seq<byte>, last: byte)
    requires f.state == Data && !f.Raw() && |payload| == 511 && IAC !in payload && last != IAC
    ensures Run(f, Opening(opt) + (payload + [last])) == Quiet(f.(optData := []))
  {
    var g := f.(state := SbData, optData := [opt]);
    var h := f.(state := SbData, optData := [opt] + payload);
    Opens(f, opt);
    CollectsPlain(g, payload);
    RunOne(h, last);
    AfterTwoQuiet(f, Opening(opt), g, payload, h, [last]);
  }

  /** A subnegotiation broken off by another command proves nothing about the peer, and is not answered. */
  lemma BrokenSubnegotiation(f: Automaton, opt: byte, payload: seq<byte>, b: byte)
    requires f.state == Data && !f.Raw() && |payload| < MAX_OPT_DATA && b !in {SE, IAC}
    ensures Run(f, Opening(opt) + (Double(payload) + ([IAC] + [b]))) == Quiet(f.(optData := [opt] + payload))
  {
    var g := f.(state := SbData, optData := [opt]);
    var h := f.(state := SbData, optData := [opt] + payload);
    var k := h.(state := SbIac);
    Opens(f, opt);
    CollectsPayload(g, payload);
    AfterTwoQuiet(f, Opening(opt), g, Double(payload), h, [IAC] + [b]);
    RunOne(h, IAC);
    AfterQuiet(h, [IAC], k, [b]);
    RunOne(k, b);
  }
}
