/**
 How feed() in web/public/js/zmodem-sentry.js decides, header by header, whether a ZRQINIT is a retransmission or the
 start of the next file's session. The library's Sentry is modelled by its contract: without a live session it detects
 one on a ZRQINIT slice, and the bridge confirms it at once.
 */
module ReceiveSessions {
  import opened Bytes

  /** A ZRQINIT header, the library's offer and session-end events, or any other slice. */
  datatype Event = Zrqinit | Offer | SessionEnd | Other

  class ReceiveSide {
    var live: bool             // a receive session is up
    var sessionSawOffer: bool
    var confirmed: nat            // how many sessions have been opened

    constructor ()
      ensures !live && !sessionSawOffer && confirmed == 0
    {
      live, sessionSawOffer, confirmed := false, false, 0;
    }

    method ResetSession()
      modifies this`live, this`sessionSawOffer
      ensures !live && !sessionSawOffer
    {
      live, sessionSawOffer := false, false;
    }

    method ConfirmSession()
      modifies this
      ensures live && !sessionSawOffer && confirmed == old(confirmed) + 1
    {
      live, sessionSawOffer, confirmed := true, false, confirmed + 1;
    }

    method Feed(e: Event)
      modifies this
      ensures State(live, sessionSawOffer, confirmed) == Next(old(State(live, sessionSawOffer, confirmed)), e)
    {
      match e {
        case Zrqinit =>
          if live {
            if !sessionSawOffer {
              return;
            }
            ResetSession();
          }
          ConfirmSession();
        case Offer =>
          if live {
            sessionSawOffer := true;
          }
        case SessionEnd =>
          live := false;
        case Other =>
      }
    }

    /** A whole conversation, from no session: exactly its first announcements open sessions. */
    method FeedAll(tr: seq<Event>)
      requires !live && confirmed == 0
      modifies this
      ensures confirmed == Announcements(tr)
    {
      ghost var start := State(live, sessionSawOffer, confirmed);
      for i := 0 to |tr|
        invariant State(live, sessionSawOffer, confirmed) == After(start, tr[..i])
      {
        assert Front(tr[..i + 1]) == tr[..i];
        Feed(tr[i]);
      }
      assert tr[..|tr|] == tr;
      OpensExactly(start, tr);
    }
  }

  datatype State = State(live: bool, sawOffer: bool, confirmed: nat)

  function Next(s: State, e: Event): State {
    match e
    case Zrqinit => if s.live && !s.sawOffer then s else State(true, false, s.confirmed + 1)
    case Offer => if s.live then s.(sawOffer := true) else s
    case SessionEnd => s.(live := false)
    case Other => s
  }

  function After(s: State, tr: seq<Event>): State {
    if tr == [] then s else Next(After(s, Front(tr)), Last(tr))
  }

  /** The last header or session event so far was a ZRQINIT. */
  predicate Announced(tr: seq<Event>) {
    tr != [] && (Last(tr) == Zrqinit || (Last(tr) == Other && Announced(Front(tr))))
  }

  /** How many ZRQINITs are not retransmissions: no other one before them without an offer or an end in between. */
  function Announcements(tr: seq<Event>): nat {
    if tr == [] then 0
    else Announcements(Front(tr)) + if Last(tr) == Zrqinit && !Announced(Front(tr)) then 1 else 0
  }

  /**
   Whatever the order of events, a session opens at each ZRQINIT that is not a retransmission, and at no other point.
   */
  lemma {:induction false} OpensExactly(s: State, tr: seq<Event>)
    requires !s.live
    ensures After(s, tr).confirmed == s.confirmed + Announcements(tr)
    ensures After(s, tr).live && !After(s, tr).sawOffer <==> Announced(tr)
  {
    if tr == [] {
    } else {
      OpensExactly(s, Front(tr));
    }
  }

  // ---------- batches ----------

  /** One file of a batch as the sender drives it: its ZRQINITs, the offer, its data, and perhaps a ZFIN. */
  datatype File = File(retransmissions: nat, slices: nat, zfin: bool)

  function Times(e: Event, n: nat): seq<Event> {
    if n == 0 then [] else Times(e, n - 1) + [e]
  }

  function Script(f: File): seq<Event> {
    [Zrqinit] + Times(Zrqinit, f.retransmissions) + [Offer] + Times(Other, f.slices)
    + (if f.zfin then [SessionEnd] else [])
  }

  function BatchScript(files: seq<File>): seq<Event> {
    if files == [] then [] else BatchScript(Front(files)) + Script(Last(files))
  }

  lemma {:induction false} AfterConcat(s: State, a: seq<Event>, b: seq<Event>)
    ensures After(s, a + b) == After(After(s, a), b)
  {
    if b == [] {
      assert a + b == a;
    } else {
      assert Front(a + b) == a + Front(b);
      AfterConcat(s, a, Front(b));
    }
  }

  lemma {:induction false} AfterTimes(s: State, e: Event, n: nat)
    requires Next(s, e) == s
    ensures After(s, Times(e, n)) == s
  {
    if n == 0 {
    } else {
      assert Front(Times(e, n)) == Times(e, n - 1);
      AfterTimes(s, e, n - 1);
    }
  }

  /** One file, from between files: exactly one session opens for it. */
  lemma FileOpensOne(s: State, f: File)
    requires !s.live || s.sawOffer
    ensures After(s, Script(f)) == State(!f.zfin, true, s.confirmed + 1)
  {
    var open := State(true, false, s.confirmed + 1);
    var a, b, c, d := [Zrqinit], Times(Zrqinit, f.retransmissions), [Offer], Times(Other, f.slices);
    var z: seq<Event> := if f.zfin then [SessionEnd] else [];
    AfterOne(s, Zrqinit);
    AfterTimes(open, Zrqinit, f.retransmissions);
    AfterOne(open, Offer);
    AfterTimes(open.(sawOffer := true), Other, f.slices);
    AfterOne(open.(sawOffer := true), SessionEnd);
    AfterConcat(s, a, b);
    AfterConcat(s, a + b, c);
    AfterConcat(s, a + b + c, d);
    AfterConcat(s, a + b + c + d, z);
  }

  lemma AfterOne(s: State, e: Event)
    ensures After(s, [e]) == Next(s, e)
  {
    assert Front([e]) == [];
  }

  /** One session per file, for every batch, with or without a ZFIN between files, however often ZRQINIT is repeated. */
  lemma {:induction false} OneSessionPerFile(files: seq<File>)
    ensures var s := After(State(false, false, 0), BatchScript(files));
            s.confirmed == |files| && (!s.live || s.sawOffer)
  {
    if files == [] {
    } else {
      OneSessionPerFile(Front(files));
      AfterConcat(State(false, false, 0), BatchScript(Front(files)), Script(Last(files)));
      FileOpensOne(After(State(false, false, 0), BatchScript(Front(files))), Last(files));
    }
  }
}
