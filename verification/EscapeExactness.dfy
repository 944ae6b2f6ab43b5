/** Exactly which inputs make a caller leave data mode: the guard-time rule, read off the trace of events alone. */
module EscapeExactness {
  import opened Bytes
  import opened EscapeDetection

  function LastByteAt(tr: seq<Event>, initially: Option<int>): Option<int> {
    if tr == [] then initially
    else if Last(tr).Byte? then Some(Last(tr).at)
    else LastByteAt(Front(tr), initially)
  }

  function LastBulkAt(tr: seq<Event>, initially: Option<int>): Option<int> {
    if tr == [] then initially
    else if Last(tr).Bulk? then Some(Last(tr).at)
    else LastBulkAt(Front(tr), initially)
  }

  predicate Ordered(tr: seq<Event>) {
    forall i, j :: 0 <= i < j < |tr| ==> tr[i].at <= tr[j].at
  }

  /** Event i is an escape character with no bulk chunk in the five seconds before it. */
  predicate QuietEscape(cfg: Settings, p: Progress, tr: seq<Event>, i: int)
    requires 0 <= i < |tr|
  {
    tr[i].Byte? && tr[i].b == cfg.escapeChar && Since(LastBulkAt(tr[..i], p.det.lastBulk), tr[i].at, 5_000_000_000)
  }

  /**
   Event s may open an escape: the line was silent for more than the guard time before it. A silence of the guard time
   exactly is enough when an escape run comes up to it.
   */
  predicate Opens(cfg: Settings, p: Progress, tr: seq<Event>, s: int)
    requires 0 <= s < |tr|
    decreases s, 0
  {
    var before := LastByteAt(tr[..s], p.det.lastInput);
    && QuietEscape(cfg, p, tr, s)
    && (MoreThan(before, tr[s].at, cfg.guard) ||
        (Since(before, tr[s].at, cfg.guard) && exists r :: 0 <= r < s && EscapeRun(cfg, p, tr[..s], r)))
  }

  /** Event i follows the character before it within the guard time. */
  predicate Continues(cfg: Settings, p: Progress, tr: seq<Event>, i: int)
    requires 0 <= i < |tr|
  {
    var before := LastByteAt(tr[..i], p.det.lastInput);
    QuietEscape(cfg, p, tr, i) && before.Some? && tr[i].at - before.value < cfg.guard
  }

  /** From s to the end, the data is nothing but escape characters, one guard-time run of them. */
  predicate EscapeRun(cfg: Settings, p: Progress, tr: seq<Event>, s: int)
    decreases s, 1
  {
    && 0 <= s < |tr|
    && Opens(cfg, p, tr, s)
    && forall i :: s < i < |tr| && tr[i].Byte? ==> Continues(cfg, p, tr, i)
  }

  predicate Fresh(p: Progress) {
    p.det.count == 0 && !p.escaped
  }

  /** The detector's clocks are what the trace says they are. */
  lemma {:induction false} Tracks(cfg: Settings, p: Progress, tr: seq<Event>)
    requires Fresh(p) && !RunTrace(cfg, p, tr).escaped
    ensures var d := RunTrace(cfg, p, tr).det;
            && d.lastInput == LastByteAt(tr, p.det.lastInput)
            && d.lastBulk == LastBulkAt(tr, p.det.lastBulk)
            && (d.count > 0 ==> d.lastInput == Some(d.lastEscape))
  {
    if tr == [] {
    } else {
      EscapeIsFinal(cfg, p, tr);
      Tracks(cfg, p, Front(tr));
    }
  }

  /** Extending a trace by something other than a foreign octet keeps its escape run. */
  lemma RunExtends(cfg: Settings, p: Progress, t: seq<Event>, e: Event, s: int)
    requires EscapeRun(cfg, p, t, s)
    requires e.Byte? ==> Continues(cfg, p, t + [e], |t|)
    ensures EscapeRun(cfg, p, t + [e], s)
    ensures Received((t + [e])[s..]) == Received(t[s..]) + if e.Byte? then [e.b] else []
  {
    var tr := t + [e];
    assert forall i :: 0 <= i < |t| ==> tr[..i] == t[..i] && tr[i] == t[i];
    assert Front(tr[s..]) == t[s..];
  }

  /** The run is long enough to escape, or nothing in the trace is late enough to release it. */
  predicate Lasting(cfg: Settings, p: Progress, tr: seq<Event>, s: int)
    requires 0 <= s < |tr|
  {
    |Received(tr[s..])| >= 3 || !MoreThan(LastByteAt(tr, p.det.lastInput), Last(tr).at, cfg.guard)
  }

  /** An event that is withheld where nothing was, or where it comes late, opens a run of its own. */
  lemma RunStarts(cfg: Settings, p: Progress, t: seq<Event>, e: Event, r: int)
    requires Fresh(p) && !RunTrace(cfg, p, t).escaped
    requires var d := RunTrace(cfg, p, t).det;
             if d.count > 0 then LateRestart(cfg, d, e) && EscapeRun(cfg, p, t, r)
             else Advance(cfg, RunTrace(cfg, p, t), e).det.count > 0
    ensures EscapeRun(cfg, p, t + [e], |t|)
    ensures |Received((t + [e])[|t|..])| == 1
  {
    var tr := t + [e];
    assert tr[..|t|] == t && tr[|t|..] == [e] && Front([e]) == [] && Received([e]) == [e.b];
    Tracks(cfg, p, t);
  }

  /** Soundness: whenever characters are withheld, they form an escape run. */
  lemma {:induction false} WithheldIsRun(cfg: Settings, p: Progress, tr: seq<Event>) returns (s: int)
    requires Fresh(p) && !RunTrace(cfg, p, tr).escaped && RunTrace(cfg, p, tr).det.count > 0
    ensures EscapeRun(cfg, p, tr, s) && |Received(tr[s..])| == RunTrace(cfg, p, tr).det.count
  {
    var t, e := Front(tr), Last(tr);
    assert tr == t + [e];
    EscapeIsFinal(cfg, p, tr);
    var d := RunTrace(cfg, p, t).det;
    var r := 0;
    if d.count > 0 {
      r := WithheldIsRun(cfg, p, t);
    }
    if d.count > 0 && !LateRestart(cfg, d, e) {
      s := r;
      RunGoesOn(cfg, p, t, e, s);
    } else {
      s := |t|;
      RunStarts(cfg, p, t, e, r);
    }
  }

  lemma RunGoesOn(cfg: Settings, p: Progress, t: seq<Event>, e: Event, s: int)
    requires Fresh(p) && !RunTrace(cfg, p, t).escaped && EscapeRun(cfg, p, t, s)
    requires var d := RunTrace(cfg, p, t).det; d.count > 0 && !LateRestart(cfg, d, e)
    requires Advance(cfg, RunTrace(cfg, p, t), e).det.count > 0
    ensures EscapeRun(cfg, p, t + [e], s)
    ensures |Received((t + [e])[s..])| == |Received(t[s..])| + if e.Byte? then 1 else 0
  {
    assert (t + [e])[..|t|] == t;
    Tracks(cfg, p, t);
    RunExtends(cfg, p, t, e, s);
  }

  lemma {:induction false} EscapedStays(cfg: Settings, p: Progress, tr: seq<Event>, i: nat)
    requires i <= |tr| && RunTrace(cfg, p, tr[..i]).escaped
    ensures RunTrace(cfg, p, tr).escaped
    decreases |tr|
  {
    if i == |tr| {
      assert tr[..i] == tr;
    } else {
      assert Front(tr)[..i] == tr[..i];
      EscapedStays(cfg, p, Front(tr), i);
    }
  }

  /**
   With octets still to come after event k, the next of them is no earlier than k and no later than the run allows.
   */
  lemma {:induction false} NextByte(cfg: Settings, p: Progress, tr: seq<Event>, s: int, k: int)
    requires Ordered(tr) && EscapeRun(cfg, p, tr, s) && s < k < |tr|
    requires |Received(tr[s..k])| < |Received(tr[s..])|
    requires LastByteAt(tr[..k], p.det.lastInput).Some?
    ensures tr[k].at - LastByteAt(tr[..k], p.det.lastInput).value < cfg.guard
    decreases |tr| - k
  {
    assert Front(tr[s..k + 1]) == tr[s..k] && Front(tr[..k + 1]) == tr[..k];
    assert tr[s..|tr|] == tr[s..];
    if !tr[k].Byte? && k + 1 < |tr| {
      NextByte(cfg, p, tr, s, k + 1);
    }
  }

  lemma {:induction false} RunHasByte(tr: seq<Event>, s: int, k: int, initially: Option<int>)
    requires 0 <= s < k <= |tr| && tr[s].Byte?
    ensures LastByteAt(tr[..k], initially).Some?
    ensures |Received(tr[s..k])| >= 1
    decreases k
  {
    assert Last(tr[..k]) == tr[k - 1] && Front(tr[..k]) == tr[..k - 1];
    assert Last(tr[s..k]) == tr[k - 1] && Front(tr[s..k]) == tr[s..k - 1];
    if k - 1 > s {
      RunHasByte(tr, s, k - 1, initially);
    }
  }

  /** With no octet after event k, the last one stays the last. */
  lemma {:induction false} NoLaterByte(tr: seq<Event>, s: int, k: int, initially: Option<int>)
    requires 0 <= s <= k <= |tr| && |Received(tr[s..k])| >= |Received(tr[s..])|
    ensures LastByteAt(tr[..k], initially) == LastByteAt(tr, initially)
    decreases |tr| - k
  {
    if k == |tr| {
      assert tr[..k] == tr;
    } else {
      assert Front(tr[s..k + 1]) == tr[s..k] && Front(tr[..k + 1]) == tr[..k];
      ReceivedGrows(tr[s..k + 1], tr[s..]);
      NoLaterByte(tr, s, k + 1, initially);
    }
  }

  lemma {:induction false} ReceivedGrows(a: seq<Event>, b: seq<Event>)
    requires a <= b
    ensures |Received(a)| <= |Received(b)|
  {
    if a == b {
    } else {
      ReceivedGrows(a, Front(b));
    }
  }

  /** Completeness: an escape run that lasts is withheld in full, whatever timeouts come in between. */
  lemma {:induction false} RunIsWithheld(cfg: Settings, p: Progress, tr: seq<Event>, s: int, k: int)
    requires Fresh(p) && Ordered(tr) && !RunTrace(cfg, p, tr).escaped
    requires EscapeRun(cfg, p, tr, s) && Lasting(cfg, p, tr, s) && s < k <= |tr|
    ensures RunTrace(cfg, p, tr[..k]).det.count == |Received(tr[s..k])|
    ensures !RunTrace(cfg, p, tr[..k]).escaped
    decreases |tr|, k
  {
    if RunTrace(cfg, p, tr[..k]).escaped {
      EscapedStays(cfg, p, tr, k);
    }
    if k - 1 == s {
      OpensRun(cfg, p, tr, s);
    } else {
      RunIsWithheld(cfg, p, tr, s, k - 1);
      WithheldOneMore(cfg, p, tr, s, k);
    }
  }

  /** The event that opens a run is withheld, and nothing else with it. */
  lemma {:induction false} OpensRun(cfg: Settings, p: Progress, tr: seq<Event>, s: int)
    requires Fresh(p) && Ordered(tr) && !RunTrace(cfg, p, tr).escaped
    requires 0 <= s < |tr| && Opens(cfg, p, tr, s)
    ensures RunTrace(cfg, p, tr[..s + 1]).det.count == |Received(tr[s..s + 1])| == 1
    decreases |tr|, 0
  {
    var t, e := tr[..s], tr[s];
    var last := LastByteAt(t, p.det.lastInput);
    assert Front(tr[..s + 1]) == t && tr[s..s + 1] == [e] && Front([e]) == [] && Received([e]) == [e.b];
    if RunTrace(cfg, p, t).escaped {
      EscapedStays(cfg, p, tr, s);
    }
    Tracks(cfg, p, t);
    if !MoreThan(last, e.at, cfg.guard) {
      var r :| 0 <= r < s && EscapeRun(cfg, p, t, r);
      assert Last(t).at <= e.at;
      RunIsWithheld(cfg, p, t, r, s);
      assert t[..s] == t && Opens(cfg, p, t, r) && QuietEscape(cfg, p, t, r);
      RunHasByte(t, r, s, p.det.lastInput);
    }
  }

  lemma WithheldOneMore(cfg: Settings, p: Progress, tr: seq<Event>, s: int, k: int)
    requires EscapeRun(cfg, p, tr, s) && Lasting(cfg, p, tr, s) && s < k - 1 < |tr|
    requires Fresh(p) && Ordered(tr) && !RunTrace(cfg, p, tr[..k]).escaped
    requires RunTrace(cfg, p, tr[..k - 1]).det.count == |Received(tr[s..k - 1])|
    requires !RunTrace(cfg, p, tr[..k - 1]).escaped
    ensures RunTrace(cfg, p, tr[..k]).det.count == |Received(tr[s..k])|
  {
    var t := tr[..k - 1];
    assert Front(tr[..k]) == t && Last(tr[..k]) == tr[k - 1];
    Tracks(cfg, p, t);
    assert QuietEscape(cfg, p, tr, s);
    RunHasByte(tr, s, k - 1, p.det.lastInput);
    RunGrows(cfg, p, tr, s, k, RunTrace(cfg, p, t));
  }

  lemma RunGrows(cfg: Settings, p: Progress, tr: seq<Event>, s: int, k: int, q: Progress)
    requires Ordered(tr) && EscapeRun(cfg, p, tr, s) && Lasting(cfg, p, tr, s) && s < k - 1 < |tr|
    requires q.det.count == |Received(tr[s..k - 1])| > 0 && !q.escaped && !Advance(cfg, q, tr[k - 1]).escaped
    requires LastByteAt(tr[..k - 1], p.det.lastInput) == Some(q.det.lastEscape)
    requires LastBulkAt(tr[..k - 1], p.det.lastBulk) == q.det.lastBulk
    ensures Advance(cfg, q, tr[k - 1]).det.count == |Received(tr[s..k])|
  {
    var e := tr[k - 1];
    assert Front(tr[s..k]) == tr[s..k - 1] && Last(tr[s..k]) == e;
    if e.Byte? {
      assert Continues(cfg, p, tr, k - 1);
    } else if e.Timeout? && q.det.count < 3 {
      NotYetReleased(cfg, p, tr, s, k - 1);
    }
    WithheldStep(cfg, q, e);
  }

  lemma NotYetReleased(cfg: Settings, p: Progress, tr: seq<Event>, s: int, k: int)
    requires Ordered(tr) && EscapeRun(cfg, p, tr, s) && Lasting(cfg, p, tr, s) && s < k < |tr|
    requires |Received(tr[s..k])| < 3 && LastByteAt(tr[..k], p.det.lastInput).Some?
    ensures tr[k].at - LastByteAt(tr[..k], p.det.lastInput).value <= cfg.guard
  {
    if |Received(tr[s..k])| < |Received(tr[s..])| {
      NextByte(cfg, p, tr, s, k);
    } else {
      NoLaterByte(tr, s, k, p.det.lastInput);
    }
  }

  /** What one event does to a count, read off the clocks. */
  lemma WithheldStep(cfg: Settings, q: Progress, e: Event)
    requires !q.escaped && q.det.count > 0
    ensures var q' := Advance(cfg, q, e);
            && (e.Bulk? ==> q'.det.count == q.det.count)
            && (e.Timeout? && !q'.escaped && (q.det.count >= 3 || e.at - q.det.lastEscape <= cfg.guard) ==>
                  q'.det.count == q.det.count)
            && (Examined(cfg, q.det, e) && e.at - q.det.lastEscape < cfg.guard ==> q'.det.count == q.det.count + 1)
  {
  }

  /**
   The guard-time rule. A caller in data mode leaves it at a read timeout if and only if the data so far ends in a run
   of at least three escape characters, each within the guard time of the one before and none within five seconds after
   a bulk chunk, with more than the guard time of silence before the run and after it.
   */
  lemma EscapesExactly(cfg: Settings, p: Progress, tr: seq<Event>, now: int)
    requires Fresh(p) && Ordered(tr) && !RunTrace(cfg, p, tr).escaped
    ensures RunTrace(cfg, p, tr + [Timeout(now)]).escaped <==>
            (exists s :: EscapeRun(cfg, p, tr, s) && |Received(tr[s..])| >= 3)
            && MoreThan(LastByteAt(tr, p.det.lastInput), now, cfg.guard)
  {
    var full := tr + [Timeout(now)];
    assert Front(full) == tr;
    Tracks(cfg, p, tr);
    if RunTrace(cfg, p, full).escaped {
      var s := WithheldIsRun(cfg, p, tr);
    }
    if s :| EscapeRun(cfg, p, tr, s) && |Received(tr[s..])| >= 3 {
      assert tr[..|tr|] == tr && tr[s..|tr|] == tr[s..];
      RunIsWithheld(cfg, p, tr, s, |tr|);
    }
  }

  /** Only a timeout ends data mode: no octet and no chunk ever does. */
  lemma OnlyTimeoutsEscape(cfg: Settings, p: Progress, tr: seq<Event>, e: Event)
    requires !RunTrace(cfg, p, tr).escaped
    ensures RunTrace(cfg, p, tr + [e]).escaped ==> e.Timeout?
  {
    assert Front(tr + [e]) == tr;
  }

  // ---------- nothing is withheld for ever ----------

  /**
   A timeout more than the guard time after the last octet settles the matter: the caller has escaped, or nothing is
   withheld any more and what was has been forwarded behind the rest.
   */
  lemma TimeoutSettles(cfg: Settings, p: Progress, tr: seq<Event>, now: int)
    requires Fresh(p) && !RunTrace(cfg, p, tr).escaped
    requires MoreThan(LastByteAt(tr, p.det.lastInput), now, cfg.guard)
    ensures var q, q' := RunTrace(cfg, p, tr), RunTrace(cfg, p, tr + [Timeout(now)]);
            if q.det.count >= 3 then q'.escaped && q'.forwarded == q.forwarded
            else !q'.escaped && q'.det.count == 0 && q'.forwarded == q.forwarded + Repeat(cfg.escapeChar, q.det.count)
  {
    assert Front(tr + [Timeout(now)]) == tr;
    Tracks(cfg, p, tr);
    var f := RunTrace(cfg, p, tr).forwarded;
    assert f + Repeat(cfg.escapeChar, 0) == f;
  }

  /** An earlier timeout changes nothing. */
  lemma TimeoutWaits(cfg: Settings, p: Progress, tr: seq<Event>, now: int)
    requires Fresh(p) && !RunTrace(cfg, p, tr).escaped
    requires !MoreThan(LastByteAt(tr, p.det.lastInput), now, cfg.guard)
    ensures RunTrace(cfg, p, tr + [Timeout(now)]) == RunTrace(cfg, p, tr)
  {
    assert Front(tr + [Timeout(now)]) == tr;
    Tracks(cfg, p, tr);
  }

  /**
   So after such a timeout that is no escape, the BBS has everything that was received if and only if no escape
   character came late after a withheld one.
   */
  lemma SettledExactly(cfg: Settings, p: Progress, tr: seq<Event>, now: int)
    requires Fresh(p) && p.forwarded == []
    requires MoreThan(LastByteAt(tr, p.det.lastInput), now, cfg.guard)
    requires !RunTrace(cfg, p, tr + [Timeout(now)]).escaped
    ensures RunTrace(cfg, p, tr + [Timeout(now)]).det.count == 0
    ensures RunTrace(cfg, p, tr + [Timeout(now)]).forwarded == Received(tr) <==> !RestartsLate(cfg, p, tr)
  {
    assert Front(tr + [Timeout(now)]) == tr;
    EscapeIsFinal(cfg, p, tr + [Timeout(now)]);
    if tr != [] {
      EscapeIsFinal(cfg, p, tr);
    }
    TimeoutSettles(cfg, p, tr, now);
    ConservationExact(cfg, p, tr);
  }

  // ---------- uploads ----------

  lemma {:induction false} AllData(cfg: Settings, p: Progress, s: seq<byte>, clock: nat -> int, bulkAt: int)
    requires !p.escaped && p.det.lastBulk == Some(bulkAt)
    requires forall i :: 0 <= i < |s| ==> clock(i) - bulkAt < 5_000_000_000
    ensures var q := RunTrace(cfg, p, ByteEvents(s, clock));
            && !q.escaped && q.det.lastBulk == Some(bulkAt)
            && (s != [] ==> q.det.count == 0 && q.forwarded == p.forwarded + Repeat(cfg.escapeChar, p.det.count) + s)
            && (s == [] ==> q == p)
  {
    var tr := ByteEvents(s, clock);
    if s == [] {
      assert tr == [];
    } else {
      var n := |s| - 1;
      assert Front(tr) == ByteEvents(Front(s), clock) && Last(tr) == Byte(s[n], clock(n));
      AllData(cfg, p, Front(s), clock, bulkAt);
      var held := p.forwarded + Repeat(cfg.escapeChar, p.det.count);
      assert s == Front(s) + [Last(s)];
      assert held + Front(s) + [Last(s)] == held + s;
      assert n > 0 ==> held + Front(s) + Repeat(cfg.escapeChar, 0) == held + Front(s);
    }
  }

  /**
   A read that brings 64 octets of data or more is data to the last octet, whatever it holds, and is never taken for an
   escape or a part of one.
   */
  lemma BulkReadPasses(cfg: Settings, p: Progress, s: seq<byte>, bulkAt: int, clock: nat -> int)
    requires !p.escaped && |s| >= 64
    requires forall i :: 0 <= i < |s| ==> clock(i) - bulkAt < 5_000_000_000
    ensures var q := RunTrace(cfg, p, ReadEvents(s, bulkAt, clock));
            && !q.escaped && q.det.count == 0
            && q.forwarded == p.forwarded + Repeat(cfg.escapeChar, p.det.count) + s
  {
    TraceConcat(cfg, p, [Bulk(bulkAt)], ByteEvents(s, clock));
    TraceOne(cfg, p, Bulk(bulkAt));
    AllData(cfg, Advance(cfg, p, Bulk(bulkAt)), s, clock, bulkAt);
  }

  /** And so is every escape character in the five seconds after it. */
  lemma QuietAfterBulk(cfg: Settings, p: Progress, tr: seq<Event>, b: byte, at: int)
    requires Fresh(p) && !RunTrace(cfg, p, tr).escaped
    requires var bulk := LastBulkAt(tr, p.det.lastBulk); bulk.Some? && at - bulk.value < 5_000_000_000
    ensures var q, q' := RunTrace(cfg, p, tr), RunTrace(cfg, p, tr + [Byte(b, at)]);
            && q'.det.count == 0
            && q'.forwarded == q.forwarded + Repeat(cfg.escapeChar, q.det.count) + [b]
  {
    assert Front(tr + [Byte(b, at)]) == tr;
    Tracks(cfg, p, tr);
  }

  lemma OneMore(cfg: Settings, p: Progress, t: seq<Event>, e: Event, q: Progress)
    requires RunTrace(cfg, p, t) == q
    ensures RunTrace(cfg, p, t + [e]) == Advance(cfg, q, e)
  {
    assert Front(t + [e]) == t;
  }

  /**
   An escape character of 0 disables nothing: three NULs after a silence, 0.1 s apart, and one second without any more
   make the caller leave data mode. At escape character 0, too, EscapesExactly says exactly which inputs do.
   */
  lemma ZeroStillEscapes(p: Progress)
    requires Fresh(p) && p.det.lastBulk == None && p.det.lastInput == None
    ensures var cfg := Settings(0, 1_000_000_000, false);
            var tr := [Byte(0, 0), Byte(0, 100_000_000), Byte(0, 200_000_000), Timeout(1_200_000_001)];
            RunTrace(cfg, p, tr).escaped && RunTrace(cfg, p, tr).forwarded == p.forwarded
  {
    var cfg := Settings(0, 1_000_000_000, false);
    var t1 := [Byte(0, 0)];
    var t2 := t1 + [Byte(0, 100_000_000)];
    var t3 := t2 + [Byte(0, 200_000_000)];
    var t4 := t3 + [Timeout(1_200_000_001)];
    var q1 := p.(det := Detector(1, 0, None, Some(0)));
    var q2 := p.(det := Detector(2, 100_000_000, None, Some(100_000_000)));
    var q3 := p.(det := Detector(3, 200_000_000, None, Some(200_000_000)));
    TraceOne(cfg, p, Byte(0, 0));
    OneMore(cfg, p, t1, Byte(0, 100_000_000), q1);
    OneMore(cfg, p, t2, Byte(0, 200_000_000), q2);
    OneMore(cfg, p, t3, Timeout(1_200_000_001), q3);
    assert t4 == [Byte(0, 0), Byte(0, 100_000_000), Byte(0, 200_000_000), Timeout(1_200_000_001)];
  }
}
