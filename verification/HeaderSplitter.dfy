/**
 The streaming splitter of web/public/js/zmodem-sentry.js. It cuts the bytes from the BBS so that each ZMODEM hex header
 is a slice of its own, and holds back a header that has only started until the next chunk brings the rest.
 */
module HeaderSplitter {
  import opened Bytes

  /** ZPAD ZPAD ZDLE 'B' '0' */
  const HEX_START: seq<byte> := [42, 42, 24, 66, 48]

  const CR: byte := 13
  const LF: byte := 10
  const LF_HIGH: byte := 138
  const XON: byte := 17
  const XON_HIGH: byte := 145

  /** The start, 14 hex digits (one of them in HEX_START), CR and LF. */
  const COMPLETE := 20

  predicate SigAt(s: seq<byte>, i: int) {
    0 <= i && i + 5 <= |s| && s[i] == 42 && s[i + 1] == 42 && s[i + 2] == 24 && s[i + 3] == 66 && s[i + 4] == 48
  }

  /** Where the header at i ends: its hex digits, then CR, LF and XON as far as they are there. */
  function HeaderEnd(s: seq<byte>, i: nat): (end: nat)
    requires i + COMPLETE <= |s|
    ensures i + 18 <= end <= i + 21 && end <= |s|
  {
    var e := i + 18;
    var e1 := if s[e] == CR then e + 1 else e;
    var e2 := if s[e1] == LF || s[e1] == LF_HIGH then e1 + 1 else e1;
    if e2 < |s| && (s[e2] == XON || s[e2] == XON_HIGH) then e2 + 1 else e2
  }

  /** All that is left of s from j on is the beginning of HEX_START, but not the whole of it. */
  predicate PartialAt(s: seq<byte>, j: int) {
    && 0 <= j < |s| <= j + 4
    && s[j] == 42
    && (j + 1 < |s| ==> s[j + 1] == 42)
    && (j + 2 < |s| ==> s[j + 2] == 24)
    && (j + 3 < |s| ==> s[j + 3] == 66)
  }

  /** The largest n up to the bound such that the last n octets are the beginning of a header start. */
  function PartialLength(s: seq<byte>, bound: nat): (n: nat)
    requires bound <= |s| && bound <= 4
    ensures n <= bound
    ensures n > 0 ==> PartialAt(s, |s| - n)
    ensures forall j :: |s| - bound <= j < |s| - n ==> !PartialAt(s, j)
  {
    if bound == 0 then 0
    else if PartialAt(s, |s| - bound) then bound
    else PartialLength(s, bound - 1)
  }

  function Room(s: seq<byte>, start: nat): nat
    requires start <= |s|
  {
    if |s| - start < 4 then |s| - start else 4
  }

  /** The slices cut off, where in the input those that are headers start, and where the tail starts. */
  datatype Cuts = Cuts(slices: seq<seq<byte>>, starts: seq<nat>, tailAt: nat)

  function Gap(s: seq<byte>, lo: nat, hi: nat): seq<seq<byte>>
    requires hi <= |s|
  {
    if lo < hi then [s[lo..hi]] else []
  }

  /** How s is cut from position i on, the octets from `start` to i being plain so far. */
  function Scan(s: seq<byte>, i: nat, start: nat): (c: Cuts)
    requires start <= i <= |s|
    ensures c.tailAt <= |s|
    decreases |s| - i
  {
    if i + 5 > |s| then
      var t := |s| - PartialLength(s, Room(s, start));
      Cuts(Gap(s, start, t), [], t)
    else if !SigAt(s, i) then Scan(s, i + 1, start)
    else if i + COMPLETE > |s| then Cuts(Gap(s, start, i), [], i)
    else
      var e := HeaderEnd(s, i);
      var rest := Scan(s, e, e);
      Cuts(Gap(s, start, i) + [s[i..e]] + rest.slices, [i] + rest.starts, rest.tailAt)
  }

  lemma FlattenOne(x: seq<byte>)
    ensures Flatten([x]) == x
  {
    assert Front([x]) == [] && Flatten<byte>([]) == [];
  }

  lemma HeaderTiles(s: seq<byte>, start: nat, i: nat, e: nat, t: nat, rest: seq<seq<byte>>)
    requires start <= i <= e <= t <= |s| && Flatten(rest) == s[e..t]
    ensures Flatten(Gap(s, start, i) + [s[i..e]] + rest) == s[start..t]
  {
    assert s[start..i] + s[i..e] + s[e..t] == s[start..t];
    FlattenOne(s[start..i]);
    FlattenOne(s[i..e]);
    FlattenConcat(Gap(s, start, i), [s[i..e]]);
    FlattenConcat(Gap(s, start, i) + [s[i..e]], rest);
  }

  /** The slices tile the input up to the tail, so no octet is lost, added or reordered. */
  lemma {:induction false} SlicesTile(s: seq<byte>, i: nat, start: nat)
    requires start <= i <= |s|
    ensures var c := Scan(s, i, start);
            start <= c.tailAt && Flatten(c.slices) == s[start..c.tailAt]
    decreases |s| - i
  {
    var c := Scan(s, i, start);
    if i + 5 <= |s| && !SigAt(s, i) {
      SlicesTile(s, i + 1, start);
    } else if i + COMPLETE > |s| {
      FlattenOne(s[start..c.tailAt]);
    } else {
      var e := HeaderEnd(s, i);
      SlicesTile(s, e, e);
      HeaderTiles(s, start, i, e, c.tailAt, Scan(s, e, e).slices);
    }
  }

  // ---------- the splitter itself ----------

  method MatchesStart(s: seq<byte>, i: nat) returns (m: bool)
    requires i + 5 <= |s|
    ensures m <==> SigAt(s, i)
  {
    if s[i] != HEX_START[0] {
      return false;
    }
    for k := 1 to 5
      invariant forall l :: 0 <= l < k ==> HEX_START[l] == s[i + l]
    {
      if s[i + k] != HEX_START[k] {
        return false;
      }
    }
    assert s[i] == HEX_START[0] && s[i + 1] == HEX_START[1] && s[i + 2] == HEX_START[2];
    assert s[i + 3] == HEX_START[3] && s[i + 4] == HEX_START[4];
    return true;
  }

  method MatchesPartial(s: seq<byte>, n: nat) returns (m: bool)
    requires 1 <= n <= 4 && n <= |s|
    ensures m <==> PartialAt(s, |s| - n)
  {
    for k := 0 to n
      invariant forall l :: |s| - n <= l < |s| - n + k ==> s[l] == HEX_START[l - (|s| - n)]
    {
      if s[|s| - n + k] != HEX_START[k] {
        return false;
      }
    }
    return true;
  }

  method FindHeaderEnd(s: seq<byte>, i: nat) returns (end: nat)
    requires i + COMPLETE <= |s|
    ensures end == HeaderEnd(s, i)
  {
    end := i + 18;
    if s[end] == CR {
      end := end + 1;
    }
    if s[end] == LF || s[end] == LF_HIGH {
      end := end + 1;
    }
    if end < |s| && (s[end] == XON || s[end] == XON_HIGH) {
      end := end + 1;
    }
  }

  /** The scan of s, which comes to `whole`, has got to i, plain octets since `start`, with `slices` cut off so far. */
  predicate Cutting(whole: Cuts, s: seq<byte>, i: nat, start: nat, slices: seq<seq<byte>>) {
    && start <= i <= |s|
    && whole.slices == slices + Scan(s, i, start).slices
    && whole.tailAt == Scan(s, i, start).tailAt
  }

  lemma CuttingStarts(s: seq<byte>)
    ensures Cutting(Scan(s, 0, 0), s, 0, 0, [])
  {
    var whole := Scan(s, 0, 0);
    assert [] + whole.slices == whole.slices;
  }

  lemma NoHeaderHere(whole: Cuts, s: seq<byte>, i: nat, start: nat, slices: seq<seq<byte>>)
    requires Cutting(whole, s, i, start, slices) && i + 5 <= |s| && !SigAt(s, i)
    ensures Cutting(whole, s, i + 1, start, slices)
  {
  }

  lemma HeaderHere(whole: Cuts, s: seq<byte>, i: nat, start: nat, slices: seq<seq<byte>>, end: nat)
    requires Cutting(whole, s, i, start, slices) && SigAt(s, i) && i + COMPLETE <= |s| && end == HeaderEnd(s, i)
    ensures Cutting(whole, s, end, end, slices + Gap(s, start, i) + [s[i..end]])
  {
    ContinueHeader(slices, Gap(s, start, i), s[i..end], Scan(s, end, end).slices);
  }

  lemma HeaderUnfinished(whole: Cuts, s: seq<byte>, i: nat, start: nat, slices: seq<seq<byte>>)
    requires Cutting(whole, s, i, start, slices) && SigAt(s, i) && i + COMPLETE > |s|
    ensures whole.slices == slices + Gap(s, start, i) && whole.tailAt == i
  {
  }

  lemma ScanEnds(s: seq<byte>, i: nat, start: nat)
    requires start <= i <= |s| < i + 5
    ensures var t := |s| - PartialLength(s, Room(s, start)); Scan(s, i, start) == Cuts(Gap(s, start, t), [], t)
  {
  }

  lemma NoMoreHeaders(whole: Cuts, s: seq<byte>, i: nat, start: nat, slices: seq<seq<byte>>)
    requires Cutting(whole, s, i, start, slices) && i + 5 > |s|
    ensures var t := |s| - PartialLength(s, Room(s, start));
            whole.slices == slices + Gap(s, start, t) && whole.tailAt == t
  {
    ScanEnds(s, i, start);
  }

  /** `slices` with s[lo..hi] behind them, unless that is empty. */
  method AppendGap(s: seq<byte>, lo: nat, hi: nat, slices: seq<seq<byte>>) returns (slices': seq<seq<byte>>)
    requires hi <= |s|
    ensures slices' == slices + Gap(s, lo, hi)
  {
    if lo < hi {
      return slices + [s[lo..hi]];
    }
    return slices;
  }

  method SplitAtHeaderBoundaries(s: seq<byte>) returns (slices: seq<seq<byte>>, tail: seq<byte>)
    ensures slices == Scan(s, 0, 0).slices && tail == s[Scan(s, 0, 0).tailAt..]
  {
    slices := [];
    var start, i := 0, 0;
    ghost var whole := Scan(s, 0, 0);
    CuttingStarts(s);
    while i + 5 <= |s|
      invariant Cutting(whole, s, i, start, slices)
    {
      var m := MatchesStart(s, i);
      if !m {
        NoHeaderHere(whole, s, i, start, slices);
        i := i + 1;
      } else if i + COMPLETE > |s| {
        HeaderUnfinished(whole, s, i, start, slices);
        slices := AppendGap(s, start, i, slices);
        return slices, s[i..];
      } else {
        var end := FindHeaderEnd(s, i);
        HeaderHere(whole, s, i, start, slices, end);
        slices := AppendGap(s, start, i, slices);
        slices := slices + [s[i..end]];
        start, i := end, end;
      }
    }
    NoMoreHeaders(whole, s, i, start, slices);
    var n := PartialTail(s, Room(s, start));
    slices := AppendGap(s, start, |s| - n, slices);
    tail := s[|s| - n..];
  }

  method PartialTail(s: seq<byte>, room: nat) returns (n: nat)
    requires room <= |s| && room <= 4
    ensures n == PartialLength(s, room)
  {
    n := room;
    while n >= 1
      invariant 0 <= n <= room
      invariant PartialLength(s, room) == PartialLength(s, n)
    {
      var m := MatchesPartial(s, n);
      if m {
        return;
      }
      n := n - 1;
    }
  }

  lemma ContinueHeader(done: seq<seq<byte>>, gap: seq<seq<byte>>, header: seq<byte>, rest: seq<seq<byte>>)
    ensures done + (gap + [header] + rest) == done + gap + [header] + rest
    ensures gap == [] ==> done + gap == done
  {
  }

  // ---------- what is found and what is held back ----------

  /** Every start found is a complete header before the tail. */
  lemma {:induction false} FindsOnlyHeaders(s: seq<byte>, i: nat, start: nat, h: nat)
    requires start <= i <= |s| && h in Scan(s, i, start).starts
    ensures i <= h && SigAt(s, h) && h + COMPLETE <= |s| && HeaderEnd(s, h) <= Scan(s, i, start).tailAt
    decreases |s| - i
  {
    if !SigAt(s, i) {
      FindsOnlyHeaders(s, i + 1, start, h);
    } else {
      var e := HeaderEnd(s, i);
      SlicesTile(s, e, e);
      if h != i {
        FindsOnlyHeaders(s, e, e, h);
      }
    }
  }

  /** Every header start before the tail is found, or lies inside a header that was. */
  lemma {:induction false} FindsAllHeaders(s: seq<byte>, i: nat, start: nat, j: nat)
    returns (h: nat)
    requires start <= i <= |s| && i <= j < Scan(s, i, start).tailAt && SigAt(s, j)
    ensures h in Scan(s, i, start).starts && h + COMPLETE <= |s| && h <= j < HeaderEnd(s, h)
    decreases |s| - i
  {
    if !SigAt(s, i) {
      h := FindsAllHeaders(s, i + 1, start, j);
    } else {
      var e := HeaderEnd(s, i);
      if e <= j {
        h := FindsAllHeaders(s, e, e, j);
      } else {
        h := i;
      }
      assert Scan(s, i, start).starts == [i] + Scan(s, e, e).starts;
    }
  }

  /** Each header found is a slice of its own, reached after exactly the octets in front of it. */
  lemma {:induction false} HeaderIsOwnSlice(s: seq<byte>, i: nat, start: nat, h: nat) returns (m: nat)
    requires start <= i <= |s| && h in Scan(s, i, start).starts
    ensures h + COMPLETE <= |s|
    ensures var slices := Scan(s, i, start).slices;
            m < |slices| && slices[m] == s[h..HeaderEnd(s, h)] && |Flatten(slices[..m])| == h - start
    decreases |s| - i
  {
    if !SigAt(s, i) {
      m := HeaderIsOwnSlice(s, i + 1, start, h);
    } else {
      var e := HeaderEnd(s, i);
      var lead, rest := Gap(s, start, i) + [s[i..e]], Scan(s, e, e).slices;
      FlattenOne(s[start..i]);
      if h == i {
        m := |Gap(s, start, i)|;
        assert (lead + rest)[..m] == Gap(s, start, i);
      } else {
        var k := HeaderIsOwnSlice(s, e, e, h);
        m := |lead| + k;
        assert (lead + rest)[..m] == lead + rest[..k];
        FlattenConcat(lead, rest[..k]);
        FlattenConcat(Gap(s, start, i), [s[i..e]]);
        FlattenOne(s[i..e]);
      }
    }
  }

  predicate IsHexDigit(b: byte) {
    48 <= b <= 57 || 65 <= b <= 70 || 97 <= b <= 102
  }

  /** The octets behind the digits: CR LF, and XON where it is there. LF and XON may have their high bit set. */
  predicate IsTrailer(t: seq<byte>) {
    2 <= |t| <= 3 && t[0] == CR && t[1] in {LF, LF_HIGH} && (|t| == 3 ==> t[2] in {XON, XON_HIGH})
  }

  /** A hex header as ZMODEM has it: ZPAD ZPAD ZDLE B, 14 hex digits, and the trailer. */
  predicate IsHexHeader(t: seq<byte>) {
    |t| >= 18 && SigAt(t, 0) && (forall k :: 4 <= k < 18 ==> IsHexDigit(t[k])) && IsTrailer(t[18..])
  }

  /**
   What is cut out as a header need not be one. It carries its CR LF if and only if they come right behind the 14 octets
   where the digits belong, and with them the XON if there is one, and is a hex header if and only if, besides, those
   octets are hex digits.
   */
  lemma HeaderWholeExactly(s: seq<byte>, i: nat, start: nat, h: nat) returns (m: nat)
    requires start <= i <= |s| && h in Scan(s, i, start).starts
    ensures h + COMPLETE <= |s| && m < |Scan(s, i, start).slices|
    ensures var slice := Scan(s, i, start).slices[m];
            var crLf := s[h + 18] == CR && s[h + 19] in {LF, LF_HIGH};
            && slice == s[h..HeaderEnd(s, h)] && |slice| >= 18
            && (IsTrailer(slice[18..]) <==> crLf)
            && (crLf ==> |slice| == if h + 20 < |s| && s[h + 20] in {17, 145} then 21 else 20)
            && (IsHexHeader(slice) <==> crLf && forall k :: h + 4 <= k < h + 18 ==> IsHexDigit(s[k]))
  {
    FindsOnlyHeaders(s, i, start, h);
    m := HeaderIsOwnSlice(s, i, start, h);
    var slice := s[h..HeaderEnd(s, h)];
    forall k | h + 4 <= k < h + 18
      ensures slice[k - h] == s[k]
    {
    }
    if IsHexHeader(slice) {
      forall k | h + 4 <= k < h + 18
        ensures IsHexDigit(s[k])
      {
        assert IsHexDigit(slice[k - h]);
      }
    }
  }

  /** Of fifteen letters behind a header start, thirteen are taken for the rest of a header: no CR or LF anywhere. */
  lemma LettersTakenForHeader()
    ensures var x: byte := 120;
            var s := HEX_START + [x, x, x, x, x, x, x, x, x, x, x, x, x, x, x];
            Scan(s, 0, 0) == Cuts([s[..18], s[18..]], [0], 20) && CR !in s && LF !in s && LF_HIGH !in s
  {
    var x: byte := 120;
    var s := HEX_START + [x, x, x, x, x, x, x, x, x, x, x, x, x, x, x];
    assert SigAt(s, 0) && HeaderEnd(s, 0) == 18;
    assert Scan(s, 18, 18) == Cuts([s[18..20]], [], 20);
    assert s[18..20] == s[18..] && s[0..18] == s[..18] && Gap(s, 0, 0) == [];
    assert [] + [s[..18]] + [s[18..]] == [s[..18], s[18..]] && [0] + [] == [0];
  }

  lemma PartialIsPrefix(s: seq<byte>, t: nat)
    requires t < |s| && (PartialAt(s, t) || SigAt(s, t))
    ensures s[t..] <= HEX_START || HEX_START <= s[t..]
  {
    var tail := s[t..];
    assert tail[0] == s[t] && (|tail| > 1 ==> tail[1] == s[t + 1]) && (|tail| > 2 ==> tail[2] == s[t + 2]);
    assert (|tail| > 3 ==> tail[3] == s[t + 3]) && (|tail| > 4 ==> tail[4] == s[t + 4]);
  }

  /** What is held back is the beginning of a header: at most 19 octets, agreeing with HEX_START as far as they go. */
  lemma {:induction false} TailIsShort(s: seq<byte>, i: nat, start: nat)
    requires start <= i <= |s|
    ensures var tail := s[Scan(s, i, start).tailAt..];
            |tail| <= 19 && (tail <= HEX_START || HEX_START <= tail)
    decreases |s| - i
  {
    if i + 5 > |s| {
      if Scan(s, i, start).tailAt < |s| {
        PartialIsPrefix(s, Scan(s, i, start).tailAt);
      }
    } else if !SigAt(s, i) {
      TailIsShort(s, i + 1, start);
    } else if i + COMPLETE <= |s| {
      TailIsShort(s, HeaderEnd(s, i), HeaderEnd(s, i));
    } else {
      PartialIsPrefix(s, i);
    }
  }

  // ---------- chunking independence ----------

  /** Octets that start no header may be skipped. */
  lemma {:induction false} Skip(s: seq<byte>, i: nat, t: nat, start: nat)
    requires start <= i <= t <= |s|
    requires forall j :: i <= j < t ==> !SigAt(s, j)
    ensures Scan(s, i, start) == Scan(s, t, start)
    decreases t - i
  {
    if i == t {
    } else {
      Skip(s, i + 1, t, start);
    }
  }

  predicate SameCut(a: Cuts, b: Cuts) {
    a.starts == b.starts && a.tailAt == b.tailAt
  }

  /** Where the plain octets began matters only to how they are sliced. */
  lemma {:induction false} Restart(s: seq<byte>, i: nat, start: nat, start': nat)
    requires start <= start' <= i <= |s|
    requires forall j :: start <= j < start' ==> !PartialAt(s, j)
    ensures SameCut(Scan(s, i, start), Scan(s, i, start'))
    decreases |s| - i
  {
    if i + 5 <= |s| && !SigAt(s, i) {
      Restart(s, i + 1, start, start');
    } else if i + COMPLETE > |s| {
      SamePartial(s, start, start');
    }
  }

  lemma SamePartial(s: seq<byte>, start: nat, start': nat)
    requires start <= start' <= |s|
    requires forall j :: start <= j < start' ==> !PartialAt(s, j)
    ensures PartialLength(s, Room(s, start)) == PartialLength(s, Room(s, start'))
  {
    var n, n' := PartialLength(s, Room(s, start)), PartialLength(s, Room(s, start'));
    assert n > 0 ==> PartialAt(s, |s| - n);
    assert n' > 0 ==> PartialAt(s, |s| - n');
  }

  function Offset(starts: seq<nat>, p: nat): (r: seq<nat>)
    ensures |r| == |starts| && forall k :: 0 <= k < |r| ==> r[k] == starts[k] + p
  {
    seq(|starts|, k requires 0 <= k < |starts| => starts[k] + p)
  }

  lemma OffsetHeader(i: nat, starts: seq<nat>, p: nat)
    ensures Offset([i] + starts, p) == [p + i] + Offset(starts, p)
  {
  }

  lemma SuffixHeader(s: seq<byte>, p: nat, i: nat)
    requires p + i + COMPLETE <= |s|
    ensures HeaderEnd(s, p + i) == p + HeaderEnd(s[p..], i)
  {
  }

  /** Scanning a suffix is scanning the whole from there, with the positions moved. */
  lemma {:induction false} ScanSuffix(s: seq<byte>, p: nat, i: nat, start: nat)
    requires start <= i && p + i <= |s|
    ensures var c, d := Scan(s[p..], i, start), Scan(s, p + i, p + start);
            d.starts == Offset(c.starts, p) && d.tailAt == c.tailAt + p
    decreases |s| - i
  {
    var x := s[p..];
    assert SigAt(s, p + i) <==> SigAt(x, i);
    if i + 5 <= |x| && !SigAt(x, i) {
      ScanSuffix(s, p, i + 1, start);
    } else if i + COMPLETE > |x| {
      SuffixPartial(s, p, Room(x, start));
    } else {
      var e := HeaderEnd(x, i);
      SuffixHeader(s, p, i);
      ScanSuffix(s, p, e, e);
      OffsetHeader(i, Scan(x, e, e).starts, p);
    }
  }

  lemma {:induction false} SuffixPartial(s: seq<byte>, p: nat, bound: nat)
    requires p <= |s| && bound <= |s| - p && bound <= 4
    ensures PartialLength(s[p..], bound) == PartialLength(s, bound)
  {
    if bound == 0 {
    } else {
      var x := s[p..];
      assert PartialAt(x, |x| - bound) <==> PartialAt(s, |s| - bound);
      SuffixPartial(s, p, bound - 1);
    }
  }

  /**
   More input after x does not change the headers found in x, and scanning goes on from where x was cut. (Only the XON
   behind a header that ended x exactly can move: the next slice begins with it instead.)
   */
  lemma {:induction false} Extend(x: seq<byte>, y: seq<byte>, i: nat, start: nat)
    requires start <= i <= |x| && (i == start || i + 4 <= |x|)
    ensures Extends(x, x + y, i, start)
    decreases |x| - i
  {
    var z := x + y;
    assert i + 5 <= |x| ==> (SigAt(x, i) <==> SigAt(z, i));
    if i + 5 <= |x| {
      if !SigAt(x, i) {
        Extend(x, y, i + 1, start);
      } else if i + COMPLETE > |x| {
        assert Extends(x, z, i, start);
      } else {
        ExtendHeader(x, y, i, start);
      }
    } else {
      ExtendEnd(x, y, i, start);
    }
  }

  predicate Extends(x: seq<byte>, z: seq<byte>, i: nat, start: nat)
    requires start <= i <= |x| <= |z|
  {
    var c := Scan(x, i, start);
    var d := Scan(z, c.tailAt, c.tailAt);
    var whole := Scan(z, i, start);
    whole.starts == c.starts + d.starts && whole.tailAt == d.tailAt
  }

  /** x ends without a header start; at most the beginning of one is held back. */
  lemma ExtendEnd(x: seq<byte>, y: seq<byte>, i: nat, start: nat)
    requires start <= i <= |x| < i + 5 && (i == start || i + 4 <= |x|)
    ensures Extends(x, x + y, i, start)
  {
    var z, t := x + y, |x| - PartialLength(x, Room(x, start));
    TailMeansNoStart(x, y, i, start);
    Skip(z, i, t, start);
    Restart(z, t, start, t);
  }

  /** Nothing before the tail of x can turn into a header start once y is there. */
  lemma TailMeansNoStart(x: seq<byte>, y: seq<byte>, i: nat, start: nat)
    requires start <= i <= |x| < i + 5 && (i == start || i + 4 <= |x|)
    ensures var t := |x| - PartialLength(x, Room(x, start));
            && i <= t
            && (forall j :: i <= j < t ==> !SigAt(x + y, j))
            && (forall j :: start <= j < t ==> !PartialAt(x + y, j))
  {
    var z, t := x + y, |x| - PartialLength(x, Room(x, start));
    forall j | start <= j < t
      ensures !PartialAt(z, j) && (i <= j ==> !SigAt(z, j))
    {
      assert !PartialAt(x, j);
    }
  }

  /** A complete header at i. Only its XON can still be missing. */
  lemma {:induction false} ExtendHeader(x: seq<byte>, y: seq<byte>, i: nat, start: nat)
    requires start <= i && i + COMPLETE <= |x| && SigAt(x, i) && SigAt(x + y, i)
    ensures Extends(x, x + y, i, start)
    decreases |x| - i, 0
  {
    var z := x + y;
    var e, e' := HeaderEnd(x, i), HeaderEnd(z, i);
    if e' == e {
      Extend(x, y, e, e);
    } else {
      assert e == |x| && e' == e + 1 && z[e] in {XON, XON_HIGH};
      assert !SigAt(z, e) && !PartialAt(z, e);
      Skip(z, e, e', e);
      Restart(z, e', e, e');
    }
  }

  /** The stream so far as one call would see it. */
  function HeaderStarts(stream: seq<byte>): seq<nat> {
    Scan(stream, 0, 0).starts
  }

  function TailAt(stream: seq<byte>): nat {
    Scan(stream, 0, 0).tailAt
  }

  lemma ScanRest(stream: seq<byte>, chunk: seq<byte>, t: nat)
    requires t <= |stream|
    ensures var c, d := Scan(stream[t..] + chunk, 0, 0), Scan(stream + chunk, t, t);
            d.starts == Offset(c.starts, t) && d.tailAt == t + c.tailAt
  {
    assert (stream + chunk)[t..] == stream[t..] + chunk;
    ScanSuffix(stream + chunk, t, 0, 0);
  }

  /** Splitting the held-back tail with a new chunk behind it goes on exactly where the last call stopped. */
  lemma CarryTail(stream: seq<byte>, chunk: seq<byte>)
    ensures var t := TailAt(stream);
            var input := stream[t..] + chunk;
            && HeaderStarts(stream + chunk) == HeaderStarts(stream) + Offset(HeaderStarts(input), t)
            && TailAt(stream + chunk) == t + TailAt(input)
  {
    var t := TailAt(stream);
    Extend(stream, chunk, 0, 0);
    ScanRest(stream, chunk, t);
  }

  // ---------- the slices of a whole connection ----------

  /**
   x is the header at h of the stream s, and no more. Only its trailing XON may be missing, when it came too late to
   be cut with the rest.
   */
  predicate IsHeaderSlice(s: seq<byte>, h: nat, x: seq<byte>) {
    h + COMPLETE <= |s| &&
    var e := HeaderEnd(s, h);
    x == s[h..e] || (h + 18 < e && s[e - 1] in {XON, XON_HIGH} && x == s[h..e - 1])
  }

  /**
   Of consecutive slices of the stream s, the first starting at `at`, those that begin as headers do are the headers
   that start at `starts`, in this order, each a slice of its own.
   */
  predicate HeadersApart(s: seq<byte>, slices: seq<seq<byte>>, at: nat, starts: seq<nat>) {
    if slices == [] then starts == []
    else if SigAt(Last(slices), 0) then
      && starts != []
      && Last(starts) == at + |Flatten(Front(slices))|
      && IsHeaderSlice(s, Last(starts), Last(slices))
      && HeadersApart(s, Front(slices), at, Front(starts))
    else HeadersApart(s, Front(slices), at, starts)
  }

  lemma {:induction false} ApartConcat(s: seq<byte>, a: seq<seq<byte>>, b: seq<seq<byte>>, at: nat, x: seq<nat>,
                                       y: seq<nat>)
    requires HeadersApart(s, a, at, x) && HeadersApart(s, b, at + |Flatten(a)|, y)
    ensures HeadersApart(s, a + b, at, x + y)
  {
    if b == [] {
      assert a + b == a && x + y == x;
    } else {
      assert Front(a + b) == a + Front(b) && Last(a + b) == Last(b);
      FlattenConcat(a, Front(b));
      if SigAt(Last(b), 0) {
        assert Front(x + y) == x + Front(y) && Last(x + y) == Last(y);
        ApartConcat(s, a, Front(b), at, x, Front(y));
      } else {
        ApartConcat(s, a, Front(b), at, x, y);
      }
    }
  }

  lemma ApartOne(s: seq<byte>, x: seq<byte>, at: nat)
    ensures HeadersApart(s, [x], at, []) <==> !SigAt(x, 0)
    ensures SigAt(x, 0) && IsHeaderSlice(s, at, x) ==> HeadersApart(s, [x], at, [at])
  {
    assert Front([x]) == [] && Front([at]) == [] && Flatten<byte>([]) == [];
  }

  lemma ApartGap(s: seq<byte>, start: nat, hi: nat)
    requires start <= hi <= |s| && (start < hi ==> !SigAt(s, start))
    ensures HeadersApart(s, Gap(s, start, hi), start, []) && |Flatten(Gap(s, start, hi))| == hi - start
  {
    ApartOne(s, s[start..hi], start);
    FlattenOne(s[start..hi]);
  }

  lemma ApartHeader(s: seq<byte>, h: nat)
    requires SigAt(s, h) && h + COMPLETE <= |s|
    ensures HeadersApart(s, [s[h..HeaderEnd(s, h)]], h, [h])
  {
    ApartOne(s, s[h..HeaderEnd(s, h)], h);
  }

  /** One call: the slices themselves tell where the headers are. */
  lemma {:induction false} ScanApart(s: seq<byte>, i: nat, start: nat)
    requires start <= i <= |s| && (start < i ==> !SigAt(s, start))
    ensures HeadersApart(s, Scan(s, i, start).slices, start, Scan(s, i, start).starts)
    decreases |s| - i
  {
    if i + 5 > |s| {
      ApartGap(s, start, Scan(s, i, start).tailAt);
    } else if !SigAt(s, i) {
      ScanApart(s, i + 1, start);
    } else if i + COMPLETE > |s| {
      ApartGap(s, start, i);
    } else {
      var e := HeaderEnd(s, i);
      ScanApart(s, e, e);
      HeaderFollows(s, start, i, Scan(s, e, e).slices, Scan(s, e, e).starts);
    }
  }

  /** A header behind plain octets, in front of more slices. */
  lemma HeaderFollows(s: seq<byte>, start: nat, i: nat, rest: seq<seq<byte>>, starts: seq<nat>)
    requires start <= i && SigAt(s, i) && i + COMPLETE <= |s| && (start < i ==> !SigAt(s, start))
    requires HeadersApart(s, rest, HeaderEnd(s, i), starts)
    ensures HeadersApart(s, Gap(s, start, i) + [s[i..HeaderEnd(s, i)]] + rest, start, [i] + starts)
  {
    var gap, header := Gap(s, start, i), [s[i..HeaderEnd(s, i)]];
    ApartGap(s, start, i);
    ApartHeader(s, i);
    ApartConcat(s, gap, header, start, [], [i]);
    FlattenConcat(gap, header);
    FlattenOne(header[0]);
    assert [] + [i] == [i];
    ApartConcat(s, gap + header, rest, start, [i], starts);
  }

  lemma HeaderSliceShift(s: seq<byte>, p: nat, h: nat, x: seq<byte>)
    requires p <= |s| && IsHeaderSlice(s[p..], h, x)
    ensures IsHeaderSlice(s, p + h, x)
  {
    SuffixHeader(s, p, h);
    var e := HeaderEnd(s[p..], h);
    assert s[p..][h..e] == s[p + h..p + e] && s[p..][h..e - 1] == s[p + h..p + e - 1];
  }

  /** The slices of an input that begins at p in the stream. */
  lemma {:induction false} ApartShift(s: seq<byte>, p: nat, slices: seq<seq<byte>>, starts: seq<nat>)
    requires p <= |s| && HeadersApart(s[p..], slices, 0, starts)
    ensures HeadersApart(s, slices, p, Offset(starts, p))
  {
    if slices == [] {
    } else if SigAt(Last(slices), 0) {
      assert Front(Offset(starts, p)) == Offset(Front(starts), p) && Last(Offset(starts, p)) == p + Last(starts);
      HeaderSliceShift(s, p, Last(starts), Last(slices));
      ApartShift(s, p, Front(slices), Front(starts));
    } else {
      ApartShift(s, p, Front(slices), starts);
    }
  }

  /** More input keeps the slices cut so far; an XON that completes a header is the one thing it can add to them. */
  lemma {:induction false} ApartKept(s: seq<byte>, more: seq<byte>, slices: seq<seq<byte>>, at: nat, starts: seq<nat>)
    requires HeadersApart(s, slices, at, starts)
    ensures HeadersApart(s + more, slices, at, starts)
  {
    if slices == [] {
    } else if SigAt(Last(slices), 0) {
      HeaderSliceKept(s, more, Last(starts), Last(slices));
      ApartKept(s, more, Front(slices), at, Front(starts));
    } else {
      ApartKept(s, more, Front(slices), at, starts);
    }
  }

  lemma HeaderSliceKept(s: seq<byte>, more: seq<byte>, h: nat, x: seq<byte>)
    requires IsHeaderSlice(s, h, x)
    ensures IsHeaderSlice(s + more, h, x)
  {
    var z := s + more;
    var e, e' := HeaderEnd(s, h), HeaderEnd(z, h);
    assert s[h..e] == z[h..e] && s[h..e - 1] == z[h..e - 1];
    assert e' == e || (e' == e + 1 && z[e] in {XON, XON_HIGH} && (h + 18 < e ==> s[e - 1] !in {XON, XON_HIGH}));
  }

  /** All the slices handed on for a stream: they carry it up to the tail, its headers among them, each apart. */
  predicate WellCut(stream: seq<byte>, cut: seq<seq<byte>>) {
    Flatten(cut) == stream[..TailAt(stream)] && HeadersApart(stream, cut, 0, HeaderStarts(stream))
  }

  lemma HeadersGrow(stream: seq<byte>, chunk: seq<byte>, cut: seq<seq<byte>>, t: nat, starts: seq<nat>)
    requires t <= |stream| && |Flatten(cut)| == t && HeadersApart(stream, cut, 0, starts)
    ensures var c := Scan(stream[t..] + chunk, 0, 0);
            HeadersApart(stream + chunk, cut + c.slices, 0, starts + Offset(c.starts, t))
  {
    var z, c := stream + chunk, Scan(stream[t..] + chunk, 0, 0);
    assert z[t..] == stream[t..] + chunk;
    ScanApart(z[t..], 0, 0);
    ApartShift(z, t, c.slices, c.starts);
    ApartKept(stream, chunk, cut, 0, starts);
    ApartConcat(z, cut, c.slices, 0, starts, Offset(c.starts, t));
  }

  /** One call more, the slices of the input behind those already cut. */
  lemma CutGrows(stream: seq<byte>, chunk: seq<byte>, cut: seq<seq<byte>>, input: seq<byte>)
    requires WellCut(stream, cut) && input == stream[TailAt(stream)..] + chunk
    ensures WellCut(stream + chunk, cut + Scan(input, 0, 0).slices)
  {
    var t, c := TailAt(stream), Scan(input, 0, 0);
    CarryTail(stream, chunk);
    HeadersGrow(stream, chunk, cut, t, HeaderStarts(stream));
    SlicesTile(input, 0, 0);
    FlattenConcat(cut, c.slices);
    TextGrows(stream, chunk, t, c.tailAt);
  }

  lemma TextGrows(stream: seq<byte>, chunk: seq<byte>, t: nat, n: nat)
    requires t <= |stream| && n <= |stream| - t + |chunk|
    ensures stream[..t] + (stream[t..] + chunk)[0..n] == (stream + chunk)[..t + n]
    ensures (stream[t..] + chunk)[n..] == (stream + chunk)[t + n..]
  {
  }

  /** Each header found can be pointed at among the slices. */
  lemma {:induction false} HeaderAmongSlices(s: seq<byte>, slices: seq<seq<byte>>, at: nat, starts: seq<nat>, h: nat)
    returns (m: nat)
    requires HeadersApart(s, slices, at, starts) && h in starts
    ensures m < |slices| && at + |Flatten(slices[..m])| == h && IsHeaderSlice(s, h, slices[m])
  {
    if SigAt(Last(slices), 0) && h == Last(starts) {
      m := |slices| - 1;
    } else {
      var before := if SigAt(Last(slices), 0) then Front(starts) else starts;
      assert starts == before || starts == before + [Last(starts)];
      m := HeaderAmongSlices(s, Front(slices), at, before, h);
      assert Front(slices)[..m] == slices[..m];
    }
  }

  /** And no other slice begins as a header does. */
  lemma {:induction false} OnlyHeadersAmongSlices(s: seq<byte>, slices: seq<seq<byte>>, at: nat, starts: seq<nat>,
                                                  m: nat)
    requires HeadersApart(s, slices, at, starts) && m < |slices| && SigAt(slices[m], 0)
    ensures at + |Flatten(slices[..m])| in starts
  {
    if m == |slices| - 1 {
      assert slices[..m] == Front(slices) && Last(starts) in starts;
    } else {
      var before := if SigAt(Last(slices), 0) then Front(starts) else starts;
      assert Front(slices)[..m] == slices[..m];
      OnlyHeadersAmongSlices(s, Front(slices), at, before, m);
      assert forall x :: x in before ==> x in starts;
    }
  }

  /** The bridge's side of a connection to a BBS. */
  class Bridge {
    var headerTail: seq<byte>
    ghost var received: seq<byte>
    ghost var cut: seq<seq<byte>>  // every slice handed on so far

    /**
     Chunking independence. Whatever the chunks were: the octets handed on and the octets held back are those of one
     call on the whole stream; the slices that are headers start exactly where that call finds headers; and each of
     them is that header alone, but for an XON that came too late and is in front of what follows.
     */
    ghost predicate Valid()
      reads this
    {
      WellCut(received, cut) && headerTail == received[TailAt(received)..]
    }

    constructor ()
      ensures Valid() && received == [] && cut == []
    {
      headerTail, received, cut := [], [], [];
    }

    method Consume(chunk: seq<byte>) returns (slices: seq<seq<byte>>)
      requires Valid()
      modifies this
      ensures Valid() && received == old(received) + chunk && cut == old(cut) + slices
      ensures |headerTail| < COMPLETE
    {
      var input := headerTail + chunk;
      CarryTail(received, chunk);
      TailIsShort(input, 0, 0);
      CutGrows(received, chunk, cut, input);
      TextGrows(received, chunk, TailAt(received), TailAt(input));
      slices, headerTail := SplitAtHeaderBoundaries(input);
      cut := cut + slices;
      received := received + chunk;
    }
  }
}
