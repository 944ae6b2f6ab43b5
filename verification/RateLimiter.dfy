/**
 The per-IP sliding window and the global fixed window of internal/server/ratelimit.go. Times are clock readings; the
 limiter's lock makes its operations atomic, and the clock never goes back.
 */
module RateLimiting {
  import opened Bytes

  const MAX_TRACKED_IPS := 10000
  const GLOBAL_MAX_RATE := 1000

  predicate Sorted(s: seq<int>) {
    forall i, j :: 0 <= i <= j < |s| ==> s[i] <= s[j]
  }

  predicate UpTo(s: seq<int>, t: int) {
    forall i :: 0 <= i < |s| ==> s[i] <= t
  }

  /** Any `max` steps along s take at least d. */
  predicate Spaced(s: seq<int>, max: int, d: int) {
    forall i, j :: 0 <= i <= j < |s| && j - i >= max ==> s[j] - s[i] >= d
  }

  /** How many of s fall in the interval (t - d, t]. */
  function CountWithin(s: seq<int>, t: int, d: int): nat {
    if s == [] then 0 else CountWithin(Front(s), t, d) + if t - d < Last(s) <= t then 1 else 0
  }

  lemma {:induction false} CountFrom(s: seq<int>, t: int, d: int, lo: nat)
    requires lo <= |s| && forall i :: 0 <= i < lo ==> s[i] <= t - d
    ensures CountWithin(s, t, d) <= |s| - lo
  {
    if s == [] {
    } else {
      CountFrom(Front(s), t, d, if lo < |s| then lo else lo - 1);
    }
  }

  /** Spacing bounds every interval. */
  lemma {:induction false} SpacedBounds(s: seq<int>, max: nat, t: int, d: int)
    requires Sorted(s) && Spaced(s, max, d)
    ensures CountWithin(s, t, d) <= max
  {
    if s == [] {
    } else {
      if t - d < Last(s) <= t {
        CountFrom(s, t, d, if max <= |s| then |s| - max else 0);
      } else {
        SpacedBounds(Front(s), max, t, d);
      }
    }
  }

  /** The attempts after the cutoff, of a list in time order. */
  function Recent(a: seq<int>, cutoff: int): seq<int> {
    if a == [] || a[0] > cutoff then a else Recent(a[1..], cutoff)
  }

  lemma {:induction false} RecentSuffix(a: seq<int>, cutoff: int)
    requires Sorted(a)
    ensures |Recent(a, cutoff)| <= |a| && Recent(a, cutoff) == a[|a| - |Recent(a, cutoff)|..]
    ensures forall i :: 0 <= i < |a| ==> (i >= |a| - |Recent(a, cutoff)| <==> a[i] > cutoff)
    ensures Sorted(Recent(a, cutoff))
    decreases |a|
  {
    if a != [] && a[0] <= cutoff {
      RecentSuffix(a[1..], cutoff);
    }
  }

  // ---------- one address ----------

  datatype Limits = Limits(max: int, window: int, blockDuration: int)
  {
    /** A block lasts at least as long as the window; otherwise it makes the limiter forget too soon. */
    predicate Sound() {
      0 <= window <= blockDuration
    }
  }

  /** All that the limiter knows of one address, and when that address has been allowed. */
  datatype Account = Account(history: seq<int>, attempts: seq<int>, blockedUntil: Option<int>)

  function Horizon(acc: Account, now: int): int {
    if acc.blockedUntil.Some? && acc.blockedUntil.value > now then acc.blockedUntil.value else now
  }

  /**
   The p-th allowed request is out of every window still to be judged, or on the attempt list at its place from the
   end.
   */
  predicate Remembered(acc: Account, now: int, lim: Limits, p: int)
    requires 0 <= p < |acc.history|
  {
    var h, back := acc.history[p], |acc.history| - p;
    h + lim.window <= Horizon(acc, now) || (back <= |acc.attempts| && acc.attempts[|acc.attempts| - back] == h)
  }

  predicate Good(acc: Account, now: int, lim: Limits) {
    && Sorted(acc.history) && UpTo(acc.history, now)
    && Sorted(acc.attempts) && UpTo(acc.attempts, now)
    && (lim.Sound() ==>
          && Spaced(acc.history, lim.max, lim.window)
          && forall p :: 0 <= p < |acc.history| ==> Remembered(acc, now, lim, p))
  }

  lemma TimePasses(acc: Account, before: int, now: int, lim: Limits)
    requires Good(acc, before, lim) && before <= now
    ensures Good(acc, now, lim)
  {
    forall p | lim.Sound() && 0 <= p < |acc.history|
      ensures Remembered(acc, now, lim, p)
    {
      assert Remembered(acc, before, lim, p);
    }
  }

  lemma BlockExpires(acc: Account, now: int, lim: Limits)
    requires Good(acc, now, lim)
    requires acc.blockedUntil.Some? ==> acc.blockedUntil.value <= now
    ensures Good(acc.(blockedUntil := None), now, lim)
  {
    var acc' := acc.(blockedUntil := None);
    forall p | lim.Sound() && 0 <= p < |acc.history|
      ensures Remembered(acc', now, lim, p)
    {
      assert Remembered(acc, now, lim, p);
    }
  }

  lemma OldAttemptsGo(acc: Account, now: int, lim: Limits)
    requires Good(acc, now, lim)
    ensures Good(acc.(attempts := Recent(acc.attempts, now - lim.window)), now, lim)
  {
    var a := Recent(acc.attempts, now - lim.window);
    RecentSuffix(acc.attempts, now - lim.window);
    var acc' := acc.(attempts := a);
    forall p | lim.Sound() && 0 <= p < |acc.history|
      ensures Remembered(acc', now, lim, p)
    {
      assert Remembered(acc, now, lim, p);
    }
  }

  /** A request admitted under the limit keeps the history spaced. */
  lemma AttemptAllowed(acc: Account, now: int, lim: Limits)
    requires Good(acc, now, lim) && acc.blockedUntil == None
    requires acc.attempts == Recent(acc.attempts, now - lim.window) && |acc.attempts| < lim.max
    ensures Good(acc.(history := acc.history + [now], attempts := acc.attempts + [now]), now, lim)
  {
    var acc' := acc.(history := acc.history + [now], attempts := acc.attempts + [now]);
    RecentSuffix(acc.attempts, now - lim.window);
    forall p | lim.Sound() && 0 <= p < |acc'.history|
      ensures Remembered(acc', now, lim, p)
    {
      assert p < |acc.history| ==> Remembered(acc, now, lim, p);
    }
    forall i | lim.Sound() && 0 <= i <= |acc.history| && |acc.history| - i >= lim.max
      ensures now - acc'.history[i] >= lim.window
    {
      assert Remembered(acc, now, lim, i);
    }
  }

  /** Forgetting the attempts of a blocked address does no harm, if the limits are sound. */
  lemma AttemptBlocked(acc: Account, now: int, lim: Limits)
    requires Good(acc, now, lim)
    ensures Good(acc.(attempts := [], blockedUntil := Some(now + lim.blockDuration)), now, lim)
  {
  }

  // ---------- all addresses ----------

  /** The limiter's maps, when each untrusted address has been allowed, and whose attempts were given up for room. */
  datatype Ledger = Ledger(attempts: map<string, seq<int>>, blocked: map<string, int>,
                         histories: map<string, seq<int>>, evicted: set<string>)
  {
    function AccountOf(ip: string): Account {
      Account(if ip in histories then histories[ip] else [],
                      if ip in attempts then attempts[ip] else [],
                      if ip in blocked then Some(blocked[ip]) else None)
    }
  }

  ghost predicate LedgerGood(b: Ledger, now: int, lim: Limits) {
    forall ip {:trigger b.AccountOf(ip)} :: ip !in b.evicted ==> Good(b.AccountOf(ip), now, lim)
  }

  predicate Tidy(attempts: map<string, seq<int>>) {
    && (forall ip :: ip in attempts ==> attempts[ip] != [] && ip != "")
    && |attempts| <= MAX_TRACKED_IPS
  }

  lemma LedgerAges(b: Ledger, before: int, now: int, lim: Limits)
    requires LedgerGood(b, before, lim) && before <= now
    ensures LedgerGood(b, now, lim)
  {
    forall ip | ip !in b.evicted
      ensures Good(b.AccountOf(ip), now, lim)
    {
      TimePasses(b.AccountOf(ip), before, now, lim);
    }
  }

  /** New books: the attempts and blocks stay, the histories start afresh. */
  lemma LedgerRestarts(b: Ledger, now: int, lim: Limits, lim': Limits)
    requires LedgerGood(b, now, lim)
    ensures LedgerGood(b.(histories := map[]), now, lim')
  {
    var b' := b.(histories := map[]);
    forall ip | ip !in b.evicted
      ensures Good(b'.AccountOf(ip), now, lim')
    {
      assert Good(b.AccountOf(ip), now, lim);
    }
  }

  /** Books that differ in the accounts of one address, or of evicted ones, only. */
  lemma LedgerUpdate(b: Ledger, b': Ledger, ip: string, now: int, lim: Limits)
    requires LedgerGood(b, now, lim) && b.evicted <= b'.evicted
    requires forall x :: x != ip && x !in b'.evicted ==> b'.AccountOf(x) == b.AccountOf(x)
    requires ip !in b'.evicted ==> Good(b'.AccountOf(ip), now, lim)
    ensures LedgerGood(b', now, lim)
  {
    forall x | x !in b'.evicted
      ensures Good(b'.AccountOf(x), now, lim)
    {
      if x != ip {
        assert Good(b.AccountOf(x), now, lim);
      }
    }
  }

  function Cleaned(attempts: map<string, seq<int>>, ip: string, cutoff: int): map<string, seq<int>> {
    if ip in attempts then attempts[ip := Recent(attempts[ip], cutoff)] else attempts
  }

  function Entry(attempts: map<string, seq<int>>, ip: string): seq<int> {
    if ip in attempts then attempts[ip] else []
  }

  /** The entry of x, another address than `ip`, has been given up. */
  predicate Gone(before: map<string, seq<int>>, after: map<string, seq<int>>, ip: string, x: string) {
    x != ip && x in before && x !in after
  }

  /** `after` is `before` with at most one other entry than that of `ip` given up, and room for `ip`. */
  predicate RoomMade(before: map<string, seq<int>>, after: map<string, seq<int>>, ip: string, gone: set<string>) {
    && |after| <= MAX_TRACKED_IPS && (ip !in after ==> |after| < MAX_TRACKED_IPS)
    && (ip in after <==> ip in before)
    && (forall x :: x in after ==> x in before && after[x] == before[x])
    && (forall x :: x in before && x !in gone ==> x in after)
  }

  /** The same, and exactly the entry given up counts as evicted from now on. */
  ghost predicate MadeRoom(before: map<string, seq<int>>, after: map<string, seq<int>>, ip: string, gone: set<string>,
                     gone': set<string>)
  {
    && RoomMade(before, after, ip, gone') && gone <= gone'
    && (forall x :: x in gone' ==> x in gone || Gone(before, after, ip, x))
    && (forall x :: Gone(before, after, ip, x) ==> x in gone' && |before| == MAX_TRACKED_IPS && ip !in before)
    && (forall x, y :: Gone(before, after, ip, x) && Gone(before, after, ip, y) ==> x == y)
  }

  lemma UnblockGood(b: Ledger, ip: string, now: int, lim: Limits)
    requires LedgerGood(b, now, lim)
    requires ip in b.blocked ==> b.blocked[ip] <= now
    ensures LedgerGood(b.(blocked := b.blocked - {ip}), now, lim)
  {
    if ip !in b.evicted {
      BlockExpires(b.AccountOf(ip), now, lim);
    }
    LedgerUpdate(b, b.(blocked := b.blocked - {ip}), ip, now, lim);
  }

  /** The attempts after the cutoff, of any list. */
  function After(a: seq<int>, cutoff: int): seq<int> {
    if a == [] then [] else After(Front(a), cutoff) + if Last(a) > cutoff then [Last(a)] else []
  }

  lemma {:induction false} AfterIsRecent(a: seq<int>, cutoff: int)
    requires Sorted(a)
    ensures After(a, cutoff) == Recent(a, cutoff)
  {
    if a == [] {
    } else {
      AfterIsRecent(Front(a), cutoff);
      assert a == Front(a) + [Last(a)];
      if Last(a) > cutoff {
        RecentExtends(Front(a), Last(a), cutoff);
      } else {
        RecentSuffix(a, cutoff);
        RecentSuffix(Front(a), cutoff);
      }
    }
  }

  lemma {:induction false} RecentExtends(a: seq<int>, x: int, cutoff: int)
    requires x > cutoff
    ensures Recent(a + [x], cutoff) == Recent(a, cutoff) + [x]
    decreases |a|
  {
    if a == [] {
    } else {
      assert (a + [x])[1..] == a[1..] + [x];
      RecentExtends(a[1..], x, cutoff);
    }
  }

  /**
   What the periodic cleanup makes of the books: expired blocks and old attempts are gone, with entries left empty.
   */
  ghost predicate Swept(b: Ledger, b': Ledger, now: int, window: int) {
    && b'.histories == b.histories && b'.evicted == b.evicted
    && (forall ip :: ip in b'.blocked <==> ip in b.blocked && b.blocked[ip] >= now)
    && (forall ip :: ip in b'.blocked ==> b'.blocked[ip] == b.blocked[ip])
    && (forall ip :: ip in b'.attempts <==> ip in b.attempts && After(b.attempts[ip], now - window) != [])
    && (forall ip :: ip in b'.attempts ==> b'.attempts[ip] == After(b.attempts[ip], now - window))
  }

  lemma SweepGood(b: Ledger, b': Ledger, now: int, lim: Limits)
    requires LedgerGood(b, now, lim) && Swept(b, b', now, lim.window)
    ensures LedgerGood(b', now, lim)
  {
    forall ip | ip !in b'.evicted
      ensures Good(b'.AccountOf(ip), now, lim)
    {
      AccountSwept(b.AccountOf(ip), b'.AccountOf(ip), now, lim);
    }
  }

  lemma AccountSwept(acc: Account, acc': Account, now: int, lim: Limits)
    requires Good(acc, now, lim)
    requires acc'.history == acc.history && acc'.attempts == After(acc.attempts, now - lim.window)
    requires acc'.blockedUntil ==
             if acc.blockedUntil.Some? && acc.blockedUntil.value < now then None else acc.blockedUntil
    ensures Good(acc', now, lim)
  {
    AfterIsRecent(acc.attempts, now - lim.window);
    OldAttemptsGo(acc, now, lim);
    if acc'.blockedUntil == None {
      BlockExpires(acc.(attempts := acc'.attempts), now, lim);
    }
  }

  /** Every other address keeps its attempts, except one that may have been evicted to make room for a new one. */
  ghost predicate OthersKept(b: Ledger, b': Ledger, ip: string) {
    && b.evicted <= b'.evicted
    && (forall x :: x in b'.evicted ==> x in b.evicted || Gone(b.attempts, b'.attempts, ip, x))
    && (forall x :: Gone(b.attempts, b'.attempts, ip, x) ==>
          x in b'.evicted && |b.attempts| == 10000 && ip !in b.attempts)
    && (forall x, y :: Gone(b.attempts, b'.attempts, ip, x) && Gone(b.attempts, b'.attempts, ip, y) ==> x == y)
    && (forall x :: x != ip && x in b'.attempts ==> x in b.attempts && b'.attempts[x] == b.attempts[x])
  }

  /** What judging an address that is not blocked comes to: the decision, and what is written down. */
  ghost predicate JudgedOpen(b: Ledger, b': Ledger, ip: string, now: int, lim: Limits, ok: bool) {
    var current := Recent(Entry(b.attempts, ip), now - lim.window);
    && (ok <==> |current| < lim.max)
    && Entry(b'.attempts, ip) == (if ok then current + [now] else [])
    && b'.blocked == (if ok then b.blocked else b.blocked[ip := now + lim.blockDuration])
    && b'.histories == (if ok then b.histories[ip := Entry(b.histories, ip) + [now]] else b.histories)
    && OthersKept(b, b', ip)
  }

  /**
   The same for any untrusted address: one still blocked is turned away and changes nothing; an expired block goes.
   */
  ghost predicate Judged(b: Ledger, b': Ledger, ip: string, now: int, lim: Limits, ok: bool) {
    if ip in b.blocked && now < b.blocked[ip] then !ok && b' == b
    else JudgedOpen(b.(blocked := b.blocked - {ip}), b', ip, now, lim, ok)
  }

  /** `mid` is `b` with the attempts of an address that is not blocked cleaned, and room made for it. */
  ghost predicate Ready(b: Ledger, mid: Ledger, ip: string, now: int, lim: Limits) {
    && ip != "" && ip !in b.blocked
    && LedgerGood(b, now, lim) && Tidy(b.attempts)
    && RoomMade(Cleaned(b.attempts, ip, now - lim.window), mid.attempts, ip, mid.evicted)
    && OthersKept(b, mid, ip) && mid.blocked == b.blocked && mid.histories == b.histories
  }

  lemma CleanedFits(attempts: map<string, seq<int>>, ip: string, cutoff: int)
    requires Tidy(attempts)
    ensures var cleaned := Cleaned(attempts, ip, cutoff);
            |cleaned| <= MAX_TRACKED_IPS && forall x :: x in cleaned ==> x != ""
  {
    var cleaned := Cleaned(attempts, ip, cutoff);
    assert cleaned.Keys == attempts.Keys && |cleaned| == |cleaned.Keys| && |attempts| == |attempts.Keys|;
  }

  lemma ReadyMade(b: Ledger, mid: Ledger, ip: string, now: int, lim: Limits)
    requires ip != "" && ip !in b.blocked && LedgerGood(b, now, lim) && Tidy(b.attempts)
    requires mid.blocked == b.blocked && mid.histories == b.histories
    requires MadeRoom(Cleaned(b.attempts, ip, now - lim.window), mid.attempts, ip, b.evicted, mid.evicted)
    ensures Ready(b, mid, ip, now, lim)
  {
    var cleaned := Cleaned(b.attempts, ip, now - lim.window);
    assert cleaned.Keys == b.attempts.Keys && |cleaned| == |cleaned.Keys| && |b.attempts| == |b.attempts.Keys|;
    assert forall x :: Gone(b.attempts, mid.attempts, ip, x) <==> Gone(cleaned, mid.attempts, ip, x);
  }

  function AfterBlock(mid: Ledger, ip: string, now: int, lim: Limits): Ledger {
    Ledger(mid.attempts - {ip}, mid.blocked[ip := now + lim.blockDuration], mid.histories, mid.evicted)
  }

  function AfterAttempt(mid: Ledger, ip: string, now: int): Ledger {
    Ledger(mid.attempts[ip := Entry(mid.attempts, ip) + [now]], mid.blocked,
           mid.histories[ip := Entry(mid.histories, ip) + [now]], mid.evicted)
  }

  lemma CleanedEntry(before: map<string, seq<int>>, room: map<string, seq<int>>, ip: string, cutoff: int,
                     gone: set<string>)
    requires RoomMade(Cleaned(before, ip, cutoff), room, ip, gone)
    ensures Entry(room, ip) == Recent(Entry(before, ip), cutoff)
  {
  }

  lemma BlockTidy(b: Ledger, mid: Ledger, ip: string, now: int, lim: Limits)
    requires Ready(b, mid, ip, now, lim)
    ensures Tidy(AfterBlock(mid, ip, now, lim).attempts)
  {
    var room := mid.attempts;
    assert (room - {ip}).Keys == room.Keys - {ip};
  }

  lemma BlockAccounts(mid: Ledger, ip: string, now: int, lim: Limits)
    ensures var b' := AfterBlock(mid, ip, now, lim);
            && (forall x :: x != ip ==> b'.AccountOf(x) == mid.AccountOf(x))
            && b'.AccountOf(ip) == Account(mid.AccountOf(ip).history, [], Some(now + lim.blockDuration))
  {
  }

  lemma SameElsewhere(b: Ledger, mid: Ledger, ip: string, cutoff: int)
    requires RoomMade(Cleaned(b.attempts, ip, cutoff), mid.attempts, ip, mid.evicted)
    requires mid.blocked == b.blocked && mid.histories == b.histories
    ensures forall x :: x != ip && x !in mid.evicted ==> mid.AccountOf(x) == b.AccountOf(x)
    ensures mid.AccountOf(ip) == b.AccountOf(ip).(attempts := Recent(Entry(b.attempts, ip), cutoff))
  {
    CleanedEntry(b.attempts, mid.attempts, ip, cutoff, mid.evicted);
  }

  lemma BlockGood(b: Ledger, mid: Ledger, ip: string, now: int, lim: Limits)
    requires Ready(b, mid, ip, now, lim)
    ensures LedgerGood(AfterBlock(mid, ip, now, lim), now, lim)
  {
    SameElsewhere(b, mid, ip, now - lim.window);
    BlockAccounts(mid, ip, now, lim);
    if ip !in mid.evicted {
      AttemptBlocked(b.AccountOf(ip), now, lim);
    }
    LedgerUpdate(b, AfterBlock(mid, ip, now, lim), ip, now, lim);
  }

  lemma BlockJudged(b: Ledger, mid: Ledger, ip: string, now: int, lim: Limits)
    requires Ready(b, mid, ip, now, lim) && |Entry(mid.attempts, ip)| >= lim.max
    ensures JudgedOpen(b, AfterBlock(mid, ip, now, lim), ip, now, lim, false)
  {
    CleanedEntry(b.attempts, mid.attempts, ip, now - lim.window, mid.evicted);
    OthersKeptStill(b, mid, AfterBlock(mid, ip, now, lim), ip);
  }

  lemma OthersKeptStill(b: Ledger, mid: Ledger, b': Ledger, ip: string)
    requires OthersKept(b, mid, ip) && b'.evicted == mid.evicted
    requires forall x :: x != ip ==> (x in b'.attempts <==> x in mid.attempts)
    requires forall x :: x != ip && x in mid.attempts ==> b'.attempts[x] == mid.attempts[x]
    ensures OthersKept(b, b', ip)
  {
    assert forall x :: Gone(b.attempts, b'.attempts, ip, x) <==> Gone(b.attempts, mid.attempts, ip, x);
  }

  lemma AttemptTidy(b: Ledger, mid: Ledger, ip: string, now: int, lim: Limits)
    requires Ready(b, mid, ip, now, lim)
    ensures Tidy(AfterAttempt(mid, ip, now).attempts)
  {
  }

  lemma AttemptAccounts(mid: Ledger, ip: string, now: int)
    ensures var b' := AfterAttempt(mid, ip, now);
            && (forall x :: x != ip ==> b'.AccountOf(x) == mid.AccountOf(x))
            && b'.AccountOf(ip) == mid.AccountOf(ip).(history := mid.AccountOf(ip).history + [now],
                                                      attempts := mid.AccountOf(ip).attempts + [now])
  {
  }

  lemma AttemptHere(b: Ledger, mid: Ledger, ip: string, now: int, lim: Limits)
    requires Good(b.AccountOf(ip), now, lim) && ip !in b.blocked && |Entry(mid.attempts, ip)| < lim.max
    requires mid.AccountOf(ip) == b.AccountOf(ip).(attempts := Recent(Entry(b.attempts, ip), now - lim.window))
    ensures Good(AfterAttempt(mid, ip, now).AccountOf(ip), now, lim)
  {
    AttemptAccounts(mid, ip, now);
    OldAttemptsGo(b.AccountOf(ip), now, lim);
    RecentTwice(Entry(b.attempts, ip), now - lim.window);
    AttemptAllowed(mid.AccountOf(ip), now, lim);
  }

  lemma AttemptGood(b: Ledger, mid: Ledger, ip: string, now: int, lim: Limits)
    requires Ready(b, mid, ip, now, lim) && |Entry(mid.attempts, ip)| < lim.max
    ensures LedgerGood(AfterAttempt(mid, ip, now), now, lim)
  {
    SameElsewhere(b, mid, ip, now - lim.window);
    AttemptAccounts(mid, ip, now);
    if ip !in mid.evicted {
      AttemptHere(b, mid, ip, now, lim);
    }
    LedgerUpdate(b, AfterAttempt(mid, ip, now), ip, now, lim);
  }

  lemma AttemptJudged(b: Ledger, mid: Ledger, ip: string, now: int, lim: Limits)
    requires Ready(b, mid, ip, now, lim) && |Entry(mid.attempts, ip)| < lim.max
    ensures JudgedOpen(b, AfterAttempt(mid, ip, now), ip, now, lim, true)
  {
    CleanedEntry(b.attempts, mid.attempts, ip, now - lim.window, mid.evicted);
    OthersKeptStill(b, mid, AfterAttempt(mid, ip, now), ip);
  }

  lemma BlockStep(b: Ledger, mid: Ledger, ip: string, now: int, lim: Limits)
    requires Ready(b, mid, ip, now, lim) && |Entry(mid.attempts, ip)| >= lim.max
    ensures Tidy(AfterBlock(mid, ip, now, lim).attempts)
    ensures LedgerGood(AfterBlock(mid, ip, now, lim), now, lim)
    ensures JudgedOpen(b, AfterBlock(mid, ip, now, lim), ip, now, lim, false)
  {
    BlockTidy(b, mid, ip, now, lim);
    BlockGood(b, mid, ip, now, lim);
    BlockJudged(b, mid, ip, now, lim);
  }

  lemma AttemptStep(b: Ledger, mid: Ledger, ip: string, now: int, lim: Limits)
    requires Ready(b, mid, ip, now, lim) && |Entry(mid.attempts, ip)| < lim.max
    ensures Tidy(AfterAttempt(mid, ip, now).attempts)
    ensures LedgerGood(AfterAttempt(mid, ip, now), now, lim)
    ensures JudgedOpen(b, AfterAttempt(mid, ip, now), ip, now, lim, true)
  {
    AttemptTidy(b, mid, ip, now, lim);
    AttemptGood(b, mid, ip, now, lim);
    AttemptJudged(b, mid, ip, now, lim);
  }

  // ---------- the global window ----------

  /** When requests have been allowed at all, and how many of them in the current and the previous fixed window. */
  datatype Global = Global(allowed: seq<int>, current: nat, previous: nat, previousStart: int)

  predicate GlobalGood(g: Global, start: int, count: int, now: int, window: int) {
    var n := |g.allowed|;
    && Sorted(g.allowed) && UpTo(g.allowed, now)
    && g.current <= count <= GLOBAL_MAX_RATE && g.previous <= GLOBAL_MAX_RATE && g.current + g.previous <= n
    && start <= now
    && UpTo(g.allowed[..n - g.current], start)
    && (g.current + g.previous < n ==>
          UpTo(g.allowed[..n - g.current - g.previous], g.previousStart) && start - g.previousStart > window)
    && Spaced(g.allowed, 2 * GLOBAL_MAX_RATE, window + 1)
  }

  lemma GlobalTimePasses(g: Global, start: int, count: int, before: int, now: int, window: int)
    requires GlobalGood(g, start, count, before, window) && before <= now
    ensures GlobalGood(g, start, count, now, window)
  {
  }

  lemma WindowTurns(g: Global, start: int, count: int, now: int, window: int)
    requires GlobalGood(g, start, count, now, window) && now - start > window
    ensures GlobalGood(Global(g.allowed, 0, g.current, start), now, 0, now, window)
  {
    assert g.allowed[..|g.allowed| - 0] == g.allowed;
  }

  lemma GlobalAllowed(g: Global, start: int, count: int, now: int, window: int)
    requires GlobalGood(g, start, count, now, window) && count < GLOBAL_MAX_RATE
    ensures GlobalGood(g.(allowed := g.allowed + [now], current := g.current + 1), start, count + 1, now, window)
  {
    var n, a := |g.allowed|, g.allowed + [now];
    assert a[..n - g.current] == g.allowed[..n - g.current];
    assert a[..n - g.current - g.previous] == g.allowed[..n - g.current - g.previous];
    forall i | 0 <= i <= n && n - i >= 2 * GLOBAL_MAX_RATE
      ensures now - a[i] >= window + 1
    {
      assert a[i] == g.allowed[..n - g.current - g.previous][i];
    }
  }

  // ---------- the limiter ----------

  class RateLimiter {
    var enabled: bool
    var maxAttempts: int
    var window: int
    var blockDuration: int
    var trusted: set<string>
    var attempts: map<string, seq<int>>
    var blocked: map<string, int>
    var globalCount: int
    var globalWindow: int

    ghost var clock: int
    ghost var histories: map<string, seq<int>>  // when each untrusted address was allowed, since the limits were set
    ghost var evicted: set<string>              // whose attempts have been given up for room
    ghost var global: Global                    // when anyone was allowed, since the limits were set

    ghost function View(): Ledger
      reads this
    {
      Ledger(attempts, blocked, histories, evicted)
    }

    ghost function Lim(): Limits
      reads this
    {
      Limits(maxAttempts, window, blockDuration)
    }

    ghost predicate Valid()
      reads this
    {
      && Tidy(attempts)
      && LedgerGood(View(), clock, Lim())
      && GlobalGood(global, globalWindow, globalCount, clock, window)
    }

    constructor (enabled: bool, maxAttempts: int, window: int, blockDuration: int, now: int)
      ensures Valid() && histories == map[] && global.allowed == [] && evicted == {} && clock == now
      ensures attempts == map[] && blocked == map[] && trusted == {} && globalCount == 0 && globalWindow == now
      ensures this.enabled == enabled && Lim() == Limits(maxAttempts, window, blockDuration)
    {
      this.enabled, this.maxAttempts, this.window, this.blockDuration := enabled, maxAttempts, window, blockDuration;
      trusted, attempts, blocked := {}, map[], map[];
      globalCount, globalWindow, clock := 0, now, now;
      histories, global, evicted := map[], Global([], 0, 0, now), {};
    }

    /**
     New limits keep every attempt, block and count in force; the bounds are restated for the requests from here on.
     */
    method SetLimits(enabled: bool, maxAttempts: int, window: int, blockDuration: int)
      requires Valid()
      modifies this
      ensures Valid() && clock == old(clock)
      ensures this.enabled == enabled && this.maxAttempts == maxAttempts
      ensures this.window == window && this.blockDuration == blockDuration
      ensures attempts == old(attempts) && blocked == old(blocked)
      ensures globalCount == old(globalCount) && globalWindow == old(globalWindow) && trusted == old(trusted)
    {
      GlobalRestart(global, globalWindow, globalCount, clock, this.window, window);
      LedgerRestarts(View(), clock, Lim(), Limits(maxAttempts, window, blockDuration));
      this.enabled, this.maxAttempts, this.window, this.blockDuration := enabled, maxAttempts, window, blockDuration;
      histories, global := map[], Global([], 0, 0, globalWindow);
    }

    method SetTrustedProxies(nets: set<string>)
      requires Valid()
      modifies this`trusted
      ensures Valid() && trusted == nets
    {
      trusted := nets;
    }

    /** Drops the attempts of one address that are out of the window. */
    method CleanAttempts(ip: string, now: int)
      modifies this`attempts
      ensures attempts == Cleaned(old(attempts), ip, now - window)
    {
      if ip !in attempts {
        return;
      }
      var a := attempts[ip];
      var cutoff := now - window;
      var valid := 0;
      var i := 0;
      while i < |a|
        invariant 0 <= i <= |a|
        invariant Recent(a, cutoff) == Recent(a[i..], cutoff)
        invariant valid == if i == |a| then |a| else 0
      {
        if a[i] > cutoff {
          valid := i;
          break;
        }
        if i == |a| - 1 {
          valid := |a|;
        }
        i := i + 1;
      }
      assert Recent(a, cutoff) == a[valid..];
      if valid > 0 {
        attempts := attempts[ip := a[valid..]];
      }
    }

    /** Gives up the entry whose last attempt is oldest, or an empty one; the map's order decides between equals. */
    method EvictOldest() returns (ghost victim: string)
      requires attempts != map[]
      modifies this`attempts
      ensures victim in old(attempts)
      ensures attempts ==
              if victim == "" && old(attempts)[victim] != [] then old(attempts) else old(attempts) - {victim}
      ensures old(attempts)[victim] == [] ||
              forall ip :: ip in old(attempts) && old(attempts)[ip] != [] ==>
                Last(old(attempts)[victim]) <= Last(old(attempts)[ip])
    {
      var oldestIP, oldestTime, first := "", 0, true;
      var rest := attempts.Keys;
      assert rest != {};
      while rest != {}
        invariant rest <= attempts.Keys
        invariant first <==> rest == attempts.Keys
        invariant !first ==> oldestIP in attempts && attempts[oldestIP] != [] && Last(attempts[oldestIP]) == oldestTime
        invariant forall ip :: ip in attempts && ip !in rest ==> attempts[ip] != [] && oldestTime <= Last(attempts[ip])
        decreases rest
      {
        var ip :| ip in rest;
        rest := rest - {ip};
        if |attempts[ip]| == 0 {
          victim := ip;
          attempts := attempts - {ip};
          return;
        }
        var last := attempts[ip][|attempts[ip]| - 1];
        if first || last < oldestTime {
          oldestIP, oldestTime, first := ip, last, false;
        }
      }
      victim := oldestIP;
      if oldestIP != "" {
        attempts := attempts - {oldestIP};
      }
    }

    /** Time goes by. */
    ghost method Tick(now: int)
      requires Valid() && now >= clock
      modifies this`clock
      ensures Valid() && clock == now
    {
      LedgerAges(View(), clock, now, Lim());
      GlobalTimePasses(global, globalWindow, globalCount, clock, now, window);
      clock := now;
    }

    /** The fixed window turns over when it has run its length. */
    method TurnWindow(now: int)
      requires Valid() && now >= clock
      modifies this`clock, this`globalCount, this`globalWindow, this`global
      ensures Valid() && clock == now && global.allowed == old(global.allowed)
      ensures globalCount == if now - old(globalWindow) > window then 0 else old(globalCount)
      ensures globalWindow == if now - old(globalWindow) > window then now else old(globalWindow)
    {
      Tick(now);
      if now - globalWindow > window {
        WindowTurns(global, globalWindow, globalCount, now, window);
        global := Global(global.allowed, 0, global.current, globalWindow);
        globalCount := 0;
        globalWindow := now;
      }
    }

    /** Counts a request that has been let through. */
    method CountGlobal()
      requires Valid() && globalCount < GLOBAL_MAX_RATE
      modifies this`globalCount, this`global
      ensures Valid() && global.allowed == old(global.allowed) + [clock] && globalCount == old(globalCount) + 1
    {
      GlobalAllowed(global, globalWindow, globalCount, clock, window);
      global := global.(allowed := global.allowed + [clock], current := global.current + 1);
      globalCount := globalCount + 1;
    }

    /** Whether the address is blocked now; a block that has expired is dropped. */
    method CheckBlocked(ip: string, now: int) returns (yes: bool)
      requires Valid() && now == clock
      modifies this`blocked
      ensures Valid()
      ensures yes <==> ip in old(blocked) && now < old(blocked)[ip]
      ensures blocked == if yes then old(blocked) else old(blocked) - {ip}
    {
      if ip in blocked {
        if now < blocked[ip] {
          return true;
        }
        UnblockGood(View(), ip, clock, Lim());
        blocked := blocked - {ip};
      }
      return false;
    }

    /** Makes room for a new address when the map is full. */
    method MakeRoom(ip: string)
      requires (forall x :: x in attempts ==> x != "") && |attempts| <= MAX_TRACKED_IPS
      modifies this`attempts, this`evicted
      ensures MadeRoom(old(attempts), attempts, ip, old(evicted), evicted)
    {
      if |attempts| >= MAX_TRACKED_IPS {
        if ip !in attempts {
          ghost var victim := EvictOldest();
          assert attempts.Keys == old(attempts).Keys - {victim};
          evicted := evicted + {victim};
        }
      }
    }

    method RecordAttempt(ip: string, now: int, current: seq<int>, ghost before: Ledger)
      requires Ready(before, View(), ip, clock, Lim()) && GlobalGood(global, globalWindow, globalCount, clock, window)
      requires now == clock && current == Entry(attempts, ip) && |current| < maxAttempts
      modifies this`attempts, this`histories
      ensures Valid() && JudgedOpen(before, View(), ip, now, Lim(), true)
    {
      AttemptStep(before, View(), ip, now, Lim());
      attempts := attempts[ip := current + [now]];
      histories := histories[ip := Entry(histories, ip) + [now]];
      assert View() == AfterAttempt(old(View()), ip, now);
    }

    method Block(ip: string, now: int, ghost before: Ledger)
      requires Ready(before, View(), ip, clock, Lim()) && GlobalGood(global, globalWindow, globalCount, clock, window)
      requires now == clock && |Entry(attempts, ip)| >= maxAttempts
      modifies this`attempts, this`blocked
      ensures Valid() && JudgedOpen(before, View(), ip, now, Lim(), false)
    {
      BlockStep(before, View(), ip, now, Lim());
      blocked := blocked[ip := now + blockDuration];
      attempts := attempts - {ip};
      assert View() == AfterBlock(old(View()), ip, now, Lim());
    }

    /** Drops what is out of the window, and makes room. */
    method Prepare(ip: string, now: int) returns (current: seq<int>)
      requires Tidy(attempts)
      modifies this`attempts, this`evicted
      ensures MadeRoom(Cleaned(old(attempts), ip, now - window), attempts, ip, old(evicted), evicted)
      ensures current == Entry(attempts, ip)
    {
      CleanedFits(attempts, ip, now - window);
      CleanAttempts(ip, now);
      MakeRoom(ip);
      current := if ip in attempts then attempts[ip] else [];
    }

    /** Judges an address that is not blocked: records the attempt, or blocks it and forgets its attempts. */
    method JudgeAttempts(ip: string, now: int) returns (ok: bool)
      requires Valid() && now == clock && ip !in blocked && ip != ""
      modifies this`attempts, this`blocked, this`evicted, this`histories
      ensures Valid() && JudgedOpen(old(View()), View(), ip, now, Lim(), ok)
    {
      ghost var before := View();
      var current := Prepare(ip, now);
      ReadyMade(before, View(), ip, clock, Lim());
      if |current| >= maxAttempts {
        Block(ip, now, before);
        return false;
      }
      RecordAttempt(ip, now, current, before);
      return true;
    }

    method AllowUntrusted(ip: string, now: int) returns (ok: bool)
      requires Valid() && now == clock && ip != "" && globalCount < GLOBAL_MAX_RATE
      modifies this`attempts, this`blocked, this`evicted, this`histories, this`globalCount, this`global
      ensures Valid() && Judged(old(View()), View(), ip, now, Lim(), ok)
      ensures global.allowed == old(global.allowed) + if ok then [now] else []
      ensures globalCount == old(globalCount) + if ok then 1 else 0
    {
      var stillBlocked := CheckBlocked(ip, now);
      if stillBlocked {
        return false;
      }
      ok := JudgeAttempts(ip, now);
      if ok {
        CountGlobal();
      }
    }

    method SweepBlocks(now: int)
      modifies this`blocked
      ensures forall ip :: ip in blocked <==> ip in old(blocked) && old(blocked)[ip] >= now
      ensures forall ip :: ip in blocked ==> blocked[ip] == old(blocked)[ip]
    {
      var rest := blocked.Keys;
      while rest != {}
        invariant rest <= old(blocked).Keys
        invariant forall ip :: ip in blocked <==> ip in old(blocked) && (ip in rest || old(blocked)[ip] >= now)
        invariant forall ip :: ip in blocked ==> blocked[ip] == old(blocked)[ip]
        decreases rest
      {
        var ip :| ip in rest;
        rest := rest - {ip};
        if now > blocked[ip] {
          blocked := blocked - {ip};
        }
      }
    }

    method KeepAfter(a: seq<int>, cutoff: int) returns (valid: seq<int>)
      ensures valid == After(a, cutoff)
    {
      valid := [];
      for i := 0 to |a|
        invariant valid == After(a[..i], cutoff)
      {
        assert Front(a[..i + 1]) == a[..i];
        if a[i] > cutoff {
          valid := valid + [a[i]];
        }
      }
      assert a[..|a|] == a;
    }

    method SweepAttempts(cutoff: int)
      modifies this`attempts
      ensures forall ip :: ip in attempts <==> ip in old(attempts) && After(old(attempts)[ip], cutoff) != []
      ensures forall ip :: ip in attempts ==> attempts[ip] == After(old(attempts)[ip], cutoff)
    {
      var rest := attempts.Keys;
      while rest != {}
        invariant rest <= old(attempts).Keys
        invariant forall ip :: ip in attempts <==>
                    ip in old(attempts) && (ip in rest || After(old(attempts)[ip], cutoff) != [])
        invariant forall ip :: ip in attempts ==>
                    attempts[ip] == if ip in rest then old(attempts)[ip] else After(old(attempts)[ip], cutoff)
        decreases rest
      {
        var ip :| ip in rest;
        rest := rest - {ip};
        var valid := KeepAfter(attempts[ip], cutoff);
        if |valid| == 0 {
          attempts := attempts - {ip};
        } else {
          attempts := attempts[ip := valid];
        }
      }
    }

    method Sweep(now: int)
      modifies this`attempts, this`blocked
      ensures Swept(old(View()), View(), now, window)
    {
      SweepBlocks(now);
      SweepAttempts(now - window);
    }

    /** One tick of the cleanup goroutine. */
    method Cleanup(now: int)
      requires Valid() && now >= clock
      modifies this`attempts, this`blocked, this`clock
      ensures Valid() && clock == now
      ensures Swept(old(View()), View(), now, window)
    {
      Tick(now);
      ghost var before := View();
      Sweep(now);
      SweepGood(before, View(), now, Lim());
      SweepTidy(before, View(), now, window);
    }

    /**
     The sliding window: with the limits unchanged and a block at least as long as the window, an address that has never
     been evicted has at most maxAttempts requests allowed in any interval (t - window, t].
     */
    lemma AddressBound(ip: string, t: int)
      requires Valid() && ip !in evicted
      requires Lim().Sound()
      ensures CountWithin(View().AccountOf(ip).history, t, window) <= if maxAttempts > 0 then maxAttempts else 0
    {
      var acc := View().AccountOf(ip);
      assert Good(acc, clock, Lim());
      SpacedBounds(acc.history, if maxAttempts > 0 then maxAttempts else 0, t, window);
    }

    /**
     No interval as long as the window, ends included, holds more than two fixed windows' worth of allowed requests.
     */
    lemma GlobalBound(t: int)
      requires Valid()
      ensures CountWithin(global.allowed, t, window + 1) <= 2000
    {
      SpacedBounds(global.allowed, 2 * GLOBAL_MAX_RATE, t, window + 1);
    }

    /** The global window has room for one more at `now`. */
    ghost predicate HasRoom(now: int)
      reads this
    {
      now - globalWindow > window || globalCount < 1000
    }

    /** One connection attempt: decided exactly, and written down exactly. */
    method Allow(ip: string, now: int) returns (ok: bool)
      requires Valid() && now >= clock && ip != ""
      modifies this`attempts, this`blocked, this`evicted, this`histories,
               this`globalCount, this`globalWindow, this`global, this`clock
      ensures Valid() && |attempts| <= 10000
      ensures !enabled ==> ok && unchanged(this)
      ensures enabled ==> clock == now && global.allowed == old(global.allowed) + if ok then [now] else []
      ensures enabled && !old(HasRoom(now)) ==> !ok && View() == old(View())
      ensures enabled && old(HasRoom(now)) && ip in trusted ==> ok && View() == old(View())
      ensures enabled && old(HasRoom(now)) && ip !in trusted ==> Judged(old(View()), View(), ip, now, Lim(), ok)
      ensures enabled ==> globalWindow == (if now - old(globalWindow) > window then now else old(globalWindow))
      ensures enabled ==>
                globalCount == (if now - old(globalWindow) > window then 0 else old(globalCount)) + if ok then 1 else 0
    {
      if !enabled {
        return true;
      }
      TurnWindow(now);
      ok := AllowInWindow(ip, now);
    }

    /** The decision once the global window is the current one. */
    method AllowInWindow(ip: string, now: int) returns (ok: bool)
      requires Valid() && now == clock && ip != ""
      modifies this`attempts, this`blocked, this`evicted, this`histories, this`globalCount, this`global
      ensures Valid()
      ensures global.allowed == old(global.allowed) + if ok then [now] else []
      ensures globalCount == old(globalCount) + if ok then 1 else 0
      ensures if old(globalCount) >= GLOBAL_MAX_RATE then !ok && View() == old(View())
              else if ip in trusted then ok && View() == old(View())
              else Judged(old(View()), View(), ip, now, Lim(), ok)
    {
      if globalCount >= GLOBAL_MAX_RATE {
        return false;
      }
      if ip in trusted {
        CountGlobal();
        return true;
      }
      ok := AllowUntrusted(ip, now);
    }
  }

  lemma SweepTidy(b: Ledger, b': Ledger, now: int, window: int)
    requires Tidy(b.attempts) && Swept(b, b', now, window)
    ensures Tidy(b'.attempts)
  {
    CardinalityOfSubset(b'.attempts.Keys, b.attempts.Keys);
  }

  lemma {:induction false} CardinalityOfSubset<T>(a: set<T>, b: set<T>)
    requires a <= b
    ensures |a| <= |b|
  {
    if a != {} {
      var x :| x in a;
      CardinalityOfSubset(a - {x}, b - {x});
    }
  }

  lemma GlobalRestart(g: Global, start: int, count: int, now: int, window: int, window': int)
    requires GlobalGood(g, start, count, now, window)
    ensures GlobalGood(Global([], 0, 0, start), start, count, now, window')
  {
  }

  lemma {:induction false} RecentTwice(a: seq<int>, cutoff: int)
    ensures Recent(Recent(a, cutoff), cutoff) == Recent(a, cutoff)
    decreases |a|
  {
    if a != [] && a[0] <= cutoff {
      RecentTwice(a[1..], cutoff);
    }
  }

  // ---------- blocks shorter than the window ----------

  function Zeros(n: nat): (r: seq<int>)
    ensures |r| == n && forall i :: 0 <= i < n ==> r[i] == 0
  {
    seq(n, _ => 0)
  }

  lemma {:induction false} CountZeros(n: nat, t: int, d: int)
    requires t - d < 0 <= t
    ensures CountWithin(Zeros(n), t, d) == n
  {
    if n == 0 {
    } else {
      assert Front(Zeros(n)) == Zeros(n - 1);
      CountZeros(n - 1, t, d);
    }
  }

  lemma OneKey<T>(m: map<string, T>, ip: string)
    requires m.Keys <= {ip}
    ensures |m| <= 1
  {
    CardinalityOfSubset(m.Keys, {ip});
  }

  /** After `i` requests of one address at time 0, and nothing else. */
  ghost predicate Filling(limiter: RateLimiter, ip: string, i: nat)
    reads limiter
  {
    && limiter.Valid() && limiter.enabled && limiter.clock == 0 && limiter.trusted == {} && limiter.evicted == {}
    && limiter.attempts.Keys <= {ip} && limiter.blocked == map[]
    && limiter.globalCount == i && limiter.globalWindow == 0
    && Entry(limiter.attempts, ip) == Entry(limiter.histories, ip) == Zeros(i)
  }

  method FillOne(limiter: RateLimiter, ip: string, i: nat)
    requires Filling(limiter, ip, i) && ip != ""
    requires i < limiter.maxAttempts && i < GLOBAL_MAX_RATE && limiter.window > 0
    modifies limiter`attempts, limiter`blocked, limiter`evicted, limiter`histories,
             limiter`globalCount, limiter`globalWindow, limiter`global, limiter`clock
    ensures Filling(limiter, ip, i + 1)
  {
    OneKey(limiter.attempts, ip);
    assert Recent(Zeros(i), -limiter.window) == Zeros(i) && Zeros(i) + [0] == Zeros(i + 1);
    var ok := limiter.Allow(ip, 0);
  }

  /** `n` requests in a row. */
  method Fill(limiter: RateLimiter, ip: string, n: nat)
    requires Filling(limiter, ip, 0) && ip != ""
    requires n <= limiter.maxAttempts && n <= GLOBAL_MAX_RATE && limiter.window > 0
    modifies limiter`attempts, limiter`blocked, limiter`evicted, limiter`histories,
             limiter`globalCount, limiter`globalWindow, limiter`global, limiter`clock
    ensures Filling(limiter, ip, n)
  {
    for i := 0 to n
      invariant Filling(limiter, ip, i)
    {
      FillOne(limiter, ip, i);
    }
  }

  /** One request more, at time 0: refused, and every attempt forgotten. */
  method Overflow(limiter: RateLimiter, ip: string)
    requires limiter.Valid() && limiter.enabled && limiter.clock == 0 && ip != "" && limiter.trusted == {}
    requires limiter.attempts.Keys <= {ip} && limiter.blocked == map[] && limiter.evicted == {}
    requires limiter.globalCount < GLOBAL_MAX_RATE && limiter.globalWindow == 0
    requires limiter.window > 0 && limiter.maxAttempts >= 1
    requires Entry(limiter.attempts, ip) == Zeros(limiter.maxAttempts)
    modifies limiter`attempts, limiter`blocked, limiter`evicted, limiter`histories,
             limiter`globalCount, limiter`globalWindow, limiter`global, limiter`clock
    ensures limiter.Valid() && limiter.clock == 0 && limiter.evicted == {} && limiter.attempts.Keys <= {ip}
    ensures Entry(limiter.attempts, ip) == [] && limiter.blocked == map[ip := limiter.blockDuration]
    ensures limiter.histories == old(limiter.histories)
    ensures limiter.globalCount == old(limiter.globalCount) && limiter.globalWindow == 0
  {
    OneKey(limiter.attempts, ip);
    assert Recent(Zeros(limiter.maxAttempts), -limiter.window) == Zeros(limiter.maxAttempts);
    var ok := limiter.Allow(ip, 0);
  }

  /** The first request after the block: allowed, as from an address unknown. */
  method Return(limiter: RateLimiter, ip: string, t: int)
    requires limiter.Valid() && limiter.enabled && limiter.clock == 0 && ip != "" && limiter.trusted == {}
    requires limiter.attempts.Keys <= {ip} && limiter.evicted == {} && Entry(limiter.attempts, ip) == []
    requires limiter.blocked == map[ip := limiter.blockDuration] && t >= 0 && t >= limiter.blockDuration
    requires limiter.globalCount < GLOBAL_MAX_RATE && limiter.globalWindow == 0 && limiter.maxAttempts >= 1
    modifies limiter`attempts, limiter`blocked, limiter`evicted, limiter`histories,
             limiter`globalCount, limiter`globalWindow, limiter`global, limiter`clock
    ensures limiter.Valid() && limiter.evicted == {}
    ensures Entry(limiter.histories, ip) == Entry(old(limiter.histories), ip) + [t]
  {
    OneKey(limiter.attempts, ip);
    var ok := limiter.Allow(ip, t);
  }

  /**
   The condition on the block cannot be dropped. For every limit below the global one and every block shorter than the
   window, an address that was never evicted gets more requests through one window than the limit: the block that its
   last request brought made the limiter forget the others.
   */
  method ShortBlockForgets(max: int, window: int, blockDuration: int) returns (limiter: RateLimiter, t: int)
    requires 1 <= max < 1000 && window > 0 && blockDuration < window
    ensures limiter.Valid() && limiter.Lim() == Limits(max, window, blockDuration) && limiter.evicted == {}
    ensures CountWithin(limiter.View().AccountOf("192.0.2.1").history, t, window) == max + 1
  {
    var ip := "192.0.2.1";
    limiter := new RateLimiter(true, max, window, blockDuration, 0);
    Fill(limiter, ip, max);
    Overflow(limiter, ip);
    t := if blockDuration > 0 then blockDuration else 0;
    Return(limiter, ip, t);
    CountZeros(max, t, window);
    assert Front(Zeros(max) + [t]) == Zeros(max);
  }
}
