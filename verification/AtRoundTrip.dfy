/** Printing a list of commands as one AT line and parsing it again gives the same commands. */
module AtRoundTrip {
  import opened AtCommands

  /** The commands a caller can mean, with the spelling choices the parser allows. */
  datatype Order =
    | ResetOrder | FactoryOrder | HangupOrder(zero: bool) | OffHookOrder | EchoOrder(on: bool) | VerboseOrder(on: bool)
    | QuietOrder(on: bool) | IdentifyOrder | OnlineOrder(zero: bool) | ViewOrder | ClearOrder | LevelOrder(level: nat)
    | DialOrder(pulse: bool, number: string) | SetOrder(reg: nat, val: nat) | QueryOrder(reg: nat)
    | SpeedOrder(code: nat)
    | CorrectionOrder(on: bool) | CompressionOrder(on: bool)

  predicate Valid(o: Order) {
    match o
    case LevelOrder(level) => level <= 4
    case DialOrder(_, number) =>
      number != "" && number[|number| - 1] != ' ' && forall c :: c in number ==> c in "0123456789-().*# "
    case SetOrder(reg, val) => reg <= 255 && val <= 0x7FFF_FFFF_FFFF_FFFF
    case QueryOrder(reg) => reg <= 255
    case SpeedOrder(code) => code in {0, 1, 2, 3, 6, 7, 8, 10, 11, 12, 14}
    case _ => true
  }

  function MeaningOf(o: Order): Meaning {
    match o
    case ResetOrder => Simple(Reset)
    case FactoryOrder => Simple(FactoryReset)
    case HangupOrder(_) => Simple(Hangup)
    case OffHookOrder => Simple(OffHook)
    case EchoOrder(on) => Simple(if on then EchoOn else EchoOff)
    case VerboseOrder(on) => Simple(if on then VerboseOn else VerboseOff)
    case QuietOrder(on) => Simple(if on then QuietOn else QuietOff)
    case IdentifyOrder => Simple(Identify)
    case OnlineOrder(_) => Simple(Online)
    case ViewOrder => Simple(ViewConfig)
    case ClearOrder => Simple(Clear)
    case LevelOrder(level) => Meaning(SetX, "", 0, level)
    case DialOrder(_, number) => Meaning(Dial, number, 0, 0)
    case SetOrder(reg, val) => Meaning(SRegisterSet, "", reg, val)
    case QueryOrder(reg) => Meaning(SRegisterQuery, "", reg, 0)
    case SpeedOrder(code) => Meaning(LockSpeed, "", 0, code)
    case CorrectionOrder(on) => Meaning(SetErrorCorrection, "", 0, if on then 5 else 0)
    case CompressionOrder(on) => Meaning(SetCompression, "", 0, if on then 1 else 0)
  }

  function Digit(d: nat): char
    requires d <= 9
  {
    ('0' as int + d) as char
  }

  function Decimal(n: nat): (s: string)
    ensures s != "" && forall i :: 0 <= i < |s| ==> IsDigit(s[i])
  {
    if n < 10 then [Digit(n)] else Decimal(n / 10) + [Digit(n % 10)]
  }

  function Print(o: Order): (s: string)
    ensures s != ""
  {
    match o
    case ResetOrder => "Z"
    case FactoryOrder => "&F"
    case HangupOrder(zero) => if zero then "H0" else "H"
    case OffHookOrder => "H1"
    case EchoOrder(on) => if on then "E1" else "E0"
    case VerboseOrder(on) => if on then "V1" else "V0"
    case QuietOrder(on) => if on then "Q1" else "Q0"
    case IdentifyOrder => "I"
    case OnlineOrder(zero) => if zero then "O0" else "O"
    case ViewOrder => "&V"
    case ClearOrder => "CLS"
    case LevelOrder(level) => "X" + Decimal(level)
    case DialOrder(pulse, number) => (if pulse then "DP" else "DT") + number
    case SetOrder(reg, val) => "S" + Decimal(reg) + "=" + Decimal(val)
    case QueryOrder(reg) => "S" + Decimal(reg) + "?"
    case SpeedOrder(code) => "&N" + Decimal(code)
    case CorrectionOrder(on) => if on then "&Q5" else "&Q0"
    case CompressionOrder(on) => if on then "%C1" else "%C0"
  }

  function Spaces(n: nat): (s: string)
    ensures |s| == n && forall i :: 0 <= i < n ==> s[i] == ' '
  {
    seq(n, _ => ' ')
  }

  /** The orders one after another, each behind its own number of spaces. */
  function Body(os: seq<Order>, gaps: seq<nat>): string
    requires |os| == |gaps|
  {
    if os == [] then "" else Spaces(gaps[0]) + Print(os[0]) + Body(os[1..], gaps[1..])
  }

  /** Orders that fit on one line: valid, and no dial command but the last. */
  predicate FitsLine(os: seq<Order>) {
    && (forall o :: o in os ==> Valid(o))
    && (forall k :: 0 <= k < |os| - 1 ==> !os[k].DialOrder?)
  }

  predicate Means(cmds: seq<Command>, os: seq<Order>) {
    |cmds| == |os| && forall k :: 0 <= k < |os| ==> cmds[k].meaning == MeaningOf(os[k])
  }

  // ---------- digits ----------

  lemma {:induction false} ValueDecimal(n: nat)
    ensures Value(Decimal(n)) == n
  {
    if n >= 10 {
      ValueDecimal(n / 10);
      var s := Decimal(n);
      assert s[..|s| - 1] == Decimal(n / 10);
    }
  }

  /** A run of digits ends where it ends. */
  lemma {:induction false} DigitsEndAt(s: string, j: nat, k: nat)
    requires j <= k <= |s|
    requires forall i :: j <= i < k ==> IsDigit(s[i])
    requires k == |s| || !IsDigit(s[k])
    ensures DigitsEnd(s, j) == k
    decreases k - j
  {
    if j < k {
      DigitsEndAt(s, j + 1, k);
    }
  }

  // ---------- a single command ----------

  predicate Follows(more: string) {
    more == "" || !IsDigit(more[0])
  }

  /** A run of digits between other text. */
  lemma RunAt(pre: string, digits: string, post: string)
    requires (forall i :: 0 <= i < |digits| ==> IsDigit(digits[i])) && Follows(post)
    ensures var b := pre + digits + post;
            DigitsEnd(b, |pre|) == |pre| + |digits| && b[|pre|..|pre| + |digits|] == digits
  {
    var b := pre + digits + post;
    assert forall i :: |pre| <= i < |pre| + |digits| ==> b[i] == digits[i - |pre|];
    assert post != "" ==> b[|pre| + |digits|] == post[0];
    DigitsEndAt(b, |pre|, |pre| + |digits|);
  }

  lemma SetParts(reg: nat, val: nat, more: string)
    requires Follows(more)
    ensures var b := "S" + Decimal(reg) + "=" + Decimal(val) + more;
            var k := 1 + |Decimal(reg)|;
            && DigitsEnd(b, 1) == k && b[k] == '=' && b[1..k] == Decimal(reg)
            && DigitsEnd(b, k + 1) == k + 1 + |Decimal(val)| == |b| - |more|
            && b[k + 1..|b| - |more|] == Decimal(val)
  {
    var r, v := Decimal(reg), Decimal(val);
    Regroup("S" + r, "=", v, more);
    RunAt("S", r, "=" + v + more);
    RunAt("S" + r + "=", v, more);
  }

  lemma Regroup(a: string, b: string, c: string, d: string)
    ensures a + b + c + d == a + (b + c + d)
  {
  }

  lemma QueryParts(reg: nat, more: string)
    ensures var b := "S" + Decimal(reg) + "?" + more;
            var k := 1 + |Decimal(reg)|;
            DigitsEnd(b, 1) == k && b[k] == '?' && b[1..k] == Decimal(reg) && k + 1 + |more| == |b|
  {
    var r := Decimal(reg);
    RunAt("S", r, "?" + more);
    Regroup("S" + r, "?", more, "");
    assert "?" + more + "" == "?" + more && "S" + r + "?" + more + "" == "S" + r + "?" + more;
  }

  lemma SpeedParts(code: nat, more: string)
    requires Follows(more)
    ensures var b := "&N" + Decimal(code) + more;
            DigitsEnd(b, 2) == 2 + |Decimal(code)| == |b| - |more| && b[2..|b| - |more|] == Decimal(code)
  {
    RunAt("&N", Decimal(code), more);
  }

  lemma SetClassified(reg: nat, val: nat)
    requires reg <= 255 && val <= MAX_INT
    ensures Classify("S" + Decimal(reg) + "=" + Decimal(val)) == Meaning(SRegisterSet, "", reg, val)
  {
    var b := "S" + Decimal(reg) + "=" + Decimal(val);
    SetParts(reg, val, "");
    assert b + "" == b;
    ValueDecimal(reg);
    ValueDecimal(val);
    assert b[0] == 'S' && Word(b) == UNKNOWN && !IsDial(b) && IsRegisterSet(b);
  }

  lemma QueryClassified(reg: nat)
    requires reg <= 255
    ensures Classify("S" + Decimal(reg) + "?") == Meaning(SRegisterQuery, "", reg, 0)
  {
    var b := "S" + Decimal(reg) + "?";
    QueryParts(reg, "");
    assert b + "" == b;
    ValueDecimal(reg);
    assert b[0] == 'S' && Word(b) == UNKNOWN && !IsDial(b) && !IsRegisterSet(b) && IsRegisterQuery(b);
  }

  lemma SpeedClassified(code: nat)
    requires code in SPEED_CODES
    ensures Classify("&N" + Decimal(code)) == Meaning(LockSpeed, "", 0, code)
  {
    var b := "&N" + Decimal(code);
    assert b + "" == b;
    SpeedParts(code, "");
    ValueDecimal(code);
    LockSpeedClassified(b, code);
  }

  lemma LockSpeedClassified(b: string, code: nat)
    requires |b| >= 3 && b[0] == '&' && b[1] == 'N' && DigitsEnd(b, 2) == |b|
    requires Value(b[2..]) == code && code in SPEED_CODES
    ensures Classify(b) == Meaning(LockSpeed, "", 0, code)
  {
    assert Word(b) == UNKNOWN && IsLockSpeed(b);
  }

  lemma DialClassified(pulse: bool, number: string)
    requires Valid(DialOrder(pulse, number))
    ensures Classify(Print(DialOrder(pulse, number))) == Meaning(Dial, number, 0, 0)
  {
    var b := Print(DialOrder(pulse, number));
    assert b[2..] == number && b[0] == 'D';
    assert forall i :: 2 <= i < |b| ==> b[i] == number[i - 2];
    forall i | 2 <= i < |b|
      ensures IsDialChar(b[i])
    {
      assert b[i] == number[i - 2] && number[i - 2] in number;
    }
    assert Word(b) == UNKNOWN && IsDial(b);
  }

  /** A printed order is classified as what it means. */
  lemma PrintClassified(o: Order)
    requires Valid(o)
    ensures Classify(Print(o)) == MeaningOf(o) != UNKNOWN
  {
    match o {
      case SetOrder(reg, val) => SetClassified(reg, val);
      case QueryOrder(reg) => QueryClassified(reg);
      case SpeedOrder(code) => SpeedClassified(code);
      case DialOrder(pulse, number) => DialClassified(pulse, number);
      case CorrectionOrder(on) => assert Word(Print(o)) == UNKNOWN;
      case CompressionOrder(on) => assert Word(Print(o)) == UNKNOWN;
      case LevelOrder(level) => assert Print(o) == ['X', Digit(level)];
      case _ => assert Word(Print(o)) == MeaningOf(o);
    }
  }

  lemma SetNotSingle(reg: nat, val: nat, more: string)
    requires more != "" && Follows(more)
    ensures Classify("S" + Decimal(reg) + "=" + Decimal(val) + more) == UNKNOWN
  {
    var b := "S" + Decimal(reg) + "=" + Decimal(val) + more;
    SetParts(reg, val, more);
    assert b[0] == 'S' && |b| >= 2 && Word(b) == UNKNOWN;
    assert !IsRegisterSet(b) && !IsRegisterQuery(b);
  }

  lemma QueryNotSingle(reg: nat, more: string)
    requires more != ""
    ensures Classify("S" + Decimal(reg) + "?" + more) == UNKNOWN
  {
    var b := "S" + Decimal(reg) + "?" + more;
    QueryParts(reg, more);
    assert b[0] == 'S' && |b| >= 2 && Word(b) == UNKNOWN;
    assert !IsRegisterSet(b) && !IsRegisterQuery(b);
  }

  lemma SpeedNotSingle(code: nat, more: string)
    requires more != "" && Follows(more)
    ensures Classify("&N" + Decimal(code) + more) == UNKNOWN
  {
    var b := "&N" + Decimal(code) + more;
    SpeedParts(code, more);
    assert b[0] == '&' && b[1] == 'N' && Word(b) == UNKNOWN && !IsLockSpeed(b);
  }

  lemma OtherNotSingle(o: Order, more: string)
    requires Valid(o) && more != "" && Follows(more)
    requires !o.DialOrder? && !o.SetOrder? && !o.QueryOrder? && !o.SpeedOrder?
    ensures Classify(Print(o) + more) == UNKNOWN
  {
    var b := Print(o) + more;
    NotWord(o, more);
    assert b[0] == Print(o)[0] && |b| > |Print(o)|;
    assert o.FactoryOrder? || o.ViewOrder? || o.CorrectionOrder? ==> b[1] == Print(o)[1];
    assert !IsDial(b) && !IsRegisterSet(b) && !IsRegisterQuery(b) && !IsLockSpeed(b);
  }

  /** With more behind it, a printed order other than a dial is no single command. */
  lemma NotSingle(o: Order, more: string)
    requires Valid(o) && !o.DialOrder? && more != "" && Follows(more)
    ensures Classify(Print(o) + more) == UNKNOWN
  {
    match o {
      case SetOrder(reg, val) => SetNotSingle(reg, val, more);
      case QueryOrder(reg) => QueryNotSingle(reg, more);
      case SpeedOrder(code) => SpeedNotSingle(code, more);
      case DialOrder(_, _) =>
      case _ => OtherNotSingle(o, more);
    }
  }

  lemma NotWord(o: Order, more: string)
    requires Valid(o) && !o.DialOrder? && more != "" && Follows(more)
    ensures Word(Print(o) + more) == UNKNOWN
  {
    var b := Print(o) + more;
    assert b[0] == Print(o)[0] && b[|Print(o)|] == more[0];
  }

  lemma NotSpaced(b: string)
    requires b != "" && b[0] == ' '
    ensures Classify(b) == UNKNOWN
  {
  }

  // ---------- letter case ----------

  lemma {:induction false} DigitsEndUpper(s: string, j: nat)
    requires j <= |s|
    ensures DigitsEnd(ToUpper(s), j) == DigitsEnd(s, j)
    decreases |s| - j
  {
    if j < |s| && IsDigit(s[j]) {
      DigitsEndUpper(s, j + 1);
    }
  }

  /** The end of a sub-command does not depend on letter case. */
  lemma TokenEndUpper(s: string)
    requires s != ""
    ensures TokenEnd(ToUpper(s)) == TokenEnd(s)
  {
    DigitsEndUpper(s, 1);
    if 1 < |s| {
      DigitsEndUpper(s, 2);
    }
    var j := DigitsEnd(s, 1);
    if j < |s| {
      DigitsEndUpper(s, j + 1);
    }
  }

  /** Text that neither starts nor ends with white space. */
  predicate Solid(s: string) {
    s != "" && !IsSpace(s[0]) && !IsSpace(s[|s| - 1])
  }

  lemma TrimSolid(s: string)
    requires Solid(s)
    ensures TrimSpace(s) == s
  {
  }

  lemma {:induction false} TrimLeftShape(s: string)
    ensures TrimLeft(s) == "" || !IsSpace(TrimLeft(s)[0])
  {
    if s != "" && IsSpace(s[0]) {
      TrimLeftShape(s[1..]);
    }
  }

  lemma {:induction false} TrimRightShape(s: string)
    requires s == "" || !IsSpace(s[0])
    ensures TrimRight(s) == "" || Solid(TrimRight(s))
  {
    if s != "" && IsSpace(s[|s| - 1]) {
      TrimRightShape(s[..|s| - 1]);
    }
  }

  lemma TrimIdempotent(s: string)
    ensures TrimSpace(TrimSpace(s)) == TrimSpace(s)
  {
    TrimLeftShape(s);
    TrimRightShape(TrimLeft(s));
    if TrimSpace(s) != "" {
      TrimSolid(TrimSpace(s));
    }
  }

  // ---------- sub-commands of a line ----------

  lemma PrintShape(o: Order)
    requires Valid(o)
    ensures Solid(Print(o)) && !IsDigit(Print(o)[0])
    ensures (Print(o)[0] == 'D' <==> o.DialOrder?) && (Print(o)[0] == 'C' <==> o.ClearOrder?)
  {
    var b := Print(o);
    match o {
      case DialOrder(_, number) => assert b[|b| - 1] == number[|number| - 1] && number[|number| - 1] in number;
      case SetOrder(reg, val) => assert b[|b| - 1] == Decimal(val)[|Decimal(val)| - 1];
      case SpeedOrder(code) => assert b[|b| - 1] == Decimal(code)[|Decimal(code)| - 1];
      case LevelOrder(level) => assert b == ['X', Digit(level)];
      case _ =>
    }
  }

  /** The orders that are a letter and perhaps a digit. */
  predicate IsShort(o: Order) {
    match o
    case FactoryOrder | ViewOrder | ClearOrder | CorrectionOrder(_) | CompressionOrder(_) => false
    case DialOrder(_, _) | SetOrder(_, _) | QueryOrder(_) | SpeedOrder(_) => false
    case _ => true
  }

  lemma ShortTokenEnd(o: Order, more: string)
    requires Valid(o) && IsShort(o) && Follows(more)
    ensures TokenEnd(Print(o) + more) == |Print(o)|
  {
    var t := Print(o);
    assert o.LevelOrder? ==> t == ['X', Digit(o.level)];
    assert (|t| == 1 || (|t| == 2 && IsDigit(t[1]))) && t[0] in "ZHEVQIOX";
    ShortEnd(t, more);
  }

  lemma ShortEnd(t: string, more: string)
    requires (|t| == 1 || (|t| == 2 && IsDigit(t[1]))) && t[0] in "ZHEVQIOX" && Follows(more)
    ensures TokenEnd(t + more) == |t|
  {
    var b := t + more;
    assert b[0] == t[0] && (|t| == 2 ==> b[1] == t[1]) && (|t| == 1 && more != "" ==> b[1] == more[0]);
  }

  /** Two letters and at most one digit, starting with & or %. */
  lemma ExtendedEnd(t: string, more: string)
    requires (|t| == 2 || (|t| == 3 && IsDigit(t[2]))) && (t[0] == '&' || t[0] == '%') && Follows(more)
    ensures TokenEnd(t + more) == |t|
  {
    RunAt(t[..2], t[2..], more);
    assert t[..2] + t[2..] + more == t + more;
  }

  /** A printed order ends where the parser ends it, whatever follows that is not a digit. */
  lemma TokenEndPrint(o: Order, more: string)
    requires Valid(o) && !o.DialOrder? && !o.ClearOrder? && Follows(more)
    ensures TokenEnd(Print(o) + more) == |Print(o)|
  {
    if o.SetOrder? || o.QueryOrder? || o.SpeedOrder? {
      NumberedEnd(o, more);
    } else if o.FactoryOrder? || o.ViewOrder? || o.CorrectionOrder? || o.CompressionOrder? {
      ExtendedTokenEnd(o, more);
    } else {
      ShortTokenEnd(o, more);
    }
  }

  lemma NumberedEnd(o: Order, more: string)
    requires Valid(o) && (o.SetOrder? || o.QueryOrder? || o.SpeedOrder?) && Follows(more)
    ensures TokenEnd(Print(o) + more) == |Print(o)|
  {
    match o {
      case SetOrder(reg, val) => SetParts(reg, val, more);
      case QueryOrder(reg) => QueryParts(reg, more);
      case SpeedOrder(code) => SpeedParts(code, more);
    }
  }

  lemma ExtendedTokenEnd(o: Order, more: string)
    requires Valid(o) && (o.FactoryOrder? || o.ViewOrder? || o.CorrectionOrder? || o.CompressionOrder?) && Follows(more)
    ensures TokenEnd(Print(o) + more) == |Print(o)|
  {
    ExtendedEnd(Print(o), more);
  }

  /** Parsing the letters of a printed order, in any case, behind an AT. */
  lemma ParsePrinted(tok: string, o: Order)
    requires Valid(o) && ToUpper(tok) == Print(o)
    ensures ParseCommand("AT" + tok).meaning == MeaningOf(o) != UNKNOWN
  {
    PrintShape(o);
    PrintClassified(o);
    var line := "AT" + tok;
    assert ToUpper(tok)[|tok| - 1] == Upper(tok[|tok| - 1]);
    assert line[|line| - 1] == tok[|tok| - 1];
    TrimSolid(line);
    assert ToUpper(line)[2..] == Print(o);
  }

  /** The first sub-command of the rest of a line. */
  lemma TokenPrinted(s: string, o: Order, more: string)
    requires Valid(o) && Follows(more) && (o.DialOrder? ==> more == "")
    requires ToUpper(s) == Print(o) + more
    ensures Token(s).0.meaning == MeaningOf(o) != UNKNOWN
    ensures Token(s).1 == |Print(o)|
  {
    var n := |Print(o)|;
    PrintShape(o);
    assert Upper(s[0]) == Print(o)[0];
    assert ToUpper(s[..n]) == Print(o);
    if o.DialOrder? {
      assert s[..n] == s && Upper(s[n - 1]) == Print(o)[n - 1];
      TrimSolid(s);
      ParsePrinted(s, o);
    } else if o.ClearOrder? {
      PrintClassified(o);
    } else {
      TokenEndUpper(s);
      TokenEndPrint(o, more);
      ParsePrinted(s[..n], o);
    }
  }

  lemma BodyShape(os: seq<Order>, gaps: seq<nat>)
    requires |os| == |gaps| && forall o :: o in os ==> Valid(o)
    ensures Follows(Body(os, gaps))
    ensures Body(os, gaps) == "" <==> os == []
  {
    if os != [] {
      PrintShape(os[0]);
      assert os[0] in os;
    }
  }

  lemma BodyNoGap(os: seq<Order>, gaps: seq<nat>)
    requires |os| == |gaps| && os != [] && gaps[0] == 0
    ensures Body(os, gaps) == Print(os[0]) + Body(os[1..], gaps[1..])
  {
    assert Spaces(0) == "";
    assert "" + Print(os[0]) == Print(os[0]);
  }

  lemma BodyGap(os: seq<Order>, gaps: seq<nat>, fewer: seq<nat>)
    requires |os| == |gaps| && os != [] && gaps[0] > 0 && fewer == gaps[0 := gaps[0] - 1]
    ensures Body(os, gaps) == " " + Body(os, fewer)
  {
    var n, p, r := gaps[0], Print(os[0]), Body(os[1..], gaps[1..]);
    assert fewer[1..] == gaps[1..];
    assert Spaces(n) == " " + Spaces(n - 1);
    Regroup(" ", Spaces(n - 1), p, r);
  }

  lemma FitsTail(os: seq<Order>)
    requires os != [] && FitsLine(os)
    ensures FitsLine(os[1..]) && Valid(os[0]) && (os[0].DialOrder? ==> os[1..] == [])
  {
    assert os[0] in os;
    assert forall x :: x in os[1..] ==> x in os;
    assert forall k :: 0 <= k < |os[1..]| - 1 ==> os[1..][k] == os[k + 1];
  }

  lemma UpperSplit(s: string, a: string, b: string)
    requires ToUpper(s) == a + b
    ensures |a| <= |s| && ToUpper(s[..|a|]) == a && ToUpper(s[|a|..]) == b
  {
  }

  /** Scanning what has been printed, in any letter case, gives back what was meant. */
  lemma {:induction false} ScanBody(s: string, os: seq<Order>, gaps: seq<nat>)
    requires |os| == |gaps| && FitsLine(os) && ToUpper(s) == Body(os, gaps)
    ensures Means(Scan(s), os)
    decreases |os|, if os == [] then 0 else gaps[0]
  {
    if os == [] {
      assert s == "";
    } else if gaps[0] > 0 {
      var fewer := gaps[0 := gaps[0] - 1];
      BodyGap(os, gaps, fewer);
      UpperSplit(s, " ", Body(os, fewer));
      assert Upper(s[0]) == " "[0];
      ScanBody(s[1..], os, fewer);
      assert Scan(s) == Scan(s[1..]);
    } else {
      var o, more := os[0], Body(os[1..], gaps[1..]);
      BodyNoGap(os, gaps);
      FitsTail(os);
      UpperSplit(s, Print(o), more);
      ScanBody(s[|Print(o)|..], os[1..], gaps[1..]);
      BodyShape(os[1..], gaps[1..]);
      ScanHead(s, o, more, os[1..]);
      assert [o] + os[1..] == os;
    }
  }

  lemma ScanHead(s: string, o: Order, more: string, rest: seq<Order>)
    requires Valid(o) && Follows(more) && (o.DialOrder? ==> more == "") && ToUpper(s) == Print(o) + more
    requires |Print(o)| <= |s| && Means(Scan(s[|Print(o)|..]), rest)
    ensures Means(Scan(s), [o] + rest)
  {
    PrintShape(o);
    assert Upper(s[0]) == Print(o)[0] && s[0] != ' ';
    TokenPrinted(s, o, more);
    var (cmd, j) := Token(s);
    ScanOne(s, cmd, j, o, rest);
  }

  lemma ScanOne(s: string, cmd: Command, j: nat, o: Order, rest: seq<Order>)
    requires s != "" && s[0] != ' ' && (cmd, j) == Token(s)
    requires cmd.meaning == MeaningOf(o) != UNKNOWN && Means(Scan(s[j..]), rest)
    ensures Means(Scan(s), [o] + rest)
  {
    ScanUnfold(s, cmd, j);
    MeansCons(cmd, Scan(s[j..]), o, rest);
  }

  lemma MeansCons(cmd: Command, cmds: seq<Command>, o: Order, rest: seq<Order>)
    requires cmd.meaning == MeaningOf(o) && Means(cmds, rest)
    ensures Means([cmd] + cmds, [o] + rest)
  {
  }

  /**
   The round trip. Any non-empty list of valid orders, the dial command last if there is one, printed behind one AT with
   any spaces between them, in any letter case and with any white space around the line, is parsed back as that list:
   the same types, registers, values and number.
   */
  lemma RoundTrip(input: string, os: seq<Order>, gaps: seq<nat>)
    requires |os| == |gaps| && os != [] && FitsLine(os)
    requires ToUpper(TrimSpace(input)) == "AT" + Body(os, gaps)
    ensures Means(ParseLine(input), os)
  {
    var line := TrimSpace(input);
    var body := Body(os, gaps);
    TrimIdempotent(input);
    BodyShape(os, gaps);
    UpperSplit(line, "AT", body);
    assert ToUpper(line)[2..] == body;
    assert ParseCommand(line).meaning == Classify(body);
    if |os| == 1 && gaps[0] == 0 {
      BodyNoGap(os, gaps);
      assert os[0] in os && body == Print(os[0]) + "" == Print(os[0]);
      PrintClassified(os[0]);
    } else {
      LineNotSingle(os, gaps);
      ScanBody(line[2..], os, gaps);
    }
  }

  /** A line of several orders, or one with a gap in front, is never taken for a single command. */
  lemma LineNotSingle(os: seq<Order>, gaps: seq<nat>)
    requires |os| == |gaps| && os != [] && FitsLine(os) && (|os| > 1 || gaps[0] > 0)
    ensures Classify(Body(os, gaps)) == UNKNOWN
  {
    if gaps[0] > 0 {
      BodyGap(os, gaps, gaps[0 := gaps[0] - 1]);
      NotSpaced(Body(os, gaps));
    } else {
      BodyNoGap(os, gaps);
      FitsTail(os);
      BodyShape(os[1..], gaps[1..]);
      NotSingle(os[0], Body(os[1..], gaps[1..]));
    }
  }

  // ---------- lines that are not all orders ----------

  /** No command starts with this character, and none before it goes on with it. */
  predicate Strange(c: char) {
    c !in " &%CDEHIOQSVXZ" && !IsDigit(c) && !IsSpace(c)
  }

  lemma StrangeUnknown(b: string)
    requires b != "" && Strange(b[0])
    ensures Classify(b) == UNKNOWN
  {
    assert Word(b) == UNKNOWN;
  }

  lemma StrangeToken(s: string)
    requires s != "" && Strange(Upper(s[0]))
    ensures s[0] != ' ' && Token(s).0.meaning == UNKNOWN
  {
    var tok := s[..TokenEnd(s)];
    var text := "AT" + tok;
    assert tok[0] == s[0] && !IsSpace(tok[|tok| - 1]);
    TrimSolid(text);
    assert ToUpper(text)[2..] == ToUpper(tok);
    StrangeUnknown(ToUpper(tok));
  }

  /** The orders in front are obeyed, one command that is none is reported, and nothing behind it is looked at. */
  predicate Reported(cmds: seq<Command>, os: seq<Order>) {
    |cmds| == |os| + 1 && Means(cmds[..|os|], os) && cmds[|os|].meaning == UNKNOWN
  }

  lemma ReportedCons(cmd: Command, cmds: seq<Command>, o: Order, rest: seq<Order>)
    requires cmd.meaning == MeaningOf(o) && Reported(cmds, rest)
    ensures Reported([cmd] + cmds, [o] + rest)
  {
    assert ([cmd] + cmds)[..|rest| + 1] == [cmd] + cmds[..|rest|];
    MeansCons(cmd, cmds[..|rest|], o, rest);
  }

  lemma JunkScanned(s: string)
    requires s != "" && Strange(Upper(s[0]))
    ensures Reported(Scan(s), [])
  {
    StrangeToken(s);
    var (cmd, j) := Token(s);
    ScanUnfold(s, cmd, j);
  }

  lemma HeadReported(s: string, o: Order, more: string, rest: seq<Order>)
    requires Valid(o) && Follows(more) && !o.DialOrder? && ToUpper(s) == Print(o) + more
    requires |Print(o)| <= |s| && Reported(Scan(s[|Print(o)|..]), rest)
    ensures Reported(Scan(s), [o] + rest)
  {
    PrintShape(o);
    assert Upper(s[0]) == Print(o)[0] && s[0] != ' ';
    TokenPrinted(s, o, more);
    var (cmd, j) := Token(s);
    ScanUnfold(s, cmd, j);
    ReportedCons(cmd, Scan(s[j..]), o, rest);
  }

  /** A body and what comes behind it: as one text, without its first space or its first order. */
  lemma BodyMore(os: seq<Order>, gaps: seq<nat>, junk: string)
    requires |os| == |gaps| && os != []
    ensures gaps[0] > 0 ==>
              Body(os, gaps) + junk == " " + (Body(os, gaps[0 := gaps[0] - 1]) + junk)
    ensures gaps[0] == 0 ==>
              Body(os, gaps) + junk == Print(os[0]) + (Body(os[1..], gaps[1..]) + junk)
  {
    if gaps[0] > 0 {
      BodyGap(os, gaps, gaps[0 := gaps[0] - 1]);
      Associates(" ", Body(os, gaps[0 := gaps[0] - 1]), junk);
    } else {
      BodyNoGap(os, gaps);
      Associates(Print(os[0]), Body(os[1..], gaps[1..]), junk);
    }
  }

  lemma BodyFollows(os: seq<Order>, gaps: seq<nat>, junk: string)
    requires |os| == |gaps| && (forall o :: o in os ==> Valid(o)) && junk != "" && Strange(junk[0])
    ensures Body(os, gaps) + junk != "" && Follows(Body(os, gaps) + junk)
  {
    BodyShape(os, gaps);
  }

  lemma {:induction false} BodyReported(s: string, os: seq<Order>, gaps: seq<nat>, junk: string)
    requires |os| == |gaps| && FitsLine(os) && (os != [] ==> !os[|os| - 1].DialOrder?)
    requires junk != "" && Strange(junk[0]) && ToUpper(s) == Body(os, gaps) + junk
    ensures Reported(Scan(s), os)
    decreases |os|, if os == [] then 0 else gaps[0]
  {
    if os == [] {
      assert "" + junk == junk && Upper(s[0]) == junk[0];
      JunkScanned(s);
    } else if gaps[0] > 0 {
      var fewer := gaps[0 := gaps[0] - 1];
      BodyMore(os, gaps, junk);
      UpperSplit(s, " ", Body(os, fewer) + junk);
      assert Upper(s[0]) == " "[0];
      BodyReported(s[1..], os, fewer, junk);
      assert Scan(s) == Scan(s[1..]);
    } else {
      var o, more := os[0], Body(os[1..], gaps[1..]) + junk;
      BodyMore(os, gaps, junk);
      FitsTail(os);
      UpperSplit(s, Print(o), more);
      BodyReported(s[|Print(o)|..], os[1..], gaps[1..], junk);
      BodyFollows(os[1..], gaps[1..], junk);
      HeadReported(s, o, more, os[1..]);
      assert [o] + os[1..] == os;
    }
  }

  lemma JunkNotSingle(os: seq<Order>, gaps: seq<nat>, junk: string)
    requires |os| == |gaps| && FitsLine(os) && (os != [] ==> !os[|os| - 1].DialOrder?)
    requires junk != "" && Strange(junk[0])
    ensures Classify(Body(os, gaps) + junk) == UNKNOWN
  {
    if os == [] {
      assert "" + junk == junk;
      StrangeUnknown(junk);
    } else {
      BodyMore(os, gaps, junk);
      if gaps[0] > 0 {
        NotSpaced(Body(os, gaps) + junk);
      } else {
        FitsTail(os);
        BodyFollows(os[1..], gaps[1..], junk);
        NotSingle(os[0], Body(os[1..], gaps[1..]) + junk);
      }
    }
  }

  /**
   A line that begins with orders and goes on with something that no command begins with: the orders are obeyed, then
   one unknown command is reported, and the rest of the line is not looked at.
   */
  lemma JunkReported(input: string, os: seq<Order>, gaps: seq<nat>, junk: string)
    requires |os| == |gaps| && FitsLine(os) && (os != [] ==> !os[|os| - 1].DialOrder?)
    requires junk != "" && Strange(junk[0])
    requires ToUpper(TrimSpace(input)) == "AT" + (Body(os, gaps) + junk)
    ensures Reported(ParseLine(input), os)
  {
    var line := TrimSpace(input);
    var body := Body(os, gaps) + junk;
    TrimIdempotent(input);
    BodyFollows(os, gaps, junk);
    UpperSplit(line, "AT", body);
    assert ToUpper(line)[2..] == body;
    JunkNotSingle(os, gaps, junk);
    assert ParseCommand(line).meaning == UNKNOWN;
    BodyReported(line[2..], os, gaps, junk);
  }

  /** A bare AT, in any letter case and with any white space around it, is the attention command and nothing else. */
  lemma BareAttention(input: string)
    requires ToUpper(TrimSpace(input)) == "AT"
    ensures Meanings(ParseLine(input)) == [Simple(At)]
  {
    assert ParseLine(input)[0].meaning == Simple(At);
  }

  /** A line without AT in front is one unknown command. */
  lemma NoAttention(input: string)
    requires !("AT" <= ToUpper(TrimSpace(input)))
    ensures Meanings(ParseLine(input)) == [UNKNOWN]
  {
    assert !HasAt(ToUpper(TrimSpace(input)));
    assert ParseLine(input)[0].meaning == UNKNOWN;
  }

  // ---------- letter case, for any input ----------

  lemma {:induction false} TrimLeftUpper(s: string)
    ensures ToUpper(TrimLeft(s)) == TrimLeft(ToUpper(s))
  {
    if s != "" && IsSpace(s[0]) {
      assert ToUpper(s)[1..] == ToUpper(s[1..]);
      TrimLeftUpper(s[1..]);
    }
  }

  lemma {:induction false} TrimRightUpper(s: string)
    ensures ToUpper(TrimRight(s)) == TrimRight(ToUpper(s))
  {
    if s != "" && IsSpace(s[|s| - 1]) {
      assert ToUpper(s)[..|s| - 1] == ToUpper(s[..|s| - 1]);
      TrimRightUpper(s[..|s| - 1]);
    }
  }

  lemma TrimUpper(s: string)
    ensures ToUpper(TrimSpace(s)) == TrimSpace(ToUpper(s))
  {
    TrimLeftUpper(s);
    TrimRightUpper(TrimLeft(s));
  }

  lemma UpperTwice(s: string)
    ensures ToUpper(ToUpper(s)) == ToUpper(s)
  {
  }

  lemma ParseUpper(s: string)
    ensures ParseCommand(ToUpper(s)).meaning == ParseCommand(s).meaning
  {
    TrimUpper(s);
    UpperTwice(TrimSpace(s));
  }

  lemma UpperConcat(a: string, b: string)
    ensures ToUpper(a + b) == ToUpper(a) + ToUpper(b)
  {
  }

  /** A sub-command means the same and ends at the same place in upper case. */
  lemma TokenUpper(s: string)
    requires s != "" && s[0] != ' '
    ensures ToUpper(s)[0] != ' '
    ensures Token(ToUpper(s)).0.meaning == Token(s).0.meaning && Token(ToUpper(s)).1 == Token(s).1
  {
    var u := ToUpper(s);
    assert Upper(u[0]) == Upper(s[0]) && ToUpper("AT") == "AT";
    if Upper(s[0]) == 'D' {
      TrimUpper(s);
      UpperConcat("AT", TrimSpace(s));
      ParseUpper("AT" + TrimSpace(s));
    } else if Upper(s[0]) == 'C' {
      if |s| >= 3 {
        assert u[..3] == ToUpper(s[..3]);
        UpperTwice(s[..3]);
      }
    } else {
      TokenEndUpper(s);
      var t := s[..TokenEnd(s)];
      assert u[..TokenEnd(s)] == ToUpper(t);
      UpperConcat("AT", t);
      ParseUpper("AT" + t);
    }
  }

  function Meanings(cmds: seq<Command>): (r: seq<Meaning>)
    ensures |r| == |cmds| && forall k :: 0 <= k < |r| ==> r[k] == cmds[k].meaning
  {
    seq(|cmds|, k requires 0 <= k < |cmds| => cmds[k].meaning)
  }

  lemma {:induction false} ScanUpper(s: string)
    ensures Meanings(Scan(ToUpper(s))) == Meanings(Scan(s))
    decreases |s|
  {
    var u := ToUpper(s);
    if s != "" {
      if s[0] == ' ' {
        assert u[0] == ' ' && u[1..] == ToUpper(s[1..]);
        ScanUpper(s[1..]);
      } else {
        TokenUpper(s);
        var (cmd, j) := Token(s);
        var (cmd', j') := Token(u);
        assert u[j..] == ToUpper(s[j..]);
        ScanUpper(s[j..]);
        ScanUnfold(s, cmd, j);
        ScanUnfold(u, cmd', j');
        SameMeanings(cmd, cmd', if cmd.meaning == UNKNOWN then [] else Scan(s[j..]),
                     if cmd.meaning == UNKNOWN then [] else Scan(u[j..]));
      }
    }
  }

  lemma SameMeanings(c: Command, d: Command, cs: seq<Command>, ds: seq<Command>)
    requires c.meaning == d.meaning && Meanings(cs) == Meanings(ds)
    ensures Meanings([c] + cs) == Meanings([d] + ds)
  {
    assert |cs| == |Meanings(cs)| == |ds|;
    forall k | 0 <= k < |cs|
      ensures cs[k].meaning == ds[k].meaning
    {
      assert Meanings(cs)[k] == Meanings(ds)[k];
    }
  }

  lemma LineUpper(s: string)
    ensures Meanings(ParseLine(ToUpper(s))) == Meanings(ParseLine(s))
  {
    var line := TrimSpace(s);
    TrimUpper(s);
    UpperTwice(line);
    ParseUpper(line);
    if HasAt(ToUpper(line)) {
      assert ToUpper(line)[2..] == ToUpper(line[2..]);
      ScanUpper(line[2..]);
      assert |Scan(line[2..])| == |Meanings(Scan(line[2..]))|;
    }
  }

  /**
   Letter case never matters: lines that differ in it alone give the same commands, or fail alike, whatever they hold.
   */
  lemma CaseNeverMatters(s: string, t: string)
    requires ToUpper(s) == ToUpper(t)
    ensures Meanings(ParseLine(s)) == Meanings(ParseLine(t))
  {
    LineUpper(s);
    LineUpper(t);
  }

  // ---------- nothing else is understood ----------

  predicate IsNumber(d: string) {
    d != "" && forall i :: 0 <= i < |d| ==> IsDigit(d[i])
  }

  predicate SpellsSet(b: string, k: int, reg: nat, val: nat) {
    && 1 < k < |b| - 1 && b[0] == 'S' && b[k] == '='
    && IsNumber(b[1..k]) && Value(b[1..k]) == reg
    && IsNumber(b[k + 1..]) && Value(b[k + 1..]) == val
  }

  /** b is a spelling of the order: as printed, but that a number may have zeros in front. */
  ghost predicate Spells(b: string, o: Order) {
    match o
    case SetOrder(reg, val) => exists k :: SpellsSet(b, k, reg, val)
    case QueryOrder(reg) =>
      |b| > 2 && b[0] == 'S' && b[|b| - 1] == '?' && IsNumber(b[1..|b| - 1]) && Value(b[1..|b| - 1]) == reg
    case SpeedOrder(code) =>
      |b| > 2 && b[0] == '&' && b[1] == 'N' && IsNumber(b[2..]) && Value(b[2..]) == code
    case _ => b == Print(o)
  }

  predicate Blank(b: string) {
    forall i :: 0 <= i < |b| ==> b[i] == ' '
  }

  ghost predicate Begins(b: string, o: Order, n: int, j: int) {
    0 <= n <= j <= |b| && Blank(b[..n]) && Spells(b[n..j], o)
  }

  /** b is nothing but spellings of the orders, one after another, with any spaces between them. */
  ghost predicate Spelled(b: string, os: seq<Order>)
    decreases |os|
  {
    if os == [] then Blank(b)
    else exists n, j :: Begins(b, os[0], n, j) && Spelled(b[j..], os[1..])
  }

  lemma SpelledOne(b: string, o: Order, j: nat, rest: seq<Order>)
    requires j <= |b| && Spells(b[..j], o) && Spelled(b[j..], rest)
    ensures Spelled(b, [o] + rest)
  {
    var os := [o] + rest;
    assert os[0] == o && os[1..] == rest;
    BeginsAtOnce(b, o, j);
    assert Begins(b, os[0], 0, j) && Spelled(b[j..], os[1..]);
  }

  lemma BeginsAtOnce(b: string, o: Order, j: nat)
    requires j <= |b| && Spells(b[..j], o)
    ensures Begins(b, o, 0, j)
  {
    assert b[..0] == "" && b[0..j] == b[..j];
  }

  lemma BeginsShift(b: string, o: Order, n: int, j: int)
    requires b != "" && b[0] == ' ' && Begins(b[1..], o, n, j)
    ensures Begins(b, o, n + 1, j + 1) && b[1..][j..] == b[j + 1..]
  {
    var c := b[1..];
    TailSlice(b, n, j);
    assert b[..n + 1] == [' '] + c[..n];
    BlankCons(c[..n]);
  }

  lemma TailSlice(b: string, n: nat, j: nat)
    requires n <= j < |b|
    ensures b[1..][n..j] == b[n + 1..j + 1] && b[1..][j..] == b[j + 1..]
  {
  }

  lemma BlankCons(b: string)
    requires Blank(b)
    ensures Blank([' '] + b)
  {
  }

  lemma SpelledSpace(b: string, os: seq<Order>)
    requires b != "" && b[0] == ' ' && Spelled(b[1..], os)
    ensures Spelled(b, os)
  {
    if os == [] {
      assert forall i :: 0 < i < |b| ==> b[i] == b[1..][i - 1];
    } else {
      var n, j :| Begins(b[1..], os[0], n, j) && Spelled(b[1..][j..], os[1..]);
      BeginsShift(b, os[0], n, j);
    }
  }

  /** A fixed word means an order. */
  lemma WordOrder(b: string) returns (o: Order)
    requires b != "" && Word(b) != UNKNOWN
    ensures Valid(o) && MeaningOf(o) == Word(b) && !o.DialOrder? && Spells(b, o)
  {
    if b == "Z" { o := ResetOrder; }
    else if b == "&F" { o := FactoryOrder; }
    else if b == "H" || b == "H0" { o := HangupOrder(b == "H0"); }
    else if b == "H1" { o := OffHookOrder; }
    else if b == "E0" || b == "E1" { o := EchoOrder(b == "E1"); }
    else if b == "V0" || b == "V1" { o := VerboseOrder(b == "V1"); }
    else if b == "Q0" || b == "Q1" { o := QuietOrder(b == "Q1"); }
    else if b == "I" { o := IdentifyOrder; }
    else if b == "O" || b == "O0" { o := OnlineOrder(b == "O0"); }
    else if b == "&V" { o := ViewOrder; }
    else if b == "CLS" { o := ClearOrder; }
    else {
      o := LevelOrder(b[1] as int - '0' as int);
      assert Decimal(o.level) == [b[1]] && b == ['X'] + [b[1]];
    }
  }

  lemma RegisterOrder(b: string) returns (o: Order)
    requires IsRegisterSet(b) || IsRegisterQuery(b)
    requires Word(b) == UNKNOWN && !IsDial(b) && Classify(b) != UNKNOWN
    ensures Valid(o) && MeaningOf(o) == Classify(b) && !o.DialOrder? && Spells(b, o)
  {
    var k := DigitsEnd(b, 1);
    if IsRegisterSet(b) {
      o := SetOrder(Value(b[1..k]), Value(b[k + 1..]));
      assert SpellsSet(b, k, o.reg, o.val);
    } else {
      assert k == |b| - 1;
      o := QueryOrder(Value(b[1..|b| - 1]));
    }
  }

  lemma ExtendedOrder(b: string) returns (o: Order)
    requires b != "" && !IsDial(b) && !IsRegisterSet(b) && !IsRegisterQuery(b)
    requires Word(b) == UNKNOWN && Classify(b) != UNKNOWN
    ensures Valid(o) && MeaningOf(o) == Classify(b) && !o.DialOrder? && Spells(b, o)
  {
    if IsLockSpeed(b) {
      o := SpeedOrder(Value(b[2..]));
    } else if b[0] == '&' {
      o := CorrectionOrder(b[2] == '5');
      assert b == [b[0]] + [b[1]] + [b[2]];
    } else {
      o := CompressionOrder(b[2] == '1');
      assert b == [b[0]] + [b[1]] + [b[2]];
    }
  }

  /** Whatever is classified at all, out of range or misspelt text being unknown, spells a valid order. */
  lemma ClassifyOrder(b: string) returns (o: Order)
    requires b != "" && b[|b| - 1] != ' ' && Classify(b) != UNKNOWN
    ensures Valid(o) && MeaningOf(o) == Classify(b) && (o.DialOrder? ==> b[0] == 'D') && Spells(b, o)
  {
    if Word(b) != UNKNOWN {
      o := WordOrder(b);
    } else if IsDial(b) {
      o := DialOrder(b[1] == 'P', b[2..]);
      assert b == [b[0]] + [b[1]] + b[2..];
    } else if IsRegisterSet(b) || IsRegisterQuery(b) {
      o := RegisterOrder(b);
    } else {
      o := ExtendedOrder(b);
    }
  }

  lemma {:induction false} TrimRightPrefix(s: string)
    ensures |TrimRight(s)| <= |s| && TrimRight(s) == s[..|TrimRight(s)|]
    ensures TrimRight(s) == "" || !IsSpace(TrimRight(s)[|TrimRight(s)| - 1])
  {
    if s != "" && IsSpace(s[|s| - 1]) {
      TrimRightPrefix(s[..|s| - 1]);
    }
  }

  predicate Understood(m: Meaning) {
    m != UNKNOWN && m != Simple(At)
  }

  /** A command behind an AT that is understood spells a valid order, a dial only if it starts with a D. */
  lemma CommandOrder(tok: string) returns (o: Order)
    requires tok != "" && !IsSpace(tok[|tok| - 1]) && Understood(ParseCommand("AT" + tok).meaning)
    ensures Valid(o) && MeaningOf(o) == ParseCommand("AT" + tok).meaning && Spells(ToUpper(tok), o)
    ensures o.DialOrder? ==> Upper(tok[0]) == 'D'
  {
    var text := "AT" + tok;
    TrimSolid(text);
    var b := ToUpper(text)[2..];
    assert b == ToUpper(tok) && b[|b| - 1] == Upper(tok[|tok| - 1]);
    o := ClassifyOrder(b);
  }

  lemma SpaceAlone(c: char)
    requires IsSpace(c)
    ensures !Understood(ParseCommand("AT" + [c]).meaning)
  {
    OneTrimmed("AT" + [c], "AT");
  }

  lemma SpaceBehind(d: char, c: char)
    requires IsSpace(c) && d in "&%"
    ensures !Understood(ParseCommand("AT" + [d, c]).meaning)
  {
    OneTrimmed("AT" + [d, c], "AT" + [d]);
    var u := ToUpper("AT" + [d]);
    assert u[2..] == [d];
  }

  lemma TokenEndShape(s: string, j: nat)
    requires s != "" && j == TokenEnd(s) && IsSpace(s[j - 1])
    ensures s[..j] == [s[j - 1]] || (j == 2 && s[0] in "&%" && s[..j] == [s[0], s[1]])
  {
  }

  /** A sub-command that ends in white space is not understood. */
  lemma TokenNotSpaced(s: string, j: nat)
    requires s != "" && j == TokenEnd(s) && Understood(ParseCommand("AT" + s[..j]).meaning)
    ensures !IsSpace(s[j - 1])
  {
    if IsSpace(s[j - 1]) {
      TokenEndShape(s, j);
      if s[..j] == [s[j - 1]] {
        SpaceAlone(s[j - 1]);
      } else {
        SpaceBehind(s[0], s[1]);
      }
    }
  }

  lemma OneTrimmed(text: string, line: string)
    requires Solid(line) && |text| == |line| + 1 && text[..|line|] == line && IsSpace(text[|line|])
    ensures TrimSpace(text) == line
  {
    assert text[0] == line[0];
    assert TrimLeft(text) == text && TrimRight(text) == TrimRight(line) == line;
  }

  lemma DialTokenOrder(s: string) returns (o: Order)
    requires s != "" && Upper(s[0]) == 'D' && !IsSpace(s[|s| - 1])
    requires Understood(ParseCommand("AT" + TrimSpace(s)).meaning)
    ensures Valid(o) && MeaningOf(o) == ParseCommand("AT" + TrimSpace(s)).meaning && Spells(ToUpper(s)[..|s|], o)
  {
    TrimSolid(s);
    o := CommandOrder(s);
    assert ToUpper(s)[..|s|] == ToUpper(s);
  }

  lemma PlainTokenOrder(s: string, j: nat) returns (o: Order)
    requires 0 < j <= |s| && Upper(s[0]) != 'D' && !IsSpace(s[j - 1])
    requires Understood(ParseCommand("AT" + s[..j]).meaning)
    ensures Valid(o) && MeaningOf(o) == ParseCommand("AT" + s[..j]).meaning && !o.DialOrder?
    ensures Spells(ToUpper(s)[..j], o)
  {
    o := CommandOrder(s[..j]);
    assert ToUpper(s)[..j] == ToUpper(s[..j]);
  }

  lemma TokenOrder(s: string) returns (o: Order)
    requires s != "" && s[0] != ' ' && !IsSpace(s[|s| - 1]) && Understood(Token(s).0.meaning)
    ensures Valid(o) && MeaningOf(o) == Token(s).0.meaning && (o.DialOrder? ==> Token(s).1 == |s|)
    ensures Spells(ToUpper(s)[..Token(s).1], o)
  {
    if Upper(s[0]) == 'D' {
      o := DialTokenOrder(s);
    } else if Upper(s[0]) == 'C' {
      o := ClearOrder;
      assert ToUpper(s)[..3] == ToUpper(s[..3]);
    } else {
      TokenNotSpaced(s, TokenEnd(s));
      o := PlainTokenOrder(s, TokenEnd(s));
    }
  }

  predicate AllUnderstood(cmds: seq<Command>) {
    forall c :: c in cmds ==> Understood(c.meaning)
  }

  /** The first sub-command of a text understood throughout. */
  lemma FirstOrder(s: string) returns (cmd: Command, o: Order, j: nat)
    requires s != "" && s[0] != ' ' && !IsSpace(s[|s| - 1]) && AllUnderstood(Scan(s))
    ensures 0 < j <= |s| && Scan(s) == [cmd] + Scan(s[j..]) && AllUnderstood(Scan(s[j..]))
    ensures cmd.meaning == MeaningOf(o) && Valid(o) && (o.DialOrder? ==> j == |s|) && Spells(ToUpper(s)[..j], o)
  {
    cmd, j := Token(s).0, Token(s).1;
    UnderstoodRest(s, cmd, j);
    o := TokenOrder(s);
  }

  lemma {:induction false} ScanOrders(s: string) returns (os: seq<Order>)
    requires AllUnderstood(Scan(s)) && (s == "" || !IsSpace(s[|s| - 1]))
    ensures FitsLine(os) && Means(Scan(s), os) && Spelled(ToUpper(s), os)
    decreases |s|
  {
    if s == "" {
      os := [];
    } else if s[0] == ' ' {
      os := ScanOrders(s[1..]);
      OrdersSpace(s, os);
    } else {
      var cmd, o, j := FirstOrder(s);
      var rest := ScanOrders(s[j..]);
      OrdersCons(s, cmd, j, o, rest);
      os := [o] + rest;
    }
  }

  lemma OrdersSpace(s: string, os: seq<Order>)
    requires s != "" && s[0] == ' ' && Means(Scan(s[1..]), os) && Spelled(ToUpper(s[1..]), os)
    ensures Means(Scan(s), os) && Spelled(ToUpper(s), os)
  {
    assert ToUpper(s)[1..] == ToUpper(s[1..]) && ToUpper(s)[0] == ' ';
    SpelledSpace(ToUpper(s), os);
  }

  lemma OrdersCons(s: string, cmd: Command, j: nat, o: Order, rest: seq<Order>)
    requires j <= |s| && Scan(s) == [cmd] + Scan(s[j..]) && cmd.meaning == MeaningOf(o)
    requires Valid(o) && (o.DialOrder? ==> rest == []) && Spells(ToUpper(s)[..j], o)
    requires FitsLine(rest) && Means(Scan(s[j..]), rest) && Spelled(ToUpper(s[j..]), rest)
    ensures FitsLine([o] + rest) && Means(Scan(s), [o] + rest) && Spelled(ToUpper(s), [o] + rest)
  {
    MeansCons(cmd, Scan(s[j..]), o, rest);
    FitsCons(o, rest);
    SpelledToken(s, o, j, rest);
  }

  lemma SpelledToken(s: string, o: Order, j: nat, rest: seq<Order>)
    requires j <= |s| && Spells(ToUpper(s)[..j], o) && Spelled(ToUpper(s[j..]), rest)
    ensures Spelled(ToUpper(s), [o] + rest)
  {
    assert ToUpper(s)[j..] == ToUpper(s[j..]);
    SpelledOne(ToUpper(s), o, j, rest);
  }

  lemma UnderstoodRest(s: string, cmd: Command, j: nat)
    requires s != "" && s[0] != ' ' && (cmd, j) == Token(s) && AllUnderstood(Scan(s))
    ensures Understood(cmd.meaning) && AllUnderstood(Scan(s[j..])) && Scan(s) == [cmd] + Scan(s[j..])
  {
    ScanUnfold(s, cmd, j);
    assert Scan(s)[0] == cmd && cmd in Scan(s);
    assert forall c :: c in Scan(s[j..]) ==> c in Scan(s);
  }

  lemma FitsCons(o: Order, rest: seq<Order>)
    requires Valid(o) && FitsLine(rest) && (o.DialOrder? ==> rest == [])
    ensures FitsLine([o] + rest)
  {
    var os := [o] + rest;
    assert forall k :: 0 < k < |os| ==> os[k] == rest[k - 1];
  }

  lemma OrderBehindAt(line: string) returns (o: Order)
    requires HasAt(ToUpper(line)) && Understood(Classify(ToUpper(line)[2..])) && Upper(line[|line| - 1]) != ' '
    ensures Valid(o) && MeaningOf(o) == Classify(ToUpper(line)[2..]) && Spells(ToUpper(line)[2..], o)
  {
    var b := ToUpper(line)[2..];
    assert b != "" && b[|b| - 1] == Upper(line[|line| - 1]);
    o := ClassifyOrder(b);
  }

  /** A line understood as a single command. */
  lemma UnderstoodSingle(line: string) returns (o: Order)
    requires TrimSpace(line) == line && HasAt(ToUpper(line)) && !IsSpace(line[|line| - 1])
    requires Understood(ParseCommand(line).meaning)
    ensures Valid(o) && MeaningOf(o) == ParseCommand(line).meaning && Spelled(ToUpper(line)[2..], [o])
  {
    o := OrderBehindAt(line);
    var b := ToUpper(line)[2..];
    assert b[..|b|] == b && b[|b|..] == "" && [o] + [] == [o];
    SpelledOne(b, o, |b|, []);
  }

  /** A line understood throughout is one command, or else what the scan makes of it. */
  lemma LineCases(input: string, line: string)
    requires line == TrimSpace(input) && AllUnderstood(ParseLine(input))
    ensures HasAt(ToUpper(line)) && ParseLine(input) != []
    ensures if ParseCommand(line).meaning == UNKNOWN then ParseLine(input) == Scan(line[2..])
            else ParseLine(input) == [ParseCommand(line)] && Understood(ParseCommand(line).meaning)
  {
    var cmds := ParseLine(input);
    assert cmds != [] && cmds[0] in cmds;
  }

  lemma LineEnds(input: string)
    ensures var line := TrimSpace(input);
            TrimSpace(line) == line && (line != "" ==> !IsSpace(line[|line| - 1]))
  {
    TrimIdempotent(input);
    TrimLeftShape(input);
    TrimRightPrefix(TrimLeft(input));
  }

  lemma OrdersOfLine(line: string, cmds: seq<Command>) returns (os: seq<Order>)
    requires TrimSpace(line) == line && HasAt(ToUpper(line)) && !IsSpace(line[|line| - 1])
    requires cmds != [] && AllUnderstood(cmds)
    requires if ParseCommand(line).meaning == UNKNOWN then cmds == Scan(line[2..])
             else cmds == [ParseCommand(line)] && Understood(ParseCommand(line).meaning)
    ensures os != [] && FitsLine(os) && Means(cmds, os) && Spelled(ToUpper(line)[2..], os)
  {
    if ParseCommand(line).meaning != UNKNOWN {
      var o := UnderstoodSingle(line);
      os := [o];
    } else {
      os := ScanOrders(line[2..]);
      UpperTail(line);
    }
  }

  /**
   The other direction: a line that is understood throughout, whatever it looks like, is spellings of valid orders and
   nothing else, with no dial but the last, and the commands are those orders.
   */
  lemma UnderstoodLinesAreOrders(input: string) returns (os: seq<Order>)
    requires AllUnderstood(ParseLine(input))
    ensures os != [] && FitsLine(os) && Means(ParseLine(input), os)
    ensures var u := ToUpper(TrimSpace(input)); HasAt(u) && Spelled(u[2..], os)
  {
    LineEnds(input);
    LineCases(input, TrimSpace(input));
    os := OrdersOfLine(TrimSpace(input), ParseLine(input));
  }

  lemma UpperTail(line: string)
    requires |line| >= 2
    ensures ToUpper(line)[2..] == ToUpper(line[2..])
  {
  }
}
