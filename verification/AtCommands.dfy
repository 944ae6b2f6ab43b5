/** The AT command parser of internal/modem/commands.go, over ASCII input. */
module AtCommands {

  datatype CommandType =
    | Unknown | At | Reset | FactoryReset | Dial | Hangup | OffHook | EchoOff | EchoOn | VerboseOff | VerboseOn
    | QuietOff | QuietOn | Identify | ViewConfig | SRegisterSet | SRegisterQuery | SetX | LockSpeed
    | SetErrorCorrection | SetCompression | Online | Clear

  /** What a command asks for. */
  datatype Meaning = Meaning(typ: CommandType, number: string, register: int, value: int)

  datatype Command = Command(meaning: Meaning, raw: string)

  const UNKNOWN := Meaning(Unknown, "", 0, 0)
  const SPEED_CODES := {0, 1, 2, 3, 6, 7, 8, 10, 11, 12, 14}
  const MAX_INT := 0x7FFF_FFFF_FFFF_FFFF

  function Simple(typ: CommandType): Meaning {
    Meaning(typ, "", 0, 0)
  }

  // ---------- characters and strings ----------

  predicate IsSpace(c: char) {
    c == ' ' || '\t' <= c <= '\r'
  }

  predicate IsDigit(c: char) {
    '0' <= c <= '9'
  }

  function Upper(c: char): char {
    if 'a' <= c <= 'z' then (c as int - 32) as char else c
  }

  function ToUpper(s: string): (u: string)
    ensures |u| == |s| && forall i :: 0 <= i < |s| ==> u[i] == Upper(s[i])
  {
    seq(|s|, i requires 0 <= i < |s| => Upper(s[i]))
  }

  function TrimLeft(s: string): string {
    if s != "" && IsSpace(s[0]) then TrimLeft(s[1..]) else s
  }

  function TrimRight(s: string): string {
    if s != "" && IsSpace(s[|s| - 1]) then TrimRight(s[..|s| - 1]) else s
  }

  function TrimSpace(s: string): string {
    TrimRight(TrimLeft(s))
  }

  /** Where the digits from position j on end. */
  function DigitsEnd(s: string, j: nat): (k: nat)
    requires j <= |s|
    ensures j <= k <= |s|
    ensures forall i :: j <= i < k ==> IsDigit(s[i])
    ensures k < |s| ==> !IsDigit(s[k])
    decreases |s| - j
  {
    if j < |s| && IsDigit(s[j]) then DigitsEnd(s, j + 1) else j
  }

  function Value(digits: string): nat
    requires forall i :: 0 <= i < |digits| ==> IsDigit(digits[i])
  {
    if digits == "" then 0
    else
      assert IsDigit(digits[|digits| - 1]);
      Value(digits[..|digits| - 1]) * 10 + (digits[|digits| - 1] as int - '0' as int)
  }

  // ---------- ParseCommand ----------

  /** The commands that are a fixed word. */
  function Word(b: string): Meaning {
    if b == "" then Simple(At)
    else if b == "Z" then Simple(Reset)
    else if b == "&F" then Simple(FactoryReset)
    else if b == "H" || b == "H0" then Simple(Hangup)
    else if b == "H1" then Simple(OffHook)
    else if b == "E0" then Simple(EchoOff)
    else if b == "E1" then Simple(EchoOn)
    else if b == "V0" then Simple(VerboseOff)
    else if b == "V1" then Simple(VerboseOn)
    else if b == "Q0" then Simple(QuietOff)
    else if b == "Q1" then Simple(QuietOn)
    else if b == "I" then Simple(Identify)
    else if b == "O" || b == "O0" then Simple(Online)
    else if b == "&V" then Simple(ViewConfig)
    else if b == "CLS" then Simple(Clear)
    else if |b| == 2 && b[0] == 'X' && '0' <= b[1] <= '4' then Meaning(SetX, "", 0, b[1] as int - '0' as int)
    else UNKNOWN
  }

  predicate IsDialChar(c: char) {
    IsDigit(c) || c in "-().*# "
  }

  predicate IsDial(b: string) {
    |b| >= 3 && b[0] == 'D' && (b[1] == 'T' || b[1] == 'P') && forall i :: 2 <= i < |b| ==> IsDialChar(b[i])
  }

  /** S<digits>=<digits> */
  predicate IsRegisterSet(b: string) {
    |b| >= 1 && b[0] == 'S' &&
    var k := DigitsEnd(b, 1);
    1 < k && k + 1 < |b| && b[k] == '=' && DigitsEnd(b, k + 1) == |b|
  }

  /** S<digits>? */
  predicate IsRegisterQuery(b: string) {
    |b| >= 1 && b[0] == 'S' &&
    var k := DigitsEnd(b, 1);
    1 < k && k + 1 == |b| && b[k] == '?'
  }

  /** &N<digits> */
  predicate IsLockSpeed(b: string) {
    |b| >= 3 && b[0] == '&' && b[1] == 'N' && DigitsEnd(b, 2) == |b|
  }

  /** A command after its AT, in upper case. */
  function Classify(b: string): Meaning {
    if Word(b) != UNKNOWN then Word(b)
    else if IsDial(b) then Meaning(Dial, b[2..], 0, 0)
    else if IsRegisterSet(b) then
      var k := DigitsEnd(b, 1);
      var reg, val := Value(b[1..k]), Value(b[k + 1..]);
      if reg > 255 || val > MAX_INT then UNKNOWN else Meaning(SRegisterSet, "", reg, val)
    else if IsRegisterQuery(b) then
      var reg := Value(b[1..DigitsEnd(b, 1)]);
      if reg > 255 then UNKNOWN else Meaning(SRegisterQuery, "", reg, 0)
    else if IsLockSpeed(b) then
      var code := Value(b[2..]);
      if code in SPEED_CODES then Meaning(LockSpeed, "", 0, code) else UNKNOWN
    else if |b| == 3 && b[0] == '&' && b[1] == 'Q' && IsDigit(b[2]) then
      var v := b[2] as int - '0' as int;
      if v == 0 || v == 5 then Meaning(SetErrorCorrection, "", 0, v) else UNKNOWN
    else if |b| == 3 && b[0] == '%' && b[1] == 'C' && IsDigit(b[2]) then
      var v := b[2] as int - '0' as int;
      if v == 0 || v == 1 then Meaning(SetCompression, "", 0, v) else UNKNOWN
    else UNKNOWN
  }

  predicate HasAt(u: string) {
    |u| >= 2 && u[0] == 'A' && u[1] == 'T'
  }

  function ParseCommand(input: string): Command {
    var line := TrimSpace(input);
    var u := ToUpper(line);
    Command(if HasAt(u) then Classify(u[2..]) else UNKNOWN, line)
  }

  // ---------- ParseCommandLine ----------

  /** Where the sub-command that s starts with ends. */
  function TokenEnd(s: string): (j: nat)
    requires s != ""
    ensures 0 < j <= |s|
  {
    var ch := Upper(s[0]);
    if ch == 'S' then
      var j := DigitsEnd(s, 1);
      if j < |s| && s[j] == '=' then DigitsEnd(s, j + 1)
      else if j < |s| && s[j] == '?' then j + 1
      else j
    else if ch == '&' || ch == '%' then
      if 1 < |s| then DigitsEnd(s, 2) else 1
    else
      if 1 < |s| && IsDigit(s[1]) then 2 else 1
  }

  predicate StartsCls(s: string) {
    |s| >= 3 && ToUpper(s[..3]) == "CLS"
  }

  /** The sub-command that s starts with, and how far it goes; a dial command goes to the end. */
  function Token(s: string): (r: (Command, nat))
    requires s != "" && s[0] != ' '
    ensures 0 < r.1 <= |s|
  {
    var ch := Upper(s[0]);
    if ch == 'D' then (ParseCommand("AT" + TrimSpace(s)), |s|)
    else if ch == 'C' then
      if StartsCls(s) then (Command(Simple(Clear), "ATCLS"), 3) else (Command(UNKNOWN, "AT" + [s[0]]), 1)
    else (ParseCommand("AT" + s[..TokenEnd(s)]), TokenEnd(s))
  }

  /** The sub-commands of what is left of a line, up to the first that is unknown. */
  function Scan(s: string): seq<Command> {
    if s == "" then []
    else if s[0] == ' ' then Scan(s[1..])
    else
      var (cmd, j) := Token(s);
      if cmd.meaning == UNKNOWN then [cmd] else [cmd] + Scan(s[j..])
  }

  function ParseLine(input: string): seq<Command> {
    var line := TrimSpace(input);
    var u := ToUpper(line);
    if !HasAt(u) then [Command(UNKNOWN, line)]
    else if u == "AT" then [Command(Simple(At), line)]
    else if ParseCommand(line).meaning != UNKNOWN then [ParseCommand(line)]
    else if Scan(line[2..]) == [] then [Command(UNKNOWN, line)]
    else Scan(line[2..])
  }

  // ---------- the parser as it is written ----------

  method SkipDigits(s: string, from: nat) returns (j: nat)
    requires from <= |s|
    ensures j == DigitsEnd(s, from)
  {
    j := from;
    while j < |s| && '0' <= s[j] <= '9'
      invariant from <= j <= |s| && DigitsEnd(s, from) == DigitsEnd(s, j)
    {
      j := j + 1;
    }
  }

  method FindTokenEnd(rest: string, i: nat) returns (j: nat)
    requires i < |rest|
    ensures j == i + TokenEnd(rest[i..])
  {
    var ch := Upper(rest[i]);
    DigitsEndSuffix(rest, i, 1);
    j := i + 1;
    if ch == 'S' {
      j := SkipDigits(rest, j);
      if j < |rest| && rest[j] == '=' {
        DigitsEndSuffix(rest, i, j + 1 - i);
        j := SkipDigits(rest, j + 1);
      } else if j < |rest| && rest[j] == '?' {
        j := j + 1;
      }
    } else if ch == '&' || ch == '%' {
      if j < |rest| {
        DigitsEndSuffix(rest, i, 2);
        j := SkipDigits(rest, j + 1);
      }
    } else if j < |rest| && '0' <= rest[j] <= '9' {
      j := j + 1;
    }
  }

  /** One sub-command of the line, from index i on, and the index behind it. */
  method NextCommand(rest: string, i: nat, ch: char) returns (cmd: Command, j: nat)
    requires i < |rest| && rest[i] != ' ' && ch == Upper(rest[i])
    ensures (cmd, j - i) == Token(rest[i..])
    ensures i < j <= |rest|
  {
    if ch == 'D' {
      return ParseCommand("AT" + TrimSpace(rest[i..])), |rest|;
    } else if ch == 'C' {
      if StartsCls(rest[i..]) {
        return Command(Simple(Clear), "ATCLS"), i + 3;
      }
      return Command(UNKNOWN, "AT" + [rest[i]]), i + 1;
    }
    j := FindTokenEnd(rest, i);
    assert rest[i..j] == rest[i..][..j - i];
    cmd := ParseCommand("AT" + rest[i..j]);
  }

  lemma ScanSpace(rest: string, i: nat)
    requires i < |rest| && rest[i] == ' '
    ensures Scan(rest[i..]) == Scan(rest[i + 1..])
  {
    assert rest[i..][1..] == rest[i + 1..];
  }

  lemma ScanToken(rest: string, i: nat, done: seq<Command>, cmd: Command, j: nat)
    requires i < j <= |rest| && rest[i] != ' ' && (cmd, j - i) == Token(rest[i..])
    ensures done + Scan(rest[i..]) == done + [cmd] + if cmd.meaning == UNKNOWN then [] else Scan(rest[j..])
  {
    assert rest[i..][j - i..] == rest[j..];
    ScanUnfold(rest[i..], cmd, j - i);
    Associates(done, [cmd], if cmd.meaning == UNKNOWN then [] else Scan(rest[j..]));
  }

  lemma ScanUnfold(s: string, cmd: Command, j: nat)
    requires s != "" && s[0] != ' ' && (cmd, j) == Token(s)
    ensures Scan(s) == [cmd] + if cmd.meaning == UNKNOWN then [] else Scan(s[j..])
  {
  }

  lemma Associates<T>(a: seq<T>, b: seq<T>, c: seq<T>)
    ensures a + (b + c) == a + b + c
  {
  }

  /** The scan of `rest` has come to i with `commands`, `all` being what it comes to in the end. */
  predicate Scanning(rest: string, i: nat, commands: seq<Command>, all: seq<Command>) {
    i <= |rest| && all == commands + Scan(rest[i..])
  }

  lemma ScanStarts(rest: string)
    ensures Scanning(rest, 0, [], Scan(rest))
  {
    assert rest[0..] == rest && [] + Scan(rest) == Scan(rest);
  }

  lemma ScanDone(rest: string, commands: seq<Command>, all: seq<Command>)
    requires Scanning(rest, |rest|, commands, all)
    ensures commands == all
  {
    assert rest[|rest|..] == "" && commands + [] == commands;
  }

  /** One turn of the scanning loop: a space skipped, or a sub-command read; an unknown one ends it. */
  method ScanStep(rest: string, upper: string, i: nat, commands: seq<Command>, ghost all: seq<Command>)
    returns (commands': seq<Command>, i': nat, ended: bool)
    requires upper == ToUpper(rest) && i < |rest| && Scanning(rest, i, commands, all)
    ensures if ended then commands' == all else i < i' && Scanning(rest, i', commands', all)
  {
    if rest[i] == ' ' {
      ScanSpace(rest, i);
      return commands, i + 1, false;
    }
    var cmd, j := NextCommand(rest, i, upper[i]);
    ScanToken(rest, i, commands, cmd, j);
    return commands + [cmd], j, cmd.meaning == UNKNOWN;
  }

  method ScanCommands(rest: string, upper: string) returns (commands: seq<Command>)
    requires upper == ToUpper(rest)
    ensures commands == Scan(rest)
  {
    commands := [];
    var i := 0;
    ghost var all := Scan(rest);
    ScanStarts(rest);
    while i < |rest|
      invariant Scanning(rest, i, commands, all)
    {
      var ended;
      commands, i, ended := ScanStep(rest, upper, i, commands, all);
      if ended {
        return;
      }
    }
    ScanDone(rest, commands, all);
  }

  /** The parser of a whole line. Every turn of its loop advances, so it ends. */
  method ParseCommandLine(input: string) returns (commands: seq<Command>)
    ensures commands == ParseLine(input) && commands != []
    ensures ToUpper(TrimSpace(input)) == "AT" ==> |commands| == 1 && commands[0].meaning == Simple(At)
    ensures !("AT" <= ToUpper(TrimSpace(input))) ==> |commands| == 1 && commands[0].meaning == UNKNOWN
  {
    var line := TrimSpace(input);
    var upper := ToUpper(line);
    if !HasAt(upper) {
      return [Command(UNKNOWN, line)];
    }
    if upper == "AT" {
      return [Command(Simple(At), line)];
    }
    var single := ParseCommand(line);
    if single.meaning != UNKNOWN {
      return [single];
    }
    commands := ScanCommands(line[2..], upper[2..]);
    if |commands| == 0 {
      return [Command(UNKNOWN, line)];
    }
  }

  lemma {:induction false} DigitsEndSuffix(s: string, i: nat, j: nat)
    requires i + j <= |s|
    ensures DigitsEnd(s, i + j) == i + DigitsEnd(s[i..], j)
    decreases |s| - i - j
  {
    if i + j < |s| && IsDigit(s[i + j]) {
      DigitsEndSuffix(s, i, j + 1);
    }
  }
}
