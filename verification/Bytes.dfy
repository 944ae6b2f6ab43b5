/** Octets, and the few sequence notions every stream component of the gateway shares. */
module Bytes {
  type byte = b: int | 0 <= b < 256

  /** TELNET "Interpret As Command" (RFC 854). */
  const IAC: byte := 255

  datatype Option<+T> = None | Some(value: T)

  function Last<T>(s: seq<T>): T
    requires s != []
  {
    s[|s| - 1]
  }

  function Front<T>(s: seq<T>): seq<T>
    requires s != []
  {
    s[..|s| - 1]
  }

  /** The stream that a list of chunks, writes or messages carries. */
  function Flatten<T>(chunks: seq<seq<T>>): seq<T> {
    if chunks == [] then [] else Flatten(Front(chunks)) + Last(chunks)
  }

  /** n copies of one octet. */
  function Repeat(b: byte, n: nat): (r: seq<byte>)
    ensures |r| == n
    ensures forall i :: 0 <= i < n ==> r[i] == b
  {
    if n == 0 then [] else Repeat(b, n - 1) + [b]
  }

  /** RFC 854 data transparency: every 255 is sent twice. */
  function Double(s: seq<byte>): seq<byte> {
    if s == [] then []
    else Double(Front(s)) + (if Last(s) == IAC then [IAC, IAC] else [Last(s)])
  }

  /** What a peer reads back when it takes each pair of 255s for one. */
  function Undouble(s: seq<byte>): seq<byte> {
    if s == [] then []
    else if |s| >= 2 && s[0] == IAC && s[1] == IAC then [IAC] + Undouble(s[2..])
    else [s[0]] + Undouble(s[1..])
  }

  lemma Associative<T>(a: seq<T>, b: seq<T>, c: seq<T>)
    ensures (a + b) + c == a + (b + c)
  {
  }

  lemma {:induction false} FlattenConcat<T>(a: seq<seq<T>>, b: seq<seq<T>>)
    ensures Flatten(a + b) == Flatten(a) + Flatten(b)
  {
    if b == [] {
      assert a + b == a;
    } else {
      assert Front(a + b) == a + Front(b) && Last(a + b) == Last(b);
      FlattenConcat(a, Front(b));
      Associative(Flatten(a), Flatten(Front(b)), Last(b));
    }
  }

  lemma {:induction false} DoubleConcat(a: seq<byte>, b: seq<byte>)
    ensures Double(a + b) == Double(a) + Double(b)
  {
    if b == [] {
      assert a + b == a;
    } else {
      assert Front(a + b) == a + Front(b) && Last(a + b) == Last(b);
      DoubleConcat(a, Front(b));
      Associative(Double(a), Double(Front(b)), if Last(b) == IAC then [IAC, IAC] else [Last(b)]);
    }
  }

  /** Doubling can be undone, whatever the octets are. */
  lemma {:induction false} UndoubleDouble(s: seq<byte>)
    ensures Undouble(Double(s)) == s
  {
    if s == [] {
    } else {
      assert s == s[..1] + s[1..] && Front(s[..1]) == [];
      DoubleConcat(s[..1], s[1..]);
      var head := Double(s[..1]);
      assert head == if s[0] == IAC then [IAC, IAC] else [s[0]];
      UndoubleDouble(s[1..]);
      var d := Double(s);
      assert d == head + Double(s[1..]);
      assert d[|head|..] == Double(s[1..]);
    }
  }

  lemma {:induction false} DoubleIdentity(s: seq<byte>)
    requires IAC !in s
    ensures Double(s) == s
  {
    if s == [] {
    } else {
      assert s == Front(s) + [Last(s)];
      DoubleIdentity(Front(s));
    }
  }
}
