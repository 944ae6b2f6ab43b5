/**
 handleDial and gatedConnect of internal/server/dial.go, as the result codes they emit. Random draws are
 nondeterministic, what the network does is a parameter, and client writes are taken to succeed.
 */
module DialTranscript {
  import opened Bytes

  datatype Code = Ring | Connect | NoCarrier | Error | Busy

  datatype Outcome =
    NoCarrierOutcome | Blocked | UnknownNumber | BusyLine | SettingsMismatch | AuthFailed | Timeout | Success

  datatype Mode = Command | Data

  /** A phonebook entry, as far as dialling depends on it. */
  datatype Entry = Entry(busy: bool, gated: bool)

  /** The result of placing a call: a connection, or an error that may be a refusal. */
  datatype Dialled = Connected(conn: nat) | Refused | Failed

  /**
   When that result comes in: before the first ring, during the k-th optional ring or, if there are fewer of them, while
   the caller waits; or not before the safety timeout.
   */
  datatype Arrival = AtOnce | WhileRinging(k: nat) | TooLate

  const DIAL_COOLDOWN := 3_000_000_000

  function Rings(n: nat): (r: seq<Code>)
    ensures |r| == n && forall i :: 0 <= i < n ==> r[i] == Ring
  {
    if n == 0 then [] else Rings(n - 1) + [Ring]
  }

  /** The transcripts an outcome can have. */
  ghost predicate Transcript(outcome: Outcome, codes: seq<Code>) {
    match outcome
    case Blocked => codes == [Error]
    case UnknownNumber => codes == [NoCarrier]
    case BusyLine => codes == [Busy]
    case SettingsMismatch => exists n :: 1 <= n <= 3 && codes == Rings(n) + [Connect, NoCarrier]
    case AuthFailed => exists n :: 1 <= n <= 3 && codes == Rings(n) + [Connect, NoCarrier]
    case Timeout => exists n :: 1 <= n <= 4 && codes == Rings(n) + [NoCarrier]
    case NoCarrierOutcome =>
      || (exists n :: 1 <= n <= 4 && codes == Rings(n) + [NoCarrier])
      || (exists n :: 1 <= n <= 3 && codes == Rings(n) + [Connect, NoCarrier])
    case Success => exists n :: 1 <= n <= 4 && codes == Rings(n) + [Connect]
  }

  method Intn(n: nat) returns (k: nat)
    requires n > 0
    ensures k < n
  {
    k :| k < n;
  }

  class Session {
    var lastDial: Option<int>
    var remoteConn: Option<nat>
    var mode: Mode
    var emitted: seq<Code>
    var outcome: Outcome

    constructor ()
      ensures lastDial == None && remoteConn == None && mode == Command && emitted == []
    {
      lastDial, remoteConn, mode, emitted, outcome := None, None, Command, [], NoCarrierOutcome;
    }

    method Send(code: Code)
      modifies this`emitted
      ensures emitted == old(emitted) + [code]
    {
      emitted := emitted + [code];
    }

    method SendRings(count: nat)
      modifies this`emitted
      ensures emitted == old(emitted) + Rings(count)
    {
      for i := 0 to count
        invariant emitted == old(emitted) + Rings(i)
      {
        Send(Ring);
      }
    }

    method SendGarbageConnect()
      modifies this`emitted
      ensures emitted == old(emitted) + [Connect, NoCarrier]
    {
      Send(Connect);
      Send(NoCarrier);
    }

    /** Ringing goes on, up to so many times more, until the call has gone through one way or the other. */
    method RingOn(arrival: Arrival, extraRings: nat) returns (resolved: bool, ghost count: nat)
      modifies this`emitted
      ensures count <= extraRings && emitted == old(emitted) + Rings(count)
      ensures arrival.AtOnce? ==> resolved && count == 0
      ensures resolved ==> !arrival.TooLate?
    {
      resolved, count := arrival.AtOnce?, 0;
      var i := 0;
      while !resolved && i < extraRings
        invariant count == i <= extraRings && emitted == old(emitted) + Rings(count)
        invariant arrival.AtOnce? ==> resolved && count == 0
        invariant resolved ==> !arrival.TooLate?
      {
        Send(Ring);
        count := count + 1;
        resolved := arrival.WhileRinging? && arrival.k <= i;
        i := i + 1;
      }
    }

    method PromptPassword(accepted: bool) returns (ok: bool)
      modifies this`emitted
      ensures ok == accepted && emitted == old(emitted) + if ok then [] else [NoCarrier]
    {
      if !accepted {
        Send(NoCarrier);
        return false;
      }
      return true;
    }

    method StoreRemote(conn: nat)
      modifies this`remoteConn, this`mode, this`outcome
      ensures remoteConn == Some(conn) && mode == Data && outcome == Success
    {
      remoteConn := Some(conn);
      mode := Data;
      outcome := Success;
    }

    /** The rest of a password-gated call, after `n` rings. */
    method GatedConnect(accepted: bool, dialled: Dialled, ghost n: nat)
      requires 1 <= n <= 3 && emitted == Rings(n) && mode == Command
      modifies this`emitted, this`remoteConn, this`mode, this`outcome
      ensures outcome == if !accepted then AuthFailed else if dialled.Connected? then Success else NoCarrierOutcome
      ensures Transcript(outcome, emitted)
      ensures mode == if outcome == Success then Data else Command
      ensures remoteConn == if outcome == Success then Some(dialled.conn) else old(remoteConn)
    {
      Send(Connect);
      var ok := PromptPassword(accepted);
      if !ok {
        outcome := AuthFailed;
        assert emitted == Rings(n) + [Connect, NoCarrier];
        return;
      }
      if !dialled.Connected? {
        outcome := NoCarrierOutcome;
        Send(NoCarrier);
        assert emitted == Rings(n) + [Connect, NoCarrier];
        return;
      }
      StoreRemote(dialled.conn);
      assert emitted == Rings(n) + [Connect];
    }

    /** An ordinary call, placed while the line rings. */
    method PlainConnect(dialled: Dialled, arrival: Arrival)
      requires emitted == [] && mode == Command
      modifies this`emitted, this`remoteConn, this`mode, this`outcome
      ensures Transcript(outcome, emitted)
      ensures outcome in {BusyLine, Timeout, NoCarrierOutcome, Success}
      ensures outcome == BusyLine <==> arrival.AtOnce? && dialled == Refused
      ensures outcome == Timeout <==> arrival.TooLate?
      ensures outcome == Success <==> !arrival.TooLate? && dialled.Connected?
      ensures mode == if outcome == Success then Data else Command
      ensures remoteConn == if outcome == Success then Some(dialled.conn) else old(remoteConn)
    {
      if arrival.AtOnce? && dialled == Refused {
        outcome := BusyLine;
        Send(Busy);
        return;
      }
      var mandatory := Intn(2);
      SendRings(1 + mandatory);
      var extra := Intn(3);
      ghost var more;
      var resolved;
      resolved, more := RingOn(arrival, extra);
      RingsAdd(1 + mandatory, more);
      ghost var n := 1 + mandatory + more;
      assert emitted == Rings(n);
      if !resolved {
        if arrival.TooLate? {
          outcome := Timeout;
          Send(NoCarrier);
          assert emitted == Rings(n) + [NoCarrier];
          return;
        }
      }
      if !dialled.Connected? {
        outcome := NoCarrierOutcome;
        Send(NoCarrier);
        assert emitted == Rings(n) + [NoCarrier];
        return;
      }
      StoreRemote(dialled.conn);
      Send(Connect);
      assert emitted == Rings(n) + [Connect];
    }

    /**
     One ATDT, from command mode. Each outcome comes about exactly under its condition, with a transcript in its
     language; and it is success exactly when the session is left in data mode with the new connection stored, and
     exactly when the last code is CONNECT.
     */
    method HandleDial(now: int, entry: Option<Entry>, settingsOk: bool, accepted: bool, dialled: Dialled,
                      arrival: Arrival)
      requires emitted == [] && mode == Command
      modifies this
      ensures Transcript(outcome, emitted)
      ensures outcome == Blocked <==> old(lastDial).Some? && now - old(lastDial).value < DIAL_COOLDOWN
      ensures lastDial == if outcome == Blocked then old(lastDial) else Some(now)
      ensures outcome != Blocked ==>
                && (outcome == UnknownNumber <==> entry == None)
                && (outcome == BusyLine <==>
                      entry.Some? && (entry.value.busy || (Called(entry.value, settingsOk) && !entry.value.gated
                                                           && arrival.AtOnce? && dialled == Refused)))
                && (outcome == SettingsMismatch <==> entry.Some? && !entry.value.busy && !settingsOk)
                && (outcome == AuthFailed <==>
                      entry.Some? && Called(entry.value, settingsOk) && entry.value.gated && !accepted)
                && (outcome == Timeout <==>
                      entry.Some? && Called(entry.value, settingsOk) && !entry.value.gated && arrival.TooLate?)
                && (outcome == Success <==>
                      entry.Some? && Called(entry.value, settingsOk) && dialled.Connected?
                      && if entry.value.gated then accepted else !arrival.TooLate?)
      ensures outcome == Success <==> mode == Data
      ensures outcome == Success <==> emitted != [] && Last(emitted) == Connect
      ensures outcome == Success ==> remoteConn == Some(dialled.conn)
      ensures outcome != Success ==> remoteConn == old(remoteConn)
    {
      outcome := NoCarrierOutcome;
      if lastDial.Some? && now - lastDial.value < DIAL_COOLDOWN {
        outcome := Blocked;
        Send(Error);
        return;
      }
      lastDial := Some(now);
      if entry == None {
        outcome := UnknownNumber;
        Send(NoCarrier);
        return;
      }
      if entry.value.busy {
        outcome := BusyLine;
        Send(Busy);
        return;
      }
      if !settingsOk {
        outcome := SettingsMismatch;
        var rings := Intn(3);
        SendRings(1 + rings);
        SendGarbageConnect();
        assert emitted == Rings(1 + rings) + [Connect, NoCarrier];
        return;
      }
      if entry.value.gated {
        var rings := Intn(3);
        SendRings(1 + rings);
        GatedConnect(accepted, dialled, 1 + rings);
      } else {
        PlainConnect(dialled, arrival);
      }
      TranscriptTells(outcome, emitted);
    }
  }

  /** The call gets past the busy and settings checks. */
  predicate Called(entry: Entry, settingsOk: bool) {
    !entry.busy && settingsOk
  }

  lemma {:induction false} RingsAdd(a: nat, b: nat)
    ensures Rings(a) + Rings(b) == Rings(a + b)
  {
    if b == 0 {
    } else {
      RingsAdd(a, b - 1);
      assert Rings(a) + (Rings(b - 1) + [Ring]) == Rings(a) + Rings(b - 1) + [Ring];
    }
  }

  /**
   What a terminal can tell from a transcript alone: success is a last CONNECT, and a line that rang is never busy.
   */
  lemma TranscriptTells(outcome: Outcome, codes: seq<Code>)
    requires Transcript(outcome, codes)
    ensures codes != [] && (outcome == Success <==> Last(codes) == Connect)
    ensures Busy in codes <==> codes == [Busy]
    ensures Busy in codes <==> outcome == BusyLine
    ensures Error in codes <==> outcome == Blocked
    ensures Ring in codes ==> codes[0] == Ring && outcome !in {Blocked, UnknownNumber, BusyLine}
    ensures |codes| <= 5
  {
  }
}
