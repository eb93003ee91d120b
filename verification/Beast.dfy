/** Beast frames on the wire: a marker, and a payload in which the marker byte is doubled. */
module Beast {
  import opened Wrappers
  import opened Arith

  newtype Byte = b: int | 0 <= b < 256

  const MARK: Byte := 0x1a

  datatype Frame = Frame(timestamp: nat, signal: Byte, msg: seq<Byte>)
  {
    /** A Mode A/C reply, or a short or long Mode S message. */
    predicate Known() { |msg| == 2 || |msg| == 7 || |msg| == 14 }
  }

  function Indicator(length: nat): (b: Byte)
    ensures b != MARK
  {
    if length == 2 then 0x31 else if length == 7 then 0x32 else 0x33
  }

  function MessageLength(indicator: Byte): (length: Option<nat>)
    ensures forall n: nat :: n == 2 || n == 7 || n == 14 ==> (indicator == Indicator(n) <==> length == Some(n))
  {
    if indicator == 0x31 then Some(2)
    else if indicator == 0x32 then Some(7)
    else if indicator == 0x33 then Some(14)
    else None
  }

  // ---------------------------------------------------------------------
  // Timestamps
  // ---------------------------------------------------------------------

  function Pow256(n: nat): (p: nat)
    ensures p >= 1
  {
    if n == 0 then 1 else 256 * Pow256(n - 1)
  }

  /** The low `n` bytes of a number, most significant first. */
  function BigEndian(t: nat, n: nat): (bytes: seq<Byte>)
    ensures |bytes| == n
  {
    if n == 0 then [] else BigEndian(t / 256, n - 1) + [(t % 256) as Byte]
  }

  function Value(bytes: seq<Byte>): nat
  {
    if bytes == [] then 0 else 256 * Value(bytes[..|bytes| - 1]) + bytes[|bytes| - 1] as nat
  }

  lemma {:induction false} ValueOfBigEndian(t: nat, n: nat)
    ensures Value(BigEndian(t, n)) == t % Pow256(n)
  {
    if n == 0 {
      DivModUnique(t, 1, t, 0);
    } else {
      ValueOfBigEndian(t / 256, n - 1);
      assert BigEndian(t, n)[..n - 1] == BigEndian(t / 256, n - 1);
      LastDigit(t, Pow256(n - 1));
    }
  }

  lemma LastDigit(t: nat, p: nat)
    requires p >= 1
    ensures 256 * (t / 256 % p) + t % 256 == t % (256 * p)
  {
    var q, r := t / 256 / p, t / 256 % p;
    assert t / 256 == p * q + r;
    assert t == 256 * p * q + (256 * r + t % 256);
    MulGap(256, r, p);
    DivModUnique(t, 256 * p, q, 256 * r + t % 256);
  }

  // ---------------------------------------------------------------------
  // Encoding
  // ---------------------------------------------------------------------

  function Doubled(b: Byte): seq<Byte> { if b == MARK then [b, b] else [b] }

  function Escaped(payload: seq<Byte>): seq<Byte>
  {
    if payload == [] then [] else Doubled(payload[0]) + Escaped(payload[1..])
  }

  function Payload(f: Frame): seq<Byte>
  {
    [Indicator(|f.msg|)] + BigEndian(f.timestamp, 6) + [f.signal] + f.msg
  }

  function Encoded(f: Frame): seq<Byte>
  {
    [MARK] + Escaped(Payload(f))
  }

  lemma {:induction false} EscapedAppends(payload: seq<Byte>, b: Byte)
    ensures Escaped(payload + [b]) == Escaped(payload) + Doubled(b)
  {
    if payload == [] {
      assert Escaped([b]) == Doubled(b) + Escaped([]);
    } else {
      EscapedAppends(payload[1..], b);
      assert (payload + [b])[1..] == payload[1..] + [b];
    }
  }

  /** The marker, then the type byte of the message length, then a payload that reads back. */
  lemma EncodedReads(f: Frame)
    ensures |Encoded(f)| >= 2 && Encoded(f)[0] == 0x1a
    ensures Encoded(f)[1] == if |f.msg| == 2 then 0x31 else if |f.msg| == 7 then 0x32 else 0x33
    ensures Unescape(Encoded(f)[1..], 8 + |f.msg|) == Some((Payload(f), []))
  {
    var p := Payload(f);
    assert Escaped(p) == Doubled(p[0]) + Escaped(p[1..]);
    UnescapeEscaped(p, []);
    assert Escaped(p) + [] == Escaped(p) == Encoded(f)[1..];
  }

  method EncodeBeastFrame(f: Frame) returns (escaped: seq<Byte>)
    ensures escaped == Encoded(f)
    ensures |escaped| >= 2 && escaped[0] == 0x1a
    ensures escaped[1] == if |f.msg| == 2 then 0x31 else if |f.msg| == 7 then 0x32 else 0x33
    ensures Unescape(escaped[1..], 8 + |f.msg|) == Some((Payload(f), []))
  {
    EncodedReads(f);
    var payload := [Indicator(|f.msg|)];
    payload := payload + BigEndian(f.timestamp, 6);
    payload := payload + [f.signal];
    payload := payload + f.msg;
    assert payload == Payload(f);
    escaped := [MARK];
    for i := 0 to |payload|
      invariant escaped == [MARK] + Escaped(payload[..i])
    {
      EscapedAppends(payload[..i], payload[i]);
      assert payload[..i + 1] == payload[..i] + [payload[i]];
      escaped := escaped + [payload[i]];
      if payload[i] == MARK {
        escaped := escaped + [MARK];
      }
    }
    assert payload[..|payload|] == payload;
  }

  // ---------------------------------------------------------------------
  // A reader of the stream
  // ---------------------------------------------------------------------

  /** The next `n` payload bytes, and what follows them. */
  function Unescape(s: seq<Byte>, n: nat): Option<(seq<Byte>, seq<Byte>)>
  {
    if n == 0 then Some(([], s))
    else if s == [] || (s[0] == MARK && (|s| < 2 || s[1] != MARK)) then None
    else
      match Unescape(if s[0] == MARK then s[2..] else s[1..], n - 1)
      case None => None
      case Some((payload, rest)) => Some(([s[0]] + payload, rest))
  }

  lemma {:induction false} UnescapeEscaped(payload: seq<Byte>, rest: seq<Byte>)
    ensures Unescape(Escaped(payload) + rest, |payload|) == Some((payload, rest))
  {
    if payload == [] {
      assert Escaped(payload) + rest == rest;
    } else {
      var tail := Escaped(payload[1..]) + rest;
      UnescapeEscaped(payload[1..], rest);
      UnescapeOne(payload[0], tail, payload[1..], rest);
      Regroup(Doubled(payload[0]), Escaped(payload[1..]), rest);
      assert payload == [payload[0]] + payload[1..];
    }
  }

  lemma Regroup(a: seq<Byte>, b: seq<Byte>, c: seq<Byte>)
    ensures (a + b) + c == a + (b + c)
  {
  }

  lemma UnescapeOne(b: Byte, tail: seq<Byte>, payload: seq<Byte>, rest: seq<Byte>)
    requires Unescape(tail, |payload|) == Some((payload, rest))
    ensures Unescape(Doubled(b) + tail, |payload| + 1) == Some(([b] + payload, rest))
  {
    var s := Doubled(b) + tail;
    assert s[0] == b && s[|Doubled(b)|..] == tail;
  }

  function ParsePayload(payload: seq<Byte>): Frame
    requires |payload| >= 8
  {
    Frame(Value(payload[1..7]), payload[7], payload[8..])
  }

  /** All frames of a stream, or nothing if it is malformed. */
  function Parse(s: seq<Byte>): Option<seq<Frame>>
    decreases |s|
  {
    if s == [] then Some([])
    else if |s| < 2 || s[0] != MARK || MessageLength(s[1]).None? then None
    else
      match Unescape(s[1..], 8 + MessageLength(s[1]).value)
      case None => None
      case Some((payload, rest)) =>
        if |rest| >= |s| || |payload| < 8 then None
        else
          match Parse(rest)
          case None => None
          case Some(frames) => Some([ParsePayload(payload)] + frames)
  }

  function EncodedAll(frames: seq<Frame>): seq<Byte>
  {
    if frames == [] then [] else Encoded(frames[0]) + EncodedAll(frames[1..])
  }

  /** A frame as it can be read back: the timestamp has 48 bits. */
  function Carried(f: Frame): Frame
  {
    f.(timestamp := f.timestamp % 0x1_0000_0000_0000)
  }

  function CarriedAll(frames: seq<Frame>): seq<Frame>
  {
    seq(|frames|, i requires 0 <= i < |frames| => Carried(frames[i]))
  }

  lemma ParseFirst(f: Frame, rest: seq<Byte>)
    requires f.Known()
    ensures var s := Encoded(f) + rest;
      && |s| >= 2 && s[0] == MARK && MessageLength(s[1]) == Some(|f.msg|)
      && Unescape(s[1..], 8 + |f.msg|) == Some((Payload(f), rest))
      && |rest| < |s|
  {
    var s, p := Encoded(f) + rest, Payload(f);
    assert p[0] == Indicator(|f.msg|);
    assert Escaped(p) == Doubled(p[0]) + Escaped(p[1..]);
    assert s[1..] == Escaped(p) + rest;
    UnescapeEscaped(p, rest);
  }

  lemma FortyEightBits()
    ensures Pow256(6) == 0x1_0000_0000_0000
  {
    assert Pow256(3) == 0x100_0000;
    assert Pow256(6) == 256 * (256 * (256 * Pow256(3)));
  }

  lemma PayloadParses(f: Frame)
    ensures |Payload(f)| == 8 + |f.msg| && ParsePayload(Payload(f)) == Carried(f)
  {
    var p := Payload(f);
    assert p[1..7] == BigEndian(f.timestamp, 6) && p[7] == f.signal && p[8..] == f.msg;
    ValueOfBigEndian(f.timestamp, 6);
    FortyEightBits();
  }

  /** Any stream of frames is read back, with timestamps modulo 2^48. */
  lemma {:induction false} StreamRoundTrip(frames: seq<Frame>)
    requires forall i :: 0 <= i < |frames| ==> frames[i].Known()
    ensures Parse(EncodedAll(frames)) == Some(CarriedAll(frames))
  {
    if frames != [] {
      StreamRoundTrip(frames[1..]);
      ParseFirst(frames[0], EncodedAll(frames[1..]));
      PayloadParses(frames[0]);
      assert CarriedAll(frames) == [Carried(frames[0])] + CarriedAll(frames[1..]);
    }
  }
}
