/** The variable-length integer of MQTT 3.1.1, section 2.2.3, as src/MQTT.cpp encodes and decodes it. */
module RemainingLength {
  import opened Bytes

  /** The largest value four groups of seven bits can carry. */
  const MAX_LENGTH: nat := 268435455

  /** The specification of the encoder: seven bits a byte, least significant first. */
  function Encode(n: nat): (out: seq<byte>)
    ensures |out| >= 1
  {
    if n < 128 then [n] else [n % 128 + 128] + Encode(n / 128)
  }

  method EncodeRemainingLength(size: nat) returns (out: seq<byte>)
    ensures out == Encode(size)
  {
    var value := size;
    out := [];
    while true
      invariant Encode(size) == out + Encode(value)
      decreases value
    {
      var b := value % 128;
      var previous := value;
      value := value / 128;
      if value > 0 {
        b := b + 128;
      }
      assert Encode(previous) == [b] + if value > 0 then Encode(value) else [];
      out := out + [b];
      if value == 0 {
        break;
      }
    }
  }

  datatype Length = Length(value: nat, used: nat)

  /** The specification of the decoder, reading at most `limit` bytes. */
  function DecodeWithin(data: seq<byte>, limit: nat): Option<Length> {
    if data == [] || limit == 0 then None
    else if data[0] < 128 then Some(Length(data[0], 1))
    else
      match DecodeWithin(data[1..], limit - 1)
      case None => None
      case Some(tail) => Some(Length(data[0] - 128 + 128 * tail.value, tail.used + 1))
  }

  function Decode(data: seq<byte>): Option<Length> {
    DecodeWithin(data, 4)
  }

  /** Section 2.2.3 byte by byte: seven bits each, least significant first, the eighth says whether more
      follow; four bytes at most. */
  lemma DecodeByHand(a: byte, b: byte, c: byte, d: byte, rest: seq<byte>)
    ensures Decode([]) == None
    ensures a < 128 ==> Decode([a] + rest) == Some(Length(a, 1))
    ensures a >= 128 ==> Decode([a]) == None
    ensures a >= 128 && b < 128 ==> Decode([a, b] + rest) == Some(Length(a - 128 + 128 * b, 2))
    ensures a >= 128 && b >= 128 ==> Decode([a, b]) == None
    ensures a >= 128 && b >= 128 && c < 128 ==>
              Decode([a, b, c] + rest) == Some(Length(a - 128 + 128 * (b - 128) + 16384 * c, 3))
    ensures a >= 128 && b >= 128 && c >= 128 ==> Decode([a, b, c]) == None
    ensures a >= 128 && b >= 128 && c >= 128 ==>
              Decode([a, b, c, d] + rest)
              == if d >= 128 then None
                 else Some(Length(a - 128 + 128 * (b - 128) + 16384 * (c - 128) + 2097152 * d, 4))
  {
    DecodeOne(a, rest, 4);
    DecodeTwo(a, b, rest, 4);
    DecodeThree(a, b, c, rest, 4);
    if a >= 128 && b >= 128 && c >= 128 {
      DecodeFour(a, b, c, d, rest);
    }
  }

  lemma DecodeOne(a: byte, rest: seq<byte>, limit: nat)
    requires limit > 0
    ensures a < 128 ==> DecodeWithin([a] + rest, limit) == Some(Length(a, 1))
    ensures a >= 128 ==> DecodeWithin([a], limit) == None
  {
    DecodeHead(a, rest, limit);
    DecodeHead(a, [], limit);
  }

  lemma DecodeTwo(a: byte, b: byte, rest: seq<byte>, limit: nat)
    requires limit > 1
    ensures a >= 128 && b < 128 ==> DecodeWithin([a, b] + rest, limit) == Some(Length(a - 128 + 128 * b, 2))
    ensures a >= 128 && b >= 128 ==> DecodeWithin([a, b], limit) == None
  {
    DecodeOne(b, rest, limit - 1);
    DecodeHead(a, [b] + rest, limit);
    DecodeHead(a, [b], limit);
    assert [a] + ([b] + rest) == [a, b] + rest && [a] + [b] == [a, b];
  }

  lemma DecodeThree(a: byte, b: byte, c: byte, rest: seq<byte>, limit: nat)
    requires limit > 2
    ensures a >= 128 && b >= 128 && c < 128 ==>
              DecodeWithin([a, b, c] + rest, limit) == Some(Length(a - 128 + 128 * (b - 128) + 16384 * c, 3))
    ensures a >= 128 && b >= 128 && c >= 128 ==> DecodeWithin([a, b, c], limit) == None
  {
    DecodeTwo(b, c, rest, limit - 1);
    DecodeHead(a, [b, c] + rest, limit);
    DecodeHead(a, [b, c], limit);
    assert [a] + ([b, c] + rest) == [a, b, c] + rest && [a] + [b, c] == [a, b, c];
  }

  lemma DecodeFour(a: byte, b: byte, c: byte, d: byte, rest: seq<byte>)
    requires a >= 128 && b >= 128 && c >= 128
    ensures DecodeWithin([a, b, c, d] + rest, 4)
            == if d >= 128 then None
               else Some(Length(a - 128 + 128 * (b - 128) + 16384 * (c - 128) + 2097152 * d, 4))
  {
    DecodeHead(a, [b, c, d] + rest, 4);
    DecodeHead(b, [c, d] + rest, 3);
    DecodeHead(c, [d] + rest, 2);
    DecodeHead(d, rest, 1);
    assert [a] + ([b, c, d] + rest) == [a, b, c, d] + rest;
    assert [b] + ([c, d] + rest) == [b, c, d] + rest && [c] + ([d] + rest) == [c, d] + rest;
  }

  lemma DecodeHead(x: byte, rest: seq<byte>, limit: nat)
    requires limit > 0
    ensures [x] + [] == [x]
    ensures DecodeWithin([x] + rest, limit)
            == if x < 128 then Some(Length(x, 1))
               else if DecodeWithin(rest, limit - 1).None? then None
               else var tail := DecodeWithin(rest, limit - 1).value;
                    Some(Length(x - 128 + 128 * tail.value, tail.used + 1))
  {
    assert ([x] + rest)[0] == x && ([x] + rest)[1..] == rest;
  }

  /** What the loop still has to do after `used` bytes: scale and shift the rest of the decoding. */
  ghost function Scaled(rest: Option<Length>, value: nat, multiplier: nat, used: nat): Option<Length> {
    if rest.None? then None
    else Some(Length(value + multiplier * rest.value.value, used + rest.value.used))
  }

  method DecodeRemainingLength(data: seq<byte>) returns (ok: bool, value: nat, used: nat)
    ensures ok <==> Decode(data).Some?
    ensures ok ==> Decode(data) == Some(Length(value, used))
  {
    value := 0;
    used := 0;
    var multiplier: nat := 1;
    while used < |data|
      invariant used <= |data| && used < 4
      invariant Decode(data) == Scaled(DecodeWithin(data[used..], 4 - used), value, multiplier, used)
    {
      var b := data[used];
      var bits: nat := b % 128;
      ghost var before := value;
      value := value + bits * multiplier;
      DecodeStep(data, before, multiplier, used, bits, value, multiplier * 128);
      multiplier := multiplier * 128;
      used := used + 1;
      if b < 128 {
        return true, value, used;
      }
      if used >= 4 {
        return false, value, used;
      }
    }
    ok := false;
  }

  /** One turn of the loop takes the next byte's seven bits into the value. */
  lemma DecodeStep(data: seq<byte>, value: nat, multiplier: nat, used: nat, bits: nat, value': nat, multiplier': nat)
    requires used < |data| && used < 4 && bits == data[used] % 128
    requires value' == value + bits * multiplier && multiplier' == multiplier * 128
    ensures var now := Scaled(DecodeWithin(data[used..], 4 - used), value, multiplier, used);
            if data[used] < 128 then now == Some(Length(value', used + 1))
            else now == Scaled(DecodeWithin(data[used + 1..], 3 - used), value', multiplier', used + 1)
  {
    assert data[used..][1..] == data[used + 1..];
    var rest := DecodeWithin(data[used + 1..], 3 - used);
    if data[used] >= 128 && rest.Some? {
      Distribute(multiplier, bits, rest.value.value);
    }
  }

  lemma Distribute(m: nat, bits: nat, v: nat)
    ensures m * (bits + 128 * v) == bits * m + (m * 128) * v
  {
    assert m * (128 * v) == (m * 128) * v;
  }

  /** `Pow128(k)` is the first value that needs more than `k` bytes. */
  function Pow128(k: nat): nat {
    if k == 0 then 1 else 128 * Pow128(k - 1)
  }

  lemma {:induction false} RoundTripWithin(n: nat, limit: nat, rest: seq<byte>)
    requires limit > 0
    ensures n < Pow128(limit) ==>
            DecodeWithin(Encode(n) + rest, limit) == Some(Length(n, |Encode(n)|)) && |Encode(n)| <= limit
    ensures n >= Pow128(limit) ==> DecodeWithin(Encode(n) + rest, limit) == None
  {
    var data := Encode(n) + rest;
    Pow128Positive(limit - 1);
    QuotientBelow(n, Pow128(limit - 1));
    if n < 128 {
      assert data[0] == n;
    } else {
      assert data[0] == n % 128 + 128 && data[1..] == Encode(n / 128) + rest;
      if limit > 1 {
        RoundTripWithin(n / 128, limit - 1, rest);
      }
    }
  }

  lemma QuotientBelow(n: nat, p: nat)
    ensures n / 128 < p <==> n < 128 * p
  {
  }

  lemma {:induction false} Pow128Positive(k: nat)
    ensures Pow128(k) >= 1
  {
    if k > 0 {
      Pow128Positive(k - 1);
    }
  }

  lemma Pow128Four()
    ensures Pow128(4) == MAX_LENGTH + 1
  {
    assert Pow128(1) == 128;
    assert Pow128(2) == 16384;
    assert Pow128(3) == 2097152;
  }

  /** Decoding undoes encoding, whatever follows, exactly for the lengths the standard allows;
      every longer length is rejected. */
  lemma RoundTrip(n: nat, rest: seq<byte>)
    ensures n <= MAX_LENGTH <==> Decode(Encode(n) + rest) == Some(Length(n, |Encode(n)|))
    ensures n > MAX_LENGTH <==> Decode(Encode(n) + rest) == None
    ensures n <= MAX_LENGTH ==> 1 <= |Encode(n)| <= 4
  {
    Pow128Four();
    RoundTripWithin(n, 4, rest);
  }

  lemma {:induction false} ShortestWithin(data: seq<byte>, limit: nat)
    requires DecodeWithin(data, limit).Some?
    ensures var d := DecodeWithin(data, limit).value;
            && 1 <= d.used <= |data| && d.used <= limit
            && d.value < Pow128(d.used)
            && |Encode(d.value)| <= d.used
            && (|Encode(d.value)| == d.used <==> data[..d.used] == Encode(d.value))
  {
    if data[0] >= 128 {
      ShortestWithin(data[1..], limit - 1);
      var tail := DecodeWithin(data[1..], limit - 1).value;
      var n := data[0] - 128 + 128 * tail.value;
      assert n / 128 == tail.value && n % 128 == data[0] - 128;
      assert data[..tail.used + 1] == [data[0]] + data[1..][..tail.used];
      if n >= 128 {
        assert Encode(n) == [data[0]] + Encode(tail.value);
        assert Encode(n)[1..] == Encode(tail.value);
      } else {
        assert Encode(n) == [n];
      }
    } else {
      assert data[..1] == [data[0]];
    }
  }

  /** Whatever decodes to `n` is at least as long as `Encode(n)`, and the encoder's output is the
      only input of that length that decodes to `n`. The decoder accepts padded forms as well. */
  lemma EncodeIsShortest(data: seq<byte>)
    requires Decode(data).Some?
    ensures var d := Decode(data).value;
            && d.value <= MAX_LENGTH
            && 1 <= |Encode(d.value)| <= d.used <= 4
            && d.used <= |data|
            && (|Encode(d.value)| == d.used <==> data[..d.used] == Encode(d.value))
  {
    ShortestWithin(data, 4);
    Pow128Four();
    var d := Decode(data).value;
    Pow128Monotone(d.used, 4);
  }

  lemma {:induction false} Pow128Monotone(a: nat, b: nat)
    requires a <= b
    ensures Pow128(a) <= Pow128(b)
    decreases b
  {
    if a < b {
      Pow128Monotone(a, b - 1);
      Pow128Positive(b - 1);
    }
  }

  lemma {:induction false} UnpaddedWithin(data: seq<byte>, limit: nat)
    requires DecodeWithin(data, limit).Some?
    ensures var d := DecodeWithin(data, limit).value;
            && 1 <= d.used <= |data|
            && (data[..d.used] == Encode(d.value) <==> d.used == 1 || data[d.used - 1] != 0)
  {
    ShortestWithin(data, limit);
    if data[0] >= 128 {
      UnpaddedWithin(data[1..], limit - 1);
      var tail := DecodeWithin(data[1..], limit - 1).value;
      var n, field := data[0] - 128 + 128 * tail.value, data[1..][..tail.used];
      QuotientOf(data[0] - 128, tail.value);
      assert data[..tail.used + 1] == [data[0]] + field && data[tail.used] == field[tail.used - 1];
      if n >= 128 {
        assert Encode(n) == [data[0]] + Encode(tail.value);
        assert Encode(n)[1..] == Encode(tail.value) && data[..tail.used + 1][1..] == field;
        assert tail.used == 1 ==> field[0] == tail.value;
      } else {
        assert Encode(n) == [n] && Encode(tail.value) == [0];
        assert tail.used == 1 ==> field[0] == 0;
        assert tail.used > 1 ==> field != [0];
      }
    } else {
      assert data[..1] == [data[0]];
    }
  }

  lemma QuotientOf(bits: nat, v: nat)
    requires bits < 128
    ensures (bits + 128 * v) / 128 == v && (bits + 128 * v) % 128 == bits
  {
  }

  /** Which fields the decoder accepts although the standard's encoder would not write them: exactly
      those of more than one byte that end in a zero byte, the padded ones. */
  lemma OnlyPaddedFieldsDiffer(data: seq<byte>)
    requires Decode(data).Some?
    ensures var d := Decode(data).value;
            && 1 <= d.used <= |data|
            && (data[..d.used] == Encode(d.value) <==> d.used == 1 || data[d.used - 1] != 0)
  {
    UnpaddedWithin(data, 4);
  }

  /** A padded encoding the standard forbids and the decoder takes. */
  lemma PaddedZeroIsAccepted()
    ensures Decode([0x80, 0x00]) == Some(Length(0, 2)) && |Encode(0)| == 1
  {
    assert [0x80 as byte, 0x00][1..] == [0x00];
    assert DecodeWithin([0x00], 3) == Some(Length(0, 1));
  }
}
