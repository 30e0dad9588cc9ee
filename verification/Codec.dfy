/** The wire format of requests and responses: a length in unsigned LEB128 (section 7.6 of DWARF
    Version 5), then the payload; a refused request is answered by closing without a byte. What the
    varint library does with a number of ten bytes that exceeds 64 bits is a parameter, `wraps`. */
module Codec {
  import opened Wrappers

  type Byte = b: int | 0 <= b < 256
  type Bytes = seq<Byte>

  datatype Error = InvalidInput | UnexpectedEof
  datatype Result<+T> = Ok(value: T) | Err(error: Error)

  /** What a response says: the payload, or that the request was refused. */
  datatype Response = Payload(bytes: Bytes) | Refused

  // ----- lengths --------------------------------------------------------------------------------------

  const USIZE: nat := 0x1_0000_0000_0000_0000
  /** The bytes a length may take. */
  const MAX_BYTES: nat := 10

  function EncodeLength(n: nat): Bytes {
    if n < 128 then [n] else [128 + n % 128] + EncodeLength(n / 128)
  }

  /** The plain LEB128 number at the front of `bs` and what follows it; `None` if `bs` ends within it. */
  function Leb128(bs: Bytes): Option<(nat, Bytes)> {
    if bs == [] then None
    else if bs[0] < 128 then Some((bs[0], bs[1..]))
    else
      match Leb128(bs[1..])
      case None => None
      case Some((high, rest)) => Some((bs[0] - 128 + 128 * high, rest))
  }

  /** The input holds a length, ends within one, or holds none that is acceptable. */
  datatype Length = Complete(n: nat, rest: Bytes) | Cut | Invalid

  /** What a number of `used` bytes, the last of them `last`, amounts to. A number that does not fit is
      refused or, if `wraps`, loses its high bits. */
  function Judged(n: nat, used: nat, last: Byte, rest: Bytes, wraps: bool): Length {
    if used > MAX_BYTES || (used > 1 && last == 0) then Invalid
    else if n < USIZE then Complete(n, rest)
    else if wraps then Complete(n % USIZE, rest)
    else Invalid
  }

  function DecodeLength(bs: Bytes, wraps: bool): Length {
    match Leb128(bs)
    case None => if |bs| < MAX_BYTES then Cut else Invalid
    case Some((n, rest)) =>
      Leb128Prefix(bs);
      Judged(n, |bs| - |rest|, bs[|bs| - |rest| - 1], rest, wraps)
  }

  lemma {:induction false} Leb128Prefix(bs: Bytes)
    requires Leb128(bs).Some?
    ensures var (n, rest) := Leb128(bs).value; var k := |bs| - |rest|;
            && 0 < k <= |bs| && bs[k..] == rest && Leb128(bs[..k]) == Some((n, []))
            && bs[k - 1] < 128 && forall i | 0 <= i < k - 1 :: bs[i] >= 128
    decreases |bs|
  {
    var (n, rest) := Leb128(bs).value;
    var k := |bs| - |rest|;
    if bs[0] >= 128 {
      Leb128Prefix(bs[1..]);
      assert bs[k..] == bs[1..][k - 1..];
      assert bs[..k][1..] == bs[1..][..k - 1];
      forall i | 0 <= i < k - 1
        ensures bs[i] >= 128
      {
        assert i > 0 ==> bs[i] == bs[1..][i - 1];
      }
    }
  }

  lemma {:induction false} Leb128Missing(bs: Bytes)
    ensures Leb128(bs) == None <==> forall b | b in bs :: b >= 128
  {
    if bs != [] {
      Leb128Missing(bs[1..]);
      assert bs[0] in bs;
      if Leb128(bs) != None && bs[0] >= 128 {
        var b :| b in bs[1..] && b < 128;
        assert b in bs;
      }
      forall b | b in bs && Leb128(bs) == None
        ensures b >= 128
      {
        assert b == bs[0] || b in bs[1..];
      }
    }
  }

  /** LEB128 inverts the encoding, which ends with a non-zero byte and sets the top bit of all others. */
  lemma {:induction false} Leb128RoundTrip(n: nat, rest: Bytes)
    ensures Leb128(EncodeLength(n) + rest) == Some((n, rest))
    ensures var e := EncodeLength(n);
            |e| > 0 && e[|e| - 1] < 128 && (n > 0 ==> e[|e| - 1] > 0) && forall i | 0 <= i < |e| - 1 :: e[i] >= 128
    decreases n
  {
    if n >= 128 {
      Leb128RoundTrip(n / 128, rest);
      assert (EncodeLength(n) + rest)[1..] == EncodeLength(n / 128) + rest;
    }
  }

  function Pow128(k: nat): nat {
    if k == 0 then 1 else 128 * Pow128(k - 1)
  }

  lemma {:induction false} EncodedSize(n: nat, k: nat)
    requires k > 0 && n < Pow128(k)
    ensures |EncodeLength(n)| <= k
    decreases k
  {
    if n >= 128 {
      assert Pow128(k) == 128 * Pow128(k - 1);
      Quotient(n, Pow128(k - 1));
      EncodedSize(n / 128, k - 1);
    }
  }

  lemma Quotient(n: nat, m: nat)
    requires n < 128 * m
    ensures n / 128 < m
  {
  }

  lemma EncodedFits(n: nat)
    requires n < USIZE
    ensures |EncodeLength(n)| <= MAX_BYTES
  {
    assert Pow128(2) == 0x4000;
    assert Pow128(4) == 0x4000 * Pow128(2);
    assert Pow128(6) == 0x4000 * Pow128(4);
    assert Pow128(8) == 0x4000 * Pow128(6);
    assert Pow128(10) == 0x4000 * Pow128(8);
    EncodedSize(n, MAX_BYTES);
  }

  /** Every length a payload can have is read back, whatever follows it. */
  lemma LengthRoundTrip(n: nat, rest: Bytes, wraps: bool)
    requires n < USIZE
    ensures DecodeLength(EncodeLength(n) + rest, wraps) == Complete(n, rest)
  {
    var e := EncodeLength(n);
    Leb128RoundTrip(n, rest);
    EncodedFits(n);
    assert (e + rest)[|e| - 1] == e[|e| - 1];
    assert |e| > 1 ==> n > 0;
  }

  /** Every proper part of a written length is recognised as cut. */
  lemma CutLength(n: nat, j: nat, wraps: bool)
    requires n < USIZE && j < |EncodeLength(n)|
    ensures DecodeLength(EncodeLength(n)[..j], wraps) == Cut
  {
    Leb128RoundTrip(n, []);
    EncodedFits(n);
    Leb128Missing(EncodeLength(n)[..j]);
  }

  /** Seven bits at a time, least significant first, the top bit set on all bytes but the last. */
  method WriteLength(n: nat) returns (out: Bytes)
    ensures out == EncodeLength(n)
  {
    out := [];
    var left := n;
    while left >= 128
      invariant out + EncodeLength(left) == EncodeLength(n)
    {
      assert out + EncodeLength(left) == (out + [128 + left % 128]) + EncodeLength(left / 128);
      out := out + [128 + left % 128];
      left := left / 128;
    }
    out := out + [left];
  }

  /** Reads byte by byte until one without the top bit, or until the buffer of ten bytes is full. */
  method ReadLength(bs: Bytes, wraps: bool) returns (r: Length)
    ensures r == DecodeLength(bs, wraps)
  {
    for i := 0 to MAX_BYTES
      invariant i <= |bs| && forall k | 0 <= k < i :: bs[k] >= 128
    {
      if i == |bs| {
        TooShort(bs, wraps);
        return Cut;
      }
      if bs[i] < 128 {
        var n := Decode(bs[..i + 1]);
        LastByte(bs, i, n);
        return Judged(n, i + 1, bs[i], bs[i + 1..], wraps);
      }
    }
    TooLong(bs, wraps);
    return Invalid;
  }

  /** Adds up the digits of a number that was read completely. */
  method Decode(bs: Bytes) returns (n: nat)
    requires |bs| > 0 && bs[|bs| - 1] < 128 && forall k | 0 <= k < |bs| - 1 :: bs[k] >= 128
    ensures Leb128(bs) == Some((n, []))
  {
    var i := |bs| - 1;
    n := bs[i];
    assert bs[i..][1..] == [];
    while i > 0
      invariant 0 <= i < |bs| && Leb128(bs[i..]) == Some((n, []))
    {
      i := i - 1;
      assert bs[i..][1..] == bs[i + 1..];
      n := bs[i] - 128 + 128 * n;
    }
    assert bs[0..] == bs;
  }

  lemma TooShort(bs: Bytes, wraps: bool)
    requires |bs| < MAX_BYTES && forall k | 0 <= k < |bs| :: bs[k] >= 128
    ensures DecodeLength(bs, wraps) == Cut
  {
    Leb128Missing(bs);
  }

  lemma {:induction false} LastByte(bs: Bytes, i: nat, n: nat)
    requires i < |bs| && bs[i] < 128 && (forall k | 0 <= k < i :: bs[k] >= 128) && Leb128(bs[..i + 1]) == Some((n, []))
    ensures Leb128(bs) == Some((n, bs[i + 1..]))
    decreases i
  {
    if i > 0 {
      assert bs[..i + 1][1..] == bs[1..][..i];
      assert bs[1..][i..] == bs[i + 1..];
      LastByte(bs[1..], i - 1, Leb128(bs[1..][..i]).value.0);
    }
  }

  lemma TooLong(bs: Bytes, wraps: bool)
    requires |bs| >= MAX_BYTES && forall k | 0 <= k < MAX_BYTES :: bs[k] >= 128
    ensures DecodeLength(bs, wraps) == Invalid
  {
    if Leb128(bs).Some? {
      Leb128Prefix(bs);
    }
  }

  // ----- messages ----------------------------------------------------------------------------------------

  function WriteRequest(p: Bytes): Bytes {
    EncodeLength(|p|) + p
  }

  function WriteResponse(r: Response): Bytes {
    if r.Payload? then EncodeLength(|r.bytes|) + r.bytes else []
  }

  /** The payload behind a length that was read. */
  function ReadPayload(n: nat, rest: Bytes, max: nat): Result<Bytes> {
    if n > max then Err(InvalidInput)
    else if n > |rest| then Err(UnexpectedEof)
    else Ok(rest[..n])
  }

  function ReadRequest(bs: Bytes, max: nat, wraps: bool): Result<Bytes> {
    match DecodeLength(bs, wraps)
    case Complete(n, rest) => ReadPayload(n, rest, max)
    case Cut => Err(InvalidInput)
    case Invalid => Err(InvalidInput)
  }

  function ReadResponse(bs: Bytes, max: nat, wraps: bool): Result<Response> {
    match DecodeLength(bs, wraps)
    case Complete(n, rest) =>
      (match ReadPayload(n, rest, max)
       case Ok(p) => Ok(Payload(p))
       case Err(e) => Err(e))
    case Cut => Ok(Refused)
    case Invalid => Err(InvalidInput)
  }

  /** A written request is read back unchanged, whatever follows it, exactly if it is within the
      reader's limit; a longer one is refused. */
  lemma RequestRoundTrip(p: Bytes, rest: Bytes, max: nat, wraps: bool)
    requires |p| < USIZE
    ensures ReadRequest(WriteRequest(p) + rest, max, wraps) == if |p| <= max then Ok(p) else Err(InvalidInput)
  {
    assert WriteRequest(p) + rest == EncodeLength(|p|) + (p + rest);
    LengthRoundTrip(|p|, p + rest, wraps);
    assert (p + rest)[..|p|] == p;
  }

  /** Likewise for responses; a refusal and an empty payload stay distinguishable. */
  lemma ResponseRoundTrip(r: Response, max: nat, wraps: bool)
    requires r.Payload? ==> |r.bytes| < USIZE
    ensures ReadResponse(WriteResponse(r), max, wraps) ==
            if r.Payload? && |r.bytes| > max then Err(InvalidInput) else Ok(r)
  {
    if r.Payload? {
      LengthRoundTrip(|r.bytes|, r.bytes, wraps);
      assert r.bytes[..|r.bytes|] == r.bytes;
    }
  }

  /** Different responses are different on the wire. */
  lemma ResponsesDiffer(r: Response, s: Response)
    requires WriteResponse(r) == WriteResponse(s)
    ensures r == s
  {
    if r.Payload? {
      Leb128RoundTrip(|r.bytes|, r.bytes);
    }
    if s.Payload? {
      Leb128RoundTrip(|s.bytes|, s.bytes);
    }
  }

  /** A response is taken for a refusal exactly if the stream ends before a length is complete, within
      the ten bytes a length may take. */
  lemma RefusedIff(bs: Bytes, max: nat, wraps: bool)
    ensures ReadResponse(bs, max, wraps) == Ok(Refused) <==> |bs| < MAX_BYTES && forall b | b in bs :: b >= 128
  {
    Leb128Missing(bs);
  }

  /** What becomes of a payload whose stream is cut after `j` bytes: it is taken for a refusal if the cut
      is within the length, and is an error otherwise. */
  lemma CutResponse(p: Bytes, j: nat, max: nat, wraps: bool)
    requires |p| < USIZE && j < |WriteResponse(Payload(p))|
    ensures ReadResponse(WriteResponse(Payload(p))[..j], max, wraps) ==
            if j < |EncodeLength(|p|)| then Ok(Refused)
            else if |p| > max then Err(InvalidInput) else Err(UnexpectedEof)
  {
    var e := EncodeLength(|p|);
    if j < |e| {
      assert WriteResponse(Payload(p))[..j] == e[..j];
      CutLength(|p|, j, wraps);
    } else {
      assert WriteResponse(Payload(p))[..j] == e + p[..j - |e|];
      LengthRoundTrip(|p|, p[..j - |e|], wraps);
    }
  }

  /** Whatever is read is within the limit and was there, right behind a length that announces it. */
  lemma ReadIsThere(bs: Bytes, max: nat, wraps: bool)
    requires ReadRequest(bs, max, wraps).Ok?
    ensures var p := ReadRequest(bs, max, wraps).value;
            |p| <= max && exists k | 0 <= k <= |bs| - |p| ::
              bs[k..k + |p|] == p && DecodeLength(bs[..k], wraps) == Complete(|p|, [])
  {
    var p := ReadRequest(bs, max, wraps).value;
    var rest := DecodeLength(bs, wraps).rest;
    Leb128Prefix(bs);
    var k := |bs| - |rest|;
    assert DecodeLength(bs[..k], wraps) == Complete(|p|, []) by {
      assert bs[..k][k - 1] == bs[k - 1];
    }
    assert bs[k..k + |p|] == rest[..|p|] == p;
  }
}
