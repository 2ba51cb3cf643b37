/**
 Protocol primitive types: big-endian integers, strings and byte arrays, as the encoder and
 the decoder of proto/serialization.go put them on the wire and take them off it.

 The decoder is modelled twice. `Cursor` and the functions `Get...` are its meaning on values;
 the class `Decoder` reads from a shared `Source`, carries the sticky error, and is proved to
 compute those functions.
 */
module Wire {
  import opened Arithmetic

  type byte = x: int | 0 <= x < 0x100
  type int16 = x: int | -0x8000 <= x < 0x8000
  type int32 = x: int | -0x8000_0000 <= x < 0x8000_0000
  type int64 = x: int | -0x8000_0000_0000_0000 <= x < 0x8000_0000_0000_0000
  type uint32 = x: int | 0 <= x < 0x1_0000_0000

  /** A Go byte slice: a nil slice and an empty slice are different on the wire. */
  datatype Slice = Nil | Bytes(data: seq<byte>) {
    /** The contents; `len(nil)` is 0. */
    function Content(): seq<byte> {
      if Nil? then [] else data
    }
  }

  /** What DecodeBytes makes of an encoded slice: nothing to read becomes nil. */
  function Normal(s: Slice): Slice {
    if s.Content() == [] then Nil else s
  }

  // ---------------------------------------------------------------- big-endian integers

  function Pow256(k: nat): (p: nat)
    ensures p > 0
  {
    if k == 0 then 1 else 256 * Pow256(k - 1)
  }

  /** The low `k` bytes of `v`, most significant first. */
  function BE(k: nat, v: nat): (s: seq<byte>)
    ensures |s| == k
  {
    if k == 0 then [] else BE(k - 1, v / 256) + [v % 256]
  }

  function FromBE(s: seq<byte>): (v: nat)
    ensures v < Pow256(|s|)
  {
    if s == [] then 0 else 256 * FromBE(s[..|s| - 1]) + s[|s| - 1]
  }

  lemma {:induction false} FromBEOfBE(k: nat, v: nat)
    requires v < Pow256(k)
    ensures FromBE(BE(k, v)) == v
  {
    if k > 0 {
      FromBEOfBE(k - 1, v / 256);
      assert BE(k, v)[..k - 1] == BE(k - 1, v / 256);
    }
  }

  lemma {:induction false} BEOfFromBE(s: seq<byte>)
    ensures BE(|s|, FromBE(s)) == s
  {
    if s != [] {
      BEOfFromBE(s[..|s| - 1]);
    }
  }

  lemma Powers()
    ensures Pow256(1) == 0x100 && Pow256(2) == 0x1_0000 && Pow256(4) == 0x1_0000_0000
    ensures Pow256(8) == 0x1_0000_0000_0000_0000
  {
    assert Pow256(2) == 256 * Pow256(1);
    assert Pow256(3) == 256 * Pow256(2);
    assert Pow256(4) == 256 * Pow256(3);
    assert Pow256(5) == 256 * Pow256(4);
    assert Pow256(6) == 256 * Pow256(5);
    assert Pow256(7) == 256 * Pow256(6);
    assert Pow256(8) == 256 * Pow256(7);
  }

  /** The two's complement conversions `uintN(v)` and `intN(u)`. */
  function ToUnsigned(k: nat, v: int): (u: nat)
    ensures u < Pow256(k)
  {
    v % Pow256(k)
  }

  function ToSigned(k: nat, u: nat): int {
    if 2 * u < Pow256(k) then u else u - Pow256(k)
  }

  /** `v` is a value of the `k`-byte signed type. */
  predicate Fits(k: nat, v: int) {
    0 <= 2 * v + Pow256(k) && 2 * v < Pow256(k)
  }

  lemma SignedOfUnsigned(k: nat, v: int)
    requires Fits(k, v)
    ensures ToSigned(k, ToUnsigned(k, v)) == v
  {
    ModShift(v, Pow256(k));
  }

  lemma ModShift(v: int, p: int)
    requires p > 0 && -p <= v < p
    ensures v % p == if v >= 0 then v else v + p
  {
    if v >= 0 {
      SmallModulo(v, p);
    } else {
      AddModulo(v, p);
      SmallModulo(v + p, p);
    }
  }

  function EncInt(k: nat, v: int): (s: seq<byte>)
    ensures |s| == k
  {
    BE(k, ToUnsigned(k, v))
  }

  function DecInt(s: seq<byte>): int {
    ToSigned(|s|, FromBE(s))
  }

  /** Every value of the `k`-byte signed type survives the wire. */
  lemma IntRoundTrip(k: nat, v: int)
    requires Fits(k, v)
    ensures DecInt(EncInt(k, v)) == v
  {
    FromBEOfBE(k, ToUnsigned(k, v));
    SignedOfUnsigned(k, v);
  }

  /** `int32(v)` for any integer: wrap-around. */
  function WrapInt32(v: int): (r: int32)
    ensures -0x8000_0000 <= v < 0x8000_0000 ==> r == v
  {
    var u := v % 0x1_0000_0000;
    if u < 0x8000_0000 then u else u - 0x1_0000_0000
  }

  // ---------------------------------------------------------------- encoder output

  function EncInt16(v: int): seq<byte> { EncInt(2, v) }
  function EncInt32(v: int): seq<byte> { EncInt(4, v) }
  function EncInt64(v: int): seq<byte> { EncInt(8, v) }

  /** Wrapping around first does not change the bytes. */
  lemma EncodeWrapped(v: int)
    ensures EncInt32(WrapInt32(v)) == EncInt32(v)
  {
    Powers();
    var u := v % 0x1_0000_0000;
    WrappedModulo(v, u);
  }

  lemma WrappedModulo(v: int, u: int)
    requires u == v % 0x1_0000_0000
    ensures u % 0x1_0000_0000 == u && (u - 0x1_0000_0000) % 0x1_0000_0000 == u
  {
  }

  /** EncodeString: the length is cut to 16 bits, the bytes are not. */
  function EncString(s: seq<byte>): seq<byte> {
    EncInt16(|s|) + s
  }

  function EncBytes(s: Slice): seq<byte> {
    if s.Nil? then EncInt32(-1) else EncInt32(|s.data|) + s.data
  }

  // ---------------------------------------------------------------- decoder on values

  datatype ReadError = NoError | EOF | UnexpectedEOF

  datatype Option<+T> = None | Some(value: T)

  /** What a decoder has left to read, and its sticky error. */
  datatype Cursor = Cursor(rest: seq<byte>, err: ReadError)

  /** io.ReadFull: a short read consumes what there is and sets the error. */
  function TakeFull(c: Cursor, n: nat): (Option<seq<byte>>, Cursor) {
    if c.err != NoError then (None, c)
    else if n <= |c.rest| then (Some(c.rest[..n]), Cursor(c.rest[n..], NoError))
    else (None, Cursor([], if c.rest == [] then EOF else UnexpectedEOF))
  }

  function GetInt(c: Cursor, k: nat): (int, Cursor) {
    var (b, c') := TakeFull(c, k);
    (if b.Some? then DecInt(b.value) else 0, c')
  }

  function GetUint32(c: Cursor): (uint32, Cursor) {
    var (b, c') := TakeFull(c, 4);
    Powers();
    (if b.Some? then FromBE(b.value) else 0, c')
  }

  /** DecodeString. */
  function GetString(c: Cursor): (seq<byte>, Cursor) {
    var (n, c1) := GetInt(c, 2);
    if c1.err != NoError || n < 1 then ([], c1)
    else
      var (b, c2) := TakeFull(c1, n);
      (if b.Some? then b.value else [], c2)
  }

  /** DecodeBytes. */
  function GetBytes(c: Cursor): (Slice, Cursor) {
    var (n, c1) := GetInt(c, 4);
    if c1.err != NoError || n < 1 then (Nil, c1)
    else
      var (b, c2) := TakeFull(c1, n);
      (if b.Some? then Bytes(b.value) else Nil, c2)
  }

  // ---------------------------------------------------------------- round trips

  lemma GetIntOfEnc(k: nat, v: int, tail: seq<byte>)
    requires Fits(k, v)
    ensures GetInt(Cursor(EncInt(k, v) + tail, NoError), k) == (v, Cursor(tail, NoError))
  {
    var s := EncInt(k, v) + tail;
    assert s[..k] == EncInt(k, v) && s[k..] == tail;
    IntRoundTrip(k, v);
  }

  lemma GetInt16OfEnc(v: int16, tail: seq<byte>)
    ensures GetInt(Cursor(EncInt16(v) + tail, NoError), 2) == (v, Cursor(tail, NoError))
  {
    Powers();
    GetIntOfEnc(2, v, tail);
  }

  lemma GetInt32OfEnc(v: int32, tail: seq<byte>)
    ensures GetInt(Cursor(EncInt32(v) + tail, NoError), 4) == (v, Cursor(tail, NoError))
  {
    Powers();
    GetIntOfEnc(4, v, tail);
  }

  lemma GetInt64OfEnc(v: int64, tail: seq<byte>)
    ensures GetInt(Cursor(EncInt64(v) + tail, NoError), 8) == (v, Cursor(tail, NoError))
  {
    Powers();
    GetIntOfEnc(8, v, tail);
  }

  const MaxString := 0x7fff

  lemma GetStringOfEnc(s: seq<byte>, tail: seq<byte>)
    requires |s| <= MaxString
    ensures GetString(Cursor(EncString(s) + tail, NoError)) == (s, Cursor(tail, NoError))
  {
    assert EncString(s) + tail == EncInt16(|s|) + (s + tail);
    GetInt16OfEnc(|s|, s + tail);
    assert (s + tail)[..|s|] == s && (s + tail)[|s|..] == tail;
  }

  /** The 16-bit length field, read back: a long string announces fewer bytes than it has. */
  lemma LongStringLength(s: seq<byte>, tail: seq<byte>)
    requires |s| > MaxString
    ensures var (n, c) := GetInt(Cursor(EncString(s) + tail, NoError), 2);
            n < |s| && c == Cursor(s + tail, NoError)
  {
    var b := EncString(s) + tail;
    var u := ToUnsigned(2, |s|);
    assert b[..2] == BE(2, u) && b[2..] == s + tail;
    FromBEOfBE(2, u);
    ShortLength(|s|, u);
  }

  lemma ShortLength(n: nat, u: nat)
    requires n > MaxString && u == ToUnsigned(2, n)
    ensures ToSigned(2, u) < n
  {
    Powers();
    assert u == n % 0x1_0000;
  }

  /**
   A string survives the wire exactly when its length fits a signed 16-bit integer: the
   encoder writes the length as uint16, the decoder reads it as int16.
   */
  lemma StringRoundTripIff(s: seq<byte>, tail: seq<byte>)
    ensures GetString(Cursor(EncString(s) + tail, NoError)) == (s, Cursor(tail, NoError))
       <==> |s| <= MaxString
  {
    if |s| <= MaxString {
      GetStringOfEnc(s, tail);
    } else {
      LongStringLength(s, tail);
    }
  }

  lemma GetBytesOfEnc(s: Slice, tail: seq<byte>)
    requires |s.Content()| < 0x8000_0000
    ensures GetBytes(Cursor(EncBytes(s) + tail, NoError)) == (Normal(s), Cursor(tail, NoError))
  {
    if s.Nil? {
      GetInt32OfEnc(-1, tail);
    } else {
      assert EncBytes(s) + tail == EncInt32(|s.data|) + (s.data + tail);
      GetInt32OfEnc(|s.data|, s.data + tail);
      assert (s.data + tail)[..|s.data|] == s.data && (s.data + tail)[|s.data|..] == tail;
    }
  }

  /** A byte slice comes back as it was exactly when it is not empty-but-present. */
  lemma BytesRoundTripIff(s: Slice, tail: seq<byte>)
    requires |s.Content()| < 0x8000_0000
    ensures GetBytes(Cursor(EncBytes(s) + tail, NoError)) == (s, Cursor(tail, NoError))
       <==> s != Bytes([])
  {
    GetBytesOfEnc(s, tail);
  }

  // ---------------------------------------------------------------- decoder on a shared source

  function Min(a: int, b: int): int { if a < b then a else b }
  function Max(a: int, b: int): int { if a < b then b else a }

  /** The underlying stream: the bytes nobody has read yet. */
  class Source {
    var unread: seq<byte>
    constructor (bytes: seq<byte>)
      ensures unread == bytes
    {
      unread := bytes;
    }
  }

  /** The part of a stream that a limit lets through (io.LimitReader). */
  function Window(s: seq<byte>, limit: int): (w: seq<byte>)
    ensures |w| == Min(Max(limit, 0), |s|)
  {
    s[..Min(Max(limit, 0), |s|)]
  }

  function Beyond(s: seq<byte>, limit: int): seq<byte> {
    s[Min(Max(limit, 0), |s|)..]
  }

  /** A decoder over a limit reader; two decoders may share one source. */
  class Decoder {
    const src: Source
    var left: int
    var err: ReadError

    constructor (src: Source, limit: int)
      ensures this.src == src && left == limit && err == NoError
    {
      this.src, left, err := src, limit, NoError;
    }

    ghost function Value(): Cursor
      reads this, src
    {
      Cursor(Window(src.unread, left), err)
    }

    ghost function Rest(): seq<byte>
      reads this, src
    {
      Beyond(src.unread, left)
    }

    /** The read of one field: nothing beyond the limit is touched. */
    method Read(n: nat) returns (b: Option<seq<byte>>)
      modifies this, src
      ensures (b, Value()) == old(TakeFull(Value(), n))
      ensures Rest() == old(Rest())
    {
      if err != NoError {
        return None;
      }
      var w := Window(src.unread, left);
      var take := Min(n, |w|);
      var got := src.unread[..take];
      var tail := Beyond(src.unread, left);
      assert src.unread == w + tail;
      src.unread := src.unread[take..];
      left := left - take;
      assert src.unread == w[take..] + tail;
      assert Window(src.unread, left) == w[take..] && got == w[..take];
      if take < n {
        err := if take == 0 then EOF else UnexpectedEOF;
        return None;
      }
      return Some(got);
    }

    method DecodeInt(k: nat) returns (v: int)
      modifies this, src
      ensures (v, Value()) == old(GetInt(Value(), k))
      ensures Rest() == old(Rest())
    {
      var b := Read(k);
      v := if b.Some? then DecInt(b.value) else 0;
    }

    method DecodeUint32() returns (v: uint32)
      modifies this, src
      ensures (v, Value()) == old(GetUint32(Value()))
      ensures Rest() == old(Rest())
    {
      var b := Read(4);
      Powers();
      v := if b.Some? then FromBE(b.value) else 0;
    }

    method DecodeString() returns (s: seq<byte>)
      modifies this, src
      ensures (s, Value()) == old(GetString(Value()))
      ensures Rest() == old(Rest())
    {
      if err != NoError {
        return [];
      }
      var n := DecodeInt(2);
      if err != NoError || n < 1 {
        return [];
      }
      var b := Read(n);
      s := if b.Some? then b.value else [];
    }

    method DecodeBytes() returns (s: Slice)
      modifies this, src
      ensures (s, Value()) == old(GetBytes(Value()))
      ensures Rest() == old(Rest())
    {
      if err != NoError {
        return Nil;
      }
      var n := DecodeInt(4);
      if err != NoError || n < 1 {
        return Nil;
      }
      var b := Read(n);
      s := if b.Some? then Bytes(b.value) else Nil;
    }
  }
}
