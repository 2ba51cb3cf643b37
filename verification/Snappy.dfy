/**
 The checksum and the compression codecs, and the snappy-java framing of proto/snappy.go.

 CRC-32, gzip and block snappy are libraries: they are parameters here, and `Lawful` states
 the only facts about them that any result uses.
 */
module Codec {
  import opened Wire

  datatype Codecs = Codecs(
    crc: seq<byte> -> uint32,
    gzip: seq<byte> -> seq<byte>,
    gunzip: seq<byte> -> Option<seq<byte>>,
    snap: seq<byte> -> seq<byte>,
    unsnap: seq<byte> -> Option<seq<byte>>)

  /** 0x82, "SNAPPY", 0x00. */
  const SnappyJavaMagic: seq<byte> := [0x82, 0x53, 0x4e, 0x41, 0x50, 0x50, 0x59, 0x00]

  /** Decompression undoes compression, and plain snappy is never taken for the framed kind. */
  ghost predicate Lawful(cx: Codecs) {
    && (forall x :: cx.gunzip(cx.gzip(x)) == Some(x))
    && (forall x :: cx.unsnap(cx.snap(x)) == Some(x))
    && (forall x :: !(SnappyJavaMagic <= cx.snap(x)))
  }

  /** Codecs that store their input, snappy behind a marker byte. */
  function Storing(): Codecs {
    Codecs(_ => 0, s => s, s => Some(s), s => [0] + s, s => if s != [] then Some(s[1..]) else None)
  }

  /** The hypotheses contradict neither each other nor anything else. */
  lemma LawfulIsPossible()
    ensures Lawful(Storing())
  {
    var cx := Storing();
    forall x ensures cx.unsnap(cx.snap(x)) == Some(x) && !(SnappyJavaMagic <= cx.snap(x)) {
      assert ([0] + x)[1..] == x;
      assert ([0] + x)[0] == 0;
    }
  }
}

module Snappy {
  import opened Wire
  import opened Codec

  /** `Crash` is a slice bounds panic. */
  datatype Decoded = Plain(data: seq<byte>) | Corrupt | BadVersion | Crash

  function Prepend(d: seq<byte>, r: Decoded): Decoded {
    if r.Plain? then Plain(d + r.data) else r
  }

  /** What snappyDecode returns for `b`. */
  function Decode(cx: Codecs, b: seq<byte>): Decoded {
    if !(SnappyJavaMagic <= b) then
      var d := cx.unsnap(b);
      if d.Some? then Plain(d.value) else Corrupt
    else if |b| < 12 then Crash
    else if FromBE(b[8..12]) != 1 then BadVersion
    else if |b| < 16 then Plain([])
    else DecodeChunks(cx, b[16..])
  }

  /** The chunk loop: length, block, length, block, up to the end. */
  function DecodeChunks(cx: Codecs, b: seq<byte>): Decoded
    decreases |b|
  {
    if b == [] then Plain([])
    else if |b| < 4 then Crash
    else
      var n := FromBE(b[..4]);
      if |b| < 4 + n then Crash
      else
        var d := cx.unsnap(b[4..4 + n]);
        if d.None? then Corrupt else Prepend(d.value, DecodeChunks(cx, b[4 + n..]))
  }

  // ---------------------------------------------------------------- the layout

  function Chunks(blocks: seq<seq<byte>>): seq<byte> {
    if blocks == [] then [] else BE(4, |blocks[0]|) + blocks[0] + Chunks(blocks[1..])
  }

  /** A snappy-java stream of version 1; `compatible` is the field the reader skips. */
  function Framed(compatible: seq<byte>, blocks: seq<seq<byte>>): seq<byte> {
    SnappyJavaMagic + BE(4, 1) + compatible + Chunks(blocks)
  }

  /** The contents of all blocks in order, if every block decodes. */
  function Contents(cx: Codecs, blocks: seq<seq<byte>>): Option<seq<byte>> {
    if blocks == [] then Some([])
    else
      var d, rest := cx.unsnap(blocks[0]), Contents(cx, blocks[1..]);
      if d.Some? && rest.Some? then Some(d.value + rest.value) else None
  }

  lemma {:induction false} DecodeChunksOfChunks(cx: Codecs, blocks: seq<seq<byte>>)
    requires forall c :: c in blocks ==> |c| < 0x1_0000_0000
    ensures DecodeChunks(cx, Chunks(blocks)) ==
            if Contents(cx, blocks).Some? then Plain(Contents(cx, blocks).value) else Corrupt
  {
    if blocks != [] {
      var c := blocks[0];
      assert c in blocks;
      Powers();
      FromBEOfBE(4, |c|);
      var b := Chunks(blocks);
      assert b[..4] == BE(4, |c|) && b[4..4 + |c|] == c && b[4 + |c|..] == Chunks(blocks[1..]);
      DecodeChunksOfChunks(cx, blocks[1..]);
    }
  }

  /**
   For any list of blocks in the version 1 layout (0x82, "SNAPPY", 0x00, a version of four bytes,
   four more bytes, and the blocks, each behind its length) decoding gives the concatenation of
   the decoded blocks, and it fails exactly when some block does not decode.
   */
  lemma DecodeFramed(cx: Codecs, compatible: seq<byte>, blocks: seq<seq<byte>>)
    requires |compatible| == 4
    requires forall c :: c in blocks ==> |c| < 0x1_0000_0000
    ensures Framed(compatible, blocks) ==
            [0x82, 0x53, 0x4e, 0x41, 0x50, 0x50, 0x59, 0x00] + [0, 0, 0, 1] + compatible + Chunks(blocks)
    ensures Decode(cx, Framed(compatible, blocks)) ==
            if Contents(cx, blocks).Some? then Plain(Contents(cx, blocks).value) else Corrupt
  {
    var b := Framed(compatible, blocks);
    assert b[..8] == SnappyJavaMagic;
    assert b[8..12] == BE(4, 1);
    Powers();
    FromBEOfBE(4, 1);
    VersionOne();
    assert b[16..] == Chunks(blocks);
    DecodeChunksOfChunks(cx, blocks);
  }

  lemma VersionOne()
    ensures BE(4, 1) == [0, 0, 0, 1]
  {
    assert BE(1, 0) == [0];
    assert BE(2, 0) == [0, 0];
    assert BE(3, 0) == [0, 0, 0];
  }

  /**
   Behind the magic number: another version is refused, and an end inside the version or inside
   the first length is a panic.
   */
  lemma DecodeRefuses(cx: Codecs, rest: seq<byte>)
    ensures var r := Decode(cx, [0x82, 0x53, 0x4e, 0x41, 0x50, 0x50, 0x59, 0x00] + rest);
            && (|rest| < 4 ==> r == Crash)
            && (|rest| >= 4 && rest[..4] != [0, 0, 0, 1] ==> r == BadVersion)
            && (|rest| > 8 && rest[..4] == [0, 0, 0, 1] && |rest| < 12 ==> r == Crash)
  {
    var b := SnappyJavaMagic + rest;
    assert b[..8] == SnappyJavaMagic;
    if |rest| >= 4 {
      assert b[8..12] == rest[..4];
      BEOfFromBE(rest[..4]);
      Powers();
      FromBEOfBE(4, 1);
      VersionOne();
    }
  }

  lemma DecodePlain(cx: Codecs, x: seq<byte>)
    requires Lawful(cx)
    ensures Decode(cx, cx.snap(x)) == Plain(x)
  {
  }

  // ---------------------------------------------------------------- the loop with its reused buffer

  /** snappy.Decode(dst, src): writes into `dst[:len]` when it is long enough, else allocates. */
  method DecodeInto(cx: Codecs, dst: array<byte>, len: nat, src: seq<byte>)
    returns (ok: bool, out: array<byte>, n: nat)
    requires len <= dst.Length
    modifies dst
    ensures ok == cx.unsnap(src).Some?
    ensures n <= out.Length
    ensures ok ==> out[..n] == cx.unsnap(src).value
    ensures out == dst || fresh(out)
  {
    var d := cx.unsnap(src);
    if d.None? {
      return false, dst, 0;
    }
    n := |d.value|;
    out := dst;
    if len < n {
      out := new byte[n](_ => 0);
    }
    forall i | 0 <= i < n {
      out[i] := d.value[i];
    }
    assert out[..n] == d.value;
    ok := true;
  }

  /** snappyDecode: every block is decoded into the buffer of the block before it. */
  method SnappyDecode(cx: Codecs, b: seq<byte>) returns (r: Decoded)
    ensures r == Decode(cx, b)
  {
    if !(SnappyJavaMagic <= b) {
      var d := cx.unsnap(b);
      return if d.Some? then Plain(d.value) else Corrupt;
    }
    if |b| < 12 {
      return Crash;
    }
    if FromBE(b[8..12]) != 1 {
      return BadVersion;
    }
    r := DecodeLoop(cx, b);
  }

  /** The loop of snappyDecode behind the 16 bytes of header. */
  method DecodeLoop(cx: Codecs, b: seq<byte>) returns (r: Decoded)
    ensures r == DecodeChunks(cx, Tail(b, 16))
  {
    hide *;
    var decoded: seq<byte> := [];
    var chunk, len := new byte[0](_ => 0), 0;
    var i: nat := 16;
    PrependNothing(DecodeChunks(cx, Tail(b, 16)));
    while i < |b|
      invariant len <= chunk.Length && fresh(chunk)
      invariant DecodeChunks(cx, Tail(b, 16)) == Prepend(decoded, DecodeChunks(cx, Tail(b, i)))
    {
      NextChunk(cx, b, i);
      PrependFailure(decoded, DecodeChunks(cx, Tail(b, i)));
      if |b| < i + 4 {
        return Crash;
      }
      var n := FromBE(b[i..i + 4]);
      i := i + 4;
      if |b| < i + n {
        return Crash;
      }
      var ok;
      ok, chunk, len := DecodeInto(cx, chunk, len, b[i..i + n]);
      if !ok {
        return Corrupt;
      }
      i := i + n;
      PrependTwice(decoded, chunk[..len], DecodeChunks(cx, Tail(b, i)));
      decoded := decoded + chunk[..len];
    }
    NoMoreChunks(cx, b, i, decoded);
    r := Plain(decoded);
  }

  function Tail(b: seq<byte>, i: nat): seq<byte> {
    if i <= |b| then b[i..] else []
  }

  lemma PrependNothing(r: Decoded)
    ensures Prepend([], r) == r
  {
    assert r.Plain? ==> [] + r.data == r.data;
  }

  lemma PrependTwice(d: seq<byte>, e: seq<byte>, r: Decoded)
    ensures Prepend(d, Prepend(e, r)) == Prepend(d + e, r)
  {
    assert r.Plain? ==> d + (e + r.data) == d + e + r.data;
  }

  lemma PrependFailure(d: seq<byte>, r: Decoded)
    ensures !r.Plain? ==> Prepend(d, r) == r
  {
  }

  lemma NoMoreChunks(cx: Codecs, b: seq<byte>, i: nat, decoded: seq<byte>)
    requires i >= |b|
    ensures Prepend(decoded, DecodeChunks(cx, Tail(b, i))) == Plain(decoded)
  {
    assert decoded + [] == decoded;
  }

  lemma NextChunk(cx: Codecs, b: seq<byte>, i: nat)
    requires i < |b|
    ensures DecodeChunks(cx, Tail(b, i)) ==
            if |b| < i + 4 then Crash
            else
              var n := FromBE(b[i..i + 4]);
              if |b| < i + 4 + n then Crash
              else
                var d := cx.unsnap(b[i + 4..i + 4 + n]);
                if d.None? then Corrupt else Prepend(d.value, DecodeChunks(cx, Tail(b, i + 4 + n)))
  {
    var s := Tail(b, i);
    if |s| >= 4 {
      assert s[..4] == b[i..i + 4];
      var n := FromBE(s[..4]);
      if |s| >= 4 + n {
        assert s[4..4 + n] == b[i + 4..i + 4 + n] && s[4 + n..] == Tail(b, i + 4 + n);
      }
    }
  }
}
