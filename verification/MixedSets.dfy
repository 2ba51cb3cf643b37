/**
 Message sets in which plain and compressed entries are mixed (proto/messages.go,
 readMessageSet), cut off anywhere: what a broker sends from its log.
 */
module MixedSets {
  import opened Wire
  import opened Codec
  import opened MessageSet
  import Snappy

  /** An entry of a set: a message, or the compressed form of some messages. */
  datatype Item = Plain(m: Message) | Packed(msgs: seq<Message>, c: Compression)

  function ItemMsgs(i: Item): seq<Message> {
    if i.Plain? then [i.m] else i.msgs
  }

  function ItemBytes(cx: Codecs, i: Item): seq<byte> {
    if i.Plain? then Entry(cx, i.m, 0) else SetBytes(cx, i.msgs, i.c)
  }

  function ItemsBytes(cx: Codecs, items: seq<Item>): seq<byte> {
    if items == [] then [] else ItemBytes(cx, items[0]) + ItemsBytes(cx, items[1..])
  }

  /** All messages in the set, in order. */
  function Contents(items: seq<Item>): seq<Message> {
    if items == [] then [] else ItemMsgs(items[0]) + Contents(items[1..])
  }

  /** The first entries hold the first messages. */
  lemma {:induction false} ContentsPrefix(items: seq<Item>, n: nat)
    requires n <= |items|
    ensures Contents(items[..n]) <= Contents(items)
    decreases |items|
  {
    if n > 0 {
      ContentsPrefix(items[1..], n - 1);
      assert items[..n][0] == items[0] && items[..n][1..] == items[1..][..n - 1];
    }
  }

  ghost predicate Sendable(cx: Codecs, i: Item) {
    if i.Plain? then Sized(i.m) else i.msgs != [] && i.c != NoCompression && Packable(cx, i.msgs, i.c)
  }

  ghost predicate AllSendable(cx: Codecs, items: seq<Item>) {
    forall i :: 0 <= i < |items| ==> Sendable(cx, items[i])
  }

  /** How many leading entries lie wholly inside the first `k` bytes. */
  function WholeItems(cx: Codecs, items: seq<Item>, k: nat): (n: nat)
    ensures n <= |items|
  {
    if items == [] || k < |ItemBytes(cx, items[0])| then 0
    else 1 + WholeItems(cx, items[1..], k - |ItemBytes(cx, items[0])|)
  }

  /** `WholeItems` is the longest prefix that fits. */
  lemma {:induction false} WholeItemsIsLongest(cx: Codecs, items: seq<Item>, k: nat, n: nat)
    requires n <= |items|
    ensures |ItemsBytes(cx, items[..n])| <= k <==> n <= WholeItems(cx, items, k)
    decreases |items|
  {
    hide ItemBytes;
    if n > 0 {
      var size := |ItemBytes(cx, items[0])|;
      assert items[..n][0] == items[0] && items[..n][1..] == items[1..][..n - 1];
      if size <= k {
        WholeItemsIsLongest(cx, items[1..], k - size, n - 1);
      }
    }
  }

  // ---------------------------------------------------------------- reading

  /** Plain entries ask nothing of the codecs, and no nesting. */
  ghost predicate Openable(cx: Codecs, depth: nat, i: Item) {
    i.Packed? ==> Lawful(cx) && depth > 0
  }

  lemma ReadItem(cx: Codecs, depth: nat, i: Item, rest: seq<byte>, buf: nat) returns (buf': nat)
    requires Openable(cx, depth, i) && Sendable(cx, i)
    ensures var (r, left) := ReadSet(cx, depth, rest, buf');
            ReadSet(cx, depth, ItemBytes(cx, i) + rest, buf) == (Prepend(ReceivedAll(cx, ItemMsgs(i)), r), left)
  {
    hide ReadSet, Entry, SetBytes, Received, Packable, Sized, Lawful;
    if i.Plain? {
      ReadOneEntry(cx, depth, i.m, rest, buf);
      assert ReceivedAll(cx, [i.m]) == [Received(cx, i.m)];
      buf' := NextBuf(i.m, buf);
    } else {
      ReadOneWrapper(cx, depth, i.msgs, i.c, rest, buf);
      buf' := NextBuf(Wrapper(cx, i.msgs, i.c), buf);
    }
  }

  lemma ReadCutItem(cx: Codecs, depth: nat, i: Item, k: nat, buf: nat)
    requires Sendable(cx, i) && k < |ItemBytes(cx, i)|
    ensures ReadSet(cx, depth, ItemBytes(cx, i)[..k], buf) == (Msgs([]), [])
  {
    if i.Plain? {
      SplitCutEntry(cx, i.m, 0, k, buf);
    } else {
      hide ReadSet, SetBytes;
      ReadCutPackedSet(cx, depth, i.msgs, i.c, k, buf);
    }
  }

  lemma CutInFirst(cx: Codecs, items: seq<Item>, k: nat)
    requires items != [] && k <= |ItemsBytes(cx, items)|
    ensures k < |ItemBytes(cx, items[0])| ==>
              ItemsBytes(cx, items)[..k] == ItemBytes(cx, items[0])[..k] && WholeItems(cx, items, k) == 0
    ensures k >= |ItemBytes(cx, items[0])| ==>
              var k' := k - |ItemBytes(cx, items[0])|;
              && k' <= |ItemsBytes(cx, items[1..])|
              && ItemsBytes(cx, items)[..k] == ItemBytes(cx, items[0]) + ItemsBytes(cx, items[1..])[..k']
              && WholeItems(cx, items, k) == 1 + WholeItems(cx, items[1..], k')
  {
    hide ItemBytes;
  }

  lemma ContentsOf(cx: Codecs, items: seq<Item>, n: nat)
    requires items != [] && n < |items|
    ensures Contents(items[..n + 1]) == ItemMsgs(items[0]) + Contents(items[1..][..n])
    ensures Prepend(ReceivedAll(cx, ItemMsgs(items[0])), Msgs(ReceivedAll(cx, Contents(items[1..][..n])))) ==
            Msgs(ReceivedAll(cx, Contents(items[..n + 1])))
  {
    assert items[..n + 1][0] == items[0] && items[..n + 1][1..] == items[1..][..n];
    hide Received, ItemMsgs;
    var a, b := ItemMsgs(items[0]), Contents(items[1..][..n]);
    assert ReceivedAll(cx, a + b) == ReceivedAll(cx, a) + ReceivedAll(cx, b);
  }

  lemma NoContents(cx: Codecs, items: seq<Item>)
    ensures Contents(items[..0]) == [] && ReceivedAll(cx, Contents(items[..0])) == []
    ensures ItemsBytes(cx, []) == []
  {
  }

  lemma LawfulOpens(cx: Codecs, depth: nat, i: Item)
    requires Lawful(cx) && depth > 0
    ensures Openable(cx, depth, i)
  {
  }

  lemma SendableRest(cx: Codecs, items: seq<Item>)
    requires AllSendable(cx, items) && items != []
    ensures Sendable(cx, items[0]) && AllSendable(cx, items[1..])
  {
  }

  /**
   Any mix of plain and compressed entries, cut after any `k` bytes: exactly the contents of the
   entries wholly inside those bytes come back, in order, without error, and none of the `k`
   bytes is left unread.
   */
  lemma {:induction false} ReadCutItems(cx: Codecs, depth: nat, items: seq<Item>, k: nat, buf: nat)
    requires Lawful(cx) && depth > 0 && AllSendable(cx, items)
    requires k <= |ItemsBytes(cx, items)|
    ensures ReadSet(cx, depth, ItemsBytes(cx, items)[..k], buf) ==
            (Msgs(ReceivedAll(cx, Contents(items[..WholeItems(cx, items, k)]))), [])
    decreases |items|
  {
    hide *;
    NoContents(cx, items);
    if items == [] {
      assert ItemsBytes(cx, items)[..k] == [];
      ReadEmpty(cx, depth, buf);
      assert items[..WholeItems(cx, items, k)] == items[..0];
    } else {
      SendableRest(cx, items);
      CutInFirst(cx, items, k);
      if k < |ItemBytes(cx, items[0])| {
        ReadCutItem(cx, depth, items[0], k, buf);
      } else {
        var k' := k - |ItemBytes(cx, items[0])|;
        LawfulOpens(cx, depth, items[0]);
        var buf' := ReadItem(cx, depth, items[0], ItemsBytes(cx, items[1..])[..k'], buf);
        ReadCutItems(cx, depth, items[1..], k', buf');
        ContentsOf(cx, items, WholeItems(cx, items[1..], k'));
      }
    }
  }

  // ---------------------------------------------------------------- what ends the reading

  /** Whatever `w` is read as, complete entries in front of it add their contents to a success. */
  lemma {:induction false} ReadBehind(cx: Codecs, depth: nat, items: seq<Item>, w: seq<byte>, r: SetResult,
      left: seq<byte>, buf: nat)
    requires AllSendable(cx, items) && forall i :: 0 <= i < |items| ==> Openable(cx, depth, items[i])
    requires forall n: nat :: ReadSet(cx, depth, w, n) == (r, left)
    ensures ReadSet(cx, depth, ItemsBytes(cx, items) + w, buf) == (Prepend(ReceivedAll(cx, Contents(items)), r), left)
    decreases |items|
  {
    hide *;
    NoContents(cx, items);
    if items == [] {
      assert items == items[..0] && ItemsBytes(cx, items) + w == w;
      PrependMore(cx, [], [], r);
    } else {
      SendableRest(cx, items);
      FirstOfItems(cx, items);
      var rest := ItemsBytes(cx, items[1..]) + w;
      assert ItemsBytes(cx, items) + w == ItemBytes(cx, items[0]) + rest;
      var buf' := ReadItem(cx, depth, items[0], rest, buf);
      ReadBehind(cx, depth, items[1..], w, r, left, buf');
      PrependMore(cx, ItemMsgs(items[0]), Contents(items[1..]), r);
    }
  }

  lemma PrependMore(cx: Codecs, a: seq<Message>, b: seq<Message>, r: SetResult)
    ensures Prepend(ReceivedAll(cx, a), Prepend(ReceivedAll(cx, b), r)) == Prepend(ReceivedAll(cx, a + b), r)
    ensures a == [] ==> Prepend(ReceivedAll(cx, a), r) == r
  {
    hide Received;
    assert ReceivedAll(cx, a + b) == ReceivedAll(cx, a) + ReceivedAll(cx, b);
    if r.Msgs? {
      var c := r.msgs;
      assert ReceivedAll(cx, a) + (ReceivedAll(cx, b) + c) == ReceivedAll(cx, a) + ReceivedAll(cx, b) + c;
    }
  }

  /**
   If the first checksum mismatch is behind `items`, plain or compressed, the reader returns
   exactly their contents whatever follows, and it leaves everything behind the bad entry unread.
   */
  lemma StopAtBadCrc(cx: Codecs, depth: nat, items: seq<Item>,
      offset: int64, crc: uint32, body: seq<byte>, junk: seq<byte>, buf: nat)
    requires AllSendable(cx, items) && forall i :: 0 <= i < |items| ==> Openable(cx, depth, items[i])
    requires 4 + |body| + Slack < 0x8000_0000 && crc != cx.crc(body)
    ensures ReadSet(cx, depth, ItemsBytes(cx, items) + RawEntry(offset, crc, body) + junk, buf) ==
            (Msgs(ReceivedAll(cx, Contents(items))), junk)
  {
    hide *;
    var w := RawEntry(offset, crc, body) + junk;
    assert ItemsBytes(cx, items) + RawEntry(offset, crc, body) + junk == ItemsBytes(cx, items) + w;
    forall n: nat ensures ReadSet(cx, depth, w, n) == (Msgs([]), junk) {
      ReadBadEntry(cx, depth, offset, crc, body, junk, n);
    }
    ReadBehind(cx, depth, items, w, Msgs([]), junk, buf);
    PrependNothing(ReceivedAll(cx, Contents(items)));
  }

  /**
   Why an entry with a right checksum is refused: compression method 3, whatever else it holds;
   a body that is too short for its fields; or a value that does not decompress, where a framed
   snappy stream that ends inside its version is a panic.
   */
  ghost predicate Refused(cx: Codecs, body: seq<byte>, r: SetResult) {
    || (|body| >= 2 && body[1] % 4 == 3 && r == BadMethod)
    || (|body| < 10 && (|body| < 2 || body[1] % 4 != 3) && r == Malformed)
    || RefusedValue(cx, body, r)
    || RefusedFrame(body, r)
  }

  ghost predicate RefusedValue(cx: Codecs, body: seq<byte>, r: SetResult) {
    exists a: byte, key, value ::
      && body == [0, a] + EncBytes(key) + EncBytes(value) && r == Malformed
      && |key.Content()| < 0x8000_0000 && |value.Content()| < 0x8000_0000
      && ((a % 4 == 1 && cx.gunzip(value.Content()).None?)
       || (a % 4 == 2 && cx.unsnap(value.Content()).None? && !(SnappyJavaMagic <= value.Content())))
  }

  ghost predicate RefusedFrame(body: seq<byte>, r: SetResult) {
    exists a: byte, key, rest: seq<byte> ::
      && body == [0, a] + EncBytes(key) + EncBytes(Bytes(SnappyStart + rest)) && a % 4 == 2
      && |key.Content()| < 0x8000_0000 && 8 + |rest| < 0x8000_0000
      && if |rest| < 4 then r == Panic else rest[..4] != [0, 0, 0, 1] && r == Malformed
  }

  const SnappyStart: seq<byte> := [0x82, 0x53, 0x4e, 0x41, 0x50, 0x50, 0x59, 0x00]

  /** Such an entry fails the whole set, and the messages in front of it are lost. */
  lemma RefusedEntry(cx: Codecs, depth: nat, items: seq<Item>, offset: int64, body: seq<byte>, r: SetResult,
      junk: seq<byte>, buf: nat)
    requires AllSendable(cx, items) && forall i :: 0 <= i < |items| ==> Openable(cx, depth, items[i])
    requires 4 + |body| + Slack < 0x8000_0000 && Refused(cx, body, r)
    ensures ReadSet(cx, depth, ItemsBytes(cx, items) + (RawEntry(offset, cx.crc(body), body) + junk), buf) == (r, junk)
  {
    var w := RawEntry(offset, cx.crc(body), body) + junk;
    RefusedFields(cx, body, r);
    hide *;
    forall n: nat ensures ReadSet(cx, depth, w, n) == (r, junk) {
      SplitRawEntry(cx, offset, cx.crc(body), body, junk, n);
      ReadRefused(cx, depth, w, n, r);
    }
    ReadBehind(cx, depth, items, w, r, junk, buf);
    NoPrepend(ReceivedAll(cx, Contents(items)), r);
  }

  /** A compressed entry whose contents are refused fails the whole set in the same way. */
  lemma RefusedInside(cx: Codecs, depth: nat, items: seq<Item>, offset: int64, a: byte, key: Slice, value: Slice,
      data: seq<byte>, r: SetResult, junk: seq<byte>, buf: nat)
    requires AllSendable(cx, items) && forall i :: 0 <= i < |items| ==> Openable(cx, depth, items[i])
    requires |key.Content()| < 0x8000_0000 && |value.Content()| < 0x8000_0000
    requires 4 + |[0, a] + EncBytes(key) + EncBytes(value)| + Slack < 0x8000_0000
    requires || (a % 4 == 1 && cx.gunzip(value.Content()) == Some(data))
             || (a % 4 == 2 && cx.unsnap(value.Content()) == Some(data) && !(SnappyJavaMagic <= value.Content()))
    requires depth > 0 && |data| < 0x8000_0000 && ReadSet(cx, depth - 1, data, 0).0 == r && !r.Msgs?
    ensures var body := [0, a] + EncBytes(key) + EncBytes(value);
            ReadSet(cx, depth, ItemsBytes(cx, items) + (RawEntry(offset, cx.crc(body), body) + junk), buf) == (r, junk)
  {
    var body := [0, a] + EncBytes(key) + EncBytes(value);
    var w := RawEntry(offset, cx.crc(body), body) + junk;
    PlainValue(cx, a % 4, value, data);
    hide *;
    FieldsOfAny(a, key, value);
    WholeWindow(data);
    ReadPlain(cx, depth, data);
    forall n: nat ensures ReadSet(cx, depth, w, n) == (r, junk) {
      SplitRawEntry(cx, offset, cx.crc(body), body, junk, n);
      ReadInsideRefused(cx, depth, w, n, r);
    }
    ReadBehind(cx, depth, items, w, r, junk, buf);
    NoPrepend(ReceivedAll(cx, Contents(items)), r);
  }

  lemma PlainValue(cx: Codecs, method_: int, value: Slice, data: seq<byte>)
    requires || (method_ == 1 && cx.gunzip(value.Content()) == Some(data))
             || (method_ == 2 && cx.unsnap(value.Content()) == Some(data) && !(SnappyJavaMagic <= value.Content()))
    ensures Unpack(cx, method_, Normal(value).Content()) == Snappy.Plain(data)
  {
    NormalContent(value);
    hide Normal;
  }

  lemma ReadInsideRefused(cx: Codecs, depth: nat, w: seq<byte>, buf: nat, r: SetResult)
    requires Split(cx, w, buf).Payload? && !r.Msgs?
    requires var f := GetFields(Split(cx, w, buf).body);
             f.method_ in {1, 2} && f.ok && ReadPacked(cx, depth, Unpack(cx, f.method_, f.value.Content())) == r
    ensures ReadSet(cx, depth, w, buf) == (r, Split(cx, w, buf).rest)
  {
    hide Split, GetFields, Unpack, ReadPacked;
  }

  lemma NoPrepend(ms: seq<Message>, r: SetResult)
    ensures !r.Msgs? ==> Prepend(ms, r) == r
  {
  }

  /** What the fields of a refused body are. */
  ghost predicate RefusedByFields(cx: Codecs, f: Fields, r: SetResult) {
    if f.method_ == 3 then r == BadMethod
    else if !f.ok then r == Malformed
    else
      var d := Unpack(cx, f.method_, f.value.Content());
      f.method_ != 0 && if d == Snappy.Crash then r == Panic else !d.Plain? && r == Malformed
  }

  /** Reading fields without an error uses up their bytes. */
  lemma FieldsNeedBytes(c: Cursor, k: nat)
    ensures GetInt(c, k).1.err == NoError ==> c.err == NoError && |c.rest| == k + |GetInt(c, k).1.rest|
    ensures GetBytes(c).1.err == NoError ==> c.err == NoError && |c.rest| >= 4 + |GetBytes(c).1.rest|
  {
  }

  /** The low two bits of the second byte. */
  lemma MethodOf(body: seq<byte>)
    ensures GetFields(body).method_ == if |body| >= 2 then body[1] % 4 else 0
    ensures GetFields(body).ok ==> |body| >= 10
  {
    var (magic, c1) := GetInt(Cursor(body, NoError), 1);
    var (attributes, c2) := GetInt(c1, 1);
    var (key, c3) := GetBytes(c2);
    var (value, c4) := GetBytes(c3);
    FieldsNeedBytes(Cursor(body, NoError), 1);
    FieldsNeedBytes(c1, 1);
    FieldsNeedBytes(c2, 1);
    FieldsNeedBytes(c3, 1);
    hide GetBytes;
    if |body| >= 2 {
      assert c1.rest[..1] == [body[1]];
      OneByteSigned(body[1]);
    }
  }

  lemma OneByteSigned(b: byte)
    ensures DecInt([b]) % 4 == b % 4
  {
    Powers();
    assert FromBE([b]) == 256 * FromBE([]) + b;
  }

  lemma FieldsOfAny(a: byte, key: Slice, value: Slice)
    requires |key.Content()| < 0x8000_0000 && |value.Content()| < 0x8000_0000
    ensures GetFields([0, a] + EncBytes(key) + EncBytes(value)) == Fields(a % 4, Normal(key), Normal(value), true)
  {
    hide *;
    var tail := EncBytes(key) + EncBytes(value);
    var body := [0, a] + EncBytes(key) + EncBytes(value);
    assert body == [0] + ([a] + tail);
    GetAnyByte(0, [a] + tail);
    GetAnyByte(a, tail);
    OneByteSigned(a);
    GetBytesOfEnc(key, EncBytes(value));
    GetLastBytes(value);
    FieldsInOrder(body);
  }

  lemma GetAnyByte(b: byte, tail: seq<byte>)
    ensures GetInt(Cursor([b] + tail, NoError), 1) == (DecInt([b]), Cursor(tail, NoError))
  {
    assert ([b] + tail)[..1] == [b] && ([b] + tail)[1..] == tail;
  }

  lemma RefusedFields(cx: Codecs, body: seq<byte>, r: SetResult)
    requires Refused(cx, body, r)
    ensures RefusedByFields(cx, GetFields(body), r)
  {
    MethodOf(body);
    hide GetFields;
    if RefusedValue(cx, body, r) {
      RefusedByValue(cx, body, r);
    } else if RefusedFrame(body, r) {
      RefusedByFrame(cx, body, r);
    }
    hide RefusedValue, RefusedFrame, Unpack;
  }

  lemma RefusedByValue(cx: Codecs, body: seq<byte>, r: SetResult)
    requires RefusedValue(cx, body, r)
    ensures RefusedByFields(cx, GetFields(body), r)
  {
    var a: byte, key, value :|
      && body == [0, a] + EncBytes(key) + EncBytes(value) && r == Malformed
      && |key.Content()| < 0x8000_0000 && |value.Content()| < 0x8000_0000
      && ((a % 4 == 1 && cx.gunzip(value.Content()).None?)
       || (a % 4 == 2 && cx.unsnap(value.Content()).None? && !(SnappyJavaMagic <= value.Content())));
    hide *;
    FieldsOfAny(a, key, value);
    NormalContent(value);
    CorruptValue(cx, a % 4, value.Content());
    CorruptMeans(cx, Fields(a % 4, Normal(key), Normal(value), true));
  }

  lemma NormalContent(s: Slice)
    ensures Normal(s).Content() == s.Content()
  {
  }

  lemma CorruptMeans(cx: Codecs, f: Fields)
    requires f.ok && f.method_ in {1, 2} && Unpack(cx, f.method_, f.value.Content()) == Snappy.Corrupt
    ensures RefusedByFields(cx, f, Malformed)
  {
    hide Unpack;
  }

  lemma CorruptValue(cx: Codecs, method_: int, v: seq<byte>)
    requires || (method_ == 1 && cx.gunzip(v).None?)
             || (method_ == 2 && cx.unsnap(v).None? && !(SnappyJavaMagic <= v))
    ensures Unpack(cx, method_, v) == Snappy.Corrupt
  {
  }

  lemma RefusedByFrame(cx: Codecs, body: seq<byte>, r: SetResult)
    requires RefusedFrame(body, r)
    ensures RefusedByFields(cx, GetFields(body), r)
  {
    var a: byte, key, rest: seq<byte> :|
      && body == [0, a] + EncBytes(key) + EncBytes(Bytes(SnappyStart + rest)) && a % 4 == 2
      && |key.Content()| < 0x8000_0000 && 8 + |rest| < 0x8000_0000
      && if |rest| < 4 then r == Panic else rest[..4] != [0, 0, 0, 1] && r == Malformed;
    hide GetFields, EncBytes, Snappy.Decode;
    FieldsOfAny(a, key, Bytes(SnappyStart + rest));
    Snappy.DecodeRefuses(cx, rest);
    assert Normal(Bytes(SnappyStart + rest)).Content() == SnappyStart + rest;
  }

  lemma ReadRefused(cx: Codecs, depth: nat, w: seq<byte>, buf: nat, r: SetResult)
    requires Split(cx, w, buf).Payload? && RefusedByFields(cx, GetFields(Split(cx, w, buf).body), r)
    ensures ReadSet(cx, depth, w, buf) == (r, Split(cx, w, buf).rest) && !r.Msgs?
  {
    hide Split, GetFields, Unpack;
  }

  lemma FirstOfItems(cx: Codecs, items: seq<Item>)
    requires items != []
    ensures ItemsBytes(cx, items) == ItemBytes(cx, items[0]) + ItemsBytes(cx, items[1..])
    ensures Contents(items) == ItemMsgs(items[0]) + Contents(items[1..])
  {
  }

  // ---------------------------------------------------------------- what the writer writes

  /** The entries of a set as writeMessageSet makes it. */
  function Written(msgs: seq<Message>, c: Compression): seq<Item> {
    if msgs == [] then []
    else if c == NoCompression then [Plain(msgs[0])] + Written(msgs[1..], c)
    else [Packed(msgs, c)]
  }

  lemma FirstWritten(cx: Codecs, msgs: seq<Message>)
    requires msgs != []
    ensures var w, rest := Written(msgs, NoCompression), Written(msgs[1..], NoCompression);
            && ItemsBytes(cx, w) == Entry(cx, msgs[0], 0) + ItemsBytes(cx, rest)
            && Contents(w) == [msgs[0]] + Contents(rest)
            && (Sized(msgs[0]) && AllSendable(cx, rest) ==> AllSendable(cx, w))
  {
    hide Entry, Sized;
    var w := Written(msgs, NoCompression);
    assert w[0] == Plain(msgs[0]) && w[1..] == Written(msgs[1..], NoCompression);
  }

  lemma {:induction false} WrittenPlain(cx: Codecs, msgs: seq<Message>)
    ensures ItemsBytes(cx, Written(msgs, NoCompression)) == Entries(cx, msgs, 0)
    ensures Contents(Written(msgs, NoCompression)) == msgs
    ensures AllSized(msgs) ==> AllSendable(cx, Written(msgs, NoCompression))
    decreases |msgs|
  {
    if msgs != [] {
      FirstWritten(cx, msgs);
      WrittenPlain(cx, msgs[1..]);
      hide Entry, Sized, Written, ItemsBytes, Contents, AllSendable;
      assert msgs == [msgs[0]] + msgs[1..];
    }
  }

  lemma WrittenIs(cx: Codecs, msgs: seq<Message>, c: Compression)
    ensures ItemsBytes(cx, Written(msgs, c)) == SetBytes(cx, msgs, c)
    ensures Contents(Written(msgs, c)) == msgs
    ensures Packable(cx, msgs, c) ==> AllSendable(cx, Written(msgs, c))
  {
    if c == NoCompression {
      WrittenPlain(cx, msgs);
      hide Entry;
    } else if msgs != [] {
      hide Entry, Entries;
      var w := Written(msgs, c);
      assert w[1..] == [] && ItemsBytes(cx, []) == [] && Contents([]) == [];
      assert SetBytes(cx, msgs, c) + [] == SetBytes(cx, msgs, c) && msgs + [] == msgs;
    }
  }
}
