/** Messages, their block-aligned images, and parsing of a byte stream made of such images.

    A message occupies whole 8-byte blocks: header, payload, padding.  The padding is whatever
    the send queue's memory held, so it is part of the image.  A heartbeat is a bare header with
    message type 0.  `stamp` is the unbounded acknowledgement number whose low 32 bits travel in
    the header's `ack_seq`.
 */
module Wire {
  import opened Words
  import opened MsgHeader

  datatype Msg = Msg(msgType: u16, stamp: nat, payload: seq<byte>, pad: seq<byte>)

  /** What the application sees of a message. */
  datatype Content = Content(msgType: u16, payload: seq<byte>)

  /** A message as it is found in a stream. */
  datatype Item = Item(header: Header, body: seq<byte>)

  /** `(size + sizeof(MsgHeader) - 1) / sizeof(MsgHeader)` */
  function Blocks(size: int): (n: int)
  {
    (size + 7) / 8
  }

  /** `(size + 7) & -8` */
  function Rounded(size: int): (r: int)
    ensures r % 8 == 0 && (size >= 0 ==> r >= 0)
  {
    8 * Blocks(size)
  }

  predicate ValidMsg(m: Msg) {
    && HEADER_SIZE + |m.payload| < M16
    && HEADER_SIZE + |m.payload| + |m.pad| == Rounded(HEADER_SIZE + |m.payload|)
  }

  predicate ValidMsgs(ms: seq<Msg>) {
    forall i :: 0 <= i < |ms| ==> ValidMsg(ms[i])
  }

  /** Type 0 is kept for heartbeats, which have no payload. */
  predicate WellTyped(ms: seq<Msg>) {
    forall i :: 0 <= i < |ms| ==> ms[i].msgType == 0 ==> ms[i].payload == []
  }

  predicate IsApp(m: Msg) {
    m.msgType != 0
  }

  function Heartbeat(ack: nat): (m: Msg)
    ensures ValidMsg(m)
  {
    Msg(0, ack, [], [])
  }

  function HeaderOf(m: Msg): Header
    requires ValidMsg(m)
  {
    Header(HEADER_SIZE + |m.payload|, m.msgType, Wrap(m.stamp))
  }

  function ItemOf(m: Msg): Item
    requires ValidMsg(m)
  {
    Item(HeaderOf(m), m.payload + m.pad)
  }

  function ContentOf(m: Msg): Content {
    Content(m.msgType, m.payload)
  }

  /** Blocks of 8 bytes hold a message, and one fewer would not; the receiver steps over as many. */
  lemma BlocksExact(size: nat)
    requires size > 0
    ensures 8 * (Blocks(size) - 1) < size <= 8 * Blocks(size)
    ensures Rounded(size) == 8 * Blocks(size)
  {
  }

  /** The length of a message in blocks. */
  function MsgBlocks(m: Msg): (n: int)
    ensures n >= 1
  {
    Blocks(HEADER_SIZE + |m.payload|)
  }

  function TotalBlocks(ms: seq<Msg>): (n: nat)
    ensures n >= |ms|
  {
    if ms == [] then 0 else MsgBlocks(ms[0]) + TotalBlocks(ms[1..])
  }

  /** The bytes of a message, in the configured byte order. */
  function Image(le: bool, m: Msg): (b: seq<byte>)
    requires ValidMsg(m)
    ensures |b| == 8 * MsgBlocks(m)
  {
    StoreHeader(le, HeaderOf(m)) + m.payload + m.pad
  }

  function Images(le: bool, ms: seq<Msg>): (b: seq<byte>)
    requires ValidMsgs(ms)
    ensures |b| == 8 * TotalBlocks(ms)
  {
    if ms == [] then [] else Image(le, ms[0]) + Images(le, ms[1..])
  }

  lemma {:induction false} TotalBlocksAppend(a: seq<Msg>, b: seq<Msg>)
    ensures TotalBlocks(a + b) == TotalBlocks(a) + TotalBlocks(b)
  {
    if a == [] {
      assert a + b == b;
    } else {
      TotalBlocksAppend(a[1..], b);
      assert (a + b)[1..] == a[1..] + b;
    }
  }

  lemma ConcatAssociative<T>(a: seq<T>, b: seq<T>, c: seq<T>)
    ensures a + b + c == a + (b + c)
  {
  }

  lemma {:induction false} ImagesAppend(le: bool, a: seq<Msg>, b: seq<Msg>)
    requires ValidMsgs(a) && ValidMsgs(b)
    ensures ValidMsgs(a + b) && Images(le, a + b) == Images(le, a) + Images(le, b)
  {
    hide StoreHeader, LoadHeader;
    if a == [] {
      assert a + b == b;
    } else {
      var t := a[1..];
      assert (a + b)[1..] == t + b && (a + b)[0] == a[0];
      ImagesAppend(le, t, b);
      ConcatAssociative(Image(le, a[0]), Images(le, t), Images(le, b));
    }
  }

  /** Dropping whole messages from the front drops their images. */
  lemma ImagesDrop(le: bool, ms: seq<Msg>, k: nat)
    requires ValidMsgs(ms) && k <= |ms|
    ensures ValidMsgs(ms[..k]) && ValidMsgs(ms[k..])
    ensures TotalBlocks(ms) == TotalBlocks(ms[..k]) + TotalBlocks(ms[k..])
    ensures Images(le, ms) == Images(le, ms[..k]) + Images(le, ms[k..])
    ensures Images(le, ms)[8 * TotalBlocks(ms[..k])..] == Images(le, ms[k..])
  {
    assert ms[..k] + ms[k..] == ms;
    ImagesAppend(le, ms[..k], ms[k..]);
    TotalBlocksAppend(ms[..k], ms[k..]);
  }

  // ----- Parsing

  function HeaderAt(le: bool, s: seq<byte>): Header
    requires |s| >= HEADER_SIZE
  {
    LoadHeader(le, s[..HEADER_SIZE])
  }

  function Extent(le: bool, s: seq<byte>): (e: nat)
    requires |s| >= HEADER_SIZE
    ensures e % 8 == 0
  {
    Rounded(HeaderAt(le, s).size)
  }

  /** A whole message stands at the front of `s`. */
  predicate Whole(le: bool, s: seq<byte>) {
    |s| >= HEADER_SIZE && 0 < Extent(le, s) <= |s|
  }

  /** The length of the longest prefix of `s` made of whole messages. */
  function Parsed(le: bool, s: seq<byte>): (n: nat)
    ensures n <= |s|
  {
    if !Whole(le, s) then 0 else Extent(le, s) + Parsed(le, s[Extent(le, s)..])
  }

  /** The whole messages at the front of `s`. */
  function Items(le: bool, s: seq<byte>): seq<Item>
    decreases |s|
  {
    if !Whole(le, s) then []
    else [Item(HeaderAt(le, s), s[HEADER_SIZE..Extent(le, s)])] + Items(le, s[Extent(le, s)..])
  }

  /** The `ack_seq` of every header that is completely present in `s`, the one of a message
      still incomplete included. */
  function Acks(le: bool, s: seq<byte>): seq<u32>
    decreases |s|
  {
    if |s| < HEADER_SIZE then []
    else [HeaderAt(le, s).ackSeq] + (if Whole(le, s) then Acks(le, s[Extent(le, s)..]) else [])
  }

  /** What the receiver takes for granted of an honest peer: no header claims size 0, which would
      stall it, and a message of type 0 is a bare header. */
  predicate HonestHeader(h: Header) {
    h.size > 0 && (h.msgType == 0 ==> h.size <= HEADER_SIZE)
  }

  predicate Honest(le: bool, s: seq<byte>)
    decreases |s|
  {
    |s| >= HEADER_SIZE ==>
      HonestHeader(HeaderAt(le, s)) && (Whole(le, s) ==> Honest(le, s[Extent(le, s)..]))
  }

  predicate IsAppItem(it: Item) {
    it.header.msgType != 0
  }

  function AppItems(its: seq<Item>): seq<Item> {
    if its == [] then []
    else if IsAppItem(its[0]) then [its[0]] + AppItems(its[1..]) else AppItems(its[1..])
  }

  function AppMsgs(ms: seq<Msg>): (r: seq<Msg>)
    ensures |r| <= |ms|
  {
    if ms == [] then []
    else if IsApp(ms[0]) then [ms[0]] + AppMsgs(ms[1..]) else AppMsgs(ms[1..])
  }

  lemma {:induction false} AppItemsAppend(a: seq<Item>, b: seq<Item>)
    ensures AppItems(a + b) == AppItems(a) + AppItems(b)
  {
    if a == [] {
      assert a + b == b;
    } else {
      AppItemsAppend(a[1..], b);
      assert (a + b)[1..] == a[1..] + b;
    }
  }

  lemma {:induction false} AppMsgsAppend(a: seq<Msg>, b: seq<Msg>)
    ensures AppMsgs(a + b) == AppMsgs(a) + AppMsgs(b)
  {
    if a == [] {
      assert a + b == b;
    } else {
      var t := a[1..];
      assert (a + b)[1..] == t + b && (a + b)[0] == a[0];
      AppMsgsAppend(t, b);
      if IsApp(a[0]) {
        assert AppMsgs(a + b) == [a[0]] + (AppMsgs(t) + AppMsgs(b));
      }
    }
  }

  /** Bytes after a whole message do not change it. */
  lemma WholeAppend(le: bool, a: seq<byte>, b: seq<byte>)
    requires |a| >= HEADER_SIZE
    ensures HeaderAt(le, a + b) == HeaderAt(le, a) && Extent(le, a + b) == Extent(le, a)
    ensures Whole(le, a) ==> Whole(le, a + b)
    ensures Whole(le, a) ==> (a + b)[HEADER_SIZE..Extent(le, a)] == a[HEADER_SIZE..Extent(le, a)]
    ensures Whole(le, a) ==> (a + b)[Extent(le, a)..] == a[Extent(le, a)..] + b
  {
    hide StoreHeader, LoadHeader;
    assert (a + b)[..HEADER_SIZE] == a[..HEADER_SIZE];
  }

  /** Parsing continues where a fully parsed prefix ends: the way a stream is cut into pieces at
      message boundaries does not matter. */
  lemma {:induction false} ParseAppend(le: bool, a: seq<byte>, b: seq<byte>)
    requires Parsed(le, a) == |a|
    ensures Parsed(le, a + b) == |a| + Parsed(le, b)
    ensures Items(le, a + b) == Items(le, a) + Items(le, b)
    decreases |a|
  {
    hide StoreHeader, LoadHeader;
    if a == [] {
      assert a + b == b;
    } else {
      WholeAppend(le, a, b);
      var e := Extent(le, a);
      var t := a[e..];
      ParseAppend(le, t, b);
      ConcatAssociative([Item(HeaderAt(le, a), a[HEADER_SIZE..e])], Items(le, t), Items(le, b));
    }
  }

  lemma {:induction false} ParsedPrefix(le: bool, s: seq<byte>)
    ensures Parsed(le, s[..Parsed(le, s)]) == Parsed(le, s)
    ensures !Whole(le, s[Parsed(le, s)..])
    decreases |s|
  {
    hide StoreHeader, LoadHeader, HeaderAt, Extent;
    if Whole(le, s) {
      var n, e := Parsed(le, s), Extent(le, s);
      var t := s[e..];
      ParsedPrefix(le, t);
      assert s[n..] == t[n - e..];
      WholeAppend(le, s[..n], s[n..]);
      assert s[..n] + s[n..] == s;
      assert s[..n][e..] == t[..n - e];
    } else {
      assert s[0..] == s;
    }
  }

  /** A stream splits into its parsed part and a rest that holds no whole message. */
  lemma ParseSplit(le: bool, s: seq<byte>)
    ensures var n := Parsed(le, s);
      && Parsed(le, s[..n]) == n
      && Items(le, s[..n]) == Items(le, s)
      && !Whole(le, s[n..])
  {
    hide StoreHeader, LoadHeader;
    var n := Parsed(le, s);
    ParsedPrefix(le, s);
    ParseAppend(le, s[..n], s[n..]);
    assert s[..n] + s[n..] == s;
  }

  /** Headers seen in a prefix of a stream are the first headers of the stream. */
  lemma {:induction false} AcksOfPrefix(le: bool, a: seq<byte>, b: seq<byte>)
    ensures Acks(le, a) <= Acks(le, a + b)
    decreases |a|
  {
    hide StoreHeader, LoadHeader;
    if |a| >= HEADER_SIZE {
      WholeAppend(le, a, b);
      if Whole(le, a) {
        AcksOfPrefix(le, a[Extent(le, a)..], b);
      }
    }
  }

  lemma {:induction false} HonestPrefix(le: bool, a: seq<byte>, b: seq<byte>)
    requires Honest(le, a + b)
    ensures Honest(le, a)
    decreases |a|
  {
    hide StoreHeader, LoadHeader;
    if |a| >= HEADER_SIZE {
      WholeAppend(le, a, b);
      if Whole(le, a) {
        HonestPrefix(le, a[Extent(le, a)..], b);
      }
    }
  }

  /** A stream as the receive buffer holds it on a host of the given endianness: every header that
      is completely present is in host byte order. */
  function View(host: bool, le: bool, s: seq<byte>): (v: seq<byte>)
    ensures |v| == |s|
    decreases |s|
  {
    if |s| < HEADER_SIZE then s
    else if Whole(le, s) then
      StoreHeader(host, HeaderAt(le, s)) + (s[HEADER_SIZE..Extent(le, s)] + View(host, le, s[Extent(le, s)..]))
    else StoreHeader(host, HeaderAt(le, s)) + s[HEADER_SIZE..]
  }

  lemma {:induction false} ViewAppend(host: bool, le: bool, a: seq<byte>, b: seq<byte>)
    requires Parsed(le, a) == |a|
    ensures View(host, le, a + b) == View(host, le, a) + View(host, le, b)
    decreases |a|
  {
    hide StoreHeader, LoadHeader;
    if a == [] {
      assert a + b == b;
    } else {
      WholeAppend(le, a, b);
      var e := Extent(le, a);
      var t := a[e..];
      ViewAppend(host, le, t, b);
      var h := StoreHeader(host, HeaderAt(le, a));
      ConcatAssociative(a[HEADER_SIZE..e], View(host, le, t), View(host, le, b));
      ConcatAssociative(h, a[HEADER_SIZE..e] + View(host, le, t), View(host, le, b));
    }
  }

  // ----- Parsing a prefix of the images of known messages

  /** How many of `ms` are complete in the first `n` bytes of their images. */
  function Count(ms: seq<Msg>, n: int): (k: nat)
    ensures k <= |ms|
  {
    if ms == [] || n < 8 * MsgBlocks(ms[0]) then 0 else 1 + Count(ms[1..], n - 8 * MsgBlocks(ms[0]))
  }

  /** How many of `ms` show their header in the first `n` bytes of their images. */
  function Visible(ms: seq<Msg>, n: int): (k: nat)
    ensures Count(ms, n) <= k <= |ms| && k <= Count(ms, n) + 1
  {
    if ms == [] || n < HEADER_SIZE then 0
    else if n < 8 * MsgBlocks(ms[0]) then 1
    else 1 + Visible(ms[1..], n - 8 * MsgBlocks(ms[0]))
  }

  function Stamps(ms: seq<Msg>): (r: seq<nat>)
    ensures |r| == |ms| && forall i :: 0 <= i < |ms| ==> r[i] == ms[i].stamp
  {
    seq(|ms|, i requires 0 <= i < |ms| => ms[i].stamp)
  }

  function WrapAll(s: seq<int>): (r: seq<u32>)
    ensures |r| == |s| && forall i :: 0 <= i < |s| ==> r[i] == Wrap(s[i])
  {
    seq(|s|, i requires 0 <= i < |s| => Wrap(s[i]))
  }

  function ItemsOf(ms: seq<Msg>): (r: seq<Item>)
    requires ValidMsgs(ms)
    ensures |r| == |ms| && forall i :: 0 <= i < |ms| ==> r[i] == ItemOf(ms[i])
  {
    seq(|ms|, i requires 0 <= i < |ms| => ItemOf(ms[i]))
  }

  /** The header of an image is the header of the message, and the body follows it. */
  lemma ImageParses(le: bool, m: Msg, s: seq<byte>)
    requires ValidMsg(m)
    requires |s| >= HEADER_SIZE
    requires s <= Image(le, m) || Image(le, m) <= s
    ensures HeaderAt(le, s) == HeaderOf(m)
    ensures Extent(le, s) == 8 * MsgBlocks(m)
    ensures Whole(le, s) <==> |s| >= 8 * MsgBlocks(m)
    ensures Whole(le, s) ==> s[HEADER_SIZE..Extent(le, s)] == ItemOf(m).body
  {
    hide StoreHeader, LoadHeader;
    var h := StoreHeader(le, HeaderOf(m));
    LoadStoreHeader(le, HeaderOf(m));
    assert Image(le, m)[..HEADER_SIZE] == h;
    assert s[..HEADER_SIZE] == h;
    if |s| >= 8 * MsgBlocks(m) {
      assert s[..8 * MsgBlocks(m)] == Image(le, m);
      assert s[HEADER_SIZE..8 * MsgBlocks(m)] == Image(le, m)[HEADER_SIZE..];
      assert Image(le, m)[HEADER_SIZE..] == m.payload + m.pad;
    }
  }

  /** The first `n` bytes of images start with the first message's image and go on with the
      first bytes of the others. */
  lemma ImagesTake(le: bool, ms: seq<Msg>, n: nat)
    requires ValidMsgs(ms) && ms != [] && n <= |Images(le, ms)|
    ensures var img, e := Image(le, ms[0]), 8 * MsgBlocks(ms[0]);
      if n < e then Images(le, ms)[..n] == img[..n]
      else Images(le, ms)[..n] == img + Images(le, ms[1..])[..n - e]
  {
    hide StoreHeader, LoadHeader;
  }

  /** What a receiver sees at the front of the first `n` bytes of images. */
  lemma PrefixFront(le: bool, ms: seq<Msg>, n: nat)
    requires ValidMsgs(ms) && ms != [] && HEADER_SIZE <= n <= |Images(le, ms)|
    ensures var s, e := Images(le, ms)[..n], 8 * MsgBlocks(ms[0]);
      && HeaderAt(le, s) == HeaderOf(ms[0]) && Extent(le, s) == e
      && (Whole(le, s) <==> n >= e)
      && (n >= e ==> s[HEADER_SIZE..e] == ItemOf(ms[0]).body)
      && (n >= e ==> n - e <= |Images(le, ms[1..])| && s[e..] == Images(le, ms[1..])[..n - e])
  {
    hide StoreHeader, LoadHeader, Image, Extent, HeaderAt;
    ImagesTake(le, ms, n);
    ImageParses(le, ms[0], Images(le, ms)[..n]);
  }

  lemma {:induction false} ParsedOfPrefix(le: bool, ms: seq<Msg>, n: nat)
    requires ValidMsgs(ms) && n <= |Images(le, ms)|
    ensures Parsed(le, Images(le, ms)[..n]) == 8 * TotalBlocks(ms[..Count(ms, n)])
  {
    hide StoreHeader, LoadHeader, Image, Images, Extent, HeaderAt;
    if ms != [] && n >= HEADER_SIZE {
      PrefixFront(le, ms, n);
      var e := 8 * MsgBlocks(ms[0]);
      if n >= e {
        ParsedOfPrefix(le, ms[1..], n - e);
        assert ms[..Count(ms, n)][1..] == ms[1..][..Count(ms[1..], n - e)];
      }
    }
  }

  lemma ItemsStep(ms: seq<Msg>, c: nat)
    requires ms != [] && c < |ms| && ValidMsgs(ms)
    ensures ItemsOf(ms[..c + 1]) == [ItemOf(ms[0])] + ItemsOf(ms[1..][..c])
  {
  }

  /** Whatever number of bytes of a sequence of images has arrived, parsing finds exactly the
      messages that are complete in it. */
  lemma {:induction false} ItemsOfPrefix(le: bool, ms: seq<Msg>, n: nat)
    requires ValidMsgs(ms) && n <= |Images(le, ms)|
    ensures Items(le, Images(le, ms)[..n]) == ItemsOf(ms[..Count(ms, n)])
  {
    hide StoreHeader, LoadHeader, Image, Images, Extent, HeaderAt, ItemsOf;
    if ms != [] && n >= HEADER_SIZE {
      PrefixFront(le, ms, n);
      var e := 8 * MsgBlocks(ms[0]);
      if n >= e {
        ItemsOfPrefix(le, ms[1..], n - e);
        ItemsStep(ms, Count(ms[1..], n - e));
      }
    }
  }

  lemma StampsStep(ms: seq<Msg>, v: nat)
    requires ms != [] && v < |ms|
    ensures WrapAll(Stamps(ms[..v + 1])) == [Wrap(ms[0].stamp)] + WrapAll(Stamps(ms[1..][..v]))
  {
  }

  /** ... and the stamps of exactly the headers that are visible in it. */
  lemma {:induction false} AcksOfPrefixOfImages(le: bool, ms: seq<Msg>, n: nat)
    requires ValidMsgs(ms) && n <= |Images(le, ms)|
    ensures Acks(le, Images(le, ms)[..n]) == WrapAll(Stamps(ms[..Visible(ms, n)]))
  {
    hide StoreHeader, LoadHeader, Image, Images, Extent, HeaderAt;
    if ms != [] && n >= HEADER_SIZE {
      PrefixFront(le, ms, n);
      var e := 8 * MsgBlocks(ms[0]);
      if n >= e {
        AcksOfPrefixOfImages(le, ms[1..], n - e);
        StampsStep(ms, Visible(ms[1..], n - e));
      } else {
        StampsStep(ms, 0);
      }
    }
  }

  lemma {:induction false} ImagesAreHonest(le: bool, ms: seq<Msg>)
    requires ValidMsgs(ms) && WellTyped(ms)
    ensures Honest(le, Images(le, ms))
  {
    hide StoreHeader, LoadHeader;
    if ms != [] {
      ImageParses(le, ms[0], Images(le, ms));
      ImagesAreHonest(le, ms[1..]);
    }
  }
}
