/** The receive buffer as bytes: how its live region relates to the raw stream. */
module RecvBuffer {
  import opened Words
  import opened Memory
  import opened MsgHeader
  import opened Wire

  /** Raw bytes whose first header, if completely present, has been converted for the host. */
  ghost function Peek(host: bool, le: bool, s: seq<byte>): (v: seq<byte>)
    ensures |v| == |s|
  {
    if |s| < HEADER_SIZE then s else StoreHeader(host, HeaderAt(le, s)) + s[HEADER_SIZE..]
  }

  /** Bytes `r..n` of the buffer are whole messages `pre` in host form, and bytes `n..w` are the
      raw bytes `rest`, with their header converted if `peeked`. */
  ghost predicate Layout(host: bool, le: bool, mem: seq<byte>, r: nat, n: nat, w: nat,
                         pre: seq<byte>, rest: seq<byte>, peeked: bool)
  {
    && r <= n <= w <= |mem|
    && r % 8 == 0 && n % 8 == 0
    && Parsed(le, pre) == |pre|
    && mem[r..n] == View(host, le, pre)
    && mem[n..w] == if peeked then Peek(host, le, rest) else rest
  }

  /** Between calls the header of the incomplete message, if there, is converted. */
  ghost predicate Settled(host: bool, le: bool, mem: seq<byte>, r: nat, n: nat, w: nat,
                          pre: seq<byte>, rest: seq<byte>)
  {
    Layout(host, le, mem, r, n, w, pre, rest, true) && !Whole(le, rest)
  }

  lemma LayoutBounds(host: bool, le: bool, mem: seq<byte>, r: nat, n: nat, w: nat,
                     pre: seq<byte>, rest: seq<byte>, peeked: bool)
    requires Layout(host, le, mem, r, n, w, pre, rest, peeked)
    ensures r <= n <= w <= |mem| && |pre| == n - r && |rest| == w - n
  {
  }

  lemma PeekHeader(host: bool, le: bool, s: seq<byte>)
    requires |s| >= HEADER_SIZE
    ensures LoadHeader(host, Peek(host, le, s)[..HEADER_SIZE]) == HeaderAt(le, s)
  {
  }

  /** The header at offset `n` of a buffer that holds peeked bytes there. */
  lemma HeaderInPlace(host: bool, le: bool, mem: seq<byte>, n: nat, w: nat, rest: seq<byte>)
    requires n + HEADER_SIZE <= w <= |mem| && mem[n..w] == Peek(host, le, rest)
    ensures LoadHeader(host, mem[n..n + HEADER_SIZE]) == HeaderAt(le, rest)
  {
    PeekHeader(host, le, rest);
    SubSlice(mem, n, w, 0, HEADER_SIZE);
  }

  lemma OverwriteFront(mem: seq<byte>, n: nat, b: seq<byte>, w: nat)
    requires n + |b| <= w <= |mem|
    ensures Overwrite(mem, n, b)[n..w] == b + mem[n..w][|b|..]
    ensures Overwrite(mem, n, b)[..n] == mem[..n]
  {
  }

  /** Converting the raw header in place. */
  lemma ConvertInPlace(host: bool, le: bool, mem: seq<byte>, n: nat, w: nat, rest: seq<byte>)
    requires n + HEADER_SIZE <= w <= |mem| && mem[n..w] == rest
    ensures var h := ConvertByteOrder(host, le, LoadHeader(host, mem[n..n + HEADER_SIZE]));
      var mem' := Overwrite(mem, n, StoreHeader(host, h));
      mem'[n..w] == Peek(host, le, rest) && mem'[..n] == mem[..n]
  {
    hide StoreHeader, LoadHeader, ConvertByteOrder;
    SubSlice(mem, n, w, 0, HEADER_SIZE);
    ConvertReadsWire(host, le, rest[..HEADER_SIZE]);
    OverwriteFront(mem, n, StoreHeader(host, HeaderAt(le, rest)), w);
  }

  /** A whole message parses on its own. */
  lemma ParseWhole(le: bool, s: seq<byte>)
    requires Whole(le, s)
    ensures var e := Extent(le, s);
      && Parsed(le, s[..e]) == e
      && Items(le, s[..e]) == [Item(HeaderAt(le, s), s[HEADER_SIZE..e])]
      && Whole(le, s[..e]) && Extent(le, s[..e]) == e && HeaderAt(le, s[..e]) == HeaderAt(le, s)
  {
    hide StoreHeader, LoadHeader;
    var e := Extent(le, s);
    var a := s[..e];
    assert a[..HEADER_SIZE] == s[..HEADER_SIZE];
    assert a[e..] == [] && a[HEADER_SIZE..e] == s[HEADER_SIZE..e];
  }

  /** A whole message in peeked form is its view. */
  lemma PeekWhole(host: bool, le: bool, s: seq<byte>)
    requires Whole(le, s)
    ensures var e := Extent(le, s);
      && Peek(host, le, s)[..e] == View(host, le, s[..e])
      && Peek(host, le, s)[e..] == s[e..]
  {
    hide StoreHeader, LoadHeader;
    ParseWhole(le, s);
    var e := Extent(le, s);
    var a := s[..e];
    assert a[HEADER_SIZE..e] == s[HEADER_SIZE..e] && a[e..] == [];
    assert View(host, le, a) == StoreHeader(host, HeaderAt(le, s)) + (s[HEADER_SIZE..e] + []);
  }

  /** Appending a whole message to parsed ones. */
  lemma AppendWhole(host: bool, le: bool, pre: seq<byte>, rest: seq<byte>)
    requires Parsed(le, pre) == |pre| && Whole(le, rest)
    ensures var e := Extent(le, rest);
      && Parsed(le, pre + rest[..e]) == |pre| + e
      && View(host, le, pre + rest[..e]) == View(host, le, pre) + Peek(host, le, rest)[..e]
      && Items(le, pre + rest[..e]) == Items(le, pre) + [Item(HeaderAt(le, rest), rest[HEADER_SIZE..e])]
  {
    hide StoreHeader, LoadHeader, Items, Parsed, View, Peek;
    var e := Extent(le, rest);
    ParseWhole(le, rest);
    PeekWhole(host, le, rest);
    ParseAppend(le, pre, rest[..e]);
    ViewAppend(host, le, pre, rest[..e]);
  }

  /** Bytes `r..n` and `n..w`, cut `e` bytes later. */
  lemma Recut(mem: seq<byte>, r: nat, n: nat, w: nat, e: nat)
    requires r <= n && n + e <= w <= |mem|
    ensures mem[r..n + e] == mem[r..n] + mem[n..w][..e]
    ensures mem[n + e..w] == mem[n..w][e..]
  {
  }

  /** Moving the parse position over a whole message. */
  lemma LayoutAdvance(host: bool, le: bool, mem: seq<byte>, r: nat, n: nat, w: nat,
                      pre: seq<byte>, rest: seq<byte>)
    requires Layout(host, le, mem, r, n, w, pre, rest, true) && Whole(le, rest)
    ensures var e := Extent(le, rest);
      && Layout(host, le, mem, r, n + e, w, pre + rest[..e], rest[e..], false)
      && Items(le, pre + rest[..e]) == Items(le, pre) + [Item(HeaderAt(le, rest), rest[HEADER_SIZE..e])]
  {
    hide StoreHeader, LoadHeader, View, Peek, Items, Parsed, Extent, Whole;
    WholeBounds(le, rest);
    var e := Extent(le, rest);
    AppendWhole(host, le, pre, rest);
    PeekWhole(host, le, rest);
    Recut(mem, r, n, w, e);
  }

  lemma WholeBounds(le: bool, s: seq<byte>)
    requires Whole(le, s)
    ensures HEADER_SIZE <= |s| && HEADER_SIZE <= Extent(le, s) <= |s|
  {
  }

  lemma ViewFirst(host: bool, le: bool, pre: seq<byte>)
    requires Whole(le, pre)
    ensures var e, v := Extent(le, pre), View(host, le, pre);
      && e <= |v|
      && LoadHeader(host, v[..HEADER_SIZE]) == HeaderAt(le, pre)
      && v[HEADER_SIZE..e] == pre[HEADER_SIZE..e]
      && v[e..] == View(host, le, pre[e..])
  {
    hide StoreHeader, LoadHeader;
    var h := StoreHeader(host, HeaderAt(le, pre));
    LoadStoreHeader(host, HeaderAt(le, pre));
    assert View(host, le, pre)[..HEADER_SIZE] == h;
  }

  /** The first of the whole messages: its header and body in the buffer, and what remains. */
  lemma LayoutFirst(host: bool, le: bool, mem: seq<byte>, r: nat, n: nat, w: nat,
                    pre: seq<byte>, rest: seq<byte>, peeked: bool)
    requires Layout(host, le, mem, r, n, w, pre, rest, peeked) && r < n
    ensures Whole(le, pre)
    ensures var e := Extent(le, pre);
      && r + e <= n
      && LoadHeader(host, mem[r..r + HEADER_SIZE]) == HeaderAt(le, pre)
      && mem[r + HEADER_SIZE..r + e] == pre[HEADER_SIZE..e]
      && Layout(host, le, mem, r + e, n, w, pre[e..], rest, peeked)
      && Items(le, pre) == [Item(HeaderAt(le, pre), pre[HEADER_SIZE..e])] + Items(le, pre[e..])
  {
    hide StoreHeader, LoadHeader, View, Extent, HeaderAt, Peek;
    var e := Extent(le, pre);
    WholeBounds(le, pre);
    ViewFirst(host, le, pre);
    SubSlice(mem, r, n, 0, HEADER_SIZE);
    SubSlice(mem, r, n, HEADER_SIZE, e);
    SubSlice(mem, r, n, e, n - r);
  }

  lemma SplitSlice(mem: seq<byte>, r: nat, n: nat, w: nat)
    requires r <= n <= w <= |mem|
    ensures mem[r..w][..n - r] == mem[r..n] && mem[r..w][n - r..] == mem[n..w]
  {
  }

  /** A live region moved, with bytes appended, is cut at the same place. */
  lemma MovedSlices(mem: seq<byte>, r: nat, n: nat, w: nat, mem': seq<byte>, r': nat, data: seq<byte>)
    requires r <= n <= w <= |mem|
    requires r' + (w - r) + |data| <= |mem'|
    requires mem'[r'..r' + (w - r) + |data|] == mem[r..w] + data
    ensures mem'[r'..r' + (n - r)] == mem[r..n]
    ensures mem'[r' + (n - r)..r' + (w - r) + |data|] == mem[n..w] + data
  {
    var live := mem[r..w];
    SplitSlice(mem, r, n, w);
    SplitSlice(mem', r', r' + (n - r), r' + (w - r) + |data|);
    assert (live + data)[..n - r] == live[..n - r];
    assert (live + data)[n - r..] == live[n - r..] + data;
  }

  lemma PeekAppend(host: bool, le: bool, rest: seq<byte>, data: seq<byte>)
    ensures if |rest| >= HEADER_SIZE then Peek(host, le, rest + data) == Peek(host, le, rest) + data
      else Peek(host, le, rest) == rest
  {
    hide StoreHeader, LoadHeader;
    if |rest| >= HEADER_SIZE {
      WholeAppend(le, rest, data);
    }
  }

  /** The received bytes stand behind the live region, wherever that has been moved. */
  lemma LayoutMove(host: bool, le: bool, mem: seq<byte>, r: nat, n: nat, w: nat,
                   pre: seq<byte>, rest: seq<byte>,
                   mem': seq<byte>, r': nat, data: seq<byte>)
    requires Settled(host, le, mem, r, n, w, pre, rest)
    requires r' % 8 == 0 && r' + (w - r) + |data| <= |mem'|
    requires mem'[r'..r' + (w - r) + |data|] == mem[r..w] + data
    ensures Layout(host, le, mem', r', r' + (n - r), r' + (w - r) + |data|, pre, rest + data, |rest| >= HEADER_SIZE)
  {
    hide Peek, View, Parsed, Whole;
    MovedSlices(mem, r, n, w, mem', r', data);
    PeekAppend(host, le, rest, data);
  }

  /** The application messages in a run of bytes. */
  function Apps(le: bool, s: seq<byte>): seq<Item> {
    AppItems(Items(le, s))
  }

  /** No heartbeat stands at the front. */
  predicate HeadIsApp(le: bool, pre: seq<byte>) {
    Whole(le, pre) ==> HeaderAt(le, pre).msgType != 0
  }

  /** What stands behind the first whole message. */
  lemma AfterFirst(le: bool, pre: seq<byte>)
    requires Parsed(le, pre) == |pre| && Honest(le, pre) && Whole(le, pre)
    ensures var e := Extent(le, pre);
      && Items(le, pre) == [Item(HeaderAt(le, pre), pre[HEADER_SIZE..e])] + Items(le, pre[e..])
      && Parsed(le, pre[e..]) == |pre| - e
      && Honest(le, pre[e..]) && HonestHeader(HeaderAt(le, pre))
  {
    hide StoreHeader, LoadHeader;
  }

  /** Handing the first whole message over from the waiting bytes to the consumed ones. */
  lemma ConsumeFirst(le: bool, consumed: seq<byte>, pre: seq<byte>)
    requires Parsed(le, consumed) == |consumed| && Whole(le, pre)
    ensures var e := Extent(le, pre);
      && Parsed(le, consumed + pre[..e]) == |consumed| + e
      && Items(le, consumed + pre[..e]) == Items(le, consumed) + [Item(HeaderAt(le, pre), pre[HEADER_SIZE..e])]
  {
    hide StoreHeader, LoadHeader, Items, Parsed;
    ParseWhole(le, pre);
    ParseAppend(le, consumed, pre[..Extent(le, pre)]);
  }

  /** The same for the application messages: a heartbeat disappears, another message is handed
      over. */
  lemma ConsumeApps(le: bool, consumed: seq<byte>, pre: seq<byte>)
    requires Parsed(le, consumed) == |consumed| && Parsed(le, pre) == |pre| && Honest(le, pre) && Whole(le, pre)
    ensures var e := Extent(le, pre);
      if HeaderAt(le, pre).msgType == 0 then
        Apps(le, consumed + pre[..e]) == Apps(le, consumed) && Apps(le, pre) == Apps(le, pre[e..])
      else
        && Apps(le, pre) != []
        && Apps(le, consumed + pre[..e]) == Apps(le, consumed) + [Apps(le, pre)[0]]
        && Apps(le, pre[e..]) == Apps(le, pre)[1..]
  {
    hide StoreHeader, LoadHeader, Items, Parsed, Honest;
    ConsumeFirst(le, consumed, pre);
    AfterFirst(le, pre);
    var it := Item(HeaderAt(le, pre), pre[HEADER_SIZE..Extent(le, pre)]);
    AppItemsAppend(Items(le, consumed), [it]);
    assert AppItems([it]) == if IsAppItem(it) then [it] else [];
    AppItemsAppend([it], Items(le, pre[Extent(le, pre)..]));
  }

  /** Adding a parsed message to the waiting ones. */
  lemma HonestAppend(le: bool, a: seq<byte>, b: seq<byte>)
    requires Parsed(le, a) == |a| && Honest(le, a) && Honest(le, b)
    ensures Honest(le, a + b)
    decreases |a|
  {
    hide StoreHeader, LoadHeader;
    if a == [] {
      assert a + b == b;
    } else {
      WholeAppend(le, a, b);
      HonestAppend(le, a[Extent(le, a)..], b);
    }
  }

  /** All of a stream's application messages are in its parsed part. */
  lemma AppsOfStream(le: bool, consumed: seq<byte>, pre: seq<byte>, rest: seq<byte>)
    requires Parsed(le, consumed) == |consumed| && Parsed(le, pre) == |pre| && !Whole(le, rest)
    ensures Apps(le, consumed + pre + rest) == Apps(le, consumed) + Apps(le, pre)
    ensures Parsed(le, consumed + pre + rest) == |consumed| + |pre|
  {
    hide StoreHeader, LoadHeader;
    ParseAppend(le, consumed, pre);
    ParseAppend(le, consumed + pre, rest);
    assert Items(le, consumed + pre + rest) == Items(le, consumed) + Items(le, pre);
    AppItemsAppend(Items(le, consumed), Items(le, pre));
  }

  lemma HonestRest(le: bool, rest: seq<byte>)
    requires Honest(le, rest) && Whole(le, rest)
    ensures Honest(le, rest[..Extent(le, rest)]) && Honest(le, rest[Extent(le, rest)..])
  {
    hide StoreHeader, LoadHeader;
    var e := Extent(le, rest);
    ParseWhole(le, rest);
    assert rest[..e][e..] == [];
  }

  /** A whole message joins the waiting ones. */
  lemma JoinWaiting(host: bool, le: bool, mem: seq<byte>, r: nat, n: nat, w: nat, pre: seq<byte>, rest: seq<byte>)
    requires Layout(host, le, mem, r, n, w, pre, rest, true) && Whole(le, rest)
    requires Honest(le, pre) && Honest(le, rest) && HeadIsApp(le, pre)
    requires HeaderAt(le, rest).msgType != 0 || r < n
    ensures var e := Extent(le, rest);
      && Layout(host, le, mem, r, n + e, w, pre + rest[..e], rest[e..], false)
      && Honest(le, pre + rest[..e]) && Honest(le, rest[e..]) && HeadIsApp(le, pre + rest[..e])
  {
    hide StoreHeader, LoadHeader, Honest, Peek, View, Items;
    var e := Extent(le, rest);
    LayoutAdvance(host, le, mem, r, n, w, pre, rest);
    HonestRest(le, rest);
    HonestAppend(le, pre, rest[..e]);
    ParseWhole(le, rest);
    if pre == [] {
      assert pre + rest[..e] == rest[..e];
    } else {
      WholeAppend(le, pre, rest[..e]);
    }
  }

  /** Appending a heartbeat to parsed bytes adds no application message. */
  lemma ConsumeHeartbeat(le: bool, consumed: seq<byte>, rest: seq<byte>)
    requires Parsed(le, consumed) == |consumed| && Whole(le, rest) && HeaderAt(le, rest).msgType == 0
    ensures var e := Extent(le, rest);
      && Parsed(le, consumed + rest[..e]) == |consumed| + e
      && Apps(le, consumed + rest[..e]) == Apps(le, consumed)
  {
    hide StoreHeader, LoadHeader, Items, Parsed, Extent;
    ConsumeFirst(le, consumed, rest);
    var it := Item(HeaderAt(le, rest), rest[HEADER_SIZE..Extent(le, rest)]);
    AppItemsAppend(Items(le, consumed), [it]);
    assert AppItems([it]) == [];
  }

  /** A message that arrives when none is waiting is passed over. */
  lemma PassOver(host: bool, le: bool, mem: seq<byte>, n: nat, w: nat, pre: seq<byte>, rest: seq<byte>)
    requires Layout(host, le, mem, n, n, w, pre, rest, true) && Whole(le, rest)
    ensures pre == []
    ensures Layout(host, le, mem, n + Extent(le, rest), n + Extent(le, rest), w, pre, rest[Extent(le, rest)..], false)
  {
    hide StoreHeader, LoadHeader, Peek, Extent;
    PeekWhole(host, le, rest);
    Recut(mem, n, n, w, Extent(le, rest));
  }

  /** With no heartbeat in front, the first whole message is the first application message. */
  lemma HeadIsFirstApp(le: bool, pre: seq<byte>)
    requires Parsed(le, pre) == |pre| && HeadIsApp(le, pre)
    ensures pre == [] <==> Apps(le, pre) == []
    ensures pre != [] ==> Whole(le, pre)
    ensures pre != [] ==> Apps(le, pre)[0] == Item(HeaderAt(le, pre), pre[HEADER_SIZE..Extent(le, pre)])
  {
    hide StoreHeader, LoadHeader;
  }
}
