/** What a server of the RFB protocol sends after the handshake (sections 7.6, 7.7.1 and 7.8
    of RFC 6143), as values, as bytes, and as they are read. */
module Rfb {
  import opened Bytes

  const RAW: nat := 0
  const DESKTOP_SIZE: nat := 0x1_0000_0000 - 223
  const EXTENDED_DESKTOP_SIZE: nat := 0x1_0000_0000 - 308

  datatype Rect =
    | Raw(x: nat, y: nat, w: nat, h: nat, pixels: seq<byte>)
    | Resize(x: nat, y: nat, w: nat, h: nat)
    | ExtendedResize(x: nat, y: nat, w: nat, h: nat, screens: seq<byte>)

  /** Messages to be skipped on the way to an update. */
  datatype Aside =
    | ColourMap(padding: byte, first: nat, colours: seq<byte>)
    | Bell
    | CutText(paddings: seq<byte>, text: seq<byte>)

  predicate IsU16(n: nat) { n < 0x1_0000 }

  predicate IsRect(r: Rect) {
    && IsU16(r.x) && IsU16(r.y) && IsU16(r.w) && IsU16(r.h)
    && match r
       case Raw(_, _, w, h, pixels) => |pixels| == w * h * 4
       case Resize(_, _, _, _) => true
       case ExtendedResize(_, _, _, _, screens) => |screens| >= 4 && |screens| == 4 + 16 * screens[0] as nat
  }

  predicate IsAside(m: Aside) {
    match m
    case ColourMap(_, first, colours) => IsU16(first) && |colours| % 6 == 0 && IsU16(|colours| / 6)
    case Bell => true
    case CutText(padding, text) => |padding| == 3 && |text| < 0x1_0000_0000
  }

  ghost predicate AllRects(rs: seq<Rect>) {
    forall r :: r in rs ==> IsRect(r)
  }

  // ----- As bytes -----

  function U16(n: nat): (b: seq<byte>)
    requires IsU16(n)
    ensures |b| == 2
  {
    [n / 0x100, n % 0x100]
  }

  function U32(n: nat): (b: seq<byte>)
    requires n < 0x1_0000_0000
    ensures |b| == 4
  {
    U16(n / 0x1_0000) + U16(n % 0x1_0000)
  }

  /** Encoding 0, -223 or -308, in 32 bits. */
  function CodeOf(r: Rect): nat {
    match r
    case Raw(_, _, _, _, _) => 0
    case Resize(_, _, _, _) => 0xffff_ff21
    case ExtendedResize(_, _, _, _, _) => 0xffff_fecc
  }

  function BodyOf(r: Rect): seq<byte> {
    match r
    case Raw(_, _, _, _, pixels) => pixels
    case Resize(_, _, _, _) => []
    case ExtendedResize(_, _, _, _, screens) => screens
  }

  function Header(r: Rect): (b: seq<byte>)
    requires IsRect(r)
    ensures |b| == 12
  {
    U16(r.x) + U16(r.y) + U16(r.w) + U16(r.h) + U32(CodeOf(r))
  }

  function EncodeRects(rs: seq<Rect>): seq<byte>
    requires AreRects(rs)
  {
    if rs == [] then [] else Header(rs[0]) + BodyOf(rs[0]) + EncodeRects(rs[1..])
  }

  predicate AreRects(rs: seq<Rect>) {
    rs != [] ==> IsRect(rs[0]) && AreRects(rs[1..])
  }

  function EncodeUpdate(padding: byte, rs: seq<Rect>): seq<byte>
    requires AreRects(rs) && IsU16(|rs|)
  {
    [0, padding] + U16(|rs|) + EncodeRects(rs)
  }

  function EncodeAside(m: Aside): seq<byte>
    requires IsAside(m)
  {
    match m
    case ColourMap(padding, first, colours) => [1, padding] + U16(first) + U16(|colours| / 6) + colours
    case Bell => [2]
    case CutText(padding, text) => [3] + padding + U32(|text|) + text
  }

  predicate AreAsides(ms: seq<Aside>) {
    ms != [] ==> IsAside(ms[0]) && AreAsides(ms[1..])
  }

  function EncodeAsides(ms: seq<Aside>): seq<byte>
    requires AreAsides(ms)
  {
    if ms == [] then [] else EncodeAside(ms[0]) + EncodeAsides(ms[1..])
  }

  // ----- As they are read -----

  datatype Read<+T> = Got(value: T, next: nat) | Failed

  function U16At(data: seq<byte>, at: nat): (n: nat)
    requires at + 2 <= |data|
    ensures IsU16(n)
  {
    var high: nat, low: nat := data[at], data[at + 1];
    high * 0x100 + low
  }

  function U32At(data: seq<byte>, at: nat): (n: nat)
    requires at + 4 <= |data|
    ensures n < 0x1_0000_0000
  {
    U16At(data, at) * 0x1_0000 + U16At(data, at + 2)
  }

  function RectAt(data: seq<byte>, at: nat): (read: Read<Rect>)
    ensures read.Got? ==> IsRect(read.value)
  {
    if at + 12 > |data| then Failed else
    var x, y, w, h := U16At(data, at), U16At(data, at + 2), U16At(data, at + 4), U16At(data, at + 6);
    var code, body := U32At(data, at + 8), at + 12;
    if code == RAW then
      var size := w * h * 4;
      if body + size > |data| then Failed else Got(Raw(x, y, w, h, data[body..body + size]), body + size)
    else if code == DESKTOP_SIZE then Got(Resize(x, y, w, h), body)
    else if code == EXTENDED_DESKTOP_SIZE then
      if body == |data| then Failed else
      var size := 4 + 16 * data[body] as nat;
      if body + size > |data| then Failed else Got(ExtendedResize(x, y, w, h, data[body..body + size]), body + size)
    else Failed
  }

  function RectsAt(data: seq<byte>, at: nat, count: nat): (read: Read<seq<Rect>>)
    ensures read.Got? ==> AllRects(read.value)
    decreases count
  {
    if count == 0 then Got([], at) else
    match RectAt(data, at)
    case Failed => Failed
    case Got(r, next) =>
      match RectsAt(data, next, count - 1)
      case Failed => Failed
      case Got(rs, end) => Got([r] + rs, end)
  }

  /** Past everything else, the rectangles of the next update. */
  function UpdateAt(data: seq<byte>, at: nat): (read: Read<seq<Rect>>)
    ensures read.Got? ==> AllRects(read.value)
    decreases |data| - at
  {
    if at >= |data| then Failed
    else if data[at] == 0 then
      if at + 4 > |data| then Failed else RectsAt(data, at + 4, U16At(data, at + 2))
    else if data[at] == 1 then
      if at + 6 > |data| then Failed else
      var next := at + 6 + U16At(data, at + 4) * 6;
      if next > |data| then Failed else UpdateAt(data, next)
    else if data[at] == 2 then UpdateAt(data, at + 1)
    else if data[at] == 3 then
      if at + 8 > |data| then Failed else
      var next := at + 8 + U32At(data, at + 4);
      if next > |data| then Failed else UpdateAt(data, next)
    else Failed
  }

  // ----- Reading back what was written -----

  predicate Slice(data: seq<byte>, at: nat, bytes: seq<byte>) {
    at + |bytes| <= |data| && data[at..at + |bytes|] == bytes
  }

  lemma SliceOfTwo(data: seq<byte>, at: nat, a: seq<byte>, b: seq<byte>)
    requires Slice(data, at, a + b)
    ensures Slice(data, at, a) && Slice(data, at + |a|, b)
  {
    var both := data[at..at + |a + b|];
    assert data[at..at + |a|] == both[..|a|];
    assert data[at + |a|..at + |a| + |b|] == both[|a|..];
  }

  lemma U16ReadBack(data: seq<byte>, at: nat, n: nat)
    requires IsU16(n) && Slice(data, at, U16(n))
    ensures U16At(data, at) == n
  {
    assert data[at..at + 2][0] == data[at] && data[at..at + 2][1] == data[at + 1];
  }

  lemma U32ReadBack(data: seq<byte>, at: nat, n: nat)
    requires n < 0x1_0000_0000 && Slice(data, at, U32(n))
    ensures U32At(data, at) == n
  {
    var high, low := n / 0x1_0000, n % 0x1_0000;
    SliceOfTwo(data, at, U16(high), U16(low));
    U16ReadBack(data, at, high);
    U16ReadBack(data, at + 2, low);
  }

  lemma HeaderReadBack(data: seq<byte>, at: nat, r: Rect)
    requires IsRect(r) && Slice(data, at, Header(r))
    ensures U16At(data, at) == r.x && U16At(data, at + 2) == r.y && U16At(data, at + 4) == r.w && U16At(data, at + 6) == r.h
    ensures U32At(data, at + 8) == CodeOf(r)
  {
    SliceOfTwo(data, at, U16(r.x) + U16(r.y) + U16(r.w) + U16(r.h), U32(CodeOf(r)));
    SliceOfTwo(data, at, U16(r.x) + U16(r.y) + U16(r.w), U16(r.h));
    SliceOfTwo(data, at, U16(r.x) + U16(r.y), U16(r.w));
    SliceOfTwo(data, at, U16(r.x), U16(r.y));
    U16ReadBack(data, at, r.x);
    U16ReadBack(data, at + 2, r.y);
    U16ReadBack(data, at + 4, r.w);
    U16ReadBack(data, at + 6, r.h);
    U32ReadBack(data, at + 8, CodeOf(r));
  }

  lemma RectReadBack(data: seq<byte>, at: nat, r: Rect)
    requires IsRect(r) && Slice(data, at, Header(r) + BodyOf(r))
    ensures RectAt(data, at) == Got(r, at + 12 + |BodyOf(r)|)
  {
    SliceOfTwo(data, at, Header(r), BodyOf(r));
    HeaderReadBack(data, at, r);
    if r.ExtendedResize? {
      assert data[at + 12] == data[at + 12..at + 12 + |r.screens|][0];
    }
  }

  lemma FirstRect(data: seq<byte>, at: nat, next: nat, r: Rect, rest: seq<byte>)
    requires IsRect(r) && next == at + 12 + |BodyOf(r)| && Slice(data, at, Header(r) + BodyOf(r) + rest)
    ensures RectAt(data, at) == Got(r, next) && Slice(data, next, rest)
  {
    SliceOfTwo(data, at, Header(r) + BodyOf(r), rest);
    RectReadBack(data, at, r);
  }

  /** From `at` to `end` the rectangles stand one after another. */
  predicate Stand(data: seq<byte>, at: nat, rs: seq<Rect>, end: nat)
    decreases |rs|
  {
    if rs == [] then at == end
    else RectAt(data, at).Got? && RectAt(data, at).value == rs[0] && Stand(data, RectAt(data, at).next, rs[1..], end)
  }

  lemma {:induction false} StandingAreRead(data: seq<byte>, at: nat, rs: seq<Rect>, end: nat)
    requires Stand(data, at, rs, end)
    ensures RectsAt(data, at, |rs|) == Got(rs, end)
    decreases |rs|
  {
    if rs != [] {
      StandingAreRead(data, RectAt(data, at).next, rs[1..], end);
      assert [rs[0]] + rs[1..] == rs;
    }
  }

  lemma {:induction false} EncodedStand(data: seq<byte>, at: nat, rs: seq<Rect>, end: nat)
    requires AreRects(rs) && Slice(data, at, EncodeRects(rs)) && end == at + |EncodeRects(rs)|
    ensures Stand(data, at, rs, end)
    decreases |rs|
  {
    if rs != [] {
      var next := at + 12 + |BodyOf(rs[0])|;
      FirstRect(data, at, next, rs[0], EncodeRects(rs[1..]));
      EncodedStand(data, next, rs[1..], end);
    }
  }

  lemma RectsReadBack(data: seq<byte>, at: nat, end: nat, rs: seq<Rect>)
    requires AreRects(rs) && Slice(data, at, EncodeRects(rs)) && end == at + |EncodeRects(rs)|
    ensures RectsAt(data, at, |rs|) == Got(rs, end)
  {
    EncodedStand(data, at, rs, end);
    StandingAreRead(data, at, rs, end);
  }

  lemma UpdateReadBack(data: seq<byte>, at: nat, end: nat, padding: byte, rs: seq<Rect>)
    requires AreRects(rs) && IsU16(|rs|) && Slice(data, at, EncodeUpdate(padding, rs)) && end == at + |EncodeUpdate(padding, rs)|
    ensures UpdateAt(data, at) == Got(rs, end)
  {
    SliceOfTwo(data, at, [0, padding] + U16(|rs|), EncodeRects(rs));
    SliceOfTwo(data, at, [0, padding], U16(|rs|));
    assert data[at] == data[at..at + 2][0];
    U16ReadBack(data, at + 2, |rs|);
    RectsReadBack(data, at + 4, end, rs);
  }

  lemma ColourMapIsSkipped(data: seq<byte>, at: nat, padding: byte, first: nat, colours: seq<byte>)
    requires IsAside(ColourMap(padding, first, colours)) && Slice(data, at, EncodeAside(ColourMap(padding, first, colours)))
    ensures UpdateAt(data, at) == UpdateAt(data, at + |EncodeAside(ColourMap(padding, first, colours))|)
  {
    var count := |colours| / 6;
    SliceOfTwo(data, at, [1, padding] + U16(first) + U16(count), colours);
    SliceOfTwo(data, at, [1, padding] + U16(first), U16(count));
    SliceOfTwo(data, at, [1, padding], U16(first));
    assert data[at] == data[at..at + 2][0];
    U16ReadBack(data, at + 4, count);
  }

  lemma CutTextIsSkipped(data: seq<byte>, at: nat, paddings: seq<byte>, text: seq<byte>)
    requires IsAside(CutText(paddings, text)) && Slice(data, at, EncodeAside(CutText(paddings, text)))
    ensures UpdateAt(data, at) == UpdateAt(data, at + |EncodeAside(CutText(paddings, text))|)
  {
    SliceOfTwo(data, at, [3] + paddings + U32(|text|), text);
    SliceOfTwo(data, at, [3] + paddings, U32(|text|));
    assert data[at] == data[at..at + 4][0];
    U32ReadBack(data, at + 4, |text|);
  }

  lemma AsideIsSkipped(data: seq<byte>, at: nat, m: Aside)
    requires IsAside(m) && Slice(data, at, EncodeAside(m))
    ensures UpdateAt(data, at) == UpdateAt(data, at + |EncodeAside(m)|)
  {
    match m
    case ColourMap(padding, first, colours) => ColourMapIsSkipped(data, at, padding, first, colours);
    case CutText(paddings, text) => CutTextIsSkipped(data, at, paddings, text);
    case Bell => assert data[at] == data[at..at + 1][0];
  }

  lemma FirstAside(data: seq<byte>, at: nat, next: nat, m: Aside, rest: seq<byte>)
    requires IsAside(m) && next == at + |EncodeAside(m)| && Slice(data, at, EncodeAside(m) + rest)
    ensures UpdateAt(data, at) == UpdateAt(data, next) && Slice(data, next, rest)
  {
    SliceOfTwo(data, at, EncodeAside(m), rest);
    AsideIsSkipped(data, at, m);
  }

  lemma SliceRegrouped(data: seq<byte>, at: nat, a: seq<byte>, b: seq<byte>, c: seq<byte>)
    requires Slice(data, at, a + b + c)
    ensures Slice(data, at, a + (b + c))
  {
    assert a + b + c == a + (b + c);
  }

  lemma {:induction false} AsidesSkipped(data: seq<byte>, at: nat, end: nat, asides: seq<Aside>, update: seq<byte>)
    requires AreAsides(asides) && Slice(data, at, EncodeAsides(asides) + update) && end == at + |EncodeAsides(asides)|
    ensures UpdateAt(data, at) == UpdateAt(data, end) && Slice(data, end, update)
    decreases |asides|
  {
    if asides == [] {
      assert EncodeAsides(asides) + update == update;
    } else {
      var next, rest := at + |EncodeAside(asides[0])|, EncodeAsides(asides[1..]);
      SliceRegrouped(data, at, EncodeAside(asides[0]), rest, update);
      FirstAside(data, at, next, asides[0], rest + update);
      AsidesSkipped(data, next, end, asides[1..], update);
    }
  }

  /** Whatever colour maps, bells and cut texts come before it, of any length, exactly the
      first update is read, and exactly its bytes and theirs are consumed. */
  lemma StaysInStep(data: seq<byte>, at: nat, end: nat, asides: seq<Aside>, padding: byte, rs: seq<Rect>)
    requires AreAsides(asides) && AreRects(rs) && IsU16(|rs|)
    requires Slice(data, at, EncodeAsides(asides) + EncodeUpdate(padding, rs))
    requires end == at + |EncodeAsides(asides) + EncodeUpdate(padding, rs)|
    ensures UpdateAt(data, at) == Got(rs, end)
  {
    var next := at + |EncodeAsides(asides)|;
    AsidesSkipped(data, at, next, asides, EncodeUpdate(padding, rs));
    UpdateReadBack(data, next, end, padding, rs);
  }
}
