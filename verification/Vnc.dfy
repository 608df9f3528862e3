/** Capturing the screen of a guest over RFB (`src/vnc.rs`). What the server will ever send is
    given; reading moves along it and fails where it ends. */
module Vnc {
  import opened Wrappers
  import opened Bytes
  import opened Rfb
  import opened Pixels

  const CAPTURE_ATTEMPTS: nat := 4

  datatype Screen = Screen(width: nat, height: nat, rgb: seq<byte>)

  // ----- What becomes of the size -----

  function SizeWith(r: Rect, size: (nat, nat)): (nat, nat) {
    if r.Raw? then size else (r.w, r.h)
  }

  /** What a place shows that showed `was`. */
  ghost function ShownWith(r: Rect, was: Colour, x: nat, y: nat): Colour
    requires IsRect(r)
  {
    if Covers(r, x, y) then Shade(r, x, y) else was
  }

  /** The size after some rectangles. */
  function SizeAfter(rs: seq<Rect>, size: (nat, nat)): (nat, nat) {
    if rs == [] then size else SizeWith(rs[|rs| - 1], SizeAfter(rs[..|rs| - 1], size))
  }

  /** Whether one of them told a size that was not the size then. */
  predicate Changes(rs: seq<Rect>, size: (nat, nat)) {
    rs != [] &&
    var before := rs[..|rs| - 1];
    Changes(before, size) || SizeAfter(rs, size) != SizeAfter(before, size)
  }

  lemma {:induction false} UnchangedSize(rs: seq<Rect>, size: (nat, nat))
    ensures Changes(rs, size) || SizeAfter(rs, size) == size
  {
    if rs != [] {
      UnchangedSize(rs[..|rs| - 1], size);
    }
  }

  /** What the server sends for one request: the rectangles of the next update, where it ends
      and the size it leaves. */
  datatype Update = Update(rects: seq<Rect>, next: nat, size: (nat, nat))

  /** The first of at most `attempts` updates that changes no size. */
  function CaptureAt(data: seq<byte>, at: nat, size: (nat, nat), attempts: nat): Option<Update>
    decreases attempts
  {
    if attempts == 0 then None else
    match UpdateAt(data, at)
    case Failed => None
    case Got(rects, next) =>
      if Changes(rects, size) then CaptureAt(data, next, SizeAfter(rects, size), attempts - 1)
      else Some(Update(rects, next, size))
  }

  /** The size is what the last rectangle that tells one tells, or else what it was. */
  lemma {:induction false} SizeIsLastTold(rs: seq<Rect>, size: (nat, nat), last: int)
    requires -1 <= last < |rs| && (last >= 0 ==> !rs[last].Raw?)
    requires forall i :: last < i < |rs| ==> rs[i].Raw?
    ensures SizeAfter(rs, size) == if last < 0 then size else (rs[last].w, rs[last].h)
  {
    if last < |rs| - 1 {
      SizeIsLastTold(rs[..|rs| - 1], size, last);
    }
  }

  predicate AllTell(rs: seq<Rect>, size: (nat, nat)) {
    forall i :: 0 <= i < |rs| && !rs[i].Raw? ==> (rs[i].w, rs[i].h) == size
  }

  /** A size changes exactly when some rectangle tells another. */
  lemma {:induction false} ChangesExactly(rs: seq<Rect>, size: (nat, nat))
    ensures Changes(rs, size) <==> !AllTell(rs, size)
  {
    if rs != [] {
      var before := rs[..|rs| - 1];
      ChangesExactly(before, size);
      UnchangedSize(before, size);
      assert AllTell(rs, size) ==> AllTell(before, size);
      if AllTell(before, size) && !AllTell(rs, size) {
        assert !rs[|rs| - 1].Raw?;
      }
    }
  }

  /** Updates one after another, with the places where they begin and end and the sizes before
      them: each but the last changes the size, and the last does not. */
  ghost predicate IsCapture(data: seq<byte>, at: nat, size: (nat, nat), us: seq<seq<Rect>>, ats: seq<nat>, sizes: seq<(nat, nat)>) {
    && us != [] && |ats| == |us| + 1 && |sizes| == |us| && ats[0] == at && sizes[0] == size
    && (forall i :: 0 <= i < |us| ==> UpdateAt(data, ats[i]) == Got(us[i], ats[i + 1]))
    && (forall i :: 0 <= i < |us| - 1 ==> !AllTell(us[i], sizes[i]) && sizes[i + 1] == SizeAfter(us[i], sizes[i]))
    && AllTell(us[|us| - 1], sizes[|us| - 1])
  }

  /** There is a capture exactly when the first update that changes no size is among so many, and
      that is the one. */
  lemma {:induction false} CaptureIsFirstSteady(data: seq<byte>, at: nat, size: (nat, nat), attempts: nat)
      returns (us: seq<seq<Rect>>, ats: seq<nat>, sizes: seq<(nat, nat)>)
    ensures
      var found := CaptureAt(data, at, size, attempts);
      found.Some? ==>
        && |us| <= attempts && IsCapture(data, at, size, us, ats, sizes)
        && found.value == Update(us[|us| - 1], ats[|us|], sizes[|us| - 1])
    decreases attempts
  {
    us, ats, sizes := [], [], [];
    if CaptureAt(data, at, size, attempts).Some? {
      var Got(rects, next) := UpdateAt(data, at);
      ChangesExactly(rects, size);
      if Changes(rects, size) {
        us, ats, sizes := CaptureIsFirstSteady(data, next, SizeAfter(rects, size), attempts - 1);
        us, ats, sizes := [rects] + us, [at] + ats, [size] + sizes;
      } else {
        us, ats, sizes := [rects], [at, next], [size];
      }
    }
  }

  lemma {:induction false} FirstSteadyIsCaptured(data: seq<byte>, at: nat, size: (nat, nat), attempts: nat,
                                                 us: seq<seq<Rect>>, ats: seq<nat>, sizes: seq<(nat, nat)>)
    requires |us| <= attempts && IsCapture(data, at, size, us, ats, sizes)
    ensures CaptureAt(data, at, size, attempts) == Some(Update(us[|us| - 1], ats[|us|], sizes[|us| - 1]))
    decreases attempts
  {
    assert UpdateAt(data, ats[0]) == Got(us[0], ats[1]);
    ChangesExactly(us[0], size);
    if |us| > 1 {
      assert us[1..][|us| - 2] == us[|us| - 1] && ats[1..][|us| - 1] == ats[|us|] && sizes[1..][|us| - 2] == sizes[|us| - 1];
      FirstSteadyIsCaptured(data, ats[1], sizes[1], attempts - 1, us[1..], ats[1..], sizes[1..]);
    }
  }

  ghost function Joined(done: seq<Rect>, rest: Read<seq<Rect>>): Read<seq<Rect>> {
    match rest
    case Failed => Failed
    case Got(rs, next) => Got(done + rs, next)
  }

  lemma JoinedMore(done: seq<Rect>, r: Rect, rest: Read<seq<Rect>>)
    ensures Joined(done + [r], rest) == Joined(done, Joined([r], rest))
  {
    if rest.Got? {
      assert done + [r] + rest.value == done + ([r] + rest.value);
    }
  }

  lemma JoinedNone(rest: Read<seq<Rect>>)
    ensures Joined([], rest) == rest
  {
    if rest.Got? {
      assert [] + rest.value == rest.value;
    }
  }

  /** One more rectangle of an update, or the end of it. */
  lemma JoinedNext(all: Read<seq<Rect>>, done: seq<Rect>, data: seq<byte>, at: nat, count: nat)
    requires count > 0 && all == Joined(done, RectsAt(data, at, count))
    ensures match RectAt(data, at)
            case Failed => all.Failed?
            case Got(r, next) => all == Joined(done + [r], RectsAt(data, next, count - 1))
  {
    if RectAt(data, at).Got? {
      JoinedMore(done, RectAt(data, at).value, RectsAt(data, RectAt(data, at).next, count - 1));
    }
  }

  /** The buffer shows what the rectangles drew on black. */
  ghost predicate ShowsAll(rgb: array<byte>, width: nat, height: nat, rs: seq<Rect>)
    requires AllRects(rs)
    reads rgb
  {
    IsBuffer(rgb, width, height) && forall x: nat, y: nat :: x < width && y < height ==>
      Shown(rgb, width, height, x, y) == Seen(rs, x, y)
  }

  lemma OneMore(done: seq<Rect>, r: Rect, size: (nat, nat))
    ensures SizeAfter(done + [r], size) == SizeWith(r, SizeAfter(done, size))
    ensures Changes(done + [r], size) == (Changes(done, size) || SizeWith(r, SizeAfter(done, size)) != SizeAfter(done, size))
  {
    assert (done + [r])[..|done|] == done;
  }

  lemma SeenWith(done: seq<Rect>, r: Rect, x: nat, y: nat)
    requires AllRects(done) && IsRect(r)
    ensures AllRects(done + [r]) && Seen(done + [r], x, y) == ShownWith(r, Seen(done, x, y), x, y)
  {
    assert (done + [r])[..|done|] == done;
  }

  // ----- The session -----

  class Session {
    const stream: seq<byte>
    var position: nat
    var width: nat
    var height: nat

    constructor (stream: seq<byte>, width: nat, height: nat)
      ensures this.stream == stream && position == 0 && this.width == width && this.height == height
    {
      this.stream, position, this.width, this.height := stream, 0, width, height;
    }

    method ReadExact(count: nat) returns (bytes: Option<seq<byte>>)
      modifies this`position
      ensures bytes.Some? <==> old(position) + count <= |stream|
      ensures bytes.Some? ==> bytes.value == stream[old(position)..old(position) + count] && position == old(position) + count
    {
      if position + count > |stream| {
        return None;
      }
      bytes := Some(stream[position..position + count]);
      position := position + count;
    }

    method U8() returns (n: Option<byte>)
      modifies this`position
      ensures n.Some? <==> old(position) < |stream|
      ensures n.Some? ==> n.value == stream[old(position)] && position == old(position) + 1
    {
      var bytes :- ReadExact(1);
      n := Some(bytes[0]);
    }

    method U16() returns (n: Option<nat>)
      modifies this`position
      ensures n.Some? <==> old(position) + 2 <= |stream|
      ensures n.Some? ==> n.value == U16At(stream, old(position)) && position == old(position) + 2
    {
      var bytes :- ReadExact(2);
      n := Some(U16At(bytes, 0));
    }

    method U32() returns (n: Option<nat>)
      modifies this`position
      ensures n.Some? <==> old(position) + 4 <= |stream|
      ensures n.Some? ==> n.value == U32At(stream, old(position)) && position == old(position) + 4
    {
      var bytes :- ReadExact(4);
      n := Some(U32At(bytes, 0));
    }

    method Blank() returns (rgb: array<byte>)
      ensures fresh(rgb) && ShowsAll(rgb, width, height, [])
    {
      rgb := new byte[3 * (width * height)](_ => 0);
      forall x: nat, y: nat | x < width && y < height
        ensures Shown(rgb, width, height, x, y) == BLACK
      {
        PlaceInside(width, height, x, y);
      }
    }

    method ResizeTo(width: nat, height: nat) returns (changed: bool)
      modifies this`width, this`height
      ensures this.width == width && this.height == height
      ensures changed <==> (width, height) != (old(this.width), old(this.height))
    {
      changed := (width, height) != (this.width, this.height);
      this.width, this.height := width, height;
    }

    method ReadHeader() returns (header: Option<(nat, nat, nat, nat, nat)>)
      modifies this`position
      ensures header.Some? <==> old(position) + 12 <= |stream|
      ensures header.Some? ==>
        && position == old(position) + 12
        && header.value.0 == U16At(stream, old(position)) && header.value.1 == U16At(stream, old(position) + 2)
        && header.value.2 == U16At(stream, old(position) + 4) && header.value.3 == U16At(stream, old(position) + 6)
        && header.value.4 == U32At(stream, old(position) + 8)
    {
      var x :- U16();
      var y :- U16();
      var w :- U16();
      var h :- U16();
      var code :- U32();
      header := Some((x, y, w, h, code));
    }

    /** One rectangle: drawn into the buffer, or a new size taken note of. */
    method ReadRectangle(rgb: array<byte>) returns (resized: Option<bool>)
      requires IsBuffer(rgb, width, height)
      modifies this`position, this`width, this`height, rgb
      ensures resized.None? <==> RectAt(stream, old(position)).Failed?
      ensures resized.Some? ==> position == RectAt(stream, old(position)).next
      ensures resized.Some? ==>
        (width, height) == SizeWith(RectAt(stream, old(position)).value, (old(width), old(height)))
      ensures resized.Some? ==> resized.value == ((width, height) != (old(width), old(height)))
      ensures resized.Some? ==> forall x: nat, y: nat :: x < old(width) && y < old(height) ==>
        Shown(rgb, old(width), old(height), x, y) ==
          ShownWith(RectAt(stream, old(position)).value, old(Shown(rgb, width, height, x, y)), x, y)
    {
      var header :- ReadHeader();
      var (x, y, w, h, code) := header;
      if code == DESKTOP_SIZE {
        var changed := ResizeTo(w, h);
        return Some(changed);
      }
      if code == EXTENDED_DESKTOP_SIZE {
        var screens :- U8();
        var _ :- ReadExact(3 + screens as nat * 16);
        var changed := ResizeTo(w, h);
        return Some(changed);
      }
      if code != RAW {
        return None;
      }
      var drawn := DrawRaw(rgb, x, y, w, h);
      resized := if drawn then Some(false) else None;
    }

    /** The pixels of a raw rectangle, drawn. */
    method DrawRaw(rgb: array<byte>, x: nat, y: nat, w: nat, h: nat) returns (ok: bool)
      requires IsBuffer(rgb, width, height) && IsU16(x) && IsU16(y) && IsU16(w) && IsU16(h)
      modifies this`position, rgb
      ensures ok <==> old(position) + w * h * 4 <= |stream|
      ensures ok ==> position == old(position) + w * h * 4
      ensures ok ==> forall x': nat, y': nat :: x' < width && y' < height ==>
        Shown(rgb, width, height, x', y') ==
          ShownWith(Raw(x, y, w, h, stream[old(position)..old(position) + w * h * 4]),
                    old(Shown(rgb, width, height, x', y')), x', y')
    {
      var pixels := ReadExact(w * h * 4);
      if pixels.None? {
        return false;
      }
      Draw(rgb, width, height, Raw(x, y, w, h, pixels.value));
      ok := true;
    }

    /** Some rectangles of an update are done, and `left` are still to be read. */
    ghost predicate IsUnderway(rgb: array<byte>, resized: bool, all: Read<seq<Rect>>, done: seq<Rect>, size: (nat, nat), left: nat)
      reads this, rgb
    {
      && IsBuffer(rgb, width, height) && AllRects(done)
      && all == Joined(done, RectsAt(stream, position, left))
      && (width, height) == SizeAfter(done, size) && resized == Changes(done, size)
      && (!resized ==> ShowsAll(rgb, width, height, done))
    }

    /** The next rectangle after `done`: drawn, or taken as the start of a new screen. */
    method ReadNext(rgb: array<byte>, resized: bool, ghost all: Read<seq<Rect>>, ghost done: seq<Rect>,
                    ghost size: (nat, nat), ghost left: nat)
        returns (after: Option<(bool, array<byte>)>, ghost more: seq<Rect>)
      requires left > 0 && IsUnderway(rgb, resized, all, done, size, left)
      modifies this`position, this`width, this`height, rgb
      ensures after.None? ==> all.Failed?
      ensures after.Some? ==> after.value.1 == rgb || fresh(after.value.1)
      ensures after.Some? ==> IsUnderway(after.value.1, after.value.0, all, more, size, left - 1)
    {
      ghost var r := RectAt(stream, position);
      JoinedNext(all, done, stream, position, left);
      more := done;
      var changed := ReadRectangle(rgb);
      if changed.None? {
        return None, done;
      }
      more := done + [r.value];
      OneMore(done, r.value, size);
      if changed.value {
        var blank := Blank();
        return Some((true, blank)), more;
      }
      if !resized {
        forall x: nat, y: nat | x < width && y < height
          ensures Shown(rgb, width, height, x, y) == Seen(more, x, y)
        {
          SeenWith(done, r.value, x, y);
        }
      }
      after := Some((resized, rgb));
    }

    /** The rectangles of an update, drawn on black; on black again after a change of size. */
    method ReadUpdate(count: nat) returns (drawn: Option<(bool, array<byte>)>)
      modifies this`position, this`width, this`height
      ensures drawn.None? <==> RectsAt(stream, old(position), count).Failed?
      ensures drawn.Some? ==> position == RectsAt(stream, old(position), count).next
      ensures drawn.Some? ==>
        && (width, height) == SizeAfter(RectsAt(stream, old(position), count).value, (old(width), old(height)))
        && drawn.value.0 == Changes(RectsAt(stream, old(position), count).value, (old(width), old(height)))
      ensures drawn.Some? && !drawn.value.0 ==>
        ShowsAll(drawn.value.1, width, height, RectsAt(stream, old(position), count).value)
    {
      var rgb := Blank();
      var resized := false;
      ghost var all, done: seq<Rect>, size := RectsAt(stream, position, count), [], (width, height);
      JoinedNone(all);
      for i := 0 to count
        invariant fresh(rgb) && IsUnderway(rgb, resized, all, done, size, count - i)
      {
        var after;
        after, done := ReadNext(rgb, resized, all, done, size, count - i);
        if after.None? {
          return None;
        }
        resized, rgb := after.value.0, after.value.1;
      }
      assert done + [] == done;
      drawn := Some((resized, rgb));
    }

    /** The update whose message has just begun, as a screen unless it changed the size. */
    method TakeUpdate() returns (captured: Option<Option<Screen>>)
      requires 0 < position <= |stream| && stream[position - 1] == 0
      modifies this`position, this`width, this`height
      ensures captured.None? <==> UpdateAt(stream, old(position) - 1).Failed?
      ensures captured.Some? ==>
        var Got(rs, next) := UpdateAt(stream, old(position) - 1);
        && position == next && (width, height) == SizeAfter(rs, (old(width), old(height)))
        && (captured.value.None? <==> Changes(rs, (old(width), old(height))))
        && (captured.value.Some? ==> Depicts(captured.value.value, (old(width), old(height)), rs))
    {
      ghost var all, size := UpdateAt(stream, position - 1), (width, height);
      var _ :- U8();
      var rectangles :- U16();
      var drawn :- ReadUpdate(rectangles);
      if drawn.0 {
        return Some(None);
      }
      UnchangedSize(all.value, size);
      var screen := Taken(drawn.1, width, height, all.value);
      captured := Some(Some(screen));
    }

    /** One request: everything up to the next update is skipped, the update is drawn. None of
        it, if it changed the size. */
    method CaptureOnce() returns (captured: Option<Option<Screen>>)
      modifies this`position, this`width, this`height
      ensures captured.None? <==> UpdateAt(stream, old(position)).Failed?
      ensures captured.Some? ==>
        var Got(rs, next) := UpdateAt(stream, old(position));
        && position == next && (width, height) == SizeAfter(rs, (old(width), old(height)))
        && (captured.value.None? <==> Changes(rs, (old(width), old(height))))
        && (captured.value.Some? ==> Depicts(captured.value.value, (old(width), old(height)), rs))
    {
      ghost var start, size := position, (width, height);
      while true
        invariant UpdateAt(stream, position) == UpdateAt(stream, start)
        invariant (width, height) == size
        decreases |stream| - position
      {
        var kind :- U8();
        if kind == 0 {
          captured := TakeUpdate();
          return;
        } else if kind == 1 {
          var header :- ReadExact(5);
          var _ :- ReadExact(U16At(header, 3) * 6);
        } else if kind == 2 {
        } else if kind == 3 {
          var _ :- ReadExact(3);
          var length :- U32();
          var _ :- ReadExact(length);
        } else {
          return None;
        }
      }
    }

    /** The whole screen, from an update that changed no size, if one of the first
        `CAPTURE_ATTEMPTS` is one: of the size it was asked for, and at each place what the
        last rectangle over it drew, or black. */
    method Capture() returns (screen: Option<Screen>)
      modifies this`position, this`width, this`height
      ensures screen.None? <==> CaptureAt(stream, old(position), (old(width), old(height)), 4).None?
      ensures screen.Some? ==>
        var update := CaptureAt(stream, old(position), (old(width), old(height)), 4).value;
        && position == update.next && (width, height) == update.size
        && !Changes(update.rects, update.size) && Depicts(screen.value, update.size, update.rects)
    {
      ghost var all := CaptureAt(stream, position, (width, height), CAPTURE_ATTEMPTS);
      for attempt := 0 to CAPTURE_ATTEMPTS
        invariant all == CaptureAt(stream, position, (width, height), CAPTURE_ATTEMPTS - attempt)
      {
        ghost var size := (width, height);
        var captured :- CaptureOnce();
        if captured.Some? {
          UnchangedSize(all.value.rects, size);
          return captured;
        }
      }
      screen := None;
    }
  }

  ghost predicate Depicts(screen: Screen, size: (nat, nat), rs: seq<Rect>)
    requires AllRects(rs)
  {
    && (screen.width, screen.height) == size && |screen.rgb| == 3 * (screen.width * screen.height)
    && forall x: nat, y: nat :: x < screen.width && y < screen.height ==> ScreenAt(screen, x, y) == Seen(rs, x, y)
  }

  ghost function ScreenAt(screen: Screen, x: nat, y: nat): Colour
    requires |screen.rgb| == 3 * (screen.width * screen.height) && x < screen.width && y < screen.height
  {
    PlaceInside(screen.width, screen.height, x, y);
    var i := 3 * Place(screen.width, x, y);
    Colour(screen.rgb[i], screen.rgb[i + 1], screen.rgb[i + 2])
  }

  method Taken(rgb: array<byte>, width: nat, height: nat, ghost rs: seq<Rect>) returns (screen: Screen)
    requires AllRects(rs) && ShowsAll(rgb, width, height, rs)
    ensures Depicts(screen, (width, height), rs)
  {
    screen := Screen(width, height, rgb[..]);
    forall x: nat, y: nat | x < width && y < height
      ensures ScreenAt(screen, x, y) == Seen(rs, x, y)
    {
      PlaceInside(width, height, x, y);
      assert Shown(rgb, width, height, x, y) == Seen(rs, x, y);
    }
  }
}
