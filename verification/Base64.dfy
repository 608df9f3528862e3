/** Base64 with padding and the standard alphabet (section 4 of RFC 4648), and the strict
    decoder vitro uses: only canonical text is accepted. */
module Base64 {
  import opened Wrappers
  import opened Bytes

  type sextet = x: int | 0 <= x < 64

  // ----- The alphabet -----

  function Symbol(v: sextet): (c: char)
    ensures c != '='
  {
    if v < 26 then ('A' as int + v) as char
    else if v < 52 then ('a' as int + (v - 26)) as char
    else if v < 62 then ('0' as int + (v - 52)) as char
    else if v == 62 then '+'
    else '/'
  }

  function SymbolValue(c: char): (r: Option<sextet>)
    ensures r.Some? ==> Symbol(r.value) == c
    ensures r.None? ==> forall v: sextet :: Symbol(v) != c
  {
    if 'A' <= c <= 'Z' then Some(c as int - 'A' as int)
    else if 'a' <= c <= 'z' then Some(c as int - 'a' as int + 26)
    else if '0' <= c <= '9' then Some(c as int - '0' as int + 52)
    else if c == '+' then Some(62)
    else if c == '/' then Some(63)
    else None
  }

  lemma SymbolValueOf(v: sextet)
    ensures SymbolValue(Symbol(v)) == Some(v)
  {
  }

  // ----- Groups -----

  function EncodeGroup(a: byte, b: byte, c: byte): (s: string)
    ensures |s| == 4
  {
    [Symbol(a / 4), Symbol(a % 4 * 16 + b / 16), Symbol(b % 16 * 4 + c / 64), Symbol(c % 64)]
  }

  function Encode(bytes: seq<byte>): string {
    if |bytes| == 0 then ""
    else if |bytes| == 1 then [Symbol(bytes[0] / 4), Symbol(bytes[0] % 4 * 16), '=', '=']
    else if |bytes| == 2 then
      [Symbol(bytes[0] / 4), Symbol(bytes[0] % 4 * 16 + bytes[1] / 16), Symbol(bytes[1] % 16 * 4), '=']
    else EncodeGroup(bytes[0], bytes[1], bytes[2]) + Encode(bytes[3..])
  }

  /** The last four characters: they may carry padding, and then no stray bits. */
  function DecodeLast(s: string): Option<seq<byte>>
    requires |s| == 4
  {
    var v0 :- SymbolValue(s[0]);
    var v1 :- SymbolValue(s[1]);
    if s[2] == '=' then
      if s[3] == '=' && v1 % 16 == 0 then Some([v0 * 4 + v1 / 16]) else None
    else
      var v2 :- SymbolValue(s[2]);
      if s[3] == '=' then
        if v2 % 4 == 0 then Some([v0 * 4 + v1 / 16, v1 % 16 * 16 + v2 / 4]) else None
      else DecodeGroup(s)
  }

  function DecodeGroup(s: string): Option<seq<byte>>
    requires |s| == 4
  {
    var v0 :- SymbolValue(s[0]);
    var v1 :- SymbolValue(s[1]);
    var v2 :- SymbolValue(s[2]);
    var v3 :- SymbolValue(s[3]);
    Some([v0 * 4 + v1 / 16, v1 % 16 * 16 + v2 / 4, v2 % 4 * 64 + v3])
  }

  function Decode(s: string): Option<seq<byte>> {
    if s == "" then Some([])
    else if |s| < 4 then None
    else if |s| == 4 then DecodeLast(s)
    else
      var first :- DecodeGroup(s[..4]);
      var rest :- Decode(s[4..]);
      Some(first + rest)
  }

  // ----- Round trips -----

  lemma GroupRoundTrip(a: byte, b: byte, c: byte)
    ensures DecodeGroup(EncodeGroup(a, b, c)) == Some([a, b, c])
    ensures DecodeLast(EncodeGroup(a, b, c)) == Some([a, b, c])
  {
    SymbolValueOf(a / 4);
    SymbolValueOf(a % 4 * 16 + b / 16);
    SymbolValueOf(b % 16 * 4 + c / 64);
    SymbolValueOf(c % 64);
    Ungroup(a, b, c);
  }

  /** Six bits at a time and eight bits at a time. */
  lemma Ungroup(a: byte, b: byte, c: byte)
    ensures var v0, v1, v2, v3 := a / 4, a % 4 * 16 + b / 16, b % 16 * 4 + c / 64, c % 64;
            v0 * 4 + v1 / 16 == a && v1 % 16 * 16 + v2 / 4 == b && v2 % 4 * 64 + v3 == c
  {
    assert (a % 4 * 16 + b / 16) / 16 == a % 4 && (a % 4 * 16 + b / 16) % 16 == b / 16;
    assert (b % 16 * 4 + c / 64) / 4 == b % 16 && (b % 16 * 4 + c / 64) % 4 == c / 64;
  }

  lemma OneByte(a: byte)
    ensures Decode(Encode([a])) == Some([a])
  {
    SymbolValueOf(a / 4);
    SymbolValueOf(a % 4 * 16);
  }

  lemma TwoBytes(a: byte, b: byte)
    ensures Decode(Encode([a, b])) == Some([a, b])
  {
    SymbolValueOf(a / 4);
    SymbolValueOf(a % 4 * 16 + b / 16);
    SymbolValueOf(b % 16 * 4);
  }

  lemma {:induction false} EncodeDecode(bytes: seq<byte>)
    ensures Decode(Encode(bytes)) == Some(bytes)
  {
    if |bytes| == 0 {
    } else if |bytes| == 1 {
      OneByte(bytes[0]);
      assert bytes == [bytes[0]];
    } else if |bytes| == 2 {
      TwoBytes(bytes[0], bytes[1]);
      assert bytes == [bytes[0], bytes[1]];
    } else {
      var more := bytes[3..];
      var rest := Encode(more);
      EncodeDecode(more);
      EncodeEmpty(more);
      DecodeStep(bytes[0], bytes[1], bytes[2], rest, more);
      FirstThree(bytes, more, rest);
    }
  }

  lemma FirstThree(bytes: seq<byte>, more: seq<byte>, rest: string)
    requires |bytes| >= 3 && more == bytes[3..] && rest == Encode(more)
    ensures bytes == [bytes[0], bytes[1], bytes[2]] + more
    ensures Encode(bytes) == EncodeGroup(bytes[0], bytes[1], bytes[2]) + rest
  {
  }

  lemma DecodeStep(a: byte, b: byte, c: byte, rest: string, more: seq<byte>)
    requires Decode(rest) == Some(more) && (rest == "" ==> more == [])
    ensures Decode(EncodeGroup(a, b, c) + rest) == Some([a, b, c] + more)
  {
    var s := EncodeGroup(a, b, c) + rest;
    GroupRoundTrip(a, b, c);
    assert s[..4] == EncodeGroup(a, b, c) && s[4..] == rest;
    if rest == "" {
      assert s == EncodeGroup(a, b, c) && [a, b, c] + more == [a, b, c];
    }
  }

  lemma EncodeEmpty(bytes: seq<byte>)
    ensures Encode(bytes) == "" <==> bytes == []
  {
  }

  /** Splitting sextets into bytes and bytes into sextets undo each other. */
  lemma Regroup(v0: sextet, v1: sextet, v2: sextet, v3: sextet)
    ensures
      var a, b, c := v0 * 4 + v1 / 16, v1 % 16 * 16 + v2 / 4, v2 % 4 * 64 + v3;
      && 0 <= a < 256 && 0 <= b < 256 && 0 <= c < 256
      && a / 4 == v0 && a % 4 == v1 / 16 && b / 16 == v1 % 16 && b % 16 == v2 / 4
      && c / 64 == v2 % 4 && c % 64 == v3
  {
  }

  lemma GroupDecode(s: string)
    requires |s| == 4 && DecodeGroup(s).Some?
    ensures
      var bytes := DecodeGroup(s).value;
      |bytes| == 3 && EncodeGroup(bytes[0], bytes[1], bytes[2]) == s
  {
    var v0, v1 := SymbolValue(s[0]).value, SymbolValue(s[1]).value;
    var v2, v3 := SymbolValue(s[2]).value, SymbolValue(s[3]).value;
    Regroup(v0, v1, v2, v3);
    var bytes := DecodeGroup(s).value;
    assert bytes[0] / 4 == v0;
    assert bytes[0] % 4 * 16 + bytes[1] / 16 == v1;
    assert bytes[1] % 16 * 4 + bytes[2] / 64 == v2;
    assert bytes[2] % 64 == v3;
    assert s == [s[0], s[1], s[2], s[3]];
  }

  /** Only canonical text is accepted: what decodes is the encoding of what it decodes to. */
  lemma {:induction false} DecodeEncode(s: string)
    ensures Decode(s).Some? ==> Encode(Decode(s).value) == s
  {
    if Decode(s).Some? && s != "" {
      if |s| == 4 {
        LastDecode(s);
      } else {
        GroupDecode(s[..4]);
        DecodeEncode(s[4..]);
        var bytes := Decode(s).value;
        assert bytes[3..] == Decode(s[4..]).value;
        assert s[..4] + s[4..] == s;
      }
    }
  }

  lemma LastDecode(s: string)
    requires |s| == 4 && DecodeLast(s).Some?
    ensures Encode(DecodeLast(s).value) == s
  {
    var bytes := DecodeLast(s).value;
    var v0, v1 := SymbolValue(s[0]).value, SymbolValue(s[1]).value;
    assert s == [s[0], s[1], s[2], s[3]];
    if s[2] == '=' {
      Regroup(v0, v1, 0, 0);
      assert bytes[0] / 4 == v0 && bytes[0] % 4 * 16 == v1;
    } else if s[3] == '=' {
      var v2 := SymbolValue(s[2]).value;
      Regroup(v0, v1, v2, 0);
      assert bytes[0] / 4 == v0 && bytes[0] % 4 * 16 + bytes[1] / 16 == v1;
      assert bytes[1] % 16 * 4 == v2;
    } else {
      GroupDecode(s);
      assert bytes[3..] == [];
      assert Encode(bytes) == EncodeGroup(bytes[0], bytes[1], bytes[2]) + "";
    }
  }

  // ----- By the table -----

  /** The alphabet, as the standard's table lists it. */
  const TABLE := "ABCDEFGHIJKLMNOPQRSTUVWXYZ" + "abcdefghijklmnopqrstuvwxyz" + "0123456789+/"

  lemma TableOf(v: sextet)
    ensures Symbol(v) == TABLE[v]
  {
  }

  function ByteAt(bytes: seq<byte>, i: nat): byte {
    if i < |bytes| then bytes[i] else 0
  }

  /** The three bytes that character `k` is made from, as one number; there are zeros after the
      last. */
  function GroupValue(bytes: seq<byte>, k: nat): nat {
    var i := k / 4 * 3;
    ByteAt(bytes, i) * 0x1_0000 + ByteAt(bytes, i + 1) * 0x100 + ByteAt(bytes, i + 2)
  }

  function SixBits(value: nat, place: nat): sextet
    requires place < 4
  {
    match place
    case 0 => value / 0x4_0000 % 64
    case 1 => value / 0x1000 % 64
    case 2 => value / 0x40 % 64
    case 3 => value % 64
  }

  lemma SixBitsAre(p: sextet, q: sextet, r: sextet, s: sextet)
    ensures
      var n := p * 0x4_0000 + q * 0x1000 + r * 0x40 + s;
      SixBits(n, 0) == p && SixBits(n, 1) == q && SixBits(n, 2) == r && SixBits(n, 3) == s
  {
    var n := p * 0x4_0000 + q * 0x1000 + r * 0x40 + s;
    assert n / 0x4_0000 == p;
    assert n / 0x1000 == p * 64 + q;
    assert n / 0x40 == (p * 64 + q) * 64 + r;
  }

  lemma SixBitsOf(a: byte, b: byte, c: byte)
    ensures
      var n := a * 0x1_0000 + b * 0x100 + c;
      && SixBits(n, 0) == a / 4 && SixBits(n, 1) == a % 4 * 16 + b / 16
      && SixBits(n, 2) == b % 16 * 4 + c / 64 && SixBits(n, 3) == c % 64
  {
    SixBitsAre(a / 4, a % 4 * 16 + b / 16, b % 16 * 4 + c / 64, c % 64);
    assert a == a / 4 * 4 + a % 4 && b == b / 16 * 16 + b % 16 && c == c / 64 * 64 + c % 64;
  }

  lemma FirstFour(bytes: seq<byte>)
    requires bytes != []
    ensures
      var a, b, c, s := ByteAt(bytes, 0), ByteAt(bytes, 1), ByteAt(bytes, 2), Encode(bytes);
      && |s| >= 4 && s[0] == Symbol(a / 4) && s[1] == Symbol(a % 4 * 16 + b / 16)
      && s[2] == (if |bytes| > 1 then Symbol(b % 16 * 4 + c / 64) else '=')
      && s[3] == if |bytes| > 2 then Symbol(c % 64) else '='
  {
  }

  /** The first four characters are made from the first three bytes. */
  lemma {:induction false} FirstGroup(bytes: seq<byte>, k: nat)
    requires bytes != [] && k < 4
    ensures |Encode(bytes)| >= 4
    ensures Encode(bytes)[k] == if 6 * k < 8 * |bytes| then Symbol(SixBits(GroupValue(bytes, k), k)) else '='
  {
    FirstFour(bytes);
    SixBitsOf(ByteAt(bytes, 0), ByteAt(bytes, 1), ByteAt(bytes, 2));
    assert k / 4 == 0;
  }

  /** Character `k` is the table's for the six bits from bit `6 * k` on, while there are any, and
      then padding to a multiple of four. */
  lemma {:induction false} EncodedByTable(bytes: seq<byte>, k: nat)
    requires k < |Encode(bytes)|
    ensures |Encode(bytes)| == (|bytes| + 2) / 3 * 4
    ensures Encode(bytes)[k] == if 6 * k < 8 * |bytes| then TABLE[SixBits(GroupValue(bytes, k), k % 4)] else '='
  {
    EncodedLength(bytes);
    if k < 4 {
      FirstGroup(bytes, k);
      TableOf(SixBits(GroupValue(bytes, k), k));
    } else {
      var more := bytes[3..];
      EncodedByTable(more, k - 4);
      GroupFurtherOn(bytes, k);
    }
  }

  lemma GroupFurtherOn(bytes: seq<byte>, k: nat)
    requires k >= 4 && |bytes| >= 3
    ensures GroupValue(bytes, k) == GroupValue(bytes[3..], k - 4)
  {
    assert k / 4 * 3 == (k - 4) / 4 * 3 + 3;
  }

  lemma {:induction false} EncodedLength(bytes: seq<byte>)
    ensures |Encode(bytes)| == (|bytes| + 2) / 3 * 4
  {
    if |bytes| > 2 {
      EncodedLength(bytes[3..]);
      assert (|bytes| + 2) / 3 == (|bytes| - 3 + 2) / 3 + 1;
      assert |EncodeGroup(bytes[0], bytes[1], bytes[2])| == 4;
    }
  }
}
