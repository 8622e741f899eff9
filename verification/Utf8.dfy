/** UTF-8 text as Rust's `str` sees it: a byte sequence that encodes a character
    sequence (section 3 of RFC 3629), addressed by byte offset. */
module Utf8 {

  type byte = b: int | 0 <= b < 0x100

  const NEWLINE: byte := 0x0A

  predicate Continuation(b: byte) {
    0x80 <= b < 0xC0
  }

  function EncodeChar(c: char): seq<byte> {
    var n := c as int;
    if n < 0x80 then [n]
    else if n < 0x800 then [0xC0 + n / 0x40, 0x80 + n % 0x40]
    else if n < 0x1_0000 then [0xE0 + n / 0x1000, 0x80 + n / 0x40 % 0x40, 0x80 + n % 0x40]
    else [0xF0 + n / 0x4_0000, 0x80 + n / 0x1000 % 0x40, 0x80 + n / 0x40 % 0x40, 0x80 + n % 0x40]
  }

  function Encode(s: string): seq<byte> {
    if s == [] then [] else EncodeChar(s[0]) + Encode(s[1..])
  }

  /** Bytes of the character that a lead byte opens. */
  function Width(lead: byte): nat {
    if lead < 0x80 then 1 else if lead < 0xE0 then 2 else if lead < 0xF0 then 3 else 4
  }

  function CodePoint(h: seq<byte>): int
    requires h != []
  {
    match |h|
    case 1 => h[0]
    case 2 => Low(h[0], 0xC0) * 0x40 + Low(h[1], 0x80)
    case 3 => (Low(h[0], 0xE0) * 0x40 + Low(h[1], 0x80)) * 0x40 + Low(h[2], 0x80)
    case 4 => ((Low(h[0], 0xF0) * 0x40 + Low(h[1], 0x80)) * 0x40 + Low(h[2], 0x80)) * 0x40 + Low(h[3], 0x80)
    case _ => -1
  }

  function Low(b: byte, mark: int): int { b - mark }

  lemma EncodeCharDecodes(c: char)
    ensures var h := EncodeChar(c); |h| == Width(h[0]) && CodePoint(h) == c as int
  {
    var n := c as int;
    assert n / 0x40 / 0x40 == n / 0x1000 && n / 0x1000 / 0x40 == n / 0x4_0000;
  }

  function Decode(t: seq<byte>): seq<int> {
    if t == [] || |t| < Width(t[0]) then []
    else [CodePoint(t[..Width(t[0])])] + Decode(t[Width(t[0])..])
  }

  function CodePoints(s: string): seq<int> {
    if s == [] then [] else [s[0] as int] + CodePoints(s[1..])
  }

  /** Encoding loses nothing. */
  lemma {:induction false} DecodeEncode(s: string)
    ensures Decode(Encode(s)) == CodePoints(s)
  {
    if s != [] {
      var h, r := EncodeChar(s[0]), Encode(s[1..]);
      DecodeEncode(s[1..]);
      EncodeCharDecodes(s[0]);
      assert (h + r)[..|h|] == h && (h + r)[|h|..] == r;
    }
  }

  /** Byte offset of the `k`-th character. */
  function Offset(s: string, k: nat): nat
    requires k <= |s|
  {
    if k == 0 then 0 else |EncodeChar(s[0])| + Offset(s[1..], k - 1)
  }

  /** `str::is_char_boundary`. */
  predicate Boundary(t: seq<byte>, i: nat)
    requires i <= |t|
  {
    i == 0 || i == |t| || !Continuation(t[i])
  }

  /** `str::floor_char_boundary`: the last boundary at or before `i`. */
  function Floor(t: seq<byte>, i: nat): (j: nat)
    ensures j <= |t| && j <= i && Boundary(t, j)
  {
    if i >= |t| then |t| else if Boundary(t, i) then i else Floor(t, i - 1)
  }

  /** `str::ceil_char_boundary`: the first boundary at or after `i`. */
  function Ceil(t: seq<byte>, i: nat): (j: nat)
    ensures j <= |t| && Boundary(t, j)
    ensures i <= |t| ==> i <= j
    decreases |t| - i
  {
    if i >= |t| then |t| else if Boundary(t, i) then i else Ceil(t, i + 1)
  }

  lemma FloorIsLast(t: seq<byte>, i: nat, k: nat)
    requires k <= i && k <= |t| && Boundary(t, k)
    ensures k <= Floor(t, i)
  {
  }

  lemma CeilIsFirst(t: seq<byte>, i: nat, k: nat)
    requires i <= k <= |t| && Boundary(t, k)
    ensures Ceil(t, i) <= k
    decreases |t| - i
  {
  }

  /** Four continuation bytes in a row. */
  predicate LongRun(t: seq<byte>, i: nat)
    requires i + 3 < |t|
  {
    Continuation(t[i]) && Continuation(t[i + 1]) && Continuation(t[i + 2]) && Continuation(t[i + 3])
  }

  predicate StrayTail(t: seq<byte>, i: nat)
    requires i + 1 < |t|
  {
    t[i] < 0x80 && Continuation(t[i + 1])
  }

  /** What byte-offset code relies on: at most three continuation bytes in a row,
      none of them after a single-byte character. */
  predicate Spaced(t: seq<byte>) {
    && (forall i: nat | i + 3 < |t| :: !LongRun(t, i))
    && (forall i: nat | i + 1 < |t| :: !StrayTail(t, i))
  }

  /** One encoded character: a lead byte and its continuation bytes. */
  predicate Unit(h: seq<byte>) {
    && 1 <= |h| <= 4 && !Continuation(h[0])
    && (forall i | 1 <= i < |h| :: Continuation(h[i]))
    && (h[0] < 0x80 ==> |h| == 1)
  }

  lemma UnitThenSpaced(h: seq<byte>, r: seq<byte>)
    requires Unit(h) && Spaced(r) && (r == [] || !Continuation(r[0]))
    ensures Spaced(h + r)
  {
    var t := h + r;
    assert forall i | |h| <= i < |t| :: t[i] == r[i - |h|];
    forall i: nat | i + 3 < |t| ensures !LongRun(t, i) {
      if i < |h| {
        assert !Continuation(t[0]) && (|h| < |t| ==> !Continuation(t[|h|]));
      } else {
        assert !LongRun(r, i - |h|);
      }
    }
    forall i: nat | i + 1 < |t| ensures !StrayTail(t, i) {
      if i >= |h| {
        assert !StrayTail(r, i - |h|);
      }
    }
  }

  lemma {:induction false} EncodedIsSpaced(s: string)
    ensures Spaced(Encode(s))
    ensures s != [] ==> Encode(s) != [] && !Continuation(Encode(s)[0])
  {
    if s != [] {
      EncodedIsSpaced(s[1..]);
      assert Unit(EncodeChar(s[0]));
      UnitThenSpaced(EncodeChar(s[0]), Encode(s[1..]));
    }
  }

  /** Rounding to a boundary moves an offset by at most three bytes. */
  lemma RoundingIsShort(t: seq<byte>, i: nat)
    requires Spaced(t) && i <= |t|
    ensures i <= Floor(t, i) + 3 && Ceil(t, i) <= i + 3
  {
    FloorIsLast(t, i, if i == |t| then i else if i < 3 then 0
                      else if Boundary(t, i) then i else if Boundary(t, i - 1) then i - 1
                      else if Boundary(t, i - 2) then i - 2 else assert !LongRun(t, i - 3); i - 3);
    CeilIsFirst(t, i, if |t| <= i + 3 then |t|
                      else if Boundary(t, i) then i else if Boundary(t, i + 1) then i + 1
                      else if Boundary(t, i + 2) then i + 2 else assert !LongRun(t, i); i + 3);
  }

  lemma {:induction false} OffsetEnds(s: string)
    ensures Offset(s, |s|) == |Encode(s)|
  {
    if s != [] {
      OffsetEnds(s[1..]);
    }
  }

  lemma {:induction false} OffsetGrows(s: string, j: nat, k: nat)
    requires j < k <= |s|
    ensures Offset(s, j) < Offset(s, k)
  {
    if j > 0 {
      OffsetGrows(s[1..], j - 1, k - 1);
    }
  }

  /** Index of the character that starts at boundary `i`; the end maps to the length. */
  function CharIndex(s: string, i: nat): (k: nat)
    requires i <= |Encode(s)|
    ensures k <= |s|
  {
    if s == [] || i == 0 then 0
    else if i < |EncodeChar(s[0])| then 1
    else 1 + CharIndex(s[1..], i - |EncodeChar(s[0])|)
  }

  /** The boundaries the byte test finds are exactly the character offsets. */
  lemma {:induction false} BoundariesAreOffsets(s: string, i: nat)
    requires i <= |Encode(s)|
    ensures Boundary(Encode(s), i) <==> Offset(s, CharIndex(s, i)) == i
  {
    if s != [] && i > 0 {
      var h, r := EncodeChar(s[0]), Encode(s[1..]);
      if i >= |h| {
        BoundariesAreOffsets(s[1..], i - |h|);
        EncodedIsSpaced(s[1..]);
        if i < |h| + |r| {
          assert Encode(s)[i] == r[i - |h|];
        }
      } else {
        assert Encode(s)[i] == h[i];
      }
    }
  }

  lemma {:induction false} CharIndexOfOffset(s: string, k: nat)
    requires k <= |s|
    ensures Offset(s, k) <= |Encode(s)| && CharIndex(s, Offset(s, k)) == k
  {
    if k > 0 {
      CharIndexOfOffset(s[1..], k - 1);
    }
  }

  /** The slice `&text[a..b]`. */
  function Slice(s: string, a: nat, b: nat): (r: string)
    requires a <= b <= |Encode(s)| && Boundary(Encode(s), a) && Boundary(Encode(s), b)
    ensures |r| == CharIndex(s, b) - CharIndex(s, a)
  {
    SliceInOrder(s, a, b);
    s[CharIndex(s, a)..CharIndex(s, b)]
  }

  lemma SliceInOrder(s: string, a: nat, b: nat)
    requires a <= b <= |Encode(s)| && Boundary(Encode(s), a) && Boundary(Encode(s), b)
    ensures CharIndex(s, a) <= CharIndex(s, b)
  {
    BoundariesAreOffsets(s, a);
    BoundariesAreOffsets(s, b);
    if CharIndex(s, b) < CharIndex(s, a) {
      OffsetGrows(s, CharIndex(s, b), CharIndex(s, a));
    }
  }

  lemma {:induction false} EncodeSplits(s: string, k: nat)
    requires k <= |s|
    ensures Encode(s) == Encode(s[..k]) + Encode(s[k..]) && Offset(s, k) == |Encode(s[..k])|
    decreases k
  {
    if k > 0 {
      EncodeSplits(s[1..], k - 1);
      assert s[..k][0] == s[0] && s[..k][1..] == s[1..][..k - 1] && s[1..][k - 1..] == s[k..];
    }
  }

  /** The slice is exactly the characters whose bytes lie between the offsets. */
  lemma SliceIsBytes(s: string, a: nat, b: nat)
    requires a <= b <= |Encode(s)| && Boundary(Encode(s), a) && Boundary(Encode(s), b)
    ensures Encode(Slice(s, a, b)) == Encode(s)[a..b]
  {
    var i, j := CharIndex(s, a), CharIndex(s, b);
    SliceInOrder(s, a, b);
    BoundariesAreOffsets(s, a);
    BoundariesAreOffsets(s, b);
    EncodeSplits(s, j);
    EncodeSplits(s[..j], i);
    EncodeSplits(s, i);
    assert s[..j][..i] == s[..i] && s[..j][i..] == s[i..j];
  }
}
