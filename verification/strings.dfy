/** Text helpers shared by the payload types: UTF-8 byte length (the unit
    in which `heapless::String<N>` counts its capacity), substring search,
    number rendering and the capacity-bounded writer behind `write!` into a
    `heapless::String`. */
module Strings {

  /** Number of bytes the UTF-8 encoding of one Unicode scalar value takes. */
  function Utf8Width(c: char): (n: nat)
    ensures 1 <= n <= 4
    ensures n == 1 <==> c as int < 0x80
  {
    if c as int < 0x80 then 1
    else if c as int < 0x800 then 2
    else if c as int < 0x10000 then 3
    else 4
  }

  /** Number of bytes of the UTF-8 encoding of `s`. */
  function Utf8Len(s: string): nat
  {
    if s == [] then 0 else Utf8Width(s[0]) + Utf8Len(s[1..])
  }

  lemma {:induction false} Utf8LenConcat(a: string, b: string)
    ensures Utf8Len(a + b) == Utf8Len(a) + Utf8Len(b)
  {
    if a == [] {
      assert a + b == b;
    } else {
      assert (a + b)[1..] == a[1..] + b;
      Utf8LenConcat(a[1..], b);
    }
  }

  /** A string takes at least one byte per character, and exactly one for ASCII. */
  lemma {:induction false} Utf8LenBounds(s: string)
    ensures |s| <= Utf8Len(s) <= 4 * |s|
    ensures (forall i :: 0 <= i < |s| ==> s[i] as int < 0x80) ==> Utf8Len(s) == |s|
  {
    if s != [] {
      Utf8LenBounds(s[1..]);
    }
  }

  /** `sub` occurs in `s` at position `i`. */
  ghost predicate OccursAt(s: string, sub: string, i: int)
  {
    0 <= i && i + |sub| <= |s| && s[i..i + |sub|] == sub
  }

  /** Rust's `str::contains` for a string pattern. */
  function Contains(s: string, sub: string): (b: bool)
    ensures b <==> exists i :: OccursAt(s, sub, i)
    decreases |s|
  {
    if |sub| > |s| then
      assert forall i :: !OccursAt(s, sub, i);
      false
    else if s[..|sub|] == sub then
      assert OccursAt(s, sub, 0);
      true
    else
      var r := Contains(s[1..], sub);
      assert forall i :: OccursAt(s[1..], sub, i) <==> OccursAt(s, sub, i + 1);
      assert !OccursAt(s, sub, 0);
      assert (exists i :: OccursAt(s, sub, i)) ==> exists i :: OccursAt(s[1..], sub, i) by {
        if exists i :: OccursAt(s, sub, i) {
          var i :| OccursAt(s, sub, i);
          assert i != 0;
          assert OccursAt(s[1..], sub, i - 1);
        }
      }
      r
  }

  lemma ContainsOfConcat(a: string, sub: string, b: string)
    ensures Contains(a + sub + b, sub)
  {
    assert (a + sub + b)[|a|..|a| + |sub|] == sub;
    assert OccursAt(a + sub + b, sub, |a|);
  }

  function DigitChar(d: nat): (c: char)
    requires d < 16
    ensures c as int < 0x80
  {
    "0123456789abcdef"[d]
  }

  /** Decimal rendering of a natural number, as Rust's `Display`/`Debug` of an
      unsigned integer writes it: no sign, no leading zeros. */
  function Decimal(n: nat): (s: string)
    ensures 1 <= |s|
    ensures forall i :: 0 <= i < |s| ==> '0' <= s[i] <= '9'
    ensures n > 0 ==> s[0] != '0'
    decreases n
  {
    if n < 10 then [DigitChar(n)] else Decimal(n / 10) + [DigitChar(n % 10)]
  }

  /** Value of a string of decimal digits. */
  function DecimalValue(s: string): nat
    requires forall i :: 0 <= i < |s| ==> '0' <= s[i] <= '9'
  {
    if s == [] then 0 else DecimalValue(s[..|s| - 1]) * 10 + (s[|s| - 1] as int - '0' as int)
  }

  lemma {:induction false} DecimalRoundTrip(n: nat)
    ensures DecimalValue(Decimal(n)) == n
    decreases n
  {
    if n >= 10 {
      var s := Decimal(n);
      assert s[..|s| - 1] == Decimal(n / 10);
      DecimalRoundTrip(n / 10);
    }
  }

  /** Lower-case hexadecimal rendering without leading zeros (the digits of a
      `\u{...}` escape). */
  function Hex(n: nat): (s: string)
    ensures 1 <= |s|
    ensures forall i :: 0 <= i < |s| ==> s[i] as int < 0x80
    decreases n
  {
    if n < 16 then [DigitChar(n)] else Hex(n / 16) + [DigitChar(n % 16)]
  }

  /** Concatenation of a sequence of string pieces. */
  function Concat(pieces: seq<string>): string
  {
    if pieces == [] then [] else pieces[0] + Concat(pieces[1..])
  }

  lemma {:induction false} ConcatAppend(a: seq<string>, b: seq<string>)
    ensures Concat(a + b) == Concat(a) + Concat(b)
  {
    if a == [] {
      assert a + b == b;
    } else {
      assert (a + b)[1..] == a[1..] + b;
      ConcatAppend(a[1..], b);
    }
  }

  lemma ConcatOne(a: string)
    ensures Concat([a]) == a
  {
    assert [a][1..] == [];
    assert Concat([a][1..]) == [];
  }

  lemma ConcatPair(a: string, b: string)
    ensures Concat([a, b]) == a + b
  {
    assert [a, b][1..] == [b];
    ConcatOne(b);
    assert Concat([a, b]) == a + Concat([b]);
  }

  /** Unfolds `Concat` at position `i`. */
  lemma ConcatDrop(p: seq<string>, i: nat)
    requires i < |p|
    ensures Concat(p[i..]) == p[i] + Concat(p[i + 1..])
  {
    assert p[i..][1..] == p[i + 1..];
  }

  /** `r` is what writing `pieces` after `buf` leaves when the write stops
      before piece `k`: every piece before `k` was written, and piece `k`,
      if there is one, would not fit in `cap` bytes. */
  ghost predicate StopsAt(buf: string, pieces: seq<string>, cap: nat, k: nat, r: string)
  {
    k <= |pieces| && r == buf + Concat(pieces[..k])
    && (k < |pieces| ==> Utf8Len(r + pieces[k]) > cap)
  }

  /** What `write!` leaves in a `heapless::String` of capacity `cap` that
      holds `buf`: the formatting machinery hands the pieces over one by one,
      a piece that does not fit is refused whole, and the first refusal ends
      the write. */
  function WritePieces(buf: string, pieces: seq<string>, cap: nat): (r: string)
    requires Utf8Len(buf) <= cap
    ensures Utf8Len(r) <= cap
    ensures exists k :: StopsAt(buf, pieces, cap, k, r)
    ensures Utf8Len(buf + Concat(pieces)) <= cap ==> r == buf + Concat(pieces)
    decreases |pieces|
  {
    if pieces == [] then
      assert StopsAt(buf, pieces, cap, 0, buf);
      buf
    else if Utf8Len(buf + pieces[0]) <= cap then
      var r := WritePieces(buf + pieces[0], pieces[1..], cap);
      WrittenAfterFirst(buf, pieces, cap, r);
      ConcatFirst(buf, pieces);
      r
    else
      assert StopsAt(buf, pieces, cap, 0, buf);
      ConcatFirst(buf, pieces);
      Utf8LenConcat(buf + pieces[0], Concat(pieces[1..]));
      buf
  }

  /** Writing the first piece and then stopping among the others is
      stopping among all the pieces, one piece later. */
  lemma WrittenAfterFirst(buf: string, pieces: seq<string>, cap: nat, r: string)
    requires pieces != []
    requires exists k :: StopsAt(buf + pieces[0], pieces[1..], cap, k, r)
    ensures exists k :: StopsAt(buf, pieces, cap, k, r)
  {
    var k: nat :| StopsAt(buf + pieces[0], pieces[1..], cap, k, r);
    assert k <= |pieces| - 1;
    assert pieces[..k + 1] == [pieces[0]] + pieces[1..][..k];
    ConcatAppend([pieces[0]], pieces[1..][..k]);
    ConcatOne(pieces[0]);
    assert r == buf + Concat(pieces[..k + 1]);
    assert k + 1 < |pieces| ==> pieces[k + 1] == pieces[1..][k];
    assert StopsAt(buf, pieces, cap, k + 1, r);
  }

  /** The place where a write stops is determined: two results that both fit
      and both stop where the next piece does not fit stop at the same
      piece, so `WritePieces` writes the longest run of whole pieces that
      fits. */
  lemma {:induction false} StopsAtIsUnique(buf: string, pieces: seq<string>, cap: nat, k1: nat, r1: string, k2: nat, r2: string)
    requires StopsAt(buf, pieces, cap, k1, r1) && Utf8Len(r1) <= cap
    requires StopsAt(buf, pieces, cap, k2, r2) && Utf8Len(r2) <= cap
    ensures k1 == k2 && r1 == r2
  {
    if k1 < k2 {
      StopsBeforeLater(buf, pieces, cap, k1, r1, k2, r2);
    } else if k2 < k1 {
      StopsBeforeLater(buf, pieces, cap, k2, r2, k1, r1);
    }
  }

  /** A write that goes past the piece where another one stopped holds
      that piece, which did not fit, so it does not fit either. */
  lemma StopsBeforeLater(buf: string, pieces: seq<string>, cap: nat, k1: nat, r1: string, k2: nat, r2: string)
    requires StopsAt(buf, pieces, cap, k1, r1)
    requires StopsAt(buf, pieces, cap, k2, r2)
    requires k1 < k2
    ensures Utf8Len(r2) > cap
  {
    var rest := pieces[k1 + 1..k2];
    assert pieces[..k2] == pieces[..k1] + [pieces[k1]] + rest;
    ConcatAppend(pieces[..k1] + [pieces[k1]], rest);
    ConcatAppend(pieces[..k1], [pieces[k1]]);
    ConcatOne(pieces[k1]);
    assert r2 == (r1 + pieces[k1]) + Concat(rest);
    Utf8LenConcat(r1 + pieces[k1], Concat(rest));
  }

  lemma ConcatFirst(buf: string, pieces: seq<string>)
    requires pieces != []
    ensures buf + Concat(pieces) == (buf + pieces[0]) + Concat(pieces[1..])
  {
  }
}
