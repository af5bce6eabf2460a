/** UUIDs and their canonical text form.

    A transfer sorts its two warehouse ids by `str(uuid)`. The text is the 32 lower-case
    hexadecimal digits of the 128-bit value, most significant first, in groups of
    8-4-4-4-12 (section 4 of RFC 9562). Everything the lock order needs follows from one
    fact proved here: comparing the texts is comparing the integers. */
module Uuids {
  import opened Wrappers

  const LIMIT: nat := 0x1_0000_0000_0000_0000_0000_0000_0000_0000

  type Uuid = n: nat | n < LIMIT

  function Power16(width: nat): (p: nat)
    ensures p > 0
  {
    if width == 0 then 1 else 16 * Power16(width - 1)
  }

  function Digit(d: nat): char
    requires d < 16
  {
    "0123456789abcdef"[d]
  }

  /** The `width` low hexadecimal digits of n, most significant first. */
  function Hex(n: nat, width: nat): (s: string)
    ensures |s| == width
  {
    if width == 0 then "" else Hex(n / 16, width - 1) + [Digit(n % 16)]
  }

  function Hyphenate(h: string): string
    requires |h| == 32
  {
    h[..8] + ("-" + (h[8..12] + ("-" + (h[12..16] + ("-" + (h[16..20] + ("-" + h[20..])))))))
  }

  function Text(u: Uuid): string {
    Hyphenate(Hex(u, 32))
  }

  /** Python's `<` on strings: lexicographic by code point, a proper prefix being smaller. */
  predicate LexLess(s: string, t: string) {
    if |t| == 0 then false
    else if |s| == 0 then true
    else s[0] < t[0] || (s[0] == t[0] && LexLess(s[1..], t[1..]))
  }

  lemma {:induction false} LexConcat(s: string, s': string, t: string, t': string)
    requires |s| == |t|
    ensures LexLess(s + s', t + t') <==> LexLess(s, t) || (s == t && LexLess(s', t'))
  {
    if |s| == 0 {
      assert s + s' == s' && t + t' == t';
    } else {
      assert (s + s')[1..] == s[1..] + s' && (t + t')[1..] == t[1..] + t';
      LexConcat(s[1..], s', t[1..], t');
      assert s == t <==> s[0] == t[0] && s[1..] == t[1..];
    }
  }

  lemma {:induction false} LexIrreflexive(s: string)
    ensures !LexLess(s, s)
  {
    if |s| > 0 {
      LexIrreflexive(s[1..]);
    }
  }

  lemma DigitOrder(c: nat, d: nat)
    requires c < 16 && d < 16
    ensures Digit(c) < Digit(d) <==> c < d
    ensures Digit(c) == Digit(d) <==> c == d
  {
  }

  /** On numbers that fit the width, digit strings are ordered as the numbers are. */
  lemma {:induction false} HexOrder(a: nat, b: nat, width: nat)
    requires a < Power16(width) && b < Power16(width)
    ensures LexLess(Hex(a, width), Hex(b, width)) <==> a < b
    ensures Hex(a, width) == Hex(b, width) <==> a == b
  {
    if width > 0 {
      var x, y := Hex(a / 16, width - 1), Hex(b / 16, width - 1);
      var c, d := [Digit(a % 16)], [Digit(b % 16)];
      HexOrder(a / 16, b / 16, width - 1);
      DigitOrder(a % 16, b % 16);
      LexConcat(x, c, y, d);
      assert x + c == y + d <==> x == y && c == d by {
        if x + c == y + d {
          assert x == (x + c)[..width - 1] && y == (y + d)[..width - 1];
          assert (x + c)[width - 1] == c[0] && (y + d)[width - 1] == d[0];
        }
      }
    }
  }

  /** Hyphens sit at the same places in every text, so they do not affect the order. */
  lemma {:induction false} Hyphen(s: string, s': string, t: string, t': string)
    requires |s| == |t|
    ensures LexLess(s + ("-" + s'), t + ("-" + t')) <==> LexLess(s, t) || (s == t && LexLess(s', t'))
  {
    LexConcat(s, "-" + s', t, "-" + t');
    assert ("-" + s')[1..] == s' && ("-" + t')[1..] == t';
  }

  lemma HyphenateOrder(g: string, h: string)
    requires |g| == 32 && |h| == 32
    ensures LexLess(Hyphenate(g), Hyphenate(h)) <==> LexLess(g, h)
  {
    LexConcat(g[..20], g[20..], h[..20], h[20..]);
    LexConcat(g[..16], g[16..20], h[..16], h[16..20]);
    LexConcat(g[..12], g[12..16], h[..12], h[12..16]);
    LexConcat(g[..8], g[8..12], h[..8], h[8..12]);
    forall s: string | s == g || s == h
      ensures s[..20] + s[20..] == s && s[..16] + s[16..20] == s[..20]
      ensures s[..12] + s[12..16] == s[..16] && s[..8] + s[8..12] == s[..12]
    {
    }
    var g3, h3 := g[16..20] + ("-" + g[20..]), h[16..20] + ("-" + h[20..]);
    var g2, h2 := g[12..16] + ("-" + g3), h[12..16] + ("-" + h3);
    var g1, h1 := g[8..12] + ("-" + g2), h[8..12] + ("-" + h2);
    Hyphen(g[16..20], g[20..], h[16..20], h[20..]);
    Hyphen(g[12..16], g3, h[12..16], h3);
    Hyphen(g[8..12], g2, h[8..12], h2);
    Hyphen(g[..8], g1, h[..8], h1);
    assert g[..20] == h[..20] <==> g[..16] == h[..16] && g[16..20] == h[16..20];
    assert g[..16] == h[..16] <==> g[..12] == h[..12] && g[12..16] == h[12..16];
    assert g[..12] == h[..12] <==> g[..8] == h[..8] && g[8..12] == h[8..12];
  }

  lemma Power16Limit()
    ensures Power16(32) == LIMIT
  {
    assert Power16(8) == 0x1_0000_0000;
    assert Power16(16) == 0x1_0000_0000_0000_0000;
    assert Power16(24) == 0x1_0000_0000_0000_0000_0000_0000;
  }

  /** Sorting by text is sorting by value: a strict total order on ids. */
  lemma TextOrder(a: Uuid, b: Uuid)
    ensures LexLess(Text(a), Text(b)) <==> a < b
  {
    Power16Limit();
    HexOrder(a, b, 32);
    HyphenateOrder(Hex(a, 32), Hex(b, 32));
  }

  /** The text identifies the id, so a warehouse's text can serve as its channel name. */
  lemma TextInjective(a: Uuid, b: Uuid)
    requires Text(a) == Text(b)
    ensures a == b
  {
    LexIrreflexive(Text(a));
    TextOrder(a, b);
    TextOrder(b, a);
  }

  // ---------- Reading a text back ----------

  /** The value of a lower-case hexadecimal digit. */
  function DigitValue(c: char): Option<nat> {
    if '0' <= c <= '9' then Some((c - '0') as nat)
    else if 'a' <= c <= 'f' then Some((c - 'a') as nat + 10)
    else None
  }

  function ReadHex(s: string): Option<nat> {
    if s == "" then Some(0) else
    var high, low := ReadHex(s[..|s| - 1]), DigitValue(s[|s| - 1]);
    if high.Some? && low.Some? then Some(16 * high.value + low.value) else None
  }

  /** 32 lower-case digits in groups of 8, 4, 4, 4 and 12. */
  function Parse(t: string): Option<nat> {
    if |t| == 36 && t[8] == '-' && t[13] == '-' && t[18] == '-' && t[23] == '-'
    then ReadHex(t[..8] + t[9..13] + t[14..18] + t[19..23] + t[24..])
    else None
  }

  lemma DigitReads(d: nat)
    requires d < 16
    ensures DigitValue(Digit(d)) == Some(d)
  {
  }

  lemma {:induction false} HexReads(n: nat, width: nat)
    requires n < Power16(width)
    ensures ReadHex(Hex(n, width)) == Some(n)
  {
    if width > 0 {
      HexReads(n / 16, width - 1);
      DigitReads(n % 16);
      assert Hex(n, width)[..width - 1] == Hex(n / 16, width - 1);
    }
  }

  lemma Groups(h: string)
    requires |h| == 32
    ensures var t := Hyphenate(h);
      && |t| == 36 && t[8] == '-' && t[13] == '-' && t[18] == '-' && t[23] == '-'
      && t[..8] == h[..8] && t[9..13] == h[8..12] && t[14..18] == h[12..16]
      && t[19..23] == h[16..20] && t[24..] == h[20..]
  {
  }

  /** An id's text is in the canonical form and reads back as the id. */
  lemma TextReads(u: Uuid)
    ensures Parse(Text(u)) == Some(u)
  {
    hide Hex, ReadHex, Hyphenate;
    var h := Hex(u, 32);
    Power16Limit();
    HexReads(u, 32);
    Groups(h);
    assert h[..8] + h[8..12] + h[12..16] + h[16..20] + h[20..] == h;
  }
}
