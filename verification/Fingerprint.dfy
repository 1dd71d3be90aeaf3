/**
 The prompt fingerprint (admin-api/src/services/summarize.ts, `computeFingerprint`): a
 djb2 hash computed with JavaScript's signed 32-bit operators over the normalized text.
 A string is a sequence of UTF-16 code units, given as numbers.
 */
module Fingerprint {

  const TWO_32: int := 0x1_0000_0000
  const TWO_31: int := 0x8000_0000
  const MAX_SAFE: int := 0x1F_FFFF_FFFF_FFFF   // 2^53 - 1: integers up to here are exact doubles

  type Unit = c: nat | c < 0x1_0000

  /** ToInt32 of ECMA-262 (section 7.1.6), on integers. */
  function ToInt32(x: int): (r: int)
    ensures -TWO_31 <= r < TWO_31 && (r - x) % TWO_32 == 0
  {
    var m := x % TWO_32;
    Shift(x, 0);
    if m >= TWO_31 then (Shift(x, -1); m - TWO_32) else m
  }

  lemma Shift(x: int, k: int)
    ensures (x % TWO_32 + k * TWO_32 - x) % TWO_32 == 0
  {
    var q := x / TWO_32;
    assert x % TWO_32 + k * TWO_32 - x == (k - q) * TWO_32;
    Multiple(k - q);
  }

  lemma Multiple(k: int)
    ensures (k * TWO_32) % TWO_32 == 0
  {
  }

  /** `x >>> 0`. */
  function ToUint32(x: int): nat {
    x % TWO_32
  }

  /** Congruence modulo 2^32. */
  predicate Congruent(a: int, b: int) {
    a % TWO_32 == b % TWO_32
  }

  /** The hash before reduction: the value of the text as a base-33 numeral after 5381. */
  function Horner(s: seq<Unit>): nat {
    if s == [] then 5381 else 33 * Horner(s[..|s| - 1]) + s[|s| - 1]
  }

  function Power33(n: nat): nat {
    if n == 0 then 1 else 33 * Power33(n - 1)
  }

  /** Sum of s[i] * 33^(|s| - 1 - i). */
  function WeightedSum(s: seq<Unit>): nat {
    if s == [] then 0 else s[0] * Power33(|s| - 1) + WeightedSum(s[1..])
  }

  lemma {:induction false} WeightedSumLast(s: seq<Unit>, c: Unit)
    ensures WeightedSum(s + [c]) == 33 * WeightedSum(s) + c
  {
    if s == [] {
      assert ([] + [c])[1..] == [] && Power33(0) == 1;
    } else {
      assert (s + [c])[1..] == s[1..] + [c];
      WeightedSumLast(s[1..], c);
      assert s[0] * Power33(|s|) == 33 * (s[0] * Power33(|s| - 1));
    }
  }

  /** The closed form: 5381 * 33^n plus the weighted sum of the code units. */
  lemma {:induction false} HornerClosedForm(s: seq<Unit>)
    ensures Horner(s) == 5381 * Power33(|s|) + WeightedSum(s)
  {
    if s != [] {
      var n := |s| - 1;
      HornerClosedForm(s[..n]);
      assert s == s[..n] + [s[n]];
      WeightedSumLast(s[..n], s[n]);
    }
  }

  lemma CongruentStep(hash: int, h: nat, c: Unit)
    requires Congruent(hash, h)
    ensures Congruent(ToInt32(hash * 32) + hash + c, 33 * h + c)
  {
    var i := ToInt32(hash * 32);
    var a := (i - hash * 32) / TWO_32;
    var b := (hash - h) / TWO_32;
    assert hash - h == b * TWO_32;
    assert i - hash * 32 == a * TWO_32;
    assert i + hash + c == 33 * h + c + (a + 33 * b) * TWO_32;
    AddMultiple(33 * h + c, a + 33 * b);
  }

  lemma ReducedStep(x: int, r: int)
    requires (r - x) % TWO_32 == 0
    ensures Congruent(r, x)
  {
    AddMultiple(x, (r - x) / TWO_32);
  }

  lemma AddMultiple(x: int, k: int)
    ensures (x + k * TWO_32) % TWO_32 == x % TWO_32
  {
  }

  /** The hash loop: `((hash << 5) + hash + charCodeAt(i)) & 0xffffffff`. */
  method Djb2(s: seq<Unit>) returns (hash: int)
    ensures -TWO_31 <= hash < TWO_31
    ensures ToUint32(hash) == (5381 * Power33(|s|) + WeightedSum(s)) % TWO_32
  {
    hash := 5381;
    for i := 0 to |s|
      invariant -TWO_31 <= hash < TWO_31
      invariant Congruent(hash, Horner(s[..i]))
    {
      var shifted := ToInt32(hash * 32);
      var sum := shifted + hash + s[i];
      assert -MAX_SAFE <= sum <= MAX_SAFE && -MAX_SAFE <= hash * 32 <= MAX_SAFE;
      ghost var before := s[..i];
      CongruentStep(hash, Horner(before), s[i]);
      hash := ToInt32(sum);
      ReducedStep(sum, hash);
      assert s[..i + 1][..i] == before;
    }
    assert s[..|s|] == s;
    HornerClosedForm(s);
  }

  // ── Normalization: collapse white space, trim, cut at 500 ──

  const SPACE: Unit := 32
  const LIMIT: nat := 500

  /** What `\s` matches, and `trim` strips. */
  predicate IsSpace(c: Unit) {
    9 <= c <= 13 || c == 32 || c == 0xA0 || c == 0x1680 || 0x2000 <= c <= 0x200A || c == 0x2028 || c == 0x2029
    || c == 0x202F || c == 0x205F || c == 0x3000 || c == 0xFEFF
  }

  /** Every run of white space becomes one space; `inRun` says whether s continues a run. */
  function Collapse(s: seq<Unit>, inRun: bool): seq<Unit> {
    if s == [] then []
    else if !IsSpace(s[0]) then [s[0]] + Collapse(s[1..], false)
    else if inRun then Collapse(s[1..], true)
    else [SPACE] + Collapse(s[1..], true)
  }

  function TrimStart(s: seq<Unit>): seq<Unit> {
    if s != [] && IsSpace(s[0]) then TrimStart(s[1..]) else s
  }

  function TrimEnd(s: seq<Unit>): seq<Unit> {
    if s != [] && IsSpace(s[|s| - 1]) then TrimEnd(s[..|s| - 1]) else s
  }

  function Cut(s: seq<Unit>): seq<Unit> {
    if |s| <= LIMIT then s else s[..LIMIT]
  }

  /** Collapsed and trimmed, before the cut. */
  function Tidy(s: seq<Unit>): seq<Unit> {
    TrimEnd(TrimStart(Collapse(s, false)))
  }

  function Normalize(s: seq<Unit>): seq<Unit> {
    Cut(Tidy(s))
  }

  /** The only white space is single spaces between other units. */
  ghost predicate SingleSpaced(s: seq<Unit>) {
    (forall i | 0 <= i < |s| :: IsSpace(s[i]) ==> s[i] == SPACE)
    && (forall i | 0 <= i < |s| - 1 :: IsSpace(s[i]) ==> !IsSpace(s[i + 1]))
  }

  lemma {:induction false} CollapseIsSingleSpaced(s: seq<Unit>, inRun: bool)
    ensures SingleSpaced(Collapse(s, inRun))
    ensures inRun && Collapse(s, inRun) != [] ==> !IsSpace(Collapse(s, inRun)[0])
  {
    if s != [] {
      CollapseIsSingleSpaced(s[1..], IsSpace(s[0]));
    }
  }

  lemma {:induction false} CollapseOfSingleSpaced(s: seq<Unit>, inRun: bool)
    requires SingleSpaced(s) && (inRun && s != [] ==> !IsSpace(s[0]))
    ensures Collapse(s, inRun) == s
  {
    if s != [] {
      var c, rest := s[0], s[1..];
      assert s == [c] + rest && (IsSpace(c) ==> c == SPACE);
      assert forall i | 0 <= i < |rest| :: rest[i] == s[i + 1];
      assert IsSpace(c) && rest != [] ==> !IsSpace(rest[0]);
      CollapseOfSingleSpaced(rest, IsSpace(c));
    }
  }

  lemma {:induction false} TrimEndFacts(s: seq<Unit>)
    requires SingleSpaced(s)
    ensures SingleSpaced(TrimEnd(s)) && TrimEnd(s) <= s
    ensures TrimEnd(s) != [] ==> !IsSpace(TrimEnd(s)[|TrimEnd(s)| - 1])
  {
    if s != [] && IsSpace(s[|s| - 1]) { TrimEndFacts(s[..|s| - 1]); }
  }

  lemma {:induction false} TrimStartFacts(s: seq<Unit>)
    requires SingleSpaced(s)
    ensures SingleSpaced(TrimStart(s))
    ensures TrimStart(s) != [] ==> !IsSpace(TrimStart(s)[0])
  {
    if s != [] && IsSpace(s[0]) { TrimStartFacts(s[1..]); }
  }

  lemma TidyFacts(s: seq<Unit>)
    ensures SingleSpaced(Tidy(s))
    ensures Tidy(s) != [] ==> !IsSpace(Tidy(s)[0]) && !IsSpace(Tidy(s)[|Tidy(s)| - 1])
  {
    CollapseIsSingleSpaced(s, false);
    TrimStartFacts(Collapse(s, false));
    TrimEndFacts(TrimStart(Collapse(s, false)));
  }

  /** A normalized text is single-spaced, starts with no space and has at most 500 units. */
  lemma NormalizeFacts(s: seq<Unit>)
    ensures SingleSpaced(Normalize(s)) && |Normalize(s)| <= LIMIT
    ensures Normalize(s) != [] ==> !IsSpace(Normalize(s)[0])
  {
    TidyFacts(s);
  }

  /** Normalizing a normalized text takes off at most a space at its end. */
  lemma NormalizeAgain(n: seq<Unit>)
    requires SingleSpaced(n) && |n| <= LIMIT && (n != [] ==> !IsSpace(n[0]))
    ensures Normalize(n) == n <==> n == [] || !IsSpace(n[|n| - 1])
  {
    CollapseOfSingleSpaced(n, false);
    TrimEndFacts(n);
  }

  /**
   Normalizing twice is normalizing once except for exactly the texts that, collapsed and
   trimmed, are longer than 500 units and have a space as the 500th.
   */
  lemma NormalizeIsIdempotentIff(s: seq<Unit>)
    ensures Normalize(Normalize(s)) == Normalize(s)
       <==> !(|Tidy(s)| > LIMIT && Tidy(s)[LIMIT - 1] == SPACE)
  {
    TidyFacts(s);
    NormalizeFacts(s);
    NormalizeAgain(Normalize(s));
  }

  // ── Normalization as words ──

  /** The runs of units between white space; `current` is the one being read. */
  function Words(s: seq<Unit>, current: seq<Unit>): seq<seq<Unit>> {
    if s == [] then (if current == [] then [] else [current])
    else if IsSpace(s[0]) then (if current == [] then [] else [current]) + Words(s[1..], [])
    else Words(s[1..], current + [s[0]])
  }

  lemma {:induction false} WordsOfCollapsed(s: seq<Unit>, inRun: bool, current: seq<Unit>)
    requires inRun ==> current == []
    ensures Words(Collapse(s, inRun), current) == Words(s, current)
    decreases |s|
  {
    if s != [] {
      var rest := s[1..];
      if !IsSpace(s[0]) {
        WordsOfCollapsed(rest, false, current + [s[0]]);
        assert ([s[0]] + Collapse(rest, false))[1..] == Collapse(rest, false);
      } else {
        WordsOfCollapsed(rest, true, []);
        if !inRun { assert ([SPACE] + Collapse(rest, true))[1..] == Collapse(rest, true); }
      }
    }
  }

  lemma {:induction false} WordsOfTrimStart(s: seq<Unit>)
    ensures Words(TrimStart(s), []) == Words(s, [])
  {
    if s != [] && IsSpace(s[0]) { WordsOfTrimStart(s[1..]); }
  }

  lemma {:induction false} WordsSpaceAfter(s: seq<Unit>, space: Unit, current: seq<Unit>)
    requires IsSpace(space)
    ensures Words(s + [space], current) == Words(s, current)
    decreases |s|
  {
    if s == [] {
      assert s + [space] == [space] && [space][1..] == [];
    } else {
      assert (s + [space])[1..] == s[1..] + [space];
      WordsSpaceAfter(s[1..], space, if IsSpace(s[0]) then [] else current + [s[0]]);
    }
  }

  lemma {:induction false} WordsOfTrimEnd(s: seq<Unit>)
    ensures Words(TrimEnd(s), []) == Words(s, [])
  {
    if s != [] && IsSpace(s[|s| - 1]) {
      WordsOfTrimEnd(s[..|s| - 1]);
      assert s == s[..|s| - 1] + [s[|s| - 1]];
      WordsSpaceAfter(s[..|s| - 1], s[|s| - 1], []);
    }
  }

  /** What separates words: the white space of ECMA-262 and its line terminators (sections 12.2 and 12.3). */
  lemma SpacesAre(c: Unit)
    ensures IsSpace(c) <==>
            || c in {0x9, 0xA, 0xB, 0xC, 0xD, 0x20, 0xA0, 0x1680, 0x2028, 0x2029, 0x202F, 0x205F, 0x3000, 0xFEFF}
            || 0x2000 <= c <= 0x200A
  {
  }

  /** The only white space left is the plain space. */
  lemma OnlyPlainSpaces(s: seq<Unit>, i: nat)
    requires i < |Tidy(s)| && IsSpace(Tidy(s)[i])
    ensures Tidy(s)[i] == 0x20
  {
    TidyFacts(s);
  }

  /** Before the cut the text has the same words, single-spaced, with nothing around them; the cut keeps 500 units. */
  lemma NormalizeKeepsWords(s: seq<Unit>)
    ensures Words(Tidy(s), []) == Words(s, []) && SingleSpaced(Tidy(s))
    ensures Normalize(s) == if |Tidy(s)| <= 500 then Tidy(s) else Tidy(s)[..500]
  {
    TidyFacts(s);
    WordsOfCollapsed(s, false, []);
    WordsOfTrimStart(Collapse(s, false));
    WordsOfTrimEnd(TrimStart(Collapse(s, false)));
  }

  // ── Hexadecimal ──

  function Digit(d: nat): char
    requires d < 16
  {
    "0123456789abcdef"[d]
  }

  function Value(c: char): nat {
    if '0' <= c <= '9' then c as int - '0' as int
    else if 'a' <= c <= 'f' then c as int - 'a' as int + 10
    else 0
  }

  predicate IsHexDigit(c: char) {
    '0' <= c <= '9' || 'a' <= c <= 'f'
  }

  /** `n.toString(16)`. */
  function ToHex(n: nat): string {
    if n < 16 then [Digit(n)] else ToHex(n / 16) + [Digit(n % 16)]
  }

  /** `s.padStart(8, '0')`. */
  function Pad8(s: string): string {
    if |s| >= 8 then s else seq(8 - |s|, _ => '0') + s
  }

  function ParseHex(s: string): nat {
    if s == "" then 0 else 16 * ParseHex(s[..|s| - 1]) + Value(s[|s| - 1])
  }

  function Power16(k: nat): nat {
    if k == 0 then 1 else 16 * Power16(k - 1)
  }

  lemma DigitValue(d: nat)
    requires d < 16
    ensures IsHexDigit(Digit(d)) && Value(Digit(d)) == d
  {
  }

  lemma {:induction false} HexFacts(n: nat, k: nat)
    requires n < Power16(k) && k > 0
    ensures |ToHex(n)| <= k && ParseHex(ToHex(n)) == n && forall c | c in ToHex(n) :: IsHexDigit(c)
    decreases n
  {
    DigitValue(n % 16);
    if n < 16 {
      assert ToHex(n)[..0] == "";
    } else {
      HexFacts(n / 16, k - 1);
      assert ToHex(n)[..|ToHex(n)| - 1] == ToHex(n / 16);
    }
  }

  lemma {:induction false} LeadingZeros(k: nat, s: string)
    ensures ParseHex(seq(k, _ => '0') + s) == ParseHex(s)
    decreases |s|, k
  {
    var z := seq(k, _ => '0');
    if s != "" {
      LeadingZeros(k, s[..|s| - 1]);
      assert (z + s)[..|z + s| - 1] == z + s[..|s| - 1];
    } else if k > 0 {
      LeadingZeros(k - 1, "");
      assert z + "" == seq(k - 1, _ => '0') + "0";
      assert (z + "")[..k - 1] == seq(k - 1, _ => '0') + "";
    }
  }

  /** `computeFingerprint`. */
  method ComputeFingerprint(content: seq<Unit>) returns (fp: string)
    ensures fp == Render((5381 * Power33(|Normalize(content)|) + WeightedSum(Normalize(content))) % TWO_32)
  {
    var hash := Djb2(Normalize(content));
    fp := Render(ToUint32(hash));
  }

  function Render(h: nat): string {
    "fp_" + Pad8(ToHex(h))
  }

  /** Always `fp_` and eight hex digits, which give the hash back. */
  lemma RenderIsFaithful(h: nat)
    requires h < TWO_32
    ensures |Render(h)| == 11 && Render(h)[..3] == "fp_"
    ensures forall c | c in Render(h)[3..] :: IsHexDigit(c)
    ensures ParseHex(Render(h)[3..]) == h
  {
    assert Power16(8) == TWO_32 by {
      assert Power16(4) == 0x1_0000;
      assert Power16(8) == 16 * 16 * 16 * 16 * Power16(4);
    }
    HexFacts(h, 8);
    assert Render(h)[3..] == Pad8(ToHex(h));
    if |ToHex(h)| < 8 { LeadingZeros(8 - |ToHex(h)|, ToHex(h)); }
  }
}
