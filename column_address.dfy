/** The column address encoder: `ColumnLetter` turns a 0-based column cursor
    into the letters of a cell reference ("A", "B", ..., "AA", ...).  Both
    exporters carry an identical copy of it.  `ColumnName` and `ColumnNumber`
    are the conventional bijective base-26 naming and its decoder, against
    which the copy in the source is measured. */
module ColumnAddress {

  /** .NET's char.IsWhiteSpace: the Unicode separators (Zs, Zl, Zp) and the
      control characters U+0009 to U+000D and U+0085. */
  predicate IsWhiteSpace(c: char) {
    || ('\t' <= c <= '\r')
    || c == ' '
    || c == '\U{85}'
    || c == '\U{A0}'
    || c == '\U{1680}'
    || ('\U{2000}' <= c <= '\U{200A}')
    || c == '\U{2028}'
    || c == '\U{2029}'
    || c == '\U{202F}'
    || c == '\U{205F}'
    || c == '\U{3000}'
  }

  /** Drops the white space at the start of s. */
  function TrimStart(s: string): (r: string)
    ensures |r| <= |s| && r == s[|s| - |r|..]
    ensures r == [] || !IsWhiteSpace(r[0])
    ensures forall k :: 0 <= k < |s| - |r| ==> IsWhiteSpace(s[k])
  {
    if s != [] && IsWhiteSpace(s[0]) then TrimStart(s[1..]) else s
  }

  /** Drops the white space at the end of s. */
  function TrimEnd(s: string): (r: string)
    ensures |r| <= |s| && r == s[..|r|]
    ensures r == [] || !IsWhiteSpace(r[|r| - 1])
    ensures forall k :: |r| <= k < |s| ==> IsWhiteSpace(s[k])
  {
    if s != [] && IsWhiteSpace(s[|s| - 1]) then TrimEnd(s[..|s| - 1]) else s
  }

  /** String.Trim: drops the white space at both ends. */
  function Trim(s: string): (r: string)
    ensures |r| <= |s|
    ensures r == [] || (!IsWhiteSpace(r[0]) && !IsWhiteSpace(r[|r| - 1]))
  {
    TrimEnd(TrimStart(s))
  }

  /** Beyond this index the top digit's character code reaches U+D800: the
      C# cast `(char)` then yields UTF-16 surrogate code units (and wraps at
      16 bits further on), which are not characters of a Dafny string. */
  const ColumnLetterLimit: nat := 676 * 0xD7C0

  /** Indices whose three digits are all letters 'A'..'Z' (the top digit is at most 26). */
  const LetterRange: nat := 27 * 676

  /** The letter for a digit value 1..26. */
  function Letter(d: nat): (c: char)
    requires 1 <= d <= 26
    ensures 'A' <= c <= 'Z' && c as int == 64 + d
  {
    (64 + d) as char
  }

  /** The encoder of both exporters: the top digit is index / 676, the middle
      digit (index % 676) / 26, each shown as the letter 64 + digit or as a
      space when zero; the low digit index % 26 is always the letter 65 + digit;
      the three characters are joined and trimmed. */
  function ColumnLetter(columnXAxis: nat): (s: string)
    requires columnXAxis < ColumnLetterLimit
    ensures 1 <= |s| <= 3
    ensures s[|s| - 1] == Letter(columnXAxis % 26 + 1)
  {
    Spell(columnXAxis / 676 + 64, columnXAxis % 676 / 26 + 64, columnXAxis % 26 + 65)
  }

  /** A digit's character: the code itself above 64, a space otherwise. */
  function Shown(code: nat): char
    requires code < 0xD800
  {
    if code > 64 then code as char else ' '
  }

  /** A letter digit is shown as its letter, a zero digit as white space. */
  lemma ShownLetter(d: nat)
    requires d <= 26
    ensures Shown(d + 64) == if d > 0 then Letter(d) else ' '
    ensures IsWhiteSpace(Shown(d + 64)) <==> d == 0
  {
  }

  /** The character codes of the three digits turned into the address: a
      code of 64 or less becomes a space, then the joined string is trimmed. */
  function Spell(intFirstLetter: nat, intSecondLetter: nat, intThirdLetter: nat): (s: string)
    requires 64 <= intFirstLetter < 0xD800 && 64 <= intSecondLetter <= 89 && 65 <= intThirdLetter <= 90
    ensures 1 <= |s| <= 3 && s[|s| - 1] == intThirdLetter as char
  {
    var thirdLetter := intThirdLetter as char;
    var joined := [Shown(intFirstLetter), Shown(intSecondLetter), thirdLetter];
    assert !IsWhiteSpace(joined[2]);
    var front := TrimStart(joined);
    assert |front| >= 1 && front[|front| - 1] == thirdLetter;
    TrimEndKeeps(front);
    Trim(joined)
  }

  /** Three digits (top, middle, low) below LetterRange, as ColumnLetter
      shows them: leading zero digits dropped, an inner zero as a space. */
  function LetterForm(d1: nat, d2: nat, d3: nat): string
    requires d1 <= 26 && d2 < 26 && d3 < 26
  {
    if d1 > 0 then [Letter(d1), if d2 > 0 then Letter(d2) else ' ', Letter(d3 + 1)]
    else if d2 > 0 then [Letter(d2), Letter(d3 + 1)]
    else [Letter(d3 + 1)]
  }

  /** Trimming three characters whose last one is not white space. */
  lemma TrimThree(a: char, b: char, c: char)
    requires !IsWhiteSpace(c)
    ensures Trim([a, b, c]) == if !IsWhiteSpace(a) then [a, b, c] else if !IsWhiteSpace(b) then [b, c] else [c]
  {
    var s := [a, b, c];
    assert TrimEnd(TrimStart(s)) == TrimStart(s) by {
      TrimEndKeeps(TrimStart(s));
    }
    if IsWhiteSpace(a) {
      assert TrimStart(s) == TrimStart(s[1..]);
      if IsWhiteSpace(b) {
        assert TrimStart(s[1..]) == TrimStart(s[2..]);
        assert TrimStart(s[2..]) == [c];
      }
    }
  }

  /** A string ending in a character that is not white space is its own TrimEnd. */
  lemma TrimEndKeeps(s: string)
    requires s != [] && !IsWhiteSpace(s[|s| - 1])
    ensures TrimEnd(s) == s
  {
  }

  /** The three digits of i (i / 676, i % 676 / 26, i % 26) put it back together. */
  lemma Digits(i: nat)
    ensures i == 676 * (i / 676) + 26 * (i % 676 / 26) + i % 26
    ensures i % 676 == 26 * (i % 676 / 26) + i % 26
    ensures i % 676 / 26 < 26
  {
  }

  lemma LetterNotWhiteSpace(d: nat)
    requires 1 <= d <= 26
    ensures !IsWhiteSpace(Letter(d))
  {
  }

  /** Letter codes are spelled as their letter form. */
  lemma SpellLetters(d1: nat, d2: nat, d3: nat)
    requires d1 <= 26 && d2 < 26 && d3 < 26
    ensures Spell(d1 + 64, d2 + 64, d3 + 65) == LetterForm(d1, d2, d3)
  {
    ShownLetter(d1);
    ShownLetter(d2);
    LetterNotWhiteSpace(d3 + 1);
    TrimThree(Shown(d1 + 64), Shown(d2 + 64), Letter(d3 + 1));
  }

  lemma ColumnLetterIsLetterForm(i: nat)
    requires i < LetterRange
    ensures i / 676 <= 26 && i % 676 / 26 < 26 && i % 26 < 26
    ensures ColumnLetter(i) == LetterForm(i / 676, i % 676 / 26, i % 26)
  {
    Digits(i);
    SpellLetters(i / 676, i % 676 / 26, i % 26);
  }

  /** On 0..675 the encoder gives the conventional one- and two-letter names:
      'A' + i below 26, then 'A' + (i / 26 - 1) followed by 'A' + i % 26. */
  lemma ColumnLetterBelow676(i: nat)
    requires i < 676
    ensures i < 26 ==> ColumnLetter(i) == [Letter(i + 1)]
    ensures 26 <= i ==> ColumnLetter(i) == [Letter(i / 26), Letter(i % 26 + 1)]
  {
    ColumnLetterIsLetterForm(i);
    assert i / 676 == 0 && i % 676 == i;
  }

  /** From 676 on, the top digit is i / 676 and a zero middle digit is left as
      an inner space ("A A" for 676, "A Z" for 701). */
  lemma ColumnLetterFrom676(i: nat)
    requires 676 <= i < LetterRange
    ensures ColumnLetter(i) == [Letter(i / 676), if i % 676 >= 26 then Letter(i % 676 / 26) else ' ', Letter(i % 26 + 1)]
  {
    ColumnLetterIsLetterForm(i);
    Digits(i);
  }

  /** Different digit triples have different letter forms. */
  lemma LetterFormInjective(d1: nat, d2: nat, d3: nat, e1: nat, e2: nat, e3: nat)
    requires d1 <= 26 && d2 < 26 && d3 < 26 && e1 <= 26 && e2 < 26 && e3 < 26
    requires LetterForm(d1, d2, d3) == LetterForm(e1, e2, e3)
    ensures d1 == e1 && d2 == e2 && d3 == e3
  {
    var s := LetterForm(d1, d2, d3);
    assert s[|s| - 1] as int == 65 + d3 == 65 + e3;
    if |s| == 3 {
      assert s[0] as int == 64 + d1 == 64 + e1;
      if s[1] != ' ' {
        assert s[1] as int == 64 + d2 == 64 + e2;
      }
    } else if |s| == 2 {
      assert s[0] as int == 64 + d2 == 64 + e2;
    }
  }

  /** Different indices with letter digits get different addresses. */
  lemma ColumnLetterInjective(i: nat, j: nat)
    requires i < LetterRange && j < LetterRange
    requires ColumnLetter(i) == ColumnLetter(j)
    ensures i == j
  {
    ColumnLetterIsLetterForm(i);
    ColumnLetterIsLetterForm(j);
    LetterFormInjective(i / 676, i % 676 / 26, i % 26, j / 676, j % 676 / 26, j % 26);
    Digits(i);
    Digits(j);
  }

  /** Trim removes every .NET white-space character, so a top digit whose
      code is a white-space character (index / 676 == 69 gives U+0085, 96
      gives U+00A0) vanishes with the space before it and the address
      collides with a two-letter one: ColumnLetter(46670) spells the codes
      133, 65, 65 and is "AA", like ColumnLetter(26). */
  lemma SpellWhiteSpaceTop(first: nat, d2: nat, d3: nat)
    requires 64 < first < 0xD800 && 1 <= d2 < 26 && d3 < 26
    requires IsWhiteSpace(first as char)
    ensures Spell(first, d2 + 64, d3 + 65) == [Letter(d2), Letter(d3 + 1)]
  {
    ShownLetter(d2);
    LetterNotWhiteSpace(d3 + 1);
    TrimThree(Shown(first), Shown(d2 + 64), Letter(d3 + 1));
  }

  // ---------------------------------------------------------------------
  // Conventional spreadsheet column naming

  predicate IsLetters(s: string) {
    forall k :: 0 <= k < |s| ==> 'A' <= s[k] <= 'Z'
  }

  /** The conventional name of 0-based column i: bijective base 26
      (A..Z, AA..ZZ, AAA..). */
  function ColumnName(i: nat): (s: string)
    ensures |s| >= 1 && IsLetters(s)
    decreases i
  {
    if i < 26 then [Letter(i + 1)] else ColumnName(i / 26 - 1) + [Letter(i % 26 + 1)]
  }

  /** The 1-based column number a conventional name stands for. */
  function ColumnNumber(s: string): (n: nat)
    requires IsLetters(s)
    ensures s != [] ==> n >= 1
  {
    if s == [] then 0 else ColumnNumber(s[..|s| - 1]) * 26 + (s[|s| - 1] as int - 64)
  }

  /** Decoding the conventional name of i gives back i. */
  lemma {:induction false} ColumnNameRoundTrip(i: nat)
    ensures ColumnNumber(ColumnName(i)) == i + 1
    decreases i
  {
    if i >= 26 {
      var q := i / 26;
      ColumnNameRoundTrip(q - 1);
      var s := ColumnName(i);
      assert s[..|s| - 1] == ColumnName(q - 1);
      assert i == 26 * q + i % 26;
    }
  }

  lemma DivMod26(n: nat, v: nat)
    requires v < 26
    ensures (n * 26 + v) / 26 == n && (n * 26 + v) % 26 == v
  {
  }

  /** The conventional name of a column of at least 26, split at its last letter. */
  lemma ColumnNameStep(n: nat, v: nat)
    requires n >= 1 && v < 26
    ensures ColumnName(n * 26 + v) == ColumnName(n - 1) + [Letter(v + 1)]
  {
    DivMod26(n, v);
  }

  /** Every non-empty word of capital letters is the conventional name of
      exactly the column it decodes to. */
  lemma {:induction false} ColumnNumberRoundTrip(s: string)
    requires s != [] && IsLetters(s)
    ensures ColumnName(ColumnNumber(s) - 1) == s
    decreases |s|
  {
    var p, c := s[..|s| - 1], s[|s| - 1];
    var v: nat := c as int - 65;
    assert IsLetters(p);
    var n := ColumnNumber(p);
    assert ColumnNumber(s) - 1 == n * 26 + v;
    assert Letter(v + 1) == c;
    if p == [] {
      assert s == [c];
    } else {
      ColumnNumberRoundTrip(p);
      ColumnNameStep(n, v);
      assert s == p + [c];
    }
  }

  /** The conventional name of the column with digits d1, d2, d3, when no
      zero digit sits below a non-zero one. */
  lemma ColumnNameOfDigits(d1: nat, d2: nat, d3: nat)
    requires d1 <= 26 && d2 < 26 && d3 < 26
    requires d1 == 0 || d2 > 0
    ensures ColumnName(676 * d1 + 26 * d2 + d3) == LetterForm(d1, d2, d3)
  {
    if d2 > 0 {
      ColumnNameStep(26 * d1 + d2, d3);
      assert (26 * d1 + d2) * 26 + d3 == 676 * d1 + 26 * d2 + d3;
      if d1 > 0 {
        ColumnNameStep(d1, d2 - 1);
        assert d1 * 26 + (d2 - 1) == 26 * d1 + d2 - 1;
      }
    }
  }

  /** The encoder agrees with conventional naming below 676, and from 702
      on wherever the middle digit is not zero. */
  lemma ColumnLetterMatchesConventional(i: nat)
    requires i < 676 || (i < LetterRange && i % 676 >= 26)
    ensures ColumnLetter(i) == ColumnName(i)
  {
    ColumnLetterIsLetterForm(i);
    Digits(i);
    ColumnNameOfDigits(i / 676, i % 676 / 26, i % 26);
  }

  /** The discrepancy: from 676 on, an index whose middle digit is zero gets
      an inner space where conventional naming has a letter (676 is "A A",
      conventionally "ZA"). */
  lemma ColumnLetterInnerSpace(i: nat)
    requires 676 <= i < LetterRange && i % 676 < 26
    ensures |ColumnLetter(i)| == 3 && ColumnLetter(i)[1] == ' '
    ensures ColumnLetter(i) != ColumnName(i)
  {
    ColumnLetterFrom676(i);
    var n := ColumnName(i);
    if |n| >= 2 {
      assert 'A' <= n[1] <= 'Z';
    }
  }
}
