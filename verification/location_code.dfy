/**
 * Storage-bin location codes: the validator `userKeyRegExp` and the
 * compact-code converter `convert`.
 */
module LocationCode {

  predicate IsUpper(c: char) { 'A' <= c <= 'Z' }

  predicate IsDigit(c: char) { '0' <= c <= '9' }

  /** A character class of the validator's pattern: `[A-Z]`, `[0-9]` or a literal. */
  datatype CharClass = Upper | Digit | Literal(c: char)

  predicate InClass(k: CharClass, c: char)
  {
    match k
    case Upper => IsUpper(c)
    case Digit => IsDigit(c)
    case Literal(l) => c == l
  }

  /**
   * A class repeated exactly `count` times. The pattern's last quantifier is
   * the lazy `{3}?`: laziness changes which match is found first, not which
   * strings match, and the `$` anchor forces exactly three digits.
   */
  datatype Term = Term(cls: CharClass, count: nat)

  /** `^[A-Z]\-[A-Z]\-[0-9]{2}\-[0-9]{3}?$`, term by term. */
  const Pattern: seq<Term> :=
    [Term(Upper, 1), Term(Literal('-'), 1), Term(Upper, 1), Term(Literal('-'), 1),
     Term(Digit, 2), Term(Literal('-'), 1), Term(Digit, 3)]

  /** Anchored match: the whole of `s` is consumed by the terms of `p` in order. */
  predicate FullMatch(p: seq<Term>, s: string)
    decreases |p|
  {
    if p == [] then s == []
    else
      p[0].count <= |s| &&
      (forall i :: 0 <= i < p[0].count ==> InClass(p[0].cls, s[i])) &&
      FullMatch(p[1..], s[p[0].count..])
  }

  /**
   * `userKeyRegExp.test(s)`. The lazy `{3}?` does not make the last digit
   * optional: every accepted code is ten characters long.
   */
  predicate IsLocationCode(s: string)
    ensures IsLocationCode(s) ==> |s| == 10
  {
    FullMatch(Pattern, s)
  }

  /** The canonical shape read position by position: `L-L-DD-DDD`. */
  predicate Canonical(s: string)
  {
    |s| == 10 &&
    IsUpper(s[0]) && s[1] == '-' && IsUpper(s[2]) && s[3] == '-' &&
    IsDigit(s[4]) && IsDigit(s[5]) && s[6] == '-' &&
    IsDigit(s[7]) && IsDigit(s[8]) && IsDigit(s[9])
  }

  /** The value the page starts with as its fallback location. */
  const DefaultBasket: string := "A-B-53-004"

  /** The validator accepts exactly the canonical shape. */
  lemma LocationCodeIffCanonical(s: string)
    ensures IsLocationCode(s) <==> Canonical(s)
  {
    var p := Pattern;
    assert p[1..][1..][1..][1..][1..][1..][1..] == [];
    if IsLocationCode(s) {
      assert FullMatch(p[1..], s[1..]);
      assert FullMatch(p[2..], s[2..]) by { assert p[1..][1..] == p[2..]; assert s[1..][1..] == s[2..]; }
      assert FullMatch(p[3..], s[3..]) by { assert p[2..][1..] == p[3..]; assert s[2..][1..] == s[3..]; }
      assert FullMatch(p[4..], s[4..]) by { assert p[3..][1..] == p[4..]; assert s[3..][1..] == s[4..]; }
      assert FullMatch(p[5..], s[6..]) by { assert p[4..][1..] == p[5..]; assert s[4..][2..] == s[6..]; }
      assert FullMatch(p[6..], s[7..]) by { assert p[5..][1..] == p[6..]; assert s[6..][1..] == s[7..]; }
      assert s[7..][3..] == [] by { assert p[6..][1..] == []; }
      assert s[4..][0] == s[4] && s[4..][1] == s[5];
      assert s[7..][0] == s[7] && s[7..][1] == s[8] && s[7..][2] == s[9];
    }
    if Canonical(s) {
      assert FullMatch(p[6..], s[7..]) by {
        assert p[6..][1..] == [];
        assert s[7..][3..] == [];
        assert s[7..][0] == s[7] && s[7..][1] == s[8] && s[7..][2] == s[9];
      }
      assert FullMatch(p[5..], s[6..]) by { assert p[5..][1..] == p[6..]; assert s[6..][1..] == s[7..]; }
      assert FullMatch(p[4..], s[4..]) by {
        assert p[4..][1..] == p[5..]; assert s[4..][2..] == s[6..];
        assert s[4..][0] == s[4] && s[4..][1] == s[5];
      }
      assert FullMatch(p[3..], s[3..]) by { assert p[3..][1..] == p[4..]; assert s[3..][1..] == s[4..]; }
      assert FullMatch(p[2..], s[2..]) by { assert p[2..][1..] == p[3..]; assert s[2..][1..] == s[3..]; }
      assert FullMatch(p[1..], s[1..]) by { assert p[1..][1..] == p[2..]; assert s[1..][1..] == s[2..]; }
    }
  }

  /** The examples the page itself relies on or that show the pattern's edges. */
  lemma LocationCodeExamples()
    ensures IsLocationCode(DefaultBasket)
    ensures !IsLocationCode("AB53004")
    ensures !IsLocationCode("a-b-53-004")
    ensures !IsLocationCode("A-B-53-0041")
  {
    LocationCodeIffCanonical(DefaultBasket);
    LocationCodeIffCanonical("AB53004");
    LocationCodeIffCanonical("a-b-53-004");
    LocationCodeIffCanonical("A-B-53-0041");
  }

  function Min(a: nat, b: nat): nat { if a <= b then a else b }

  /** `s[i]` joined into a string with `+`: the character, or the text "undefined" past the end. */
  function CharAt(s: string, i: nat): (r: string)
    ensures i < |s| ==> r == [s[i]]
    ensures |s| <= i ==> r == "undefined"
  {
    if i < |s| then [s[i]] else "undefined"
  }

  /** `s.slice(start, end)` for non-negative bounds: both bounds are clamped to the string. */
  function Slice(s: string, start: nat, end: nat): (r: string)
    ensures |r| <= |s|
    ensures start <= end <= |s| ==> r == s[start..end]
    ensures start <= |s| <= end ==> r == s[start..]
    ensures |s| <= start ==> r == []
    ensures end <= start ==> r == []
  {
    var e := Min(end, |s|);
    var b := Min(start, e);
    s[b..e]
  }

  /** `s.slice(start)`. */
  function SliceFrom(s: string, start: nat): (r: string)
    ensures start <= |s| ==> r == s[start..]
    ensures |s| <= start ==> r == []
  {
    Slice(s, start, |s|)
  }

  /**
   * `convert(item)`: the first two characters become the two letter segments,
   * the rest is split after two characters, with dashes in between. Nothing is
   * checked; on a string shorter than two characters a missing character
   * joins in as "undefined", as the page's `+` would make it.
   */
  function Convert(item: string): (r: string)
    ensures |item| == 7 ==> |r| == 10 && r[1] == '-' && r[3] == '-' && r[6] == '-'
    ensures |item| >= 2 ==> |r| == |item| + 3
  {
    var prefix := Slice(item, 0, 2);
    var digits := SliceFrom(item, 2);
    CharAt(prefix, 0) + "-" + CharAt(prefix, 1) + "-" + Slice(digits, 0, 2) + "-" + SliceFrom(digits, 2)
  }

  /** Deleting the three dashes of a ten-character code: the inverse of `Convert`. */
  function Compact(code: string): (r: string)
    requires |code| == 10
    ensures |r| == 7
  {
    [code[0], code[2], code[4], code[5], code[7], code[8], code[9]]
  }

  /** Characters of a seven-character input land at fixed places in the output. */
  lemma ConvertAt(item: string)
    requires |item| == 7
    ensures var r := Convert(item);
      |r| == 10 &&
      r == [item[0], '-', item[1], '-', item[2], item[3], '-', item[4], item[5], item[6]]
  {
  }

  /** Round trip: deleting the inserted dashes gives back the input. */
  lemma CompactConvert(item: string)
    requires |item| == 7
    ensures Compact(Convert(item)) == item
  {
  }

  /** Round trip the other way: a canonical code is the conversion of its compact form. */
  lemma ConvertCompact(code: string)
    requires IsLocationCode(code)
    ensures Convert(Compact(code)) == code
  {
    LocationCodeIffCanonical(code);
    ConvertAt(Compact(code));
  }

  /** The compact form the converter is meant for: two uppercase letters and five digits. */
  predicate CompactForm(item: string)
  {
    |item| == 7 && IsUpper(item[0]) && IsUpper(item[1]) &&
    IsDigit(item[2]) && IsDigit(item[3]) && IsDigit(item[4]) && IsDigit(item[5]) && IsDigit(item[6])
  }

  /**
   * A converted seven-character code passes the validator exactly when the
   * input was in compact form; otherwise the characters are copied unchecked.
   */
  lemma ConvertAcceptedIff(item: string)
    requires |item| == 7
    ensures IsLocationCode(Convert(item)) <==> CompactForm(item)
  {
    ConvertAt(item);
    LocationCodeIffCanonical(Convert(item));
  }

  /** The converter copies anything: lower-case letters give a code the validator refuses. */
  lemma ConvertUnchecked()
    ensures Convert("AB53004") == "A-B-53-004"
    ensures Convert("abcdefg") == "a-b-cd-efg"
    ensures !IsLocationCode(Convert("abcdefg"))
  {
    ConvertAt("AB53004");
    ConvertAt("abcdefg");
    ConvertAcceptedIff("abcdefg");
  }
}
