/**
 String operations the service relies on: trimming, upper-casing, ordering, and the decimal
 form of integers.  Strings are sequences of Unicode scalar values; comparing them value by
 value is the byte order of their UTF-8 encodings.
 */
module Text {
  import opened Common

  /** White space as `unicode.IsSpace` defines it. */
  predicate IsSpace(c: char) {
    || '\t' <= c <= '\r'
    || c == ' '
    || c in {'\U{0085}', '\U{00A0}', '\U{1680}', '\U{2028}', '\U{2029}', '\U{202F}', '\U{205F}', '\U{3000}'}
    || '\U{2000}' <= c <= '\U{200A}'
  }

  /** The code points of white space. */
  lemma SpacesExactly(c: char)
    ensures IsSpace(c) <==>
      var code := c as int;
      || 9 <= code <= 13 || 0x2000 <= code <= 0x200A
      || code in {0x20, 0x85, 0xA0, 0x1680, 0x2028, 0x2029, 0x202F, 0x205F, 0x3000}
  {
  }

  ghost predicate AllSpace(s: string) {
    forall i :: 0 <= i < |s| ==> IsSpace(s[i])
  }

  /** `strings.TrimSpace`. */
  function Trim(s: string): (t: string)
    ensures t == "" || (!IsSpace(t[0]) && !IsSpace(t[|t| - 1]))
    decreases |s|
  {
    if s == "" then ""
    else if IsSpace(s[0]) then Trim(s[1..])
    else if IsSpace(s[|s| - 1]) then Trim(s[..|s| - 1])
    else s
  }

  lemma TrimTrims(s: string)
    ensures Trim(Trim(s)) == Trim(s)
  {
  }

  predicate Blank(s: string) {
    Trim(s) == ""
  }

  lemma BlankIsEmpty()
    ensures Blank("")
  {
  }

  lemma {:induction false} NotBlank(s: string)
    requires s != "" && !IsSpace(s[0])
    ensures !Blank(s)
  {
    if IsSpace(s[|s| - 1]) {
      NotBlank(s[..|s| - 1]);
    }
  }

  /** Only white space is cut, and only at the two ends. */
  lemma {:induction false} TrimCutsSpace(s: string) returns (left: string, right: string)
    ensures s == left + Trim(s) + right && AllSpace(left) && AllSpace(right)
    decreases |s|
  {
    if s == "" {
      left, right := "", "";
    } else if IsSpace(s[0]) {
      var rest;
      rest, right := TrimCutsSpace(s[1..]);
      left := [s[0]] + rest;
      assert s == [s[0]] + (rest + Trim(s) + right) == left + Trim(s) + right;
    } else if IsSpace(s[|s| - 1]) {
      var rest;
      left, rest := TrimCutsSpace(s[..|s| - 1]);
      right := rest + [s[|s| - 1]];
      assert s == (left + Trim(s) + rest) + [s[|s| - 1]] == left + Trim(s) + right;
    } else {
      left, right := "", "";
    }
  }

  lemma {:induction false} SpaceIsBlank(s: string)
    requires AllSpace(s)
    ensures Blank(s)
  {
    if s != "" {
      SpaceIsBlank(s[1..]);
    }
  }

  lemma {:induction false} TrimLeft(left: string, s: string)
    requires AllSpace(left)
    ensures Trim(left + s) == Trim(s)
  {
    if left == "" {
      assert left + s == s;
    } else {
      assert (left + s)[0] == left[0] && (left + s)[1..] == left[1..] + s;
      TrimLeft(left[1..], s);
    }
  }

  lemma {:induction false} TrimRight(s: string, right: string)
    requires s != "" && !IsSpace(s[0]) && AllSpace(right)
    ensures Trim(s + right) == Trim(s)
  {
    if right == "" {
      assert s + right == s;
    } else {
      var t := s + right;
      assert t[0] == s[0] && t[|t| - 1] == right[|right| - 1] && t[..|t| - 1] == s + right[..|right| - 1];
      TrimRight(s, right[..|right| - 1]);
    }
  }

  lemma TrimPadded(left: string, core: string, right: string)
    requires AllSpace(left) && AllSpace(right) && Trim(core) == core
    ensures Trim(left + core + right) == core
  {
    if core == "" {
      SpaceIsBlank(left + core + right);
    } else {
      assert left + core + right == left + (core + right);
      TrimLeft(left, core + right);
      TrimRight(core, right);
    }
  }

  /** A text trims to `core` exactly if it is `core` with white space around it. */
  lemma TrimExactly(s: string, core: string)
    requires Trim(core) == core
    ensures Trim(s) == core <==> exists left, right :: AllSpace(left) && AllSpace(right) && s == left + core + right
  {
    if Trim(s) == core {
      var left, right := TrimCutsSpace(s);
    }
    if left, right :| AllSpace(left) && AllSpace(right) && s == left + core + right {
      TrimPadded(left, core, right);
    }
  }

  /** A text splits in only one way at the first occurrence of a mark. */
  lemma SplitUnique(mark: char, a: string, restA: string, b: string, restB: string)
    requires mark !in a && mark !in b && a + [mark] + restA == b + [mark] + restB
    ensures a == b && restA == restB
  {
    var s, t := a + [mark] + restA, b + [mark] + restB;
    assert s[|a|] == mark && t[|b|] == mark;
    assert a == s[..|a|] && b == t[..|b|];
    assert restA == s[|a| + 1..] && restB == t[|b| + 1..];
  }

  /** The text before the first occurrence of a mark, and the text behind it. */
  function CutAt(mark: char, s: string): (r: (string, string))
    requires mark in s
    ensures mark !in r.0 && s == r.0 + [mark] + r.1
  {
    if s[0] == mark then ("", s[1..])
    else
      var (before, behind) := CutAt(mark, s[1..]);
      assert s == [s[0]] + s[1..];
      ([s[0]] + before, behind)
  }

  /** `chooseString` on two candidates: the first one that is not blank, trimmed. */
  function Choose(first: string, second: string): string {
    if !Blank(first) then Trim(first) else Trim(second)
  }

  /**
   `strings.ToUpper`, exact for comparisons with words of ASCII capitals: besides a-z, only
   U+0131 and U+017F map to such a capital.
   */
  function Upper(s: string): (u: string)
    ensures |u| == |s|
  {
    seq(|s|, i requires 0 <= i < |s| => UpperChar(s[i]))
  }

  function UpperChar(c: char): char {
    if 'a' <= c <= 'z' then ((c as int) - 32) as char
    else if c == '\U{0131}' then 'I'
    else if c == '\U{017F}' then 'S'
    else c
  }

  /** Words of ASCII capitals are their own upper case. */
  lemma UpperOfCapitals(s: string)
    requires forall i :: 0 <= i < |s| ==> 'A' <= s[i] <= 'Z'
    ensures Upper(s) == s
  {
  }

  /** ASCII letters become the capital at their place in the alphabet. */
  lemma UpperOfLetters(s: string)
    requires forall i :: 0 <= i < |s| ==> 'a' <= s[i] <= 'z' || 'A' <= s[i] <= 'Z'
    ensures forall i :: 0 <= i < |s| ==>
      Upper(s)[i] as int - 'A' as int == if s[i] <= 'Z' then s[i] as int - 'A' as int else s[i] as int - 'a' as int
  {
  }

  /** The dotless i and the long s become ASCII capitals, too. */
  lemma UpperOfStrays()
    ensures Upper("del\U{0131}t") == "DELIT" && Upper("up\U{017F}ert") == "UPSERT"
  {
    assert forall i :: 0 <= i < 5 ==> Upper("del\U{0131}t")[i] == "DELIT"[i];
    assert forall i :: 0 <= i < 6 ==> Upper("up\U{017F}ert")[i] == "UPSERT"[i];
  }

  // ---------------------------------------------------------------- ordering

  /** Go's `<` on strings. */
  predicate Less(a: string, b: string) {
    if b == "" then false
    else if a == "" then true
    else if a[0] != b[0] then a[0] < b[0]
    else Less(a[1..], b[1..])
  }

  lemma {:induction false} LessTrichotomy(a: string, b: string)
    ensures a == b ==> !Less(a, b)
    ensures a != b ==> Less(a, b) != Less(b, a)
  {
    if a != "" && b != "" && a[0] == b[0] {
      LessTrichotomy(a[1..], b[1..]);
      assert a == [a[0]] + a[1..] && b == [b[0]] + b[1..];
    }
  }

  lemma {:induction false} LessTransitive(a: string, b: string, c: string)
    requires Less(a, b) && Less(b, c)
    ensures Less(a, c)
  {
    if a != "" && a[0] == b[0] == c[0] {
      LessTransitive(a[1..], b[1..], c[1..]);
    }
  }

  /** Lexicographic order: one text precedes another at the first place where they differ, or as its beginning. */
  lemma {:induction false} LessExactly(a: string, b: string)
    ensures Less(a, b) <==>
      exists k :: 0 <= k <= |a| && k < |b| && a[..k] == b[..k] && (k == |a| || a[k] < b[k])
  {
    if a == "" {
      assert b != "" ==> a[..0] == b[..0];
    } else if b != "" && a[0] != b[0] {
      assert a[..0] == b[..0];
      assert forall k :: 0 < k <= |a| && k < |b| ==> a[..k][0] == a[0] && b[..k][0] == b[0];
    } else if b != "" {
      LessExactly(a[1..], b[1..]);
      if Less(a, b) {
        var k :| 0 <= k <= |a[1..]| && k < |b[1..]| && a[1..][..k] == b[1..][..k] &&
          (k == |a[1..]| || a[1..][k] < b[1..][k]);
        assert a[..k + 1] == [a[0]] + a[1..][..k] && b[..k + 1] == [b[0]] + b[1..][..k];
      }
      if k :| 0 <= k <= |a| && k < |b| && a[..k] == b[..k] && (k == |a| || a[k] < b[k]) {
        assert k > 0 && a[1..][..k - 1] == a[..k][1..] && b[1..][..k - 1] == b[..k][1..];
      }
    }
  }

  // ---------------------------------------------------------------- decimal integers

  const INT64_MIN: int := -0x8000_0000_0000_0000
  const INT64_MAX: int := 0x7FFF_FFFF_FFFF_FFFF

  predicate IsInt64(n: int) {
    INT64_MIN <= n <= INT64_MAX
  }

  function Digit(n: nat): (c: char)
    requires n < 10
    ensures '0' <= c <= '9' && (c as int) - ('0' as int) == n
  {
    (n + '0' as int) as char
  }

  function Digits(n: nat): (s: string)
    ensures s != ""
    ensures forall i :: 0 <= i < |s| ==> '0' <= s[i] <= '9'
  {
    if n < 10 then [Digit(n)] else Digits(n / 10) + [Digit(n % 10)]
  }

  /** `strconv.FormatInt(n, 10)`, also the `%d` verb. */
  function FormatInt(n: int): (s: string)
    ensures s != ""
    ensures forall i :: 0 <= i < |s| ==> '0' <= s[i] <= '9' || s[i] == '-'
  {
    if n < 0 then "-" + Digits(-n) else Digits(n)
  }

  function ParseDigits(s: string): Option<int> {
    if s == "" || !('0' <= s[|s| - 1] <= '9') then None
    else
      var low := (s[|s| - 1] as int) - ('0' as int);
      if |s| == 1 then Some(low)
      else match ParseDigits(s[..|s| - 1])
        case None => None
        case Some(high) => Some(10 * high + low)
  }

  /** `strconv.ParseInt(s, 10, 64)`: an optional sign, digits, and a value that fits. */
  function ParseInt64(s: string): (r: Option<int>)
    ensures r.Some? ==> IsInt64(r.value)
  {
    var signed := s != "" && (s[0] == '-' || s[0] == '+');
    match ParseDigits(if signed then s[1..] else s)
    case None => None
    case Some(magnitude) =>
      var n: int := if signed && s[0] == '-' then -magnitude else magnitude;
      if IsInt64(n) then Some(n) else None
  }

  lemma {:induction false} ParseDigitsRoundTrip(n: nat)
    ensures ParseDigits(Digits(n)) == Some(n)
  {
    var s := Digits(n);
    if n >= 10 {
      ParseDigitsRoundTrip(n / 10);
      assert s[..|s| - 1] == Digits(n / 10);
    }
  }

  lemma ParseFormatRoundTrip(n: int)
    requires IsInt64(n)
    ensures ParseInt64(FormatInt(n)) == Some(n)
  {
    var s := Digits(if n < 0 then -n else n);
    ParseDigitsRoundTrip(if n < 0 then -n else n);
    assert '0' <= s[0] <= '9';
    if n < 0 {
      assert FormatInt(n)[0] == '-' && FormatInt(n)[1..] == s;
    }
  }

  ghost predicate AllDigits(s: string) {
    s != "" && forall i :: 0 <= i < |s| ==> '0' <= s[i] <= '9'
  }

  /** The number that digits denote, read from the left. */
  ghost function FromLeft(before: int, s: string): int
    decreases |s|
  {
    if s == "" then before else FromLeft(10 * before + (s[0] as int - '0' as int), s[1..])
  }

  lemma {:induction false} FromLeftAppends(before: int, s: string, c: char)
    ensures FromLeft(before, s + [c]) == 10 * FromLeft(before, s) + (c as int - '0' as int)
    decreases |s|
  {
    if s == "" {
      assert (s + [c])[1..] == "";
    } else {
      assert (s + [c])[1..] == s[1..] + [c];
      FromLeftAppends(10 * before + (s[0] as int - '0' as int), s[1..], c);
    }
  }

  lemma {:induction false} ParseDigitsExactly(s: string)
    ensures ParseDigits(s).Some? <==> AllDigits(s)
    ensures AllDigits(s) ==> ParseDigits(s) == Some(FromLeft(0, s))
  {
    if s != "" {
      var high, c := s[..|s| - 1], s[|s| - 1];
      assert s == high + [c];
      FromLeftAppends(0, high, c);
      if |s| > 1 {
        ParseDigitsExactly(high);
        assert AllDigits(s) <==> AllDigits(high) && '0' <= c <= '9';
      } else {
        assert high == "";
      }
    }
  }

  /**
   A text parses exactly if it is digits behind at most one sign and denotes a number that fits; that is its
   value.
   */
  lemma ParseExactly(s: string)
    ensures var digits := if s != "" && s[0] in {'-', '+'} then s[1..] else s;
            var number := if s != "" && s[0] == '-' then -FromLeft(0, digits) else FromLeft(0, digits);
            ParseInt64(s) == if AllDigits(digits) && IsInt64(number) then Some(number) else None
  {
    ParseDigitsExactly(if s != "" && s[0] in {'-', '+'} then s[1..] else s);
  }
}
