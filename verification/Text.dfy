/** Strings as the scripts and the CLI use them: splitting, joining and decimal numerals. */
module Text {
  import opened Wrappers

  predicate Digit(c: char) { '0' <= c <= '9' }

  predicate Lower(c: char) { 'a' <= c <= 'z' }

  predicate Hex(c: char) { Digit(c) || 'a' <= c <= 'f' }

  /** A full lower-case commit identifier. */
  predicate FullSha(s: string) { |s| == 40 && forall i :: 0 <= i < |s| ==> Hex(s[i]) }

  predicate ShaField(f: Option<string>) { f.Some? && FullSha(f.value) }

  /** Forty lower-case hexadecimal digits. */
  predicate Hex40(f: Option<string>)
  {
    f.Some? && |f.value| == 40
    && forall i :: 0 <= i < 40 ==> '0' <= f.value[i] <= '9' || 'a' <= f.value[i] <= 'f'
  }

  lemma ShaFieldExactly(f: Option<string>)
    ensures ShaField(f) <==> Hex40(f)
  {
  }

  predicate EndsWith(s: string, suffix: string) { |suffix| <= |s| && s[|s| - |suffix|..] == suffix }

  // ---------- splitting on a separator ----------

  /** Position of the first `sep` in `s`, or |s|. */
  function IndexOf(s: string, sep: char): (k: nat)
    ensures k <= |s|
    ensures sep !in s[..k]
    ensures k < |s| ==> s[k] == sep
  {
    if s == [] || s[0] == sep then 0
    else
      var k := 1 + IndexOf(s[1..], sep);
      assert s[..k] == [s[0]] + s[1..][..k - 1];
      k
  }

  function Split(s: string, sep: char): (parts: seq<string>)
    ensures |parts| > 0
    ensures forall i :: 0 <= i < |parts| ==> sep !in parts[i]
  {
    var k := IndexOf(s, sep);
    if k == |s| then [s] else [s[..k]] + Split(s[k + 1..], sep)
  }

  function Join(parts: seq<string>, sep: char): string
    requires |parts| > 0
  {
    if |parts| == 1 then parts[0] else parts[0] + [sep] + Join(parts[1..], sep)
  }

  lemma IndexOfConcat(a: string, b: string, sep: char)
    requires sep !in a
    ensures IndexOf(a + [sep] + b, sep) == |a|
    ensures IndexOf(a, sep) == |a|
  {
    var s := a + [sep] + b;
    assert forall i :: 0 <= i < |a| ==> s[i] == a[i] && a[i] in a;
    assert s[|a|] == sep;
    assert forall i :: 0 <= i < IndexOf(s, sep) ==> s[i] in s[..IndexOf(s, sep)];
  }

  lemma {:induction false} JoinSplit(s: string, sep: char)
    ensures Join(Split(s, sep), sep) == s
    decreases |s|
  {
    var k := IndexOf(s, sep);
    if k < |s| {
      var first, rest := s[..k], s[k + 1..];
      JoinSplit(rest, sep);
      JoinCons(first, Split(rest, sep), sep);
      CutAt(s, k);
    }
  }

  lemma CutAt(s: string, k: nat)
    requires k < |s|
    ensures s == s[..k] + [s[k]] + s[k + 1..]
  {
  }

  lemma JoinCons(first: string, rest: seq<string>, sep: char)
    requires rest != []
    ensures Join([first] + rest, sep) == first + [sep] + Join(rest, sep)
  {
    assert ([first] + rest)[1..] == rest;
  }

  /** Splitting takes off a first part that has no separator. */
  lemma SplitCons(first: string, rest: string, sep: char)
    requires sep !in first
    ensures Split(first + [sep] + rest, sep) == [first] + Split(rest, sep)
  {
    var s := first + [sep] + rest;
    IndexOfConcat(first, rest, sep);
    assert s[..|first|] == first && s[|first| + 1..] == rest;
  }

  lemma {:induction false} SplitJoin(parts: seq<string>, sep: char)
    requires |parts| > 0
    requires forall i :: 0 <= i < |parts| ==> sep !in parts[i]
    ensures Split(Join(parts, sep), sep) == parts
  {
    if |parts| == 1 {
      IndexOfConcat(parts[0], "", sep);
    } else {
      SplitJoin(parts[1..], sep);
      SplitCons(parts[0], Join(parts[1..], sep), sep);
      assert parts == [parts[0]] + parts[1..];
    }
  }

  /** `part` stands in `s` between two separators or ends of `s`. */
  ghost predicate PartOf(part: string, s: string, sep: char)
  {
    sep !in part && exists before, after :: PartBetween(part, s, sep, before, after)
  }

  predicate PartBetween(part: string, s: string, sep: char, before: string, after: string)
  {
    && s == before + part + after
    && (before == "" || before[|before| - 1] == sep) && (after == "" || after[0] == sep)
  }

  /** Splitting finds exactly these parts. */
  lemma SplitFindsExactly(s: string, sep: char, part: string)
    ensures part in Split(s, sep) <==> PartOf(part, s, sep)
  {
    if part in Split(s, sep) { SplitPartIsBetween(s, sep, part); }
    if PartOf(part, s, sep) {
      var before, after :| PartBetween(part, s, sep, before, after);
      PartIsFound(s, sep, part, before, after);
    }
  }

  lemma {:induction false} SplitPartIsBetween(s: string, sep: char, part: string)
    requires part in Split(s, sep)
    ensures PartOf(part, s, sep)
    decreases |s|
  {
    var k := IndexOf(s, sep);
    var parts := Split(s, sep);
    var i :| 0 <= i < |parts| && parts[i] == part;
    if k == |s| {
      assert PartBetween(part, s, sep, "", "");
    } else if i == 0 {
      assert s == "" + s[..k] + s[k..];
      assert PartBetween(part, s, sep, "", s[k..]);
    } else {
      assert parts[1..][i - 1] == part;
      SplitPartIsBetween(s[k + 1..], sep, part);
      PartOfRest(part, s, sep, k);
    }
  }

  lemma PartOfRest(part: string, s: string, sep: char, k: nat)
    requires k < |s| && s[k] == sep && PartOf(part, s[k + 1..], sep)
    ensures PartOf(part, s, sep)
  {
    var before, after :| PartBetween(part, s[k + 1..], sep, before, after);
    var front := s[..k + 1] + before;
    assert s == s[..k + 1] + s[k + 1..];
    assert front[|front| - 1] == if before == "" then s[k] else before[|before| - 1];
    assert PartBetween(part, s, sep, front, after);
  }

  lemma {:induction false} PartIsFound(s: string, sep: char, part: string, before: string, after: string)
    requires sep !in part && PartBetween(part, s, sep, before, after)
    ensures part in Split(s, sep)
    decreases |before|
  {
    var k := IndexOf(s, sep);
    if before == "" {
      FirstPartIsFound(s, sep, part, after);
    } else {
      assert s == before + (part + after);
      BeforeEndsInSeparator(s, sep, before, part + after);
      PartBehind(s, sep, part, before, after, k);
      PartIsFound(s[k + 1..], sep, part, before[k + 1..], after);
      assert Split(s, sep) == [s[..k]] + Split(s[k + 1..], sep);
    }
  }

  lemma FirstPartIsFound(s: string, sep: char, part: string, after: string)
    requires sep !in part && PartBetween(part, s, sep, "", after)
    ensures part in Split(s, sep)
  {
    if after == "" {
      assert s == part;
      IndexOfConcat(part, "", sep);
    } else {
      assert s == part + [sep] + after[1..];
      SplitCons(part, after[1..], sep);
    }
  }

  lemma PartBehind(s: string, sep: char, part: string, before: string, after: string, k: nat)
    requires PartBetween(part, s, sep, before, after) && k < |before|
    ensures PartBetween(part, s[k + 1..], sep, before[k + 1..], after)
  {
    assert s == before + (part + after);
    assert s[k + 1..] == before[k + 1..] + (part + after);
    assert before[k + 1..] + (part + after) == before[k + 1..] + part + after;
  }

  /** The first separator is not behind a separator. */
  lemma BeforeEndsInSeparator(s: string, sep: char, before: string, rest: string)
    requires s == before + rest && before != "" && before[|before| - 1] == sep
    ensures IndexOf(s, sep) < |before|
  {
    assert s[|before| - 1] == sep;
    FirstIsFirst(s, sep, |before| - 1);
  }

  lemma {:induction false} FirstIsFirst(s: string, sep: char, i: nat)
    requires i < |s| && s[i] == sep
    ensures IndexOf(s, sep) <= i
  {
    if s[0] != sep { FirstIsFirst(s[1..], sep, i - 1); }
  }

  /** Three parts without the separator are exactly what splitting into three parts finds. */
  lemma SplitInThree(s: string, a: string, b: string, c: string, sep: char)
    requires sep !in a && sep !in b && sep !in c
    ensures Split(s, sep) == [a, b, c] <==> s == a + [sep] + b + [sep] + c
  {
    var parts := [a, b, c];
    assert parts[1..] == [b, c] && [b, c][1..] == [c];
    assert Join([b, c], sep) == b + [sep] + Join([c], sep);
    assert Join(parts, sep) == a + [sep] + Join([b, c], sep);
    assert a + [sep] + (b + [sep] + c) == a + [sep] + b + [sep] + c;
    SplitJoin(parts, sep);
    JoinSplit(s, sep);
  }

  // ---------- decimal numerals ----------

  function DigitChar(d: nat): (c: char)
    requires d < 10
    ensures Digit(c) && DigitValue(c) == d
  {
    '0' + d as char
  }

  function DigitValue(c: char): nat
    requires Digit(c)
  {
    (c as int - '0' as int) as nat
  }

  /** Canonical decimal form, as strconv.Itoa and str() print a non-negative number. */
  function Decimal(n: nat): (s: string)
    ensures |s| > 0
    ensures forall i :: 0 <= i < |s| ==> Digit(s[i])
    ensures |s| > 1 ==> s[0] != '0'
    ensures n > 0 ==> s[0] != '0'
  {
    if n < 10 then [DigitChar(n)] else Decimal(n / 10) + [DigitChar(n % 10)]
  }

  /** The value of a digit string, leading zeros allowed. */
  function Value(s: string): nat
    requires forall i :: 0 <= i < |s| ==> Digit(s[i])
  {
    if s == [] then 0 else 10 * Value(s[..|s| - 1]) + DigitValue(s[|s| - 1])
  }

  predicate Digits(s: string) { |s| > 0 && forall i :: 0 <= i < |s| ==> Digit(s[i]) }

  /** Digits without a superfluous leading zero. */
  predicate Canonical(s: string) { Digits(s) && (|s| > 1 ==> s[0] != '0') }

  lemma {:induction false} ValueOfDecimal(n: nat)
    ensures Value(Decimal(n)) == n
  {
    var s := Decimal(n);
    if n < 10 {
      assert s[..0] == [];
    } else {
      ValueOfDecimal(n / 10);
      assert s[..|s| - 1] == Decimal(n / 10);
    }
  }

  lemma {:induction false} DecimalOfValue(s: string)
    requires Canonical(s)
    ensures Decimal(Value(s)) == s
  {
    if |s| == 1 {
      assert s[..0] == [];
      assert Value(s) == DigitValue(s[0]);
    } else {
      var front := s[..|s| - 1];
      assert front[0] == s[0];
      DecimalOfValue(front);
      PositiveValue(front);
      assert s == front + [s[|s| - 1]];
    }
  }

  lemma {:induction false} PositiveValue(s: string)
    requires Digits(s) && s[0] != '0'
    ensures Value(s) > 0
  {
    if |s| > 1 {
      assert s[..|s| - 1][0] == s[0];
      PositiveValue(s[..|s| - 1]);
    } else {
      assert s[..0] == [];
    }
  }

  lemma DecimalInjective(m: nat, n: nat)
    requires Decimal(m) == Decimal(n)
    ensures m == n
  {
    ValueOfDecimal(m);
    ValueOfDecimal(n);
  }

  function PowerOfTen(k: nat): nat { if k == 0 then 1 else 10 * PowerOfTen(k - 1) }

  lemma PowersOfTen(k: nat)
    ensures PowerOfTen(0) == 1 && PowerOfTen(k + 1) == 10 * PowerOfTen(k)
  {
  }

  lemma {:induction false} DecimalLength(n: nat, k: nat)
    requires k > 0 && n < PowerOfTen(k)
    ensures |Decimal(n)| <= k
  {
    if n >= 10 {
      assert k > 1 by { assert PowerOfTen(1) == 10 * PowerOfTen(0); }
      DecimalLength(n / 10, k - 1);
    }
  }
}
