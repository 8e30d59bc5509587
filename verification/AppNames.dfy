/** Names derived from what a user or a compose file calls things. */
module AppNames {
  import opened T = Text

  const LIMIT := 63

  /** Lower-casing of one character and the white space that is trimmed; both belong to the
      platform's Unicode tables. */
  datatype Tables = Tables(lower: char -> char, space: char -> bool)

  predicate Word(c: char) { Lower(c) || Digit(c) }

  predicate AllWord(s: string) { s != "" && forall i :: 0 <= i < |s| ==> Word(s[i]) }

  predicate Words(parts: seq<string>) { forall i :: 0 <= i < |parts| ==> AllWord(parts[i]) }

  /** The facts about the tables that names rely on. */
  ghost predicate Sane(u: Tables)
  {
    && (forall c :: Word(c) || c == '-' ==> u.lower(c) == c && !u.space(c))
    && (forall c :: u.space(c) ==> !Word(u.lower(c)))
  }

  // ---------- the language of names ----------

  /** `[a-z0-9]+(-[a-z0-9]+)*` */
  predicate Dashed(s: string) { Words(Split(s, '-')) }

  /** A name, or nothing. */
  predicate NameOrEmpty(s: string) { s == "" || (Dashed(s) && |s| <= LIMIT) }

  /** The same language, seen from its characters. */
  predicate Spaced(s: string)
  {
    && s != "" && Word(s[0]) && Word(s[|s| - 1])
    && (forall i :: 0 <= i < |s| ==> Word(s[i]) || s[i] == '-')
    && (forall i :: 0 <= i < |s| - 1 ==> Word(s[i]) || Word(s[i + 1]))
  }

  lemma WordsHaveNoDash(parts: seq<string>)
    requires Words(parts)
    ensures forall i :: 0 <= i < |parts| ==> '-' !in parts[i]
  {
    forall i | 0 <= i < |parts| ensures '-' !in parts[i] { assert AllWord(parts[i]); }
  }

  lemma SpacedAfterWord(word: string, rest: string)
    requires AllWord(word) && Spaced(rest)
    ensures Spaced(word + "-" + rest)
  {
    var s, k := word + "-" + rest, |word|;
    assert forall i :: 0 <= i < k ==> s[i] == word[i];
    assert s[k] == '-';
    assert forall i :: k < i < |s| ==> s[i] == rest[i - k - 1];
    forall i | 0 <= i < |s| - 1 ensures Word(s[i]) || Word(s[i + 1]) {
      if i > k { assert Word(rest[i - k - 1]) || Word(rest[i - k]); }
    }
  }

  lemma {:induction false} DashedIsSpaced(s: string)
    requires Dashed(s)
    ensures Spaced(s)
    decreases |s|
  {
    var k := IndexOf(s, '-');
    var parts := Split(s, '-');
    assert AllWord(parts[0]);
    if k < |s| {
      var rest := s[k + 1..];
      assert parts[1..] == Split(rest, '-');
      assert forall i :: 0 <= i < |parts| - 1 ==> parts[1..][i] == parts[i + 1];
      DashedIsSpaced(rest);
      SpacedAfterWord(s[..k], rest);
      assert s == s[..k] + "-" + rest;
    }
  }

  lemma {:induction false} SpacedIsDashed(s: string)
    requires Spaced(s)
    ensures Dashed(s)
    decreases |s|
  {
    var k := IndexOf(s, '-');
    SpacedFrontIsWord(s, k);
    if k < |s| {
      SpacedTail(s, k);
      SpacedIsDashed(s[k + 1..]);
      WordThenWords(s[..k], Split(s[k + 1..], '-'));
    }
  }

  lemma SpacedFrontIsWord(s: string, k: nat)
    requires Spaced(s) && k <= |s| && '-' !in s[..k] && (k < |s| ==> s[k] == '-')
    ensures AllWord(s[..k])
  {
    assert k > 0;
    assert forall i :: 0 <= i < k ==> s[..k][i] == s[i] && s[i] in s[..k];
  }

  /** What follows a dash is of the same shape. */
  lemma SpacedTail(s: string, k: nat)
    requires Spaced(s) && k < |s| && s[k] == '-'
    ensures k < |s| - 1 && Spaced(s[k + 1..])
  {
    assert Word(s[k]) || Word(s[k + 1]);
    var rest := s[k + 1..];
    assert forall i :: 0 <= i < |rest| ==> rest[i] == s[i + k + 1];
  }

  lemma WordThenWords(first: string, parts: seq<string>)
    requires AllWord(first) && Words(parts)
    ensures Words([first] + parts)
  {
  }

  // ---------- the words of a text ----------

  /** The maximal runs of word characters, left to right. */
  function Runs(s: string): (r: seq<string>)
    ensures Words(r)
    ensures s != "" && Word(s[|s| - 1]) ==> r != []
  {
    if s == "" then []
    else
      var n := |s| - 1;
      var r := Runs(s[..n]);
      if !Word(s[n]) then r
      else if n > 0 && Word(s[n - 1]) then r[..|r| - 1] + [r[|r| - 1] + [s[n]]]
      else r + [[s[n]]]
  }

  /** The words of `s`, separated by single dashes. */
  function Hyphenated(s: string): string { if Runs(s) == [] then "" else Join(Runs(s), '-') }

  lemma {:induction false} JoinAppend(parts: seq<string>, x: string)
    requires parts != []
    ensures Join(parts + [x], '-') == Join(parts, '-') + "-" + x
  {
    if |parts| > 1 {
      JoinAppend(parts[1..], x);
      assert (parts + [x])[1..] == parts[1..] + [x];
    } else {
      assert (parts + [x])[1..] == [x];
    }
  }

  lemma JoinExtend(front: seq<string>, last: string, c: char)
    ensures Join(front + [last + [c]], '-') == Join(front + [last], '-') + [c]
  {
    if front != [] {
      JoinAppend(front, last);
      JoinAppend(front, last + [c]);
    }
  }

  /** What one more character adds. */
  lemma HyphenatedStep(s: string, n: nat)
    requires n < |s|
    ensures !Word(s[n]) ==> Hyphenated(s[..n + 1]) == Hyphenated(s[..n])
    ensures Word(s[n]) && (n == 0 || !Word(s[n - 1])) ==>
      Hyphenated(s[..n + 1]) == Hyphenated(s[..n]) + (if Runs(s[..n]) == [] then "" else "-") + [s[n]]
    ensures Word(s[n]) && n > 0 && Word(s[n - 1]) ==> Hyphenated(s[..n + 1]) == Hyphenated(s[..n]) + [s[n]]
  {
    var t := s[..n + 1];
    assert t[..n] == s[..n];
    var r := Runs(s[..n]);
    if r != [] {
      var front, last := r[..|r| - 1], r[|r| - 1];
      assert r == front + [last];
      JoinAppend(r, [s[n]]);
      JoinExtend(front, last, s[n]);
    }
  }

  lemma HyphenatedIsDashed(s: string)
    ensures Hyphenated(s) == "" || Dashed(Hyphenated(s))
    ensures Hyphenated(s) == "" <==> Runs(s) == []
  {
    if Runs(s) != [] {
      WordsHaveNoDash(Runs(s));
      SplitJoin(Runs(s), '-');
      assert AllWord(Runs(s)[0]);
    }
  }

  lemma HyphenatedEmpty(s: string)
    ensures Hyphenated(s) == "" <==> Runs(s) == []
  {
    HyphenatedIsDashed(s);
  }

  lemma {:induction false} NoRunsNoWord(s: string)
    ensures Runs(s) == [] <==> forall i :: 0 <= i < |s| ==> !Word(s[i])
  {
    if s != "" {
      var n := |s| - 1;
      NoRunsNoWord(s[..n]);
      assert forall i :: 0 <= i < n ==> s[..n][i] == s[i];
    }
  }

  /** What the loop has written after `n` characters: the words so far and perhaps one open dash. */
  predicate Open(s: string, n: nat)
    requires n <= |s|
  {
    n > 0 && !Word(s[n - 1]) && Runs(s[..n]) != []
  }

  function Scan(s: string, n: nat): string
    requires n <= |s|
  {
    Hyphenated(s[..n]) + (if Open(s, n) then "-" else "")
  }

  lemma ScanWord(s: string, n: nat)
    requires n < |s| && Word(s[n])
    ensures Scan(s, n + 1) == Scan(s, n) + [s[n]] && !Open(s, n + 1)
  {
    HyphenatedStep(s, n);
    if n > 0 && Word(s[n - 1]) {
      assert !Open(s, n);
    } else if n == 0 {
      assert Runs(s[..0]) == [];
    }
  }

  lemma ScanOther(s: string, n: nat)
    requires n < |s| && !Word(s[n])
    ensures if !Open(s, n) && Scan(s, n) != "" then Scan(s, n + 1) == Scan(s, n) + "-" && Open(s, n + 1)
            else Scan(s, n + 1) == Scan(s, n) && (Open(s, n + 1) <==> Open(s, n))
  {
    HyphenatedStep(s, n);
    HyphenatedEmpty(s[..n]);
    assert s[..n + 1][..n] == s[..n];
    assert Open(s, n + 1) <==> Runs(s[..n]) != [];
    if n > 0 && Word(s[n - 1]) { assert s[..n][n - 1] == s[n - 1]; }
  }

  lemma BeforeDash(s: string, i: nat)
    requires Spaced(s) && i < |s| && !Word(s[i])
    ensures i > 0 && s[i] == '-' && Word(s[i - 1])
  {
  }

  lemma NameScansOn(s: string, n: nat)
    requires Spaced(s) && n < |s| && Scan(s, n) == s[..n]
    ensures Scan(s, n + 1) == s[..n] + [s[n]]
  {
    if Word(s[n]) {
      ScanWord(s, n);
    } else {
      BeforeDash(s, n);
      ScanOther(s, n);
    }
  }

  /** A name is written as it stands. */
  lemma {:induction false} NameIsScanned(s: string, n: nat)
    requires Spaced(s) && n <= |s|
    ensures Scan(s, n) == s[..n]
  {
    if n > 0 {
      NameIsScanned(s, n - 1);
      NameScansOn(s, n - 1);
      assert s[..n] == s[..n - 1] + [s[n - 1]];
    }
  }

  // ---------- trimming ----------

  function TrimLeft(p: char -> bool, s: string): string { if s != "" && p(s[0]) then TrimLeft(p, s[1..]) else s }

  function TrimRight(p: char -> bool, s: string): string
  {
    if s != "" && p(s[|s| - 1]) then TrimRight(p, s[..|s| - 1]) else s
  }

  function Trim(p: char -> bool, s: string): string { TrimRight(p, TrimLeft(p, s)) }

  predicate All(p: char -> bool, s: string) { forall i :: 0 <= i < |s| ==> p(s[i]) }

  /** Trimming takes off all such characters from both ends, and no other. */
  lemma TrimExactly(p: char -> bool, s: string)
    ensures exists front, back :: All(p, front) && All(p, back) && s == front + Trim(p, s) + back
    ensures var t := Trim(p, s); t == "" || (!p(t[0]) && !p(t[|t| - 1]))
  {
    var left := TrimLeft(p, s);
    TrimLeftExactly(p, s);
    TrimRightExactly(p, left);
    Reassemble(s, s[..|s| - |left|], left, Trim(p, s));
  }

  lemma Reassemble(s: string, front: string, left: string, middle: string)
    requires |front| <= |s| && s[..|front|] == front && s[|front|..] == left && middle <= left
    ensures s == front + middle + left[|middle|..]
  {
  }

  lemma {:induction false} TrimLeftExactly(p: char -> bool, s: string)
    ensures var t := TrimLeft(p, s);
            && |t| <= |s| && s[|s| - |t|..] == t && All(p, s[..|s| - |t|])
            && (t == "" || !p(t[0]))
  {
    if s != "" && p(s[0]) {
      TrimLeftExactly(p, s[1..]);
      var n := |s| - |TrimLeft(p, s)|;
      assert forall i :: 0 < i < n ==> s[..n][i] == s[1..][..n - 1][i - 1];
    }
  }

  lemma {:induction false} TrimRightExactly(p: char -> bool, s: string)
    ensures var t := TrimRight(p, s); t <= s && All(p, s[|t|..]) && (t == "" || !p(t[|t| - 1]))
  {
    var n := |s| - 1;
    if s != "" && p(s[n]) {
      TrimRightExactly(p, s[..n]);
      var k := |TrimRight(p, s)|;
      assert forall i :: k <= i < n ==> s[i] == s[..n][k..][i - k];
    }
  }

  predicate Dash(c: char) { c == '-' }

  function Lowered(u: Tables, s: string): (r: string)
    ensures |r| == |s|
  {
    seq(|s|, i requires 0 <= i < |s| => u.lower(s[i]))
  }

  lemma {:induction false} RunsSkipFirst(s: string)
    requires s != "" && !Word(s[0])
    ensures Runs(s) == Runs(s[1..])
  {
    var n := |s| - 1;
    if n > 0 {
      RunsSkipFirst(s[..n]);
      assert s[..n][1..] == s[1..][..n - 1];
      assert n - 1 > 0 ==> s[1..][n - 2] == s[n - 1];
    }
  }

  lemma {:induction false} TrimLeftIrrelevant(u: Tables, s: string)
    requires Sane(u)
    ensures Runs(Lowered(u, TrimLeft(u.space, s))) == Runs(Lowered(u, s))
  {
    if s != "" && u.space(s[0]) {
      TrimLeftIrrelevant(u, s[1..]);
      RunsSkipFirst(Lowered(u, s));
      assert Lowered(u, s)[1..] == Lowered(u, s[1..]);
    }
  }

  lemma {:induction false} TrimRightIrrelevant(u: Tables, s: string)
    requires Sane(u)
    ensures Runs(Lowered(u, TrimRight(u.space, s))) == Runs(Lowered(u, s))
  {
    var n := |s| - 1;
    if s != "" && u.space(s[n]) {
      TrimRightIrrelevant(u, s[..n]);
      assert Lowered(u, s)[..n] == Lowered(u, s[..n]);
    }
  }

  // ---------- the slug ----------

  /** The words of the lower-cased text, joined by dashes and cut at the limit. */
  function Slug(u: Tables, value: string): string { Cut(Hyphenated(Lowered(u, value))) }

  /** A cut that leaves a dash at the end drops it. */
  function Cut(s: string): string
  {
    if |s| <= LIMIT then s
    else if s[LIMIT - 1] == '-' then s[..LIMIT - 1]
    else s[..LIMIT]
  }

  lemma CutIsName(s: string)
    requires s == "" || Dashed(s)
    ensures NameOrEmpty(Cut(s)) && (Cut(s) == "" <==> s == "")
  {
    if |s| > LIMIT {
      DashedIsSpaced(s);
      if s[LIMIT - 1] == '-' { BeforeDash(s, LIMIT - 1); }
      assert Spaced(Cut(s));
      SpacedIsDashed(Cut(s));
    }
  }

  lemma TrimOfSpaced(s: string)
    requires s == "" || Spaced(s)
    ensures Trim(Dash, s) == s && Trim(Dash, s + "-") == s
  {
    if s != "" {
      assert TrimLeft(Dash, s) == s && TrimRight(Dash, s) == s;
      var t := s + "-";
      assert t[0] == s[0];
      assert TrimLeft(Dash, t) == t;
      assert t[|t| - 1] == '-' && t[..|t| - 1] == s;
      assert TrimRight(Dash, t) == s;
    } else {
      var t := s + "-";
      assert t[0] == '-' && t[1..] == "";
    }
  }

  lemma TrimScanned(v: string)
    ensures Trim(Dash, Scan(v, |v|)) == Hyphenated(v)
  {
    assert v[..|v|] == v;
    HyphenatedIsDashed(v);
    if Hyphenated(v) != "" { DashedIsSpaced(Hyphenated(v)); }
    TrimOfSpaced(Hyphenated(v));
    if !Open(v, |v|) { assert Scan(v, |v|) == Hyphenated(v); }
  }

  /** Cutting and trimming again. */
  lemma TrimmedCut(s: string)
    requires Spaced(s) && |s| > LIMIT
    ensures Trim(Dash, s[..LIMIT]) == Cut(s)
  {
    var front := s[..LIMIT - 1];
    assert s[..LIMIT] == front + [s[LIMIT - 1]];
    if s[LIMIT - 1] == '-' {
      BeforeDash(s, LIMIT - 1);
      assert Spaced(front);
      TrimOfSpaced(front);
    } else {
      assert Spaced(s[..LIMIT]);
      TrimOfSpaced(s[..LIMIT]);
    }
  }

  method SlugifyAppName(u: Tables, value: string) returns (result: string)
    requires Sane(u)
    ensures result == Slug(u, value)
    ensures NameOrEmpty(result)
    ensures var full := Hyphenated(Lowered(u, value));
            result <= full && (result == full || |result| in {LIMIT - 1, LIMIT})
  {
    var v := Lowered(u, Trim(u.space, value));
    var b := Hyphenate(v);
    TrimScanned(v);
    SlugOfTrimmed(u, value);
    SlugIsName(u, value);
    SlugIsPrefix(u, value);
    result := Trim(Dash, b);
    if |result| > LIMIT {
      HyphenatedIsDashed(v);
      DashedIsSpaced(result);
      TrimmedCut(result);
      result := Trim(Dash, result[..LIMIT]);
    }
  }

  method Hyphenate(v: string) returns (b: string)
    ensures b == Scan(v, |v|)
  {
    var lastDash := false;
    b := "";
    for i := 0 to |v|
      invariant b == Scan(v, i) && (lastDash <==> Open(v, i))
    {
      if Word(v[i]) {
        ScanWord(v, i);
        b, lastDash := b + [v[i]], false;
      } else {
        ScanOther(v, i);
        if !lastDash && |b| > 0 { b, lastDash := b + "-", true; }
      }
    }
  }

  lemma SlugOfTrimmed(u: Tables, value: string)
    requires Sane(u)
    ensures Hyphenated(Lowered(u, Trim(u.space, value))) == Hyphenated(Lowered(u, value))
  {
    TrimRightIrrelevant(u, TrimLeft(u.space, value));
    TrimLeftIrrelevant(u, value);
  }

  /** A slug is a name, or empty; it is empty exactly when the text has no word character. */
  lemma SlugIsName(u: Tables, value: string)
    ensures NameOrEmpty(Slug(u, value))
    ensures Slug(u, value) == "" <==> forall i :: 0 <= i < |value| ==> !Word(u.lower(value[i]))
  {
    var v := Lowered(u, value);
    HyphenatedIsDashed(v);
    CutIsName(Hyphenated(v));
    NoRunsNoWord(v);
    assert forall i :: 0 <= i < |value| ==> v[i] == u.lower(value[i]);
  }

  /** Names are their own slugs. */
  lemma SlugOfName(u: Tables, name: string)
    requires Sane(u) && NameOrEmpty(name)
    ensures Slug(u, name) == name
  {
    if name != "" {
      DashedIsSpaced(name);
      assert Lowered(u, name) == name;
      NameIsScanned(name, |name|);
      assert name[..|name|] == name;
    }
  }

  predicate LowerOrDigit(c: char) { 'a' <= c <= 'z' || '0' <= c <= '9' }

  /** The names: at most 63 lower-case letters and digits, with single dashes between them. */
  lemma NamesExactly(s: string)
    ensures NameOrEmpty(s) <==>
      || |s| == 0
      || (&& |s| <= 63 && LowerOrDigit(s[0]) && LowerOrDigit(s[|s| - 1])
          && (forall i :: 0 <= i < |s| ==> LowerOrDigit(s[i]) || s[i] == '-')
          && (forall i :: 0 <= i < |s| - 1 ==> s[i] == '-' ==> s[i + 1] != '-'))
  {
    if s != "" && Dashed(s) { DashedIsSpaced(s); }
    if s != "" && LowerOrDigit(s[0]) && LowerOrDigit(s[|s| - 1])
       && (forall i :: 0 <= i < |s| ==> LowerOrDigit(s[i]) || s[i] == '-')
       && (forall i :: 0 <= i < |s| - 1 ==> s[i] == '-' ==> s[i + 1] != '-') {
      assert Spaced(s);
      SpacedIsDashed(s);
    }
  }

  /** Nothing is left of a text exactly if no character of it is a letter or digit, once lowered. */
  lemma SlugIsEmptyExactly(u: Tables, value: string)
    ensures Slug(u, value) == "" <==> forall i :: 0 <= i < |value| ==> !LowerOrDigit(u.lower(value[i]))
  {
    SlugIsName(u, value);
    assert forall c :: Word(c) <==> LowerOrDigit(c);
  }

  /** Hence the slugs are exactly the names, and slugging twice is slugging once. */
  lemma SlugsAreTheNames(u: Tables, s: string)
    requires Sane(u)
    ensures NameOrEmpty(s) <==> exists value :: Slug(u, value) == s
    ensures Slug(u, Slug(u, s)) == Slug(u, s)
  {
    SlugIsName(u, s);
    SlugOfName(u, Slug(u, s));
    if NameOrEmpty(s) { SlugOfName(u, s); }
    forall value | Slug(u, value) == s ensures NameOrEmpty(s) { SlugIsName(u, value); }
  }

  /** A name longer than the limit loses its tail and, at most, one dash before it. */
  lemma SlugIsPrefix(u: Tables, value: string)
    ensures Slug(u, value) <= Hyphenated(Lowered(u, value))
    ensures |Hyphenated(Lowered(u, value))| > LIMIT ==> |Slug(u, value)| in {LIMIT - 1, LIMIT}
    ensures |Hyphenated(Lowered(u, value))| <= LIMIT ==> Slug(u, value) == Hyphenated(Lowered(u, value))
  {
  }

  // ---------- logical instance names ----------

  function WithoutPrefix(s: string, prefix: string): string { if prefix <= s then s[|prefix|..] else s }

  function WithoutSuffix(s: string, suffix: string): string
  {
    if EndsWith(s, suffix) then s[..|s| - |suffix|] else s
  }

  /** A prefix that ends in a dash and a suffix that starts with one never eat a whole name. */
  lemma StrippedPrefixLeavesName(s: string, kind: string)
    requires Spaced(s)
    ensures Spaced(WithoutPrefix(s, kind + "-")) && |WithoutPrefix(s, kind + "-")| <= |s|
    ensures EndsWith(s, WithoutPrefix(s, kind + "-"))
  {
    var prefix := kind + "-";
    if prefix <= s {
      assert s[|kind|] == prefix[|kind|] == '-';
      SpacedTail(s, |kind|);
    }
  }

  lemma StrippedSuffixLeavesName(s: string, kind: string)
    requires Spaced(s)
    ensures Spaced(WithoutSuffix(s, "-" + kind)) && WithoutSuffix(s, "-" + kind) <= s
  {
    var suffix := "-" + kind;
    if EndsWith(s, suffix) {
      var k := |s| - |suffix|;
      assert s[k] == s[k..][0] == suffix[0] == '-';
      assert k > 0;
      assert Word(s[k - 1]) || Word(s[k]);
    }
  }

  function Dialects(kind: string): (r: seq<string>)
    ensures |r| == 3
  {
    if kind == "postgres" then [kind, "postgresql", "pg"] else [kind, "valkey", "redis"]
  }

  /** What the trimming functions do: they take off exactly the given end, if it is there. */
  lemma TrimsExactly(s: string, affix: string)
    ensures if affix <= s then s == affix + WithoutPrefix(s, affix) else WithoutPrefix(s, affix) == s
    ensures if |affix| <= |s| && s[|s| - |affix|..] == affix then s == WithoutSuffix(s, affix) + affix
            else WithoutSuffix(s, affix) == s
  {
    if affix <= s { CutInTwo(s, |affix|); }
    if |affix| <= |s| { CutInTwo(s, |s| - |affix|); }
  }

  lemma CutInTwo(s: string, k: nat)
    requires k <= |s|
    ensures s == s[..k] + s[k..]
  {
  }

  /** The prefixes and then the suffixes of a kind, in their order. */
  function Undialected(slug: string, kind: string): string
  {
    if kind == "postgres" then
      var front := WithoutPrefix(WithoutPrefix(WithoutPrefix(slug, "postgres-"), "postgresql-"), "pg-");
      WithoutSuffix(WithoutSuffix(WithoutSuffix(front, "-postgres"), "-postgresql"), "-pg")
    else
      var front := WithoutPrefix(WithoutPrefix(WithoutPrefix(slug, kind + "-"), "valkey-"), "redis-");
      WithoutSuffix(WithoutSuffix(WithoutSuffix(front, "-" + kind), "-valkey"), "-redis")
  }

  function WithoutFronts(s: string, kinds: seq<string>, n: nat): string
    requires n <= |kinds|
  {
    if n == 0 then s else WithoutPrefix(WithoutFronts(s, kinds, n - 1), kinds[n - 1] + "-")
  }

  function WithoutBacks(s: string, kinds: seq<string>, n: nat): string
    requires n <= |kinds|
  {
    if n == 0 then s else WithoutSuffix(WithoutBacks(s, kinds, n - 1), "-" + kinds[n - 1])
  }

  lemma FrontsInOrder(s: string, kinds: seq<string>, a: string, b: string, c: string)
    requires |kinds| == 3 && a == kinds[0] + "-" && b == kinds[1] + "-" && c == kinds[2] + "-"
    ensures WithoutFronts(s, kinds, 3) == WithoutPrefix(WithoutPrefix(WithoutPrefix(s, a), b), c)
  {
    assert WithoutFronts(s, kinds, 1) == WithoutPrefix(WithoutFronts(s, kinds, 0), a);
    assert WithoutFronts(s, kinds, 2) == WithoutPrefix(WithoutFronts(s, kinds, 1), b);
  }

  lemma BacksInOrder(s: string, kinds: seq<string>, a: string, b: string, c: string)
    requires |kinds| == 3 && a == "-" + kinds[0] && b == "-" + kinds[1] && c == "-" + kinds[2]
    ensures WithoutBacks(s, kinds, 3) == WithoutSuffix(WithoutSuffix(WithoutSuffix(s, a), b), c)
  {
    assert WithoutBacks(s, kinds, 1) == WithoutSuffix(WithoutBacks(s, kinds, 0), a);
    assert WithoutBacks(s, kinds, 2) == WithoutSuffix(WithoutBacks(s, kinds, 1), b);
  }

  lemma PostgresInOrder(slug: string)
    ensures var k := Dialects("postgres");
      WithoutBacks(WithoutFronts(slug, k, 3), k, 3) == Undialected(slug, "postgres")
  {
    var k := Dialects("postgres");
    var front := WithoutFronts(slug, k, 3);
    FrontsInOrder(slug, k, "postgres-", "postgresql-", "pg-");
    BacksInOrder(front, k, "-postgres", "-postgresql", "-pg");
  }

  lemma OthersInOrder(slug: string, kind: string)
    requires kind != "postgres"
    ensures WithoutBacks(WithoutFronts(slug, Dialects(kind), 3), Dialects(kind), 3) == Undialected(slug, kind)
  {
    var k := Dialects(kind);
    var front := WithoutFronts(slug, k, 3);
    FrontsInOrder(slug, k, kind + "-", "valkey-", "redis-");
    BacksInOrder(front, k, "-" + kind, "-valkey", "-redis");
  }

  /** `s` is part of `t`. */
  ghost predicate Infix(s: string, t: string) { exists a: string, b: string :: t == a + s + b }

  lemma InfixTransitive(r: string, s: string, t: string)
    requires Infix(r, s) && Infix(s, t)
    ensures Infix(r, t)
  {
    var a: string, b: string :| s == a + r + b;
    var c: string, d: string :| t == c + s + d;
    assert t == (c + a) + r + (b + d);
  }

  /** Whatever the kind, the name of a detected instance is a name and part of the service's slug; it
      is empty only if that slug is. */
  method DetectedLogicalInstanceName(u: Tables, serviceName: string, kind: string) returns (name: string)
    requires Sane(u)
    ensures NameOrEmpty(name) && Infix(name, Slug(u, serviceName))
    ensures name == "" <==> Slug(u, serviceName) == ""
    ensures name == Undialected(Slug(u, serviceName), kind)
  {
    name := SlugifyAppName(u, serviceName);
    ghost var slug := name;
    assert slug == "" + slug + "";
    if slug != "" { DashedIsSpaced(slug); }
    var dialects := Dialects(kind);
    for i := 0 to 3
      invariant if slug == "" then name == "" else Spaced(name)
      invariant |name| <= |slug| && Infix(name, slug) && name == WithoutFronts(slug, dialects, i)
    {
      name := StripFront(name, dialects[i], slug);
    }
    ghost var front := name;
    for i := 0 to 3
      invariant if slug == "" then name == "" else Spaced(name)
      invariant |name| <= |slug| && Infix(name, slug) && name == WithoutBacks(front, dialects, i)
    {
      name := StripBack(name, dialects[i], slug);
    }
    if kind == "postgres" { PostgresInOrder(slug); } else { OthersInOrder(slug, kind); }
    if name == "" { name := SlugifyAppName(u, serviceName); return; }
    SpacedIsDashed(name);
  }

  method StripFront(name: string, kind: string, ghost slug: string) returns (r: string)
    requires (name == "" || Spaced(name)) && Infix(name, slug)
    ensures r == WithoutPrefix(name, kind + "-")
    ensures if name == "" then r == "" else Spaced(r)
    ensures |r| <= |name| && Infix(r, slug)
  {
    r := WithoutPrefix(name, kind + "-");
    if name != "" {
      StrippedPrefixLeavesName(name, kind);
      assert name == name[..|name| - |r|] + r + "";
      InfixTransitive(r, name, slug);
    }
  }

  method StripBack(name: string, kind: string, ghost slug: string) returns (r: string)
    requires (name == "" || Spaced(name)) && Infix(name, slug)
    ensures r == WithoutSuffix(name, "-" + kind)
    ensures if name == "" then r == "" else Spaced(r)
    ensures |r| <= |name| && Infix(r, slug)
  {
    r := WithoutSuffix(name, "-" + kind);
    if name != "" {
      StrippedSuffixLeavesName(name, kind);
      assert name == "" + r + name[|r|..];
      InfixTransitive(r, name, slug);
    }
  }
}
