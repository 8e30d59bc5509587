/** Asking for the durable database names of an application, kept apart from its cache names. */
module DurableNames {
  import opened Wrappers
  import opened AppNames
  import opened Sorting
  import T = Text

  const DEFAULT := "default"

  // ---------- the suggested name ----------

  /** `store`, `store-2`, `store-3`, ... */
  function Candidate(n: nat): string { if n < 2 then "store" else "store-" + T.Decimal(n) }

  lemma CandidatesDiffer(m: nat, n: nat)
    requires 1 <= m < n
    ensures Candidate(m) != Candidate(n)
  {
    if m >= 2 && Candidate(m) == Candidate(n) {
      assert Candidate(m)[6..] == T.Decimal(m) && Candidate(n)[6..] == T.Decimal(n);
      T.DecimalInjective(m, n);
    }
  }

  predicate Taken(cache: set<string>, n: nat) { forall j: nat :: 1 <= j <= n ==> Candidate(j) in cache }

  /** Pigeonhole: a cache of k names takes at most the first k candidates. */
  lemma {:induction false} FewAreTaken(cache: set<string>, n: nat)
    requires Taken(cache, n)
    ensures n <= |cache|
  {
    if n > 0 {
      forall j: nat | 1 <= j < n ensures Candidate(j) in cache - {Candidate(n)} { CandidatesDiffer(j, n); }
      FewAreTaken(cache - {Candidate(n)}, n - 1);
    }
  }

  /** One name of the cache is the default, which is no candidate. */
  lemma FreeWithinCache(cache: set<string>, n: nat)
    requires DEFAULT in cache && Taken(cache, n)
    ensures n < |cache|
  {
    forall j: nat | 1 <= j <= n ensures Candidate(j) in cache - {DEFAULT} { assert Candidate(j)[0] == 's'; }
    FewAreTaken(cache - {DEFAULT}, n);
  }

  /** The default if it is free, else the free candidate of least ordinal. */
  predicate Suggested(cache: set<string>, name: string)
  {
    && name !in cache
    && (name == DEFAULT || (DEFAULT in cache && exists n: nat :: 1 <= n <= |cache| && LeastFree(cache, name, n)))
  }

  predicate LeastFree(cache: set<string>, name: string, n: nat)
  {
    n >= 1 && name == Candidate(n) && name !in cache && Taken(cache, n - 1)
  }

  method Suggest(cache: set<string>) returns (fallback: string)
    ensures Suggested(cache, fallback)
  {
    fallback := DEFAULT;
    if fallback in cache {
      fallback := "store";
      var ordinal := 2;
      while fallback in cache
        invariant ordinal >= 2 && fallback == Candidate(ordinal - 1) && Taken(cache, ordinal - 2)
        invariant ordinal - 2 <= |cache|
        decreases |cache| + 2 - ordinal
      {
        assert Taken(cache, ordinal - 1);
        FewAreTaken(cache, ordinal - 1);
        fallback := "store-" + T.Decimal(ordinal);
        ordinal := ordinal + 1;
      }
      assert LeastFree(cache, fallback, ordinal - 1);
      FreeWithinCache(cache, ordinal - 2);
    }
  }

  lemma NoEarlierFree(cache: set<string>, a: string, b: string, m: nat, n: nat)
    requires LeastFree(cache, a, m) && LeastFree(cache, b, n)
    ensures n <= m
  {
    assert Candidate(m) !in cache;
  }

  /** There is only one name to suggest. */
  lemma SuggestionIsDetermined(cache: set<string>, a: string, b: string)
    requires Suggested(cache, a) && Suggested(cache, b)
    ensures a == b
  {
    if DEFAULT in cache {
      var m: nat :| 1 <= m <= |cache| && LeastFree(cache, a, m);
      var n: nat :| 1 <= n <= |cache| && LeastFree(cache, b, n);
      NoEarlierFree(cache, a, b, m, n);
      NoEarlierFree(cache, b, a, n, m);
    }
  }

  lemma CandidateIsSpaced(n: nat)
    ensures Spaced(Candidate(n))
  {
    if n >= 2 {
      var d, name := T.Decimal(n), Candidate(n);
      assert name == "store-" + d;
      assert forall i :: 6 <= i < |name| ==> name[i] == d[i - 6];
    }
  }

  lemma SuggestionIsSpaced(cache: set<string>, name: string)
    requires Suggested(cache, name)
    ensures Spaced(name)
  {
    if name != DEFAULT {
      var n: nat :| 1 <= n <= |cache| && LeastFree(cache, name, n);
      CandidateIsSpaced(n);
    }
  }

  // ---------- one answer ----------

  /** The line an answer stands for: blank means the suggestion. */
  function Line(u: Tables, fallback: string, answer: string): string
  {
    var t := Trim(u.space, answer);
    Trim(u.space, if t == "" then fallback else t)
  }

  predicate MeansDefault(line: string) { line == "" || line == DEFAULT }

  predicate Invalid(u: Tables, line: string)
  {
    !MeansDefault(line) && exists part :: part in T.Split(line, ',') && Slug(u, part) == ""
  }

  /** The names a line puts to use. */
  function Effective(u: Tables, line: string): set<string>
  {
    if MeansDefault(line) then {DEFAULT} else set part | part in T.Split(line, ',') :: Slug(u, part)
  }

  function Elements(s: seq<string>): set<string> { set x | x in s }

  /** `names` is the answer to `line`: nothing for the default, else its names in order, each once. */
  predicate Answers(u: Tables, line: string, names: seq<string>)
  {
    if MeansDefault(line) then names == []
    else names != [] && Elements(names) == Effective(u, line) && Sorted(LexLe, names) && Distinct(names)
  }

  datatype PromptError = EndOfInput | InvalidName

  lemma SortKeepsElements(s: seq<string>)
    requires Distinct(s)
    ensures Sorted(LexLe, Sort(LexLe, s)) && Distinct(Sort(LexLe, s)) && Elements(Sort(LexLe, s)) == Elements(s)
  {
    LexIsTotalOrder();
    SortSorts(LexLe, s);
    PermutationKeepsMembers(s, Sort(LexLe, s));
    PermutationKeepsDistinct(s, Sort(LexLe, s));
  }

  /** Blank and repeated values dropped, the others sorted. */
  method UniqueSorted(u: Tables, values: seq<string>) returns (r: seq<string>)
    ensures Sorted(LexLe, r) && Distinct(r)
    ensures Elements(r) == (set i | 0 <= i < |values| && Trim(u.space, values[i]) != "" :: Trim(u.space, values[i]))
  {
    var seen: set<string> := {};
    var result: seq<string> := [];
    for i := 0 to |values|
      invariant Distinct(result) && seen == Elements(result)
      invariant seen == set k | 0 <= k < i && Trim(u.space, values[k]) != "" :: Trim(u.space, values[k])
    {
      var value := Trim(u.space, values[i]);
      if value != "" && value !in seen {
        assert value !in result;
        seen := seen + {value};
        result := result + [value];
      }
    }
    SortKeepsElements(result);
    r := Sort(LexLe, result);
  }

  lemma NamesAreTrimmed(u: Tables, name: string)
    requires Sane(u) && NameOrEmpty(name)
    ensures Trim(u.space, name) == name
  {
    if name != "" { DashedIsSpaced(name); }
  }

  method PromptServiceInstances(u: Tables, fallback: string, answer: string)
    returns (r: Result<seq<string>, PromptError>)
    requires Sane(u)
    ensures r.Err? <==> Invalid(u, Line(u, fallback, answer))
    ensures r.Err? ==> r.error == InvalidName
    ensures r.Ok? ==> Answers(u, Line(u, fallback, answer), r.value)
  {
    var line := Line(u, fallback, answer);
    if MeansDefault(line) { return Ok([]); }
    var parts := T.Split(line, ',');
    var names: seq<string> := [];
    for i := 0 to |parts|
      invariant |names| == i
      invariant forall k :: 0 <= k < i ==> names[k] == Slug(u, parts[k]) && names[k] != ""
    {
      var name := SlugifyAppName(u, parts[i]);
      if name == "" { return Err(InvalidName); }
      names := names + [name];
    }
    r := Collected(u, line, parts, names);
  }

  method Collected(u: Tables, line: string, parts: seq<string>, names: seq<string>)
    returns (r: Result<seq<string>, PromptError>)
    requires Sane(u) && !MeansDefault(line) && parts == T.Split(line, ',') && |names| == |parts|
    requires forall k :: 0 <= k < |parts| ==> names[k] == Slug(u, parts[k]) && names[k] != ""
    ensures r.Ok? && Answers(u, line, r.value)
    ensures !Invalid(u, line)
  {
    var sorted := UniqueSorted(u, names);
    forall k | 0 <= k < |names| ensures Trim(u.space, names[k]) == names[k] {
      SlugIsName(u, parts[k]);
      NamesAreTrimmed(u, names[k]);
    }
    assert names[0] in Elements(sorted);
    forall x ensures x in Elements(sorted) <==> x in Effective(u, line) {
      if x in Effective(u, line) {
        var part :| part in parts && Slug(u, part) == x;
        var k :| 0 <= k < |parts| && parts[k] == part;
        assert x == Trim(u.space, names[k]);
      }
    }
    r := Ok(sorted);
  }

  // ---------- the conversation ----------

  predicate Collides(u: Tables, cache: set<string>, line: string) { exists x :: x in Effective(u, line) && x in cache }

  function CacheNames(enabled: bool, instances: seq<string>): set<string>
  {
    if !enabled then {} else if instances == [] then {DEFAULT} else Elements(instances)
  }

  /** The names that a list of names puts to use. */
  function InUse(names: seq<string>): set<string> { if names == [] then {DEFAULT} else Elements(names) }

  /** A valid answer that asks for a name of the cache. */
  predicate Rejected(u: Tables, cache: set<string>, line: string) { !Invalid(u, line) && Collides(u, cache, line) }

  /** How one answer ends the conversation, if it does. */
  predicate Settles(u: Tables, cache: set<string>, line: string, r: Result<seq<string>, PromptError>)
  {
    match r
    case Ok(names) => Answers(u, line, names) && InUse(names) !! cache
    case Err(e) => e == InvalidName && Invalid(u, line)
  }

  /** The first `n` answers are valid but ask for names of the cache. */
  predicate AllRejected(u: Tables, cache: set<string>, fallback: string, answers: seq<string>, n: nat)
    requires n <= |answers|
  {
    n == 0 || (AllRejected(u, cache, fallback, answers, n - 1) && Rejected(u, cache, Line(u, fallback, answers[n - 1])))
  }

  /** How a conversation ends: with the first answer that settles it, or with the input. */
  predicate Concludes(u: Tables, cache: set<string>, fallback: string, answers: seq<string>,
                      r: Result<seq<string>, PromptError>, used: nat)
  {
    && used <= |answers|
    && if r == Err(EndOfInput) then used == |answers| && AllRejected(u, cache, fallback, answers, used)
       else
         && used > 0 && AllRejected(u, cache, fallback, answers, used - 1)
         && Settles(u, cache, Line(u, fallback, answers[used - 1]), r)
  }

  /** Answers are read until one is invalid or meets no cache name; `used` counts them. */
  method PromptDurable(u: Tables, enabled: bool, instances: seq<string>, answers: seq<string>)
    returns (r: Result<seq<string>, PromptError>, used: nat, fallback: string)
    requires Sane(u)
    ensures Suggested(CacheNames(enabled, instances), fallback)
    ensures Concludes(u, CacheNames(enabled, instances), fallback, answers, r, used)
  {
    var cache := CollectCache(enabled, instances);
    fallback := Suggest(cache);
    r, used := Converse(u, cache, fallback, answers);
  }

  method Converse(u: Tables, cache: set<string>, fallback: string, answers: seq<string>)
    returns (r: Result<seq<string>, PromptError>, used: nat)
    requires Sane(u)
    ensures Concludes(u, cache, fallback, answers, r, used)
  {
    for i := 0 to |answers|
      invariant AllRejected(u, cache, fallback, answers, i)
    {
      var answer := PromptOnce(u, cache, fallback, answers[i]);
      if answer.Some? { return answer.value, i + 1; }
    }
    return Err(EndOfInput), |answers|;
  }

  /** One turn; None means that a name is taken and the question is asked again. */
  method PromptOnce(u: Tables, cache: set<string>, fallback: string, answer: string)
    returns (r: Option<Result<seq<string>, PromptError>>)
    requires Sane(u)
    ensures r.None? ==> Rejected(u, cache, Line(u, fallback, answer))
    ensures r.Some? ==> r.value != Err(EndOfInput) && Settles(u, cache, Line(u, fallback, answer), r.value)
  {
    var result := PromptServiceInstances(u, fallback, answer);
    if result.Err? { return Some(result); }
    var effective := if result.value == [] then [DEFAULT] else result.value;
    InUseIsEffective(u, Line(u, fallback, answer), result.value);
    assert Elements(effective) == InUse(result.value);
    var collision := FirstCollision(cache, effective);
    if collision.None? { return Some(result); }
    assert collision.value in Elements(effective);
    return None;
  }

  lemma InUseIsEffective(u: Tables, line: string, names: seq<string>)
    requires Answers(u, line, names)
    ensures InUse(names) == Effective(u, line)
  {
  }

  method CollectCache(enabled: bool, instances: seq<string>) returns (cache: set<string>)
    ensures cache == CacheNames(enabled, instances)
  {
    cache := {};
    if enabled {
      var names := if instances == [] then [DEFAULT] else instances;
      for i := 0 to |names|
        invariant cache == Elements(names[..i])
      {
        assert names[..i + 1] == names[..i] + [names[i]];
        cache := cache + {names[i]};
      }
      assert names[..|names|] == names;
    }
  }

  method FirstCollision(cache: set<string>, names: seq<string>) returns (r: Option<string>)
    ensures r.Some? ==> r.value in names && r.value in cache
    ensures r.None? ==> Elements(names) !! cache
  {
    for i := 0 to |names|
      invariant forall k :: 0 <= k < i ==> names[k] !in cache
    {
      if names[i] in cache { return Some(names[i]); }
    }
    return None;
  }

  /** The answer is trimmed; a blank one stands for the suggestion. */
  lemma LineExactly(u: Tables, fallback: string, answer: string)
    ensures |Trim(u.space, answer)| > 0 ==> Line(u, fallback, answer) == Trim(u.space, Trim(u.space, answer))
    ensures |Trim(u.space, answer)| == 0 ==> Line(u, fallback, answer) == Trim(u.space, fallback)
  {
  }

  /** An answer is invalid exactly if it is neither empty nor the default and one of its comma-separated
      parts has no letter and no digit. */
  lemma InvalidExactly(u: Tables, line: string)
    ensures Invalid(u, line) <==>
      && line != "" && line != "default"
      && exists part :: T.PartOf(part, line, ',') && NoWordIn(u, part)
  {
    forall part
      ensures part in T.Split(line, ',') && Slug(u, part) == "" <==> T.PartOf(part, line, ',') && NoWordIn(u, part)
    {
      T.SplitFindsExactly(line, ',', part);
      SlugIsEmptyExactly(u, part);
    }
    if line != "" && line != "default" && exists part :: T.PartOf(part, line, ',') && NoWordIn(u, part) {
      var part :| T.PartOf(part, line, ',') && NoWordIn(u, part);
      assert part in T.Split(line, ',') && Slug(u, part) == "";
    }
  }

  predicate NoWordIn(u: Tables, part: string)
  {
    forall i :: 0 <= i < |part| ==> !LowerOrDigit(u.lower(part[i]))
  }

  /** Names separated by commas ask for exactly these names. */
  lemma ListedNamesExactly(u: Tables, fallback: string, names: seq<string>)
    requires Sane(u) && names != [] && forall i :: 0 <= i < |names| ==> Spaced(names[i]) && |names[i]| <= 63
    requires T.Join(names, ',') != "default"
    ensures var answer := T.Join(names, ',');
      && Line(u, fallback, answer) == answer && !Invalid(u, answer)
      && Effective(u, answer) == set i | 0 <= i < |names| :: names[i]
  {
    var answer := T.Join(names, ',');
    JoinedEnds(names);
    forall i | 0 <= i < |names| ensures ',' !in names[i] && Slug(u, names[i]) == names[i] {
      SpacedIsDashed(names[i]);
      SlugOfName(u, names[i]);
    }
    T.SplitJoin(names, ',');
    EndsAreKept(u, answer);
    forall x ensures x in Effective(u, answer) <==> x in set i | 0 <= i < |names| :: names[i] {
      if x in Effective(u, answer) {
        var part :| part in names && Slug(u, part) == x;
        var i :| 0 <= i < |names| && names[i] == part;
      }
    }
  }

  lemma {:induction false} JoinedEnds(names: seq<string>)
    requires names != [] && forall i :: 0 <= i < |names| ==> Spaced(names[i])
    ensures var s := T.Join(names, ','); s != "" && Word(s[0]) && Word(s[|s| - 1])
  {
    if |names| > 1 { JoinedEnds(names[1..]); }
  }

  lemma EndsAreKept(u: Tables, s: string)
    requires Sane(u) && s != "" && Word(s[0]) && Word(s[|s| - 1])
    ensures Trim(u.space, s) == s
  {
  }

  /** The default asks for itself. */
  lemma DefaultAnswer(u: Tables, fallback: string)
    requires Sane(u)
    ensures Line(u, fallback, "default") == "default" && !Invalid(u, "default")
    ensures Effective(u, "default") == {"default"} == Effective(u, "")
  {
    EndsAreKept(u, "default");
  }

  lemma NoComma(name: string)
    requires Spaced(name)
    ensures T.Split(name, ',') == [name]
  {
    assert ',' !in name;
    T.IndexOfConcat(name, "", ',');
  }

  lemma OneName(u: Tables, name: string)
    requires Sane(u) && Spaced(name)
    ensures T.Split(name, ',') == [name] && Trim(u.space, name) == name
    ensures Slug(u, name) != "" && (|name| <= LIMIT ==> Slug(u, name) == name)
  {
    SpacedIsDashed(name);
    NoComma(name);
    SlugIsName(u, name);
    assert u.lower(name[0]) == name[0];
    SpacedIsTrimmed(u, name);
    if |name| <= LIMIT { SlugOfName(u, name); }
  }

  lemma SpacedIsTrimmed(u: Tables, name: string)
    requires Sane(u) && Spaced(name)
    ensures Trim(u.space, name) == name
  {
  }

  lemma OneNameIsValid(u: Tables, name: string)
    requires T.Split(name, ',') == [name] && Slug(u, name) != "" && name != ""
    ensures !Invalid(u, name) && Effective(u, name) == {if name == DEFAULT then DEFAULT else Slug(u, name)}
  {
    var parts := T.Split(name, ',');
    assert parts[0] == name;
    assert forall part :: part in parts <==> part == name;
  }

  /** Accepting the suggestion is always valid and asks for its slug; it ends the conversation exactly if
      no cache uses that slug. (The default stands for itself.) */
  lemma BlankAnswerExactly(u: Tables, cache: set<string>, fallback: string, answer: string)
    requires Sane(u) && Suggested(cache, fallback) && Trim(u.space, answer) == ""
    ensures Line(u, fallback, answer) == fallback && !Invalid(u, fallback)
    ensures Effective(u, fallback) == {if fallback == DEFAULT then DEFAULT else Slug(u, fallback)}
    ensures !Collides(u, cache, fallback) <==> fallback == DEFAULT || Slug(u, fallback) !in cache
  {
    SuggestionIsSpaced(cache, fallback);
    OneName(u, fallback);
    OneNameIsValid(u, fallback);
  }

  /** In particular it ends it with the suggestion itself as long as the cache has fewer names than there
      are ordinals that fit into a name: fewer than ten to the 57. */
  lemma BlankAnswerSettles(u: Tables, cache: set<string>, fallback: string, answer: string, digits: nat)
    requires Sane(u) && Suggested(cache, fallback) && Trim(u.space, answer) == ""
    requires 0 < digits <= LIMIT - 6 && |cache| < T.PowerOfTen(digits)
    ensures Line(u, fallback, answer) == fallback && !Invalid(u, fallback)
    ensures !Collides(u, cache, fallback) && Effective(u, fallback) == {fallback}
  {
    SuggestionIsShort(cache, fallback, digits);
    SuggestionIsSpaced(cache, fallback);
    OneName(u, fallback);
    BlankAnswerExactly(u, cache, fallback, answer);
  }

  lemma SuggestionIsShort(cache: set<string>, fallback: string, digits: nat)
    requires Suggested(cache, fallback) && 0 < digits <= LIMIT - 6 && |cache| < T.PowerOfTen(digits)
    ensures |fallback| <= LIMIT
  {
    if fallback != DEFAULT {
      var n: nat :| 1 <= n <= |cache| && LeastFree(cache, fallback, n);
      T.DecimalLength(n, digits);
    }
  }
}
