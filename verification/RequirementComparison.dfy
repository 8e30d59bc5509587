/** Order-free comparison of authored and observed requirements: by counting, and by sorting. */
module RequirementComparison {
  import opened Wrappers
  import opened Sorting

  datatype Requirement = Requirement(kind: string, name: string)
  datatype Preference = Preference(requirement: Requirement, instanceId: string, providerKind: string)

  const SECRET := Requirement("secrets", "default")

  // ---------- counting ----------

  function Count(counts: map<Requirement, int>, r: Requirement): int { if r in counts then counts[r] else 0 }

  /** Counts the authored requirements up and the observed ones down; equal when all end at zero. */
  method SameCounts(authored: seq<Requirement>, observed: seq<Requirement>) returns (same: bool)
    ensures same <==> multiset(authored) == multiset(observed)
  {
    var counts: map<Requirement, int> := map[];
    for i := 0 to |authored|
      invariant forall r :: Count(counts, r) == multiset(authored[..i])[r]
      invariant forall r :: r in authored[..i] ==> r in counts
    {
      assert authored[..i + 1] == authored[..i] + [authored[i]];
      counts := counts[authored[i] := Count(counts, authored[i]) + 1];
    }
    assert authored[..|authored|] == authored;
    for i := 0 to |observed|
      invariant forall r :: Count(counts, r) + multiset(observed[..i])[r] == multiset(authored)[r]
      invariant forall r :: r in authored || r in observed[..i] ==> r in counts
    {
      assert observed[..i + 1] == observed[..i] + [observed[i]];
      counts := counts[observed[i] := Count(counts, observed[i]) - 1];
    }
    assert observed[..|observed|] == observed;
    if |authored| != |observed| {
      assert |multiset(authored)| != |multiset(observed)|;
      return false;
    }
    same := AllZero(counts);
    CountsDecide(counts, multiset(authored), multiset(observed));
  }

  method AllZero(counts: map<Requirement, int>) returns (zero: bool)
    ensures zero <==> forall r :: Count(counts, r) == 0
  {
    var todo := counts.Keys;
    while todo != {}
      invariant todo <= counts.Keys
      invariant forall r :: r in counts && r !in todo ==> counts[r] == 0
    {
      var r :| r in todo;
      if counts[r] != 0 {
        assert Count(counts, r) != 0;
        return false;
      }
      todo := todo - {r};
    }
    return true;
  }

  lemma CountsDecide(counts: map<Requirement, int>, a: multiset<Requirement>, b: multiset<Requirement>)
    requires forall r :: Count(counts, r) + b[r] == a[r]
    ensures a == b <==> forall r :: Count(counts, r) == 0
  {
    forall r | a == b ensures Count(counts, r) == 0 { assert Count(counts, r) + b[r] == a[r]; }
    forall r | Count(counts, r) == 0 ensures a[r] == b[r] { assert Count(counts, r) + b[r] == a[r]; }
  }

  /** The requirement part of `appEditLoad`: the resolved footprint must hold the managed secret
      exactly when the contract manages secrets, and the rest must agree as multisets; a managed
      secret is then part of the loaded requirements. */
  method LoadRequirements(authored: seq<Requirement>, managed: bool, footprint: seq<Requirement>,
                          observed: seq<Requirement>)
    returns (loaded: Option<seq<Requirement>>)
    ensures loaded.Some? <==>
      && multiset(footprint)[Requirement("secrets", "default")] == (if managed then 1 else 0)
      && multiset(authored) == multiset(observed)
    ensures loaded.Some? ==> managed ==> SECRET in loaded.value
    ensures loaded.Some? ==> observed <= loaded.value <= observed + [SECRET]
    ensures loaded.Some? && (!managed || SECRET in observed) ==> loaded.value == observed
  {
    var secrets := 0;
    for i := 0 to |footprint|
      invariant secrets == multiset(footprint[..i])[SECRET]
    {
      assert footprint[..i + 1] == footprint[..i] + [footprint[i]];
      if footprint[i] == SECRET { secrets := secrets + 1; }
    }
    assert footprint[..|footprint|] == footprint;
    if secrets > 1 || (secrets == 1) != managed { return None; }
    var same := SameCounts(authored, observed);
    if !same { return None; }
    if managed {
      var present := false;
      for i := 0 to |observed|
        invariant present <==> SECRET in observed[..i]
      {
        if observed[i] == SECRET { present := true; break; }
      }
      if !present { return Some(observed + [SECRET]); }
    }
    return Some(observed);
  }

  // ---------- sorting ----------

  predicate Before(a: string, b: string) { !LexLe(b, a) }

  predicate RequirementLess(a: Requirement, b: Requirement)
  {
    if a.kind == b.kind then Before(a.name, b.name) else Before(a.kind, b.kind)
  }

  predicate PreferenceLess(a: Preference, b: Preference)
  {
    if a.requirement.kind == b.requirement.kind then
      if a.requirement.name == b.requirement.name then Before(a.instanceId, b.instanceId)
      else Before(a.requirement.name, b.requirement.name)
    else Before(a.requirement.kind, b.requirement.kind)
  }

  predicate RequirementLe(a: Requirement, b: Requirement) { !RequirementLess(b, a) }
  predicate PreferenceLe(a: Preference, b: Preference) { !PreferenceLess(b, a) }

  lemma RequirementOrder()
    ensures Connected(RequirementLe) && Transitive(RequirementLe) && Antisymmetric(RequirementLe)
  {
    LexIsTotalOrder();
  }

  lemma PreferenceOrder()
    ensures Connected(PreferenceLe) && Transitive(PreferenceLe)
  {
    LexIsTotalOrder();
  }

  /** What sort.Slice guarantees: the same elements, and no later one less than an earlier one. */
  ghost predicate Arrangement<T(!new)>(le: (T, T) -> bool, input: seq<T>, output: seq<T>)
  {
    Sorted(le, output) && multiset(output) == multiset(input)
  }

  /** Whatever arrangements the sort picks, comparing sorted requirements compares multisets. */
  lemma SortedRequirementsDecideEquality(a: seq<Requirement>, b: seq<Requirement>, sortedA: seq<Requirement>,
                                         sortedB: seq<Requirement>)
    requires Arrangement(RequirementLe, a, sortedA) && Arrangement(RequirementLe, b, sortedB)
    ensures sortedA == sortedB <==> multiset(a) == multiset(b)
  {
    RequirementOrder();
    if multiset(a) == multiset(b) { SortedArrangementIsUnique(RequirementLe, sortedA, sortedB); }
  }

  predicate SameKey(p: Preference, q: Preference) { p.requirement == q.requirement && p.instanceId == q.instanceId }

  /** No two different preferences share requirement and instance. */
  predicate DistinctKeys(ps: seq<Preference>)
  {
    forall i, j :: 0 <= i < |ps| && 0 <= j < |ps| && SameKey(ps[i], ps[j]) ==> ps[i] == ps[j]
  }

  lemma PreferenceTie(p: Preference, q: Preference)
    ensures PreferenceLe(p, q) && PreferenceLe(q, p) <==> SameKey(p, q)
  {
    LexIsTotalOrder();
  }

  /** The sort key leaves out the provider kind: sorted comparison decides equality of preferences
      whenever keys are distinct, and never accepts different ones. */
  lemma SortedPreferencesWithDistinctKeys(a: seq<Preference>, b: seq<Preference>, sortedA: seq<Preference>,
                                          sortedB: seq<Preference>)
    requires Arrangement(PreferenceLe, a, sortedA) && Arrangement(PreferenceLe, b, sortedB)
    ensures sortedA == sortedB ==> multiset(a) == multiset(b)
    ensures DistinctKeys(a) && multiset(a) == multiset(b) ==> sortedA == sortedB
  {
    PreferenceOrder();
    if DistinctKeys(a) && multiset(a) == multiset(b) {
      forall p, q | p in sortedA && q in sortedA && PreferenceLe(p, q) && PreferenceLe(q, p)
        ensures p == q
      {
        PreferenceTie(p, q);
        assert p in multiset(sortedA) && q in multiset(sortedA);
        assert p in a && q in a;
      }
      SortedArrangementIsUnique(PreferenceLe, sortedA, sortedB);
    }
  }

  /** Exchanges the elements at two positions. */
  function Swap<T>(s: seq<T>, i: nat, j: nat): seq<T>
    requires i < |s| && j < |s|
  {
    s[i := s[j]][j := s[i]]
  }

  lemma SwapTied(s: seq<Preference>, i: nat, j: nat)
    requires Sorted(PreferenceLe, s) && i < j < |s| && SameKey(s[i], s[j])
    ensures Arrangement(PreferenceLe, s, Swap(s, i, j))
  {
    PreferenceOrder();
    var t := Swap(s, i, j);
    assert forall k :: 0 <= k < |s| ==> SameKey(s[k], t[k]);
  }

  /** The comparison is reliable for a list exactly when its keys are distinct: otherwise the sort
      may arrange one and the same list in two different ways. */
  lemma PreferenceSortIsDeterminedExactly(a: seq<Preference>)
    ensures DistinctKeys(a) <==>
            forall s, t :: Arrangement(PreferenceLe, a, s) && Arrangement(PreferenceLe, a, t) ==> s == t
  {
    PreferenceOrder();
    if DistinctKeys(a) {
      forall s, t | Arrangement(PreferenceLe, a, s) && Arrangement(PreferenceLe, a, t)
        ensures s == t
      {
        SortedPreferencesWithDistinctKeys(a, a, s, t);
      }
    } else {
      TwoArrangements(a);
    }
  }

  lemma TiedAtTwoPositions(s: seq<Preference>, p: Preference, q: Preference) returns (lo: nat, hi: nat)
    requires p in multiset(s) && q in multiset(s) && p != q
    ensures lo < hi < |s| && ((s[lo] == p && s[hi] == q) || (s[lo] == q && s[hi] == p))
  {
    var i :| 0 <= i < |s| && s[i] == p;
    var j :| 0 <= j < |s| && s[j] == q;
    lo, hi := if i < j then i else j, if i < j then j else i;
  }

  lemma TwoArrangements(a: seq<Preference>)
    requires !DistinctKeys(a)
    ensures exists s, t :: Arrangement(PreferenceLe, a, s) && Arrangement(PreferenceLe, a, t) && s != t
  {
    PreferenceOrder();
    var p, q :| p in a && q in a && SameKey(p, q) && p != q;
    var s := Sort(PreferenceLe, a);
    SortSorts(PreferenceLe, a);
    assert p in multiset(a) && q in multiset(a);
    var lo, hi := TiedAtTwoPositions(s, p, q);
    SwapTied(s, lo, hi);
    var t := Swap(s, lo, hi);
    assert t[lo] != s[lo];
    assert Arrangement(PreferenceLe, a, s) && Arrangement(PreferenceLe, a, t);
  }
}
