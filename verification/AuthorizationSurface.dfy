/** The authorization surface of a provider impact plan: the plan without evidence text and
    without its own identity, and the consent that may be carried over to an equal surface. */
module AuthorizationSurface {
  import opened Wrappers
  import opened Json

  predicate Metadata(key: string, top: bool)
  {
    key == "evidence" || (top && (key == "plan_id" || key == "revision"))
  }

  function Strip(v: Json, top: bool): Json
    decreases v
  {
    match v
    case Object(fields) => Object(map k | k in fields && !Metadata(k, top) :: Strip(fields[k], false))
    case Array(items) => Array(seq(|items|, i requires 0 <= i < |items| => Strip(items[i], false)))
    case _ => v
  }

  /** A path that crosses no metadata key. */
  predicate Significant(path: seq<Step>, top: bool)
    decreases |path|
  {
    path == [] || (!(path[0].Key? && Metadata(path[0].k, top)) && Significant(path[1..], false))
  }

  /** A path that the surface shows: it crosses no `evidence` key and does not start with the plan's own
      identifier or revision. */
  predicate Shown(path: seq<Step>)
  {
    && (forall i :: 0 <= i < |path| ==> path[i] != Key("evidence"))
    && (path != [] ==> path[0] != Key("plan_id") && path[0] != Key("revision"))
  }

  lemma {:induction false} SignificantInside(path: seq<Step>)
    ensures Significant(path, false) <==> forall i :: 0 <= i < |path| ==> path[i] != Key("evidence")
    decreases |path|
  {
    if path != [] {
      SignificantInside(path[1..]);
      assert forall i :: 0 < i < |path| ==> path[i] == path[1..][i - 1];
    }
  }

  lemma SignificantExactly(path: seq<Step>)
    ensures Significant(path, true) <==> Shown(path)
  {
    if path != [] {
      SignificantInside(path[1..]);
      assert forall i :: 0 < i < |path| ==> path[i] == path[1..][i - 1];
    }
  }

  /** Stripping hides exactly the insignificant paths and shows every other path unchanged. */
  lemma {:induction false} StripViews(v: Json, top: bool, p: seq<Step>)
    ensures At(Strip(v, top), p) == if Significant(p, top) then At(v, p) else Missing
    decreases |p|
  {
    if p != [] {
      match (v, p[0])
      case (Object(fields), Key(k)) =>
        if k in fields && !Metadata(k, top) { StripViews(fields[k], false, p[1..]); }
      case (Array(items), Index(i)) =>
        if i < |items| { StripViews(items[i], false, p[1..]); }
      case _ =>
    }
  }

  lemma {:induction false} StripIsIdempotent(v: Json, top: bool)
    ensures Strip(Strip(v, top), top) == Strip(v, top)
  {
    forall p: seq<Step>
      ensures At(Strip(Strip(v, top), top), p) == At(Strip(v, top), p)
    {
      StripViews(Strip(v, top), top, p);
      StripViews(v, top, p);
    }
    ViewsDetermineValue(Strip(Strip(v, top), top), Strip(v, top));
  }

  predicate SameSurface(left: Json, right: Json) { Strip(left, true) == Strip(right, true) }

  ghost predicate AgreeWhereShown(left: Json, right: Json)
  {
    forall p :: Shown(p) ==> At(left, p) == At(right, p)
  }

  /** Two plans have the same authorization surface exactly when they agree on every path that
      crosses no `evidence` key and does not start with a top-level `plan_id` or `revision`. */
  lemma SameSurfaceExactly(left: Json, right: Json)
    ensures SameSurface(left, right) <==> AgreeWhereShown(left, right)
  {
    if SameSurface(left, right) {
      forall p | Shown(p)
        ensures At(left, p) == At(right, p)
      {
        SignificantExactly(p);
        StripViews(left, true, p);
        StripViews(right, true, p);
      }
    }
    if AgreeWhereShown(left, right) {
      forall p: seq<Step>
        ensures At(Strip(left, true), p) == At(Strip(right, true), p)
      {
        SignificantExactly(p);
        StripViews(left, true, p);
        StripViews(right, true, p);
      }
      ViewsDetermineValue(Strip(left, true), Strip(right, true));
    }
  }

  // ---------- consent ----------

  const IMPACT_VERSION := "baseharbor.provider-impact/v1"

  function TextField(plan: Json, key: string): string
  {
    if plan.Object? && key in plan.fields && plan.fields[key].Text? then plan.fields[key].s else ""
  }

  function NumberField(plan: Json, key: string): int
  {
    if plan.Object? && key in plan.fields && plan.fields[key].Number? then plan.fields[key].n else 0
  }

  function FlagField(plan: Json, key: string): bool
  {
    plan.Object? && key in plan.fields && plan.fields[key] == Bool(true)
  }

  datatype Consent = Consent(planId: string, first: bool, second: bool, deleteData: bool)

  datatype Refusal = InvalidPlan | StaleConsent | ConfirmationRequired | DeletionConsentRequired

  function ValidateConsent(plan: Json, c: Consent): Option<Refusal>
  {
    var confirmations := NumberField(plan, "confirmations_required");
    if TextField(plan, "version") != IMPACT_VERSION || TextField(plan, "plan_id") == ""
       || confirmations < 1 || confirmations > 2 then Some(InvalidPlan)
    else if c.planId != TextField(plan, "plan_id") then Some(StaleConsent)
    else if !c.first || (confirmations == 2 && !c.second) then Some(ConfirmationRequired)
    else if FlagField(plan, "destructive") && !c.deleteData then Some(DeletionConsentRequired)
    else None
  }

  /** The consent the confirmed edit may carry into the authorization of the changed source;
      `current` is the plan freshly computed after the mutation. */
  function ForwardConsent(approved: Json, current: Option<Json>, c: Consent): Result<Consent, Refusal>
  {
    var refusal := ValidateConsent(approved, c);
    if refusal.Some? then Err(refusal.value)
    else if current.None? || !SameSurface(approved, current.value) then Err(StaleConsent)
    else Ok(c.(planId := TextField(current.value, "plan_id")))
  }

  /** A consent is valid for a plan exactly if it names that plan, gives every confirmation the plan asks
      for, and agrees to a deletion if the plan is destructive. */
  predicate Satisfies(plan: Json, c: Consent)
  {
    && Member(plan, "version", Text("baseharbor.provider-impact/v1"))
    && c.planId != "" && Member(plan, "plan_id", Text(c.planId))
    && c.first
    && (Member(plan, "confirmations_required", Number(1))
        || (Member(plan, "confirmations_required", Number(2)) && c.second))
    && (Member(plan, "destructive", Bool(true)) ==> c.deleteData)
  }

  /** The plan shows this value at this key. */
  predicate Member(plan: Json, key: string, v: Json) { At(plan, [Key(key)]) == Scalar(v) }

  lemma MemberIsField(plan: Json, key: string, v: Json)
    requires !v.Object? && !v.Array?
    ensures Member(plan, key, v) <==> plan.Object? && key in plan.fields && plan.fields[key] == v
  {
    assert [Key(key)][1..] == [];
    if plan.Object? && key in plan.fields { assert At(plan, [Key(key)]) == At(plan.fields[key], []); }
  }

  lemma ValidatedExactly(plan: Json, c: Consent)
    ensures ValidateConsent(plan, c).None? <==> Satisfies(plan, c)
  {
    MemberIsField(plan, "version", Text("baseharbor.provider-impact/v1"));
    MemberIsField(plan, "plan_id", Text(c.planId));
    MemberIsField(plan, "confirmations_required", Number(1));
    MemberIsField(plan, "confirmations_required", Number(2));
    MemberIsField(plan, "destructive", Bool(true));
  }

  lemma FieldAgrees(left: Json, right: Json, key: string)
    requires left.Object? && right.Object? && SameSurface(left, right) && key !in {"evidence", "plan_id", "revision"}
    ensures TextField(left, key) == TextField(right, key)
    ensures NumberField(left, key) == NumberField(right, key)
    ensures FlagField(left, key) == FlagField(right, key)
  {
    SameSurfaceExactly(left, right);
    var p := [Key(key)];
    assert p[1..] == [];
    assert Shown(p);
    assert At(left, p) == if key in left.fields then At(left.fields[key], []) else Missing;
    assert At(right, p) == if key in right.fields then At(right.fields[key], []) else Missing;
    assert At(left, p) == At(right, p);
  }

  /** A consent is carried over exactly when it was valid for the approved plan and the current
      plan agrees with it on every significant path; the carried consent then satisfies the
      current plan's own requirements, and differs from the given one in the plan id only. */
  lemma CarriedConsentIsSufficient(approved: Json, current: Json, c: Consent)
    requires approved.Object? && current.Object? && TextField(current, "plan_id") != ""
    ensures var r := ForwardConsent(approved, Some(current), c);
            && (r.Ok? <==> Satisfies(approved, c) && AgreeWhereShown(approved, current))
            && (r.Ok? ==> Satisfies(current, r.value) && r.value == c.(planId := r.value.planId))
  {
    ValidatedExactly(approved, c);
    if SameSurface(approved, current) { ValidatedExactly(current, c.(planId := TextField(current, "plan_id"))); }
    SameSurfaceExactly(approved, current);
    if SameSurface(approved, current) {
      FieldAgrees(approved, current, "version");
      FieldAgrees(approved, current, "confirmations_required");
      FieldAgrees(approved, current, "destructive");
    }
  }

  // ---------- scrubbing the members one by one ----------

  /** One member visited: deleted when it is metadata, stripped otherwise. */
  function ScrubOne(m: map<string, Json>, k: string, top: bool): map<string, Json>
    requires k in m
  {
    if Metadata(k, top) then m - {k} else m[k := Strip(m[k], false)]
  }

  function Scrubbed(was: map<string, Json>, top: bool): map<string, Json>
  {
    map k | k in was && !Metadata(k, top) :: Strip(was[k], false)
  }

  /** What the visits have reached when the keys in `todo` are still to come. */
  predicate Progress(now: map<string, Json>, todo: set<string>, was: map<string, Json>, top: bool)
  {
    && todo <= was.Keys
    && now.Keys == todo + Scrubbed(was, top).Keys
    && (forall k :: k in todo ==> now[k] == was[k])
    && (forall k :: k in Scrubbed(was, top) && k !in todo ==> now[k] == Scrubbed(was, top)[k])
  }

  lemma ProgressBegins(was: map<string, Json>, top: bool)
    ensures Progress(was, was.Keys, was, top)
  {
  }

  lemma ProgressStep(now: map<string, Json>, todo: set<string>, was: map<string, Json>, top: bool, k: string)
    requires Progress(now, todo, was, top) && k in todo
    ensures Progress(ScrubOne(now, k, top), todo - {k}, was, top)
  {
  }

  /** Whatever the order of the visits, they end alike. */
  lemma ProgressEnds(now: map<string, Json>, was: map<string, Json>, top: bool)
    requires Progress(now, {}, was, top)
    ensures now == Scrubbed(was, top)
  {
  }

  // ---------- the scrub, in place ----------

  /** A node of a decoded document. The document is a tree: footprints of children are disjoint. */
  class Node {
    const leaf: Json
    const isObject: bool
    const isArray: bool
    var fields: map<string, Node>
    const items: seq<Node>
    ghost const repr: set<Node>

    constructor Leaf(v: Json)
      requires !v.Object? && !v.Array?
      ensures repr == {this} && fresh(repr) && Valid() && Value() == v
    {
      leaf, isObject, isArray, fields, items := v, false, false, map[], [];
      repr := {this};
    }

    /** An object over these members; everything below them is in `below`. */
    constructor OfFields(fs: map<string, Node>, ghost below: set<Node>)
      requires forall k :: k in fs ==> fs[k].repr <= below && fs[k].Valid()
      requires forall j, k :: j in fs && k in fs && j != k ==> fs[j].repr !! fs[k].repr
      ensures Valid() && Value() == Object(map k | k in fs :: fs[k].Value())
      ensures fresh(repr - below)
    {
      leaf, isObject, isArray, fields, items := Null, true, false, fs, [];
      repr := {this} + below;
    }

    constructor OfItems(ns: seq<Node>, ghost below: set<Node>)
      requires forall i :: 0 <= i < |ns| ==> ns[i].repr <= below && ns[i].Valid()
      requires forall i, j :: 0 <= i < j < |ns| ==> ns[i].repr !! ns[j].repr
      ensures Valid() && Value().Array? && |Value().items| == |ns|
      ensures forall i :: 0 <= i < |ns| ==> Value().items[i] == ns[i].Value()
      ensures fresh(repr - below)
    {
      leaf, isObject, isArray, fields, items := Null, false, true, map[], ns;
      repr := {this} + below;
    }

    ghost predicate Child(n: Node)
      reads this
    {
      n in repr && this !in n.repr && n.repr < repr
    }

    ghost predicate Valid()
      reads repr
      decreases repr
    {
      && this in repr
      && (isObject ==> !isArray && items == [])
      && (!isObject ==> fields == map[])
      && (!isObject && !isArray ==> !leaf.Object? && !leaf.Array? && items == [])
      && (forall k :: k in fields ==> Child(fields[k]) && fields[k].Valid())
      && (forall j, k :: j in fields && k in fields && j != k ==> fields[j].repr !! fields[k].repr)
      && (forall i :: 0 <= i < |items| ==> Child(items[i]) && items[i].Valid())
      && (forall i, j :: 0 <= i < j < |items| ==> items[i].repr !! items[j].repr)
    }

    ghost function Value(): Json
      requires Valid()
      reads repr
      decreases repr
    {
      if isObject then Object(map k | k in fields :: fields[k].Value())
      else if isArray then
        Array(seq(|items|, i requires 0 <= i < |items| reads this, repr requires Valid() => items[i].Value()))
      else leaf
    }

    /** Scrubs this node and everything below it. */
    method Scrub(top: bool)
      requires Valid()
      modifies repr
      ensures Valid() && Value() == Strip(old(Value()), top)
      decreases repr, 3
    {
      if isObject {
        ScrubFields(top);
      } else if isArray {
        ScrubItems(top);
      }
    }

    ghost predicate IsField(k: string, v: Json)
      reads repr
      requires Valid()
    {
      k in fields && fields[k].Value() == v
    }

    /** One member: deleted when it is metadata, scrubbed otherwise; its siblings keep their values. */
    method ScrubMember(k: string, top: bool)
      requires Valid() && isObject && k in fields
      modifies repr
      ensures Valid()
      ensures fields == if Metadata(k, top) then old(fields) - {k} else old(fields)
      ensures !Metadata(k, top) ==> IsField(k, Strip(old(fields[k].Value()), false))
      ensures forall j :: j in old(fields) && j != k ==> IsField(j, old(fields[j].Value()))
      decreases repr, 0
    {
      if Metadata(k, top) {
        fields := fields - {k};
      } else {
        fields[k].Scrub(false);
      }
    }

    ghost function FieldValues(): map<string, Json>
      requires Valid()
      reads repr
    {
      map k | k in fields :: fields[k].Value()
    }

    method VisitMember(k: string, top: bool)
      requires Valid() && isObject && k in fields
      modifies repr
      ensures Valid() && FieldValues() == ScrubOne(old(FieldValues()), k, top)
      decreases repr, 1
    {
      ghost var was := FieldValues();
      ScrubMember(k, top);
      assert fields.Keys == ScrubOne(was, k, top).Keys;
      forall j | j in fields ensures IsField(j, ScrubOne(was, k, top)[j]) {
        if j != k { assert IsField(j, was[j]); }
      }
      FieldsAre(ScrubOne(was, k, top));
    }

    lemma FieldsAre(m: map<string, Json>)
      requires Valid() && fields.Keys == m.Keys
      requires forall k :: k in fields ==> IsField(k, m[k])
      ensures FieldValues() == m
    {
    }

    /** Visits the members in any order. */
    method ScrubFields(top: bool)
      requires Valid() && isObject
      modifies repr
      ensures Valid() && Value() == Object(Scrubbed(old(FieldValues()), top))
      decreases repr, 2
    {
      ghost var was := FieldValues();
      var todo := fields.Keys;
      ProgressBegins(was, top);
      while todo != {}
        invariant Valid() && Progress(FieldValues(), todo, was, top)
      {
        var k :| k in todo;
        ProgressStep(FieldValues(), todo, was, top, k);
        assert k in FieldValues();
        VisitMember(k, top);
        todo := todo - {k};
      }
      ProgressEnds(FieldValues(), was, top);
      assert Value() == Object(FieldValues());
    }

    ghost predicate IsItem(i: nat, v: Json)
      reads repr
      requires Valid()
    {
      i < |items| && items[i].Value() == v
    }

    method ScrubItem(i: nat)
      requires Valid() && isArray && i < |items|
      modifies repr
      ensures Valid()
      ensures IsItem(i, Strip(old(items[i].Value()), false))
      ensures forall j :: 0 <= j < |items| && j != i ==> IsItem(j, old(items[j].Value()))
      decreases repr, 0
    {
      items[i].Scrub(false);
    }

    method ScrubItems(top: bool)
      requires Valid() && isArray
      modifies repr
      ensures Valid() && Value() == Strip(old(Value()), top)
      decreases repr, 1
    {
      ghost var was := seq(|items|, i requires 0 <= i < |items| reads this, repr requires Valid() => items[i].Value());
      for i := 0 to |items|
        invariant Valid()
        invariant forall j :: 0 <= j < i ==> IsItem(j, Strip(was[j], false))
        invariant forall j :: i <= j < |items| ==> IsItem(j, was[j])
      {
        ScrubItem(i);
      }
    }
  }
}
