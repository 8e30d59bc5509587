/** JSON values as Go decodes them into `any`: objects are maps, so member order is forgotten. */
module Json {
  datatype Json =
    | Null
    | Bool(b: bool)
    | Number(n: int)
    | Text(s: string)
    | Array(items: seq<Json>)
    | Object(fields: map<string, Json>)

  // ---------- what can be observed at a path ----------

  datatype Step = Key(k: string) | Index(i: nat)

  /** Scalars are observed whole; containers only by their kind, an array with its length. */
  datatype View = Missing | Scalar(v: Json) | ObjectHere | ArrayHere(length: nat)

  function At(v: Json, path: seq<Step>): View
    decreases |path|
  {
    if path == [] then
      match v
      case Object(_) => ObjectHere
      case Array(items) => ArrayHere(|items|)
      case _ => Scalar(v)
    else
      match (v, path[0])
      case (Object(fields), Key(k)) => if k in fields then At(fields[k], path[1..]) else Missing
      case (Array(items), Index(i)) => if i < |items| then At(items[i], path[1..]) else Missing
      case _ => Missing
  }

  ghost predicate SameViews(a: Json, b: Json) { forall p :: At(a, p) == At(b, p) }

  lemma FieldViews(a: Json, b: Json, k: string)
    requires a.Object? && b.Object? && SameViews(a, b) && k in a.fields && k in b.fields
    ensures SameViews(a.fields[k], b.fields[k])
  {
    forall p: seq<Step>
      ensures At(a.fields[k], p) == At(b.fields[k], p)
    {
      var q := [Key(k)] + p;
      assert q[1..] == p;
      assert At(a, q) == At(b, q);
    }
  }

  lemma ItemViews(a: Json, b: Json, i: nat)
    requires a.Array? && b.Array? && SameViews(a, b) && i < |a.items| && i < |b.items|
    ensures SameViews(a.items[i], b.items[i])
  {
    forall p: seq<Step>
      ensures At(a.items[i], p) == At(b.items[i], p)
    {
      var q := [Index(i)] + p;
      assert q[1..] == p;
      assert At(a, q) == At(b, q);
    }
  }

  /** Whether a member exists shows at the path of its key. */
  lemma SameKeys(a: Json, b: Json, k: string)
    requires a.Object? && b.Object? && SameViews(a, b)
    ensures k in a.fields <==> k in b.fields
  {
    var p := [Key(k)];
    assert p[1..] == [];
    assert At(a, p) == if k in a.fields then At(a.fields[k], []) else Missing;
    assert At(b, p) == if k in b.fields then At(b.fields[k], []) else Missing;
    assert At(a, p) == At(b, p);
  }

  lemma SameKind(a: Json, b: Json)
    requires SameViews(a, b)
    ensures a.Object? <==> b.Object?
    ensures a.Array? <==> b.Array?
    ensures a.Array? ==> |a.items| == |b.items|
    ensures !a.Object? && !a.Array? ==> a == b
  {
    assert At(a, []) == At(b, []);
  }

  /** A JSON value is determined by what is observed at its paths. */
  lemma {:induction false} ViewsDetermineValue(a: Json, b: Json)
    requires SameViews(a, b)
    ensures a == b
    decreases a
  {
    SameKind(a, b);
    match a
    case Object(fields) =>
      forall k: string ensures k in fields <==> k in b.fields { SameKeys(a, b, k); }
      forall k | k in fields ensures fields[k] == b.fields[k] {
        FieldViews(a, b, k);
        ViewsDetermineValue(fields[k], b.fields[k]);
      }
      assert fields == b.fields;
    case Array(items) =>
      forall i | 0 <= i < |items|
        ensures items[i] == b.items[i]
      {
        ItemViews(a, b, i);
        ViewsDetermineValue(items[i], b.items[i]);
      }
    case _ =>
  }
}
