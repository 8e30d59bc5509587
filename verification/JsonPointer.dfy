/** JSON Pointer resolution in packaged schemas (sections 3 and 4 of RFC 6901), and the check
    that every schema reference resolves. */
module JsonPointer {
  import opened Wrappers
  import opened Json
  import T = Text

  // ---------- escaping ----------

  /** strings.ReplaceAll of a two-character text by one character. */
  function ReplaceAll(s: string, a: char, b: char, replacement: char): string
  {
    if s == "" then ""
    else if |s| >= 2 && s[0] == a && s[1] == b then [replacement] + ReplaceAll(s[2..], a, b, replacement)
    else [s[0]] + ReplaceAll(s[1..], a, b, replacement)
  }

  /** The two passes of the source: first `~1`, then `~0`. */
  function TwoPass(s: string): string { ReplaceAll(ReplaceAll(s, '~', '1', '/'), '~', '0', '~') }

  /** One pass from left to right; a lone `~` stands for itself. */
  function Decode(s: string): string
  {
    if s == "" then ""
    else if |s| >= 2 && s[0] == '~' && s[1] == '1' then "/" + Decode(s[2..])
    else if |s| >= 2 && s[0] == '~' && s[1] == '0' then "~" + Decode(s[2..])
    else [s[0]] + Decode(s[1..])
  }

  function Escape(token: string): string
  {
    if token == "" then ""
    else (if token[0] == '~' then "~0" else if token[0] == '/' then "~1" else [token[0]]) + Escape(token[1..])
  }

  /** The order of the two passes is the right one: on every string they do what one pass does. */
  lemma {:induction false} TwoPassesDecode(s: string)
    ensures TwoPass(s) == Decode(s)
    decreases |s|
  {
    if s == "" {
    } else if |s| >= 2 && s[0] == '~' && s[1] == '1' {
      TwoPassesDecode(s[2..]);
      var rest := ReplaceAll(s[2..], '~', '1', '/');
      assert (['/'] + rest)[1..] == rest;
    } else if |s| >= 2 && s[0] == '~' && s[1] == '0' {
      TwoPassesDecode(s[2..]);
      var rest := ReplaceAll(s[2..], '~', '1', '/');
      assert s[1..][1..] == s[2..];
      assert ReplaceAll(s[1..], '~', '1', '/') == ['0'] + rest;
      assert (['~'] + (['0'] + rest))[2..] == rest;
    } else {
      TwoPassesDecode(s[1..]);
      var rest := ReplaceAll(s[1..], '~', '1', '/');
      assert ([s[0]] + rest)[1..] == rest;
    }
  }

  lemma {:induction false} DecodeEscape(token: string)
    ensures Decode(Escape(token)) == token
    ensures '/' !in Escape(token)
  {
    if token != "" {
      DecodeEscape(token[1..]);
      var s, rest := Escape(token), Escape(token[1..]);
      if token[0] == '~' || token[0] == '/' { assert s[2..] == rest; } else { assert s[1..] == rest; }
    }
  }

  // ---------- array indices ----------

  const MAX_INT := 0x7FFF_FFFF_FFFF_FFFF

  /** strconv.Atoi: an optional sign and digits, within the range of int. */
  function Atoi(s: string): Option<int>
  {
    var negative := s != "" && s[0] == '-';
    var digits := if s != "" && (s[0] == '-' || s[0] == '+') then s[1..] else s;
    if !T.Digits(digits) then None
    else
      var magnitude: int := T.Value(digits);
      var v := if negative then -magnitude else magnitude;
      if -MAX_INT - 1 <= v <= MAX_INT then Some(v) else None
  }

  /** strconv.Itoa. */
  function Itoa(i: int): string { if i < 0 then "-" + T.Decimal(-i) else T.Decimal(i) }

  predicate IndexAccepted(part: string, length: nat)
  {
    var index := Atoi(part);
    index.Some? && 0 <= index.value < length && Itoa(index.value) == part
  }

  /** Signs, leading zeros and out-of-range numbers are refused: an index is accepted exactly when
      it is the canonical decimal form of a position. */
  lemma IndexAcceptedExactly(part: string, length: nat)
    requires length <= MAX_INT
    ensures IndexAccepted(part, length) <==> T.Canonical(part) && T.Value(part) < length
    ensures IndexAccepted(part, length) <==> exists i: nat :: i < length && part == T.Decimal(i)
    ensures IndexAccepted(part, length) ==> Atoi(part).value == T.Value(part)
  {
    var index := Atoi(part);
    if T.Canonical(part) && T.Value(part) < length {
      T.DecimalOfValue(part);
    }
    if IndexAccepted(part, length) {
      T.ValueOfDecimal(index.value);
    }
    if i: nat :| i < length && part == T.Decimal(i) { T.ValueOfDecimal(i); }
  }

  // ---------- resolution ----------

  /** Arrays are slices, so their lengths are ints. */
  predicate Sized(v: Json)
    decreases v
  {
    match v
    case Array(items) => |items| <= MAX_INT && forall i :: 0 <= i < |items| ==> Sized(items[i])
    case Object(fields) => forall k :: k in fields ==> Sized(fields[k])
    case _ => true
  }

  /** The reference tokens lead from `node` to a value (section 4 of RFC 6901). */
  predicate Walks(node: Json, tokens: seq<string>)
    decreases |tokens|
  {
    tokens == [] ||
    match node
    case Object(fields) => tokens[0] in fields && Walks(fields[tokens[0]], tokens[1..])
    case Array(items) =>
      T.Canonical(tokens[0]) && T.Value(tokens[0]) < |items| && Walks(items[T.Value(tokens[0])], tokens[1..])
    case _ => false
  }

  function DecodeAll(parts: seq<string>): (ts: seq<string>)
    ensures |ts| == |parts|
  {
    seq(|parts|, i requires 0 <= i < |parts| => Decode(parts[i]))
  }

  /** The reference tokens of a pointer that is not empty and starts with a slash. */
  function Tokens(pointer: string): seq<string>
    requires pointer != ""
  {
    DecodeAll(T.Split(pointer[1..], '/'))
  }

  predicate Resolves(node: Json, pointer: string)
  {
    pointer == "" || (pointer[0] == '/' && Walks(node, Tokens(pointer)))
  }

  method JsonPointerExists(root: Json, pointer: string) returns (found: bool)
    requires Sized(root)
    ensures found == Resolves(root, pointer)
  {
    if pointer == "" { return true; }
    if !("/" <= pointer) { return false; }
    var parts := T.Split(pointer[1..], '/');
    ghost var tokens := Tokens(pointer);
    var node := root;
    for i := 0 to |parts|
      invariant Sized(node)
      invariant Walks(root, tokens) <==> Walks(node, tokens[i..])
    {
      assert tokens[i..][1..] == tokens[i + 1..];
      TwoPassesDecode(parts[i]);
      var part := TwoPass(parts[i]);
      match node
      case Object(fields) =>
        if part !in fields { return false; }
        node := fields[part];
      case Array(items) =>
        IndexAcceptedExactly(part, |items|);
        var index := Atoi(part);
        if index.None? || index.value < 0 || index.value >= |items| || Itoa(index.value) != part { return false; }
        node := items[index.value];
      case _ => return false;
    }
    return true;
  }

  /** Section 3 of RFC 6901: each token escaped and prefixed by a slash. */
  function Pointer(tokens: seq<string>): string
  {
    if tokens == [] then "" else "/" + T.Join(EscapeAll(tokens), '/')
  }

  function EscapeAll(tokens: seq<string>): (ps: seq<string>)
    ensures |ps| == |tokens|
  {
    seq(|tokens|, i requires 0 <= i < |tokens| => Escape(tokens[i]))
  }

  /** Parsing undoes printing, for every list of tokens. */
  lemma TokensOfPointer(tokens: seq<string>)
    requires tokens != []
    ensures Pointer(tokens) != "" && Tokens(Pointer(tokens)) == tokens
  {
    var parts := EscapeAll(tokens);
    forall i | 0 <= i < |tokens|
      ensures '/' !in parts[i] && Decode(parts[i]) == tokens[i]
    {
      DecodeEscape(tokens[i]);
    }
    T.SplitJoin(parts, '/');
    assert Pointer(tokens)[1..] == T.Join(parts, '/');
  }

  /** A printed pointer resolves exactly when its tokens walk to a value. */
  lemma PrintedPointerResolves(node: Json, tokens: seq<string>)
    ensures Resolves(node, Pointer(tokens)) <==> Walks(node, tokens)
  {
    if tokens != [] { TokensOfPointer(tokens); }
  }

  // ---------- schema references ----------

  /** `resolve` stands for URL resolution against the base: a document identifier and a fragment. */
  datatype Reference = Reference(document: string, fragment: string)

  predicate NodeOk(base: string, node: Json, documents: map<string, Json>,
                   resolve: (string, string) -> Option<Reference>)
  {
    node.Object? ==>
      && ("$id" in node.fields ==> node.fields["$id"] == Text(base))
      && ("$ref" in node.fields ==>
            && node.fields["$ref"].Text?
            && var r := resolve(base, node.fields["$ref"].s);
               r.Some? && r.value.document in documents
               && Resolves(documents[r.value.document], r.value.fragment))
  }

  /** `validateReferences`: the node itself, then everything below it. */
  predicate ValidateReferences(base: string, node: Json, documents: map<string, Json>,
                               resolve: (string, string) -> Option<Reference>)
    decreases node
  {
    && NodeOk(base, node, documents, resolve)
    && match node
       case Object(fields) => forall k :: k in fields ==> ValidateReferences(base, fields[k], documents, resolve)
       case Array(items) => forall i :: 0 <= i < |items| ==> ValidateReferences(base, items[i], documents, resolve)
       case _ => true
  }

  function Below(v: Json, path: seq<Step>): Option<Json>
    decreases |path|
  {
    if path == [] then Some(v)
    else match (v, path[0])
      case (Object(fields), Key(k)) => if k in fields then Below(fields[k], path[1..]) else None
      case (Array(items), Index(i)) => if i < |items| then Below(items[i], path[1..]) else None
      case _ => None
  }

  ghost predicate OkEverywhere(base: string, node: Json, documents: map<string, Json>,
                               resolve: (string, string) -> Option<Reference>)
  {
    && (forall p :: MemberBelow(node, p, "$id").Some? ==> MemberBelow(node, p, "$id").value == Text(base))
    && (forall p :: MemberBelow(node, p, "$ref").Some? ==>
          ResolvableText(base, MemberBelow(node, p, "$ref").value, documents, resolve))
  }

  /** The member of this name of the object at this path, if both are there. */
  function MemberBelow(node: Json, path: seq<Step>, name: string): Option<Json>
  {
    match Below(node, path)
    case Some(Object(fields)) => if name in fields then Some(fields[name]) else None
    case _ => None
  }

  /** A text whose resolution against the base is a known document, with a fragment that it has. */
  ghost predicate ResolvableText(base: string, v: Json, documents: map<string, Json>,
                                 resolve: (string, string) -> Option<Reference>)
  {
    exists text, r ::
      && v == Text(text) && resolve(base, text) == Some(r)
      && r.document in documents && Resolves(documents[r.document], r.fragment)
  }

  lemma NodeOkExactly(base: string, node: Json, documents: map<string, Json>,
                      resolve: (string, string) -> Option<Reference>)
    requires node.Object?
    ensures NodeOk(base, node, documents, resolve) <==>
      && ("$id" in node.fields ==> node.fields["$id"] == Text(base))
      && ("$ref" in node.fields ==> ResolvableText(base, node.fields["$ref"], documents, resolve))
  {
    if "$ref" in node.fields && node.fields["$ref"].Text? {
      var text := node.fields["$ref"].s;
      if resolve(base, text).Some? { assert resolve(base, text) == Some(resolve(base, text).value); }
    }
  }

  ghost predicate EachOk(base: string, node: Json, documents: map<string, Json>,
                         resolve: (string, string) -> Option<Reference>)
  {
    forall p :: Below(node, p).Some? ==> NodeOk(base, Below(node, p).value, documents, resolve)
  }

  /** Looking at every object is looking at every such member. */
  lemma EachOkExactly(base: string, node: Json, documents: map<string, Json>,
                      resolve: (string, string) -> Option<Reference>)
    ensures EachOk(base, node, documents, resolve) <==> OkEverywhere(base, node, documents, resolve)
  {
    forall p: seq<Step> | Below(node, p).Some? && Below(node, p).value.Object?
      ensures NodeOk(base, Below(node, p).value, documents, resolve) <==>
        && (MemberBelow(node, p, "$id").Some? ==> MemberBelow(node, p, "$id").value == Text(base))
        && (MemberBelow(node, p, "$ref").Some? ==>
              ResolvableText(base, MemberBelow(node, p, "$ref").value, documents, resolve))
    {
      NodeOkExactly(base, Below(node, p).value, documents, resolve);
    }
  }

  lemma {:induction false} PassedBelow(base: string, node: Json, documents: map<string, Json>,
                                       resolve: (string, string) -> Option<Reference>, p: seq<Step>)
    requires ValidateReferences(base, node, documents, resolve) && Below(node, p).Some?
    ensures NodeOk(base, Below(node, p).value, documents, resolve)
    decreases |p|
  {
    if p != [] {
      match (node, p[0])
      case (Object(fields), Key(k)) => PassedBelow(base, fields[k], documents, resolve, p[1..]);
      case (Array(items), Index(i)) => PassedBelow(base, items[i], documents, resolve, p[1..]);
    }
  }

  lemma OkBelowChild(base: string, node: Json, documents: map<string, Json>,
                     resolve: (string, string) -> Option<Reference>, step: Step, child: Json)
    requires EachOk(base, node, documents, resolve) && Below(node, [step]) == Some(child)
    ensures EachOk(base, child, documents, resolve)
  {
    forall p: seq<Step> | Below(child, p).Some?
      ensures NodeOk(base, Below(child, p).value, documents, resolve)
    {
      assert ([step] + p)[1..] == p;
      assert Below(node, [step] + p) == Below(child, p);
    }
  }

  lemma {:induction false} PassesWhenOk(base: string, node: Json, documents: map<string, Json>,
                                        resolve: (string, string) -> Option<Reference>)
    requires EachOk(base, node, documents, resolve)
    ensures ValidateReferences(base, node, documents, resolve)
    decreases node
  {
    assert Below(node, []) == Some(node);
    match node
    case Object(fields) =>
      forall k | k in fields
        ensures ValidateReferences(base, fields[k], documents, resolve)
      {
        OkBelowChild(base, node, documents, resolve, Key(k), fields[k]);
        PassesWhenOk(base, fields[k], documents, resolve);
      }
    case Array(items) =>
      forall i | 0 <= i < |items|
        ensures ValidateReferences(base, items[i], documents, resolve)
      {
        OkBelowChild(base, node, documents, resolve, Index(i), items[i]);
        PassesWhenOk(base, items[i], documents, resolve);
      }
    case _ =>
  }

  /** A schema passes exactly when every `$ref` member anywhere in it is a text that resolves to something
      known, and every `$id` member is the document's own. */
  lemma ReferencesCheckedEverywhere(base: string, node: Json, documents: map<string, Json>,
                                    resolve: (string, string) -> Option<Reference>)
    ensures ValidateReferences(base, node, documents, resolve) <==> OkEverywhere(base, node, documents, resolve)
  {
    if ValidateReferences(base, node, documents, resolve) {
      forall p: seq<Step> | Below(node, p).Some?
        ensures NodeOk(base, Below(node, p).value, documents, resolve)
      {
        PassedBelow(base, node, documents, resolve, p);
      }
    }
    EachOkExactly(base, node, documents, resolve);
    if EachOk(base, node, documents, resolve) { PassesWhenOk(base, node, documents, resolve); }
  }
}
