/** The strict reader of wire records: one JSON value, no duplicate member names, bounded depth. */
module StrictWire {
  import opened Wrappers

  const MAX_DEPTH := 64

  /** What the decoder hands out. `Fault` is a place where it reports a syntax error instead. */
  datatype Token = BeginObject | EndObject | BeginArray | EndArray | Text(s: string) | Literal(v: string) | Fault

  /** The decoded value, as the schema validator sees it. */
  datatype Value =
    | TextValue(s: string) | LiteralValue(v: string) | ObjectValue(fields: map<string, Value>)
    | ArrayValue(items: seq<Value>)

  /** A document keeps what a decoded value forgets: the order and the repetition of members. */
  datatype Document =
    | TextNode(s: string) | LiteralNode(v: string) | ObjectNode(members: seq<Member>)
    | ArrayNode(items: seq<Document>)
  datatype Member = Member(name: string, value: Document)

  // ---------- printing and meaning ----------

  function Print(d: Document): (ts: seq<Token>)
    ensures |ts| > 0
    decreases d
  {
    match d
    case TextNode(s) => [Text(s)]
    case LiteralNode(v) => [Literal(v)]
    case ObjectNode(ms) => [BeginObject] + PrintMembers(ms) + [EndObject]
    case ArrayNode(ds) => [BeginArray] + PrintItems(ds) + [EndArray]
  }

  function PrintMembers(ms: seq<Member>): seq<Token>
    decreases ms
  {
    if ms == [] then [] else [Text(ms[0].name)] + Print(ms[0].value) + PrintMembers(ms[1..])
  }

  function PrintItems(ds: seq<Document>): seq<Token>
    decreases ds
  {
    if ds == [] then [] else Print(ds[0]) + PrintItems(ds[1..])
  }

  function Meaning(d: Document): Value
    decreases d
  {
    match d
    case TextNode(s) => TextValue(s)
    case LiteralNode(v) => LiteralValue(v)
    case ObjectNode(ms) => ObjectValue(MeaningOfMembers(ms, map[]))
    case ArrayNode(ds) => ArrayValue(MeaningOfItems(ds))
  }

  function MeaningOfMembers(ms: seq<Member>, sofar: map<string, Value>): map<string, Value>
    decreases ms
  {
    if ms == [] then sofar else MeaningOfMembers(ms[1..], sofar[ms[0].name := Meaning(ms[0].value)])
  }

  function MeaningOfItems(ds: seq<Document>): (vs: seq<Value>)
    ensures |vs| == |ds|
    decreases ds
  {
    if ds == [] then [] else [Meaning(ds[0])] + MeaningOfItems(ds[1..])
  }

  /** Every node lies at most `room` levels below this one, and no object repeats a name. */
  predicate Strict(d: Document, room: int)
    decreases d
  {
    && room >= 0
    && match d
       case ObjectNode(ms) => StrictMembers(ms, room - 1, {})
       case ArrayNode(ds) => StrictItems(ds, room - 1)
       case _ => true
  }

  predicate StrictMembers(ms: seq<Member>, room: int, seen: set<string>)
    decreases ms
  {
    ms == [] || (ms[0].name !in seen && Strict(ms[0].value, room) && StrictMembers(ms[1..], room, seen + {ms[0].name}))
  }

  predicate StrictItems(ds: seq<Document>, room: int)
    decreases ds
  {
    ds == [] || (Strict(ds[0], room) && StrictItems(ds[1..], room))
  }

  // ---------- reading, as a function ----------

  datatype Read<+T> = Rejected | Accepted(value: T, rest: seq<Token>)

  function ReadValue(ts: seq<Token>, room: int): (r: Read<Document>)
    ensures r.Accepted? ==> |r.rest| < |ts|
    decreases |ts|, 0
  {
    if room < 0 || ts == [] then Rejected
    else match ts[0]
      case Text(s) => Accepted(TextNode(s), ts[1..])
      case Literal(v) => Accepted(LiteralNode(v), ts[1..])
      case BeginObject =>
        var r := ReadMembers(ts[1..], room - 1, {});
        if r.Rejected? then Rejected else Accepted(ObjectNode(r.value), r.rest)
      case BeginArray =>
        var r := ReadItems(ts[1..], room - 1);
        if r.Rejected? then Rejected else Accepted(ArrayNode(r.value), r.rest)
      case _ => Rejected
  }

  function ReadMembers(ts: seq<Token>, room: int, seen: set<string>): (r: Read<seq<Member>>)
    ensures r.Accepted? ==> |r.rest| < |ts|
    decreases |ts|, 1
  {
    if ts == [] then Rejected
    else if ts[0] == EndObject then Accepted([], ts[1..])
    else if !ts[0].Text? || ts[0].s in seen then Rejected
    else
      var v := ReadValue(ts[1..], room);
      if v.Rejected? then Rejected
      else
        var r := ReadMembers(v.rest, room, seen + {ts[0].s});
        if r.Rejected? then Rejected else Accepted([Member(ts[0].s, v.value)] + r.value, r.rest)
  }

  function ReadItems(ts: seq<Token>, room: int): (r: Read<seq<Document>>)
    ensures r.Accepted? ==> |r.rest| < |ts|
    decreases |ts|, 1
  {
    if ts == [] then Rejected
    else if ts[0] == EndArray then Accepted([], ts[1..])
    else
      var v := ReadValue(ts, room);
      if v.Rejected? then Rejected
      else
        var r := ReadItems(v.rest, room);
        if r.Rejected? then Rejected else Accepted([v.value] + r.value, r.rest)
  }

  // ---------- reading undoes printing, and only reads what was printed ----------

  lemma {:induction false} ReadPrinted(d: Document, rest: seq<Token>, room: int)
    ensures ReadValue(Print(d) + rest, room) == if Strict(d, room) then Accepted(d, rest) else Rejected
    decreases d
  {
    var ts := Print(d) + rest;
    if room >= 0 {
      match d
      case ObjectNode(ms) =>
        assert ts[1..] == PrintMembers(ms) + ([EndObject] + rest);
        ReadPrintedMembers(ms, rest, room - 1, {});
      case ArrayNode(ds) =>
        assert ts[1..] == PrintItems(ds) + ([EndArray] + rest);
        ReadPrintedItems(ds, rest, room - 1);
      case _ => assert ts[1..] == rest;
    }
  }

  lemma {:induction false} ReadPrintedMembers(ms: seq<Member>, rest: seq<Token>, room: int, seen: set<string>)
    ensures ReadMembers(PrintMembers(ms) + ([EndObject] + rest), room, seen)
            == if StrictMembers(ms, room, seen) then Accepted(ms, rest) else Rejected
    decreases ms
  {
    var ts := PrintMembers(ms) + ([EndObject] + rest);
    if ms == [] {
      assert ts[1..] == rest;
    } else {
      var more := PrintMembers(ms[1..]) + ([EndObject] + rest);
      assert ts[1..] == Print(ms[0].value) + more;
      ReadPrinted(ms[0].value, more, room);
      ReadPrintedMembers(ms[1..], rest, room, seen + {ms[0].name});
      assert [Member(ms[0].name, ms[0].value)] + ms[1..] == ms;
    }
  }

  lemma PrintStart(d: Document)
    ensures Print(d)[0] != EndArray && Print(d)[0] != EndObject
  {
  }

  lemma {:induction false} ReadPrintedItems(ds: seq<Document>, rest: seq<Token>, room: int)
    ensures ReadItems(PrintItems(ds) + ([EndArray] + rest), room)
            == if StrictItems(ds, room) then Accepted(ds, rest) else Rejected
    decreases ds
  {
    var ts := PrintItems(ds) + ([EndArray] + rest);
    if ds == [] {
      assert ts[1..] == rest;
    } else {
      var more := PrintItems(ds[1..]) + ([EndArray] + rest);
      assert ts == Print(ds[0]) + more;
      PrintStart(ds[0]);
      ReadPrinted(ds[0], more, room);
      ReadPrintedItems(ds[1..], rest, room);
      assert [ds[0]] + ds[1..] == ds;
    }
  }

  lemma PrintObject(ms: seq<Member>, rest: seq<Token>)
    ensures Print(ObjectNode(ms)) + rest == [BeginObject] + (PrintMembers(ms) + [EndObject] + rest)
  {
  }

  lemma PrintArray(ds: seq<Document>, rest: seq<Token>)
    ensures Print(ArrayNode(ds)) + rest == [BeginArray] + (PrintItems(ds) + [EndArray] + rest)
  {
  }

  lemma {:induction false} AcceptedIsPrinted(ts: seq<Token>, room: int)
    requires ReadValue(ts, room).Accepted?
    ensures var r := ReadValue(ts, room); ts == Print(r.value) + r.rest
    decreases |ts|, 0
  {
    assert ts == [ts[0]] + ts[1..];
    match ts[0]
    case BeginObject =>
      AcceptedMembersArePrinted(ts[1..], room - 1, {});
      var r := ReadMembers(ts[1..], room - 1, {});
      PrintObject(r.value, r.rest);
    case BeginArray =>
      AcceptedItemsArePrinted(ts[1..], room - 1);
      var r := ReadItems(ts[1..], room - 1);
      PrintArray(r.value, r.rest);
    case _ =>
  }

  lemma {:induction false} AcceptedMembersArePrinted(ts: seq<Token>, room: int, seen: set<string>)
    requires ReadMembers(ts, room, seen).Accepted?
    ensures var r := ReadMembers(ts, room, seen); ts == PrintMembers(r.value) + [EndObject] + r.rest
    decreases |ts|, 1
  {
    var r := ReadMembers(ts, room, seen);
    if ts[0] != EndObject {
      var v := ReadValue(ts[1..], room);
      AcceptedIsPrinted(ts[1..], room);
      AcceptedMembersArePrinted(v.rest, room, seen + {ts[0].s});
      var tail := ReadMembers(v.rest, room, seen + {ts[0].s});
      assert ts == [ts[0]] + ts[1..];
      PrintOneMore(Member(ts[0].s, v.value), tail.value, tail.rest);
    }
  }

  lemma PrintOneMore(m: Member, ms: seq<Member>, rest: seq<Token>)
    ensures PrintMembers([m] + ms) + [EndObject] + rest
            == [Text(m.name)] + (Print(m.value) + (PrintMembers(ms) + [EndObject] + rest))
  {
    assert ([m] + ms)[1..] == ms;
  }

  lemma {:induction false} AcceptedItemsArePrinted(ts: seq<Token>, room: int)
    requires ReadItems(ts, room).Accepted?
    ensures var r := ReadItems(ts, room); ts == PrintItems(r.value) + [EndArray] + r.rest
    decreases |ts|, 1
  {
    var r := ReadItems(ts, room);
    if ts[0] != EndArray {
      var v := ReadValue(ts, room);
      AcceptedIsPrinted(ts, room);
      AcceptedItemsArePrinted(v.rest, room);
      assert r.value[1..] == ReadItems(v.rest, room).value;
    }
  }

  /** A token stream is accepted exactly when it starts with the printed form of a strict
      document; that document and what is left over are then unique. */
  lemma AcceptedExactly(ts: seq<Token>, room: int, d: Document, rest: seq<Token>)
    ensures ReadValue(ts, room) == Accepted(d, rest) <==> ts == Print(d) + rest && Strict(d, room)
  {
    if ReadValue(ts, room) == Accepted(d, rest) {
      AcceptedIsPrinted(ts, room);
    }
    ReadPrinted(d, rest, room);
  }

  /** Printing is injective, and no printed document is a proper prefix of another. */
  lemma PrintIsUniquelyReadable(d: Document, e: Document, rest: seq<Token>, more: seq<Token>, room: int)
    requires Strict(d, room) && Print(d) + rest == Print(e) + more
    ensures d == e && rest == more
  {
    ReadPrinted(d, rest, room);
    ReadPrinted(e, more, room);
  }

  // ---------- what one turn of the reading loops leaves to read ----------

  /** Both reads end alike, with what each has collected before. */
  predicate SameMembers(now: Read<seq<Member>>, fields: map<string, Value>, whole: Read<seq<Member>>,
                        start: map<string, Value>)
  {
    && (now.Accepted? <==> whole.Accepted?)
    && (now.Accepted? ==>
        now.rest == whole.rest && MeaningOfMembers(now.value, fields) == MeaningOfMembers(whole.value, start))
  }

  predicate SameItems(now: Read<seq<Document>>, values: seq<Value>, whole: Read<seq<Document>>, start: seq<Value>)
  {
    && (now.Accepted? <==> whole.Accepted?)
    && (now.Accepted? ==>
        now.rest == whole.rest && values + MeaningOfItems(now.value) == start + MeaningOfItems(whole.value))
  }

  lemma MembersStep(ts: seq<Token>, room: int, fields: map<string, Value>)
    requires ts != [] && ts[0].Text? && ts[0].s !in fields
    ensures ReadValue(ts[1..], room).Rejected? ==> ReadMembers(ts, room, fields.Keys).Rejected?
    ensures ReadValue(ts[1..], room).Accepted? ==>
      var v := ReadValue(ts[1..], room);
      var more := fields[ts[0].s := Meaning(v.value)];
      SameMembers(ReadMembers(v.rest, room, more.Keys), more, ReadMembers(ts, room, fields.Keys), fields)
  {
    var v := ReadValue(ts[1..], room);
    if v.Accepted? {
      var name, m := ts[0].s, Member(ts[0].s, v.value);
      assert fields[name := Meaning(v.value)].Keys == fields.Keys + {name};
      var tail := ReadMembers(v.rest, room, fields.Keys + {name});
      if tail.Accepted? { assert ([m] + tail.value)[1..] == tail.value; }
    }
  }

  lemma ItemsStep(ts: seq<Token>, room: int, values: seq<Value>)
    requires ts != [] && ts[0] != EndArray
    ensures ReadValue(ts, room).Rejected? ==> ReadItems(ts, room).Rejected?
    ensures ReadValue(ts, room).Accepted? ==>
      var v := ReadValue(ts, room);
      SameItems(ReadItems(v.rest, room), values + [Meaning(v.value)], ReadItems(ts, room), values)
  {
    var v := ReadValue(ts, room);
    if v.Accepted? {
      var tail := ReadItems(v.rest, room);
      if tail.Accepted? {
        assert ([v.value] + tail.value)[1..] == tail.value;
        assert values + ([Meaning(v.value)] + MeaningOfItems(tail.value))
               == values + [Meaning(v.value)] + MeaningOfItems(tail.value);
      }
    }
  }

  // ---------- the imperative reader ----------

  class Decoder {
    const tokens: seq<Token>
    var at: nat

    ghost predicate Valid() reads this { at <= |tokens| }

    ghost function Remaining(): seq<Token>
      reads this
      requires Valid()
    {
      tokens[at..]
    }

    constructor (ts: seq<Token>)
      ensures Valid() && tokens == ts && at == 0
    {
      tokens, at := ts, 0;
    }

    /** Is there a further member or element before the closing delimiter? */
    predicate More()
      reads this
      requires Valid()
    {
      at < |tokens| && tokens[at] != EndObject && tokens[at] != EndArray
    }

    method Next() returns (t: Option<Token>)
      requires Valid()
      modifies this
      ensures Valid()
      ensures t.None? <==> old(Remaining()) == [] || old(Remaining())[0] == Fault
      ensures t.None? ==> at == old(at)
      ensures t.Some? ==> at == old(at) + 1 && t.value == tokens[old(at)]
    {
      if at == |tokens| || tokens[at] == Fault { return None; }
      t := Some(tokens[at]);
      at := at + 1;
    }

    method StrictWireValue(depth: nat) returns (v: Option<Value>)
      requires Valid()
      modifies this
      ensures Valid() && at >= old(at)
      ensures var r := ReadValue(old(Remaining()), MAX_DEPTH - depth);
              && (v.Some? <==> r.Accepted?)
              && (r.Accepted? ==> v.value == Meaning(r.value) && Remaining() == r.rest)
      decreases |tokens| - at, 0
    {
      if depth > MAX_DEPTH { return None; }
      var token := Next();
      if token.None? { return None; }
      match token.value
      case Text(s) => return Some(TextValue(s));
      case Literal(l) => return Some(LiteralValue(l));
      case BeginObject => v := ReadObject(depth);
      case BeginArray => v := ReadArray(depth);
      case _ => return None;
    }

    method ReadObject(depth: nat) returns (v: Option<Value>)
      requires Valid() && depth <= MAX_DEPTH
      modifies this
      ensures Valid() && at >= old(at)
      ensures var r := ReadMembers(old(Remaining()), MAX_DEPTH - depth - 1, {});
              && (v.Some? <==> r.Accepted?)
              && (r.Accepted? ==> v.value == ObjectValue(MeaningOfMembers(r.value, map[])) && Remaining() == r.rest)
      decreases |tokens| - at, 1
    {
      ghost var room := MAX_DEPTH - depth - 1;
      ghost var whole := ReadMembers(Remaining(), room, {});
      var fields: map<string, Value> := map[];
      assert fields.Keys == {};
      while More()
        invariant Valid() && at >= old(at)
        invariant SameMembers(ReadMembers(Remaining(), room, fields.Keys), fields, whole, map[])
        decreases |tokens| - at
      {
        ghost var here := Remaining();
        var key := Next();
        if key.None? || !key.value.Text? { return None; }
        assert Remaining() == here[1..];
        if key.value.s in fields { return None; }
        var value := StrictWireValue(depth + 1);
        MembersStep(here, room, fields);
        if value.None? { return None; }
        fields := fields[key.value.s := value.value];
      }
      var closing := Next();
      if closing != Some(EndObject) { return None; }
      return Some(ObjectValue(fields));
    }

    method ReadArray(depth: nat) returns (v: Option<Value>)
      requires Valid() && depth <= MAX_DEPTH
      modifies this
      ensures Valid() && at >= old(at)
      ensures var r := ReadItems(old(Remaining()), MAX_DEPTH - depth - 1);
              && (v.Some? <==> r.Accepted?)
              && (r.Accepted? ==> v.value == ArrayValue(MeaningOfItems(r.value)) && Remaining() == r.rest)
      decreases |tokens| - at, 1
    {
      ghost var room := MAX_DEPTH - depth - 1;
      ghost var whole := ReadItems(Remaining(), room);
      var values: seq<Value> := [];
      while More()
        invariant Valid() && at >= old(at)
        invariant SameItems(ReadItems(Remaining(), room), values, whole, [])
        decreases |tokens| - at
      {
        ghost var here := Remaining();
        var value := StrictWireValue(depth + 1);
        ItemsStep(here, room, values);
        if value.None? { return None; }
        values := values + [value.value];
      }
      ghost var last := Remaining();
      assert last != [] && last[0] != EndArray ==> ReadValue(last, room).Rejected?;
      assert values + [] == values;
      assert whole.Accepted? ==> [] + MeaningOfItems(whole.value) == MeaningOfItems(whole.value);
      var closing := Next();
      if closing != Some(EndArray) { return None; }
      return Some(ArrayValue(values));
    }
  }

  /** The single-value check: the whole input is one strict document at depth 0, nothing after it. */
  method ReadSingle(ts: seq<Token>) returns (v: Option<Value>)
    ensures v.Some? <==> exists d :: ts == Print(d) && Strict(d, 64)
    ensures v.Some? ==> forall d :: ts == Print(d) ==> v.value == Meaning(d)
  {
    var decoder := new Decoder(ts);
    assert ts[0..] == ts;
    v := decoder.StrictWireValue(0);
    ghost var r := ReadValue(ts, MAX_DEPTH);
    forall d | ts == Print(d)
      ensures r == if Strict(d, MAX_DEPTH) then Accepted(d, []) else Rejected
    {
      assert Print(d) + [] == ts;
      ReadPrinted(d, [], MAX_DEPTH);
    }
    if v.Some? {
      AcceptedIsPrinted(ts, MAX_DEPTH);
      if decoder.at < |ts| { v := None; }
      else {
        assert r.rest == [];
        assert ts == Print(r.value);
        AcceptedExactly(ts, MAX_DEPTH, r.value, []);
        assert ts == Print(r.value) + [];
      }
    }
  }
}
