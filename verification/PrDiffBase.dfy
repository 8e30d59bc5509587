/** The diff base of a pull request: parsing `git diff --name-status -z` and the staged resolution
    that falls back to broad coverage whenever something cannot be proved. */
module PrDiffBase {
  import opened Wrappers
  import T = Text

  const NUL := '\0'

  // ---------- changes ----------

  datatype Change =
    | Moved(renamed: bool, score: Option<nat>, oldPath: string, newPath: string)
    | Touched(status: string, path: string)

  datatype Error = Truncated | EmptyStatus

  predicate MoveStatus(status: string) { status != "" && (status[0] == 'R' || status[0] == 'C') }

  function Score(digits: string): Option<nat> { if T.Digits(digits) then Some(T.Value(digits)) else None }

  /** The status names of one-path records, keyed by the first letter; others keep their text. */
  function StatusName(status: string): string
    requires status != ""
  {
    match status[0]
    case 'A' => "added"
    case 'D' => "deleted"
    case 'M' => "modified"
    case 'T' => "type_changed"
    case 'U' => "unmerged"
    case 'X' => "unknown"
    case 'B' => "broken_pair"
    case _ => status
  }

  // ---------- what git prints ----------

  /** One record of the listing: a rename or copy has two paths, everything else one. */
  datatype Entry = Two(status: string, oldPath: string, newPath: string) | One(status: string, path: string)

  predicate ValidEntry(e: Entry)
  {
    match e
    case Two(status, _, _) => MoveStatus(status)
    case One(status, _) => status != "" && !MoveStatus(status)
  }

  predicate NulFree(e: Entry)
  {
    match e
    case Two(status, a, b) => NUL !in status && NUL !in a && NUL !in b
    case One(status, p) => NUL !in status && NUL !in p
  }

  function FieldsOf(e: Entry): seq<string>
  {
    match e
    case Two(status, a, b) => [status, a, b]
    case One(status, p) => [status, p]
  }

  function Meaning(e: Entry): Change
    requires ValidEntry(e)
  {
    match e
    case Two(status, a, b) => Moved(status[0] == 'R', Score(status[1..]), a, b)
    case One(status, p) => Touched(StatusName(status), p)
  }

  predicate ValidEntries(es: seq<Entry>) { forall i :: 0 <= i < |es| ==> ValidEntry(es[i]) }

  function PrintFields(es: seq<Entry>): seq<string>
  {
    if es == [] then [] else FieldsOf(es[0]) + PrintFields(es[1..])
  }

  function Meanings(es: seq<Entry>): seq<Change>
    requires ValidEntries(es)
  {
    if es == [] then [] else [Meaning(es[0])] + Meanings(es[1..])
  }

  /** Every field followed by NUL. */
  function Terminated(fields: seq<string>): string
  {
    if fields == [] then "" else fields[0] + [NUL] + Terminated(fields[1..])
  }

  // ---------- parsing, as a function of the fields ----------

  function ParseFields(fields: seq<string>): Result<seq<Change>, Error>
    decreases |fields|
  {
    if fields == [] then Ok([])
    else if MoveStatus(fields[0]) then
      if |fields| < 3 then Err(Truncated)
      else Prepend(Moved(fields[0][0] == 'R', Score(fields[0][1..]), fields[1], fields[2]), ParseFields(fields[3..]))
    else if |fields| < 2 then Err(Truncated)
    else if fields[0] == "" then Err(EmptyStatus)
    else Prepend(Touched(StatusName(fields[0]), fields[1]), ParseFields(fields[2..]))
  }

  function Prepend(c: Change, r: Result<seq<Change>, Error>): Result<seq<Change>, Error>
  {
    match r
    case Ok(cs) => Ok([c] + cs)
    case Err(e) => Err(e)
  }

  function Fields(raw: string): seq<string>
  {
    var fields := T.Split(raw, NUL);
    if fields[|fields| - 1] == "" then fields[..|fields| - 1] else fields
  }

  /** Appends the changes read so far to what the rest parses to. */
  function After(cs: seq<Change>, r: Result<seq<Change>, Error>): (both: Result<seq<Change>, Error>)
    ensures cs == [] ==> both == r
    ensures r == Ok([]) ==> both == Ok(cs)
  {
    match r
    case Ok(ds) =>
      assert [] + ds == ds && cs + [] == cs;
      Ok(cs + ds)
    case Err(e) => Err(e)
  }

  /** `parse_name_status`. */
  method ParseNameStatus(raw: string) returns (r: Result<seq<Change>, Error>)
    ensures r == ParseFields(Fields(raw))
  {
    var fields := T.Split(raw, NUL);
    if fields[|fields| - 1] == "" { fields := fields[..|fields| - 1]; }
    var changes: seq<Change> := [];
    var index := 0;
    assert fields[0..] == fields;
    while index < |fields|
      invariant index <= |fields|
      invariant ParseFields(fields) == After(changes, ParseFields(fields[index..]))
    {
      ghost var rest := fields[index..];
      var status := fields[index];
      index := index + 1;
      if MoveStatus(status) {
        if index + 1 >= |fields| { return Err(Truncated); }
        var change := Moved(status[0] == 'R', Score(status[1..]), fields[index], fields[index + 1]);
        index := index + 2;
        assert rest[3..] == fields[index..];
        assert forall cs :: changes + ([change] + cs) == changes + [change] + cs;
        changes := changes + [change];
      } else {
        if index >= |fields| { return Err(Truncated); }
        var path := fields[index];
        index := index + 1;
        if status == "" { return Err(EmptyStatus); }
        var change := Touched(StatusName(status), path);
        assert rest[2..] == fields[index..];
        assert forall cs :: changes + ([change] + cs) == changes + [change] + cs;
        changes := changes + [change];
      }
    }
    return Ok(changes);
  }

  // ---------- parsing undoes printing ----------

  lemma ParseFirst(e: Entry, more: seq<string>)
    requires ValidEntry(e)
    ensures ParseFields(FieldsOf(e) + more) == Prepend(Meaning(e), ParseFields(more))
  {
    var fields := FieldsOf(e) + more;
    assert fields[|FieldsOf(e)|..] == more;
  }

  lemma PrependAfter(c: Change, cs: seq<Change>, r: Result<seq<Change>, Error>)
    ensures Prepend(c, After(cs, r)) == After([c] + cs, r)
  {
    if r.Ok? { assert [c] + (cs + r.value) == [c] + cs + r.value; }
  }

  /** Complete records parse to their own meaning whatever follows them: fields of adjacent
      records are never mixed, and an error can only come from what follows. */
  lemma {:induction false} ParsePrintedThen(es: seq<Entry>, rest: seq<string>)
    requires ValidEntries(es)
    ensures ParseFields(PrintFields(es) + rest) == After(Meanings(es), ParseFields(rest))
  {
    if es == [] {
      assert PrintFields(es) + rest == rest;
    } else {
      var more := PrintFields(es[1..]) + rest;
      assert PrintFields(es) + rest == FieldsOf(es[0]) + more;
      ParseFirst(es[0], more);
      ParsePrintedThen(es[1..], rest);
      PrependAfter(Meaning(es[0]), Meanings(es[1..]), ParseFields(rest));
    }
  }

  lemma {:induction false} SplitTerminated(fields: seq<string>)
    requires forall i :: 0 <= i < |fields| ==> NUL !in fields[i]
    ensures T.Split(Terminated(fields), NUL) == fields + [""]
  {
    if fields != [] {
      assert forall i :: 0 <= i < |fields[1..]| ==> fields[1..][i] == fields[i + 1];
      SplitTerminated(fields[1..]);
      SplitFirst(fields, Terminated(fields[1..]));
    }
  }

  lemma SplitFirst(fields: seq<string>, rest: string)
    requires fields != [] && NUL !in fields[0] && T.Split(rest, NUL) == fields[1..] + [""]
    ensures T.Split(fields[0] + [NUL] + rest, NUL) == fields + [""]
  {
    T.SplitCons(fields[0], rest, NUL);
    assert [fields[0]] + (fields[1..] + [""]) == fields + [""];
  }

  lemma {:induction false} PrintedFieldsAreNulFree(es: seq<Entry>)
    requires forall i :: 0 <= i < |es| ==> NulFree(es[i])
    ensures forall i :: 0 <= i < |PrintFields(es)| ==> NUL !in PrintFields(es)[i]
  {
    if es != [] {
      assert NulFree(es[0]);
      PrintedFieldsAreNulFree(es[1..]);
    }
  }

  lemma FieldsOfTerminated(fields: seq<string>)
    requires forall i :: 0 <= i < |fields| ==> NUL !in fields[i]
    ensures Fields(Terminated(fields)) == fields
  {
    SplitTerminated(fields);
    assert (fields + [""])[..|fields|] == fields;
  }

  /** For every list of records with NUL-free fields, parsing the listing gives their meanings. */
  lemma ParseUndoesPrint(es: seq<Entry>)
    requires ValidEntries(es) && forall i :: 0 <= i < |es| ==> NulFree(es[i])
    ensures ParseFields(Fields(Terminated(PrintFields(es)))) == Ok(Meanings(es))
  {
    PrintedFieldsAreNulFree(es);
    FieldsOfTerminated(PrintFields(es));
    assert PrintFields(es) + [] == PrintFields(es);
    ParsePrintedThen(es, []);
  }

  /** A listing whose last record is cut short is refused. */
  lemma CutShortIsRefused(es: seq<Entry>, last: Entry, keep: nat)
    requires ValidEntries(es) && ValidEntry(last) && 0 < keep < |FieldsOf(last)|
    ensures ParseFields(PrintFields(es) + FieldsOf(last)[..keep]) == Err(Truncated)
  {
    ParsePrintedThen(es, FieldsOf(last)[..keep]);
  }

  /** The records a successful parse has read. */
  function Entries(fields: seq<string>): (es: seq<Entry>)
    requires ParseFields(fields).Ok?
    ensures ValidEntries(es)
    decreases |fields|
  {
    if fields == [] then []
    else if MoveStatus(fields[0]) then [Two(fields[0], fields[1], fields[2])] + Entries(fields[3..])
    else [One(fields[0], fields[1])] + Entries(fields[2..])
  }

  /** Only complete records are accepted, and nothing else is read out of them. */
  lemma {:induction false} AcceptedFieldsArePrinted(fields: seq<string>)
    requires ParseFields(fields).Ok?
    ensures PrintFields(Entries(fields)) == fields
    ensures ParseFields(fields) == Ok(Meanings(Entries(fields)))
    decreases |fields|
  {
    if fields != [] {
      var n := if MoveStatus(fields[0]) then 3 else 2;
      AcceptedFieldsArePrinted(fields[n..]);
      var es := Entries(fields);
      assert es[1..] == Entries(fields[n..]);
      assert fields == fields[..n] + fields[n..];
      assert FieldsOf(es[0]) == fields[..n];
    }
  }

  // ---------- what stops the parser ----------

  /** The fields are complete records followed by `tail`. */
  ghost predicate RecordsThen(fields: seq<string>, tail: seq<string>)
  {
    exists es :: ValidEntries(es) && fields == PrintFields(es) + tail
  }

  /** A record that lacks a path; a status without its path is one whatever it is. */
  predicate CutRecord(tail: seq<string>) { |tail| == 1 || (|tail| == 2 && MoveStatus(tail[0])) }

  /** A path whose status is empty. */
  predicate NoStatus(tail: seq<string>) { |tail| >= 2 && tail[0] == "" }

  lemma ParseTail(tail: seq<string>)
    ensures CutRecord(tail) ==> ParseFields(tail) == Err(Truncated)
    ensures NoStatus(tail) ==> ParseFields(tail) == Err(EmptyStatus)
  {
  }

  lemma RecordFirst(e: Entry, fields: seq<string>, tail: seq<string>)
    requires ValidEntry(e) && RecordsThen(fields, tail)
    ensures RecordsThen(FieldsOf(e) + fields, tail)
  {
    var es :| ValidEntries(es) && fields == PrintFields(es) + tail;
    var more := [e] + es;
    assert more[0] == e && more[1..] == es;
    assert FieldsOf(e) + fields == PrintFields(more) + tail;
  }

  /** Every parse reads complete records up to a tail that is empty, cut short or without status. */
  lemma {:induction false} WhereParsingStops(fields: seq<string>) returns (tail: seq<string>)
    ensures RecordsThen(fields, tail) && (tail == [] || CutRecord(tail) || NoStatus(tail))
    decreases |fields|
  {
    if fields == [] || CutRecord(fields) || NoStatus(fields) {
      tail := fields;
      assert fields == PrintFields([]) + tail;
    } else {
      var e := if MoveStatus(fields[0]) then Two(fields[0], fields[1], fields[2]) else One(fields[0], fields[1]);
      var n := |FieldsOf(e)|;
      tail := WhereParsingStops(fields[n..]);
      RecordFirst(e, fields[n..], tail);
      assert fields == FieldsOf(e) + fields[n..];
    }
  }

  lemma TailDecides(fields: seq<string>, tail: seq<string>)
    requires RecordsThen(fields, tail)
    ensures tail == [] ==> ParseFields(fields).Ok?
    ensures CutRecord(tail) ==> ParseFields(fields) == Err(Truncated)
    ensures NoStatus(tail) ==> ParseFields(fields) == Err(EmptyStatus)
  {
    var es :| ValidEntries(es) && fields == PrintFields(es) + tail;
    ParsePrintedThen(es, tail);
    ParseTail(tail);
  }

  /** The parser raises its own error exactly on complete records followed by one cut short, and runs
      into an empty status exactly on complete records followed by a path without one. */
  lemma ParserFailsExactly(fields: seq<string>)
    ensures ParseFields(fields) == Err(Truncated) <==> exists tail :: RecordsThen(fields, tail) && CutRecord(tail)
    ensures ParseFields(fields) == Err(EmptyStatus) <==> exists tail :: RecordsThen(fields, tail) && NoStatus(tail)
    ensures ParseFields(fields).Ok? <==> RecordsThen(fields, [])
  {
    var stop := WhereParsingStops(fields);
    TailDecides(fields, stop);
    forall tail | RecordsThen(fields, tail) && (tail == [] || CutRecord(tail) || NoStatus(tail))
      ensures tail == [] ==> ParseFields(fields).Ok?
      ensures CutRecord(tail) ==> ParseFields(fields) == Err(Truncated)
      ensures NoStatus(tail) ==> ParseFields(fields) == Err(EmptyStatus)
    {
      TailDecides(fields, tail);
    }
  }

  /** The listing of a single path with an empty status: the abort that no handler catches. */
  lemma EmptyStatusAborts(path: string)
    requires NUL !in path
    ensures ParseFields(Fields(Terminated(["", path]))) == Err(EmptyStatus)
  {
    FieldsOfTerminated(["", path]);
  }

  // ---------- from fields to raw listings ----------

  lemma {:induction false} TerminatedJoins(fields: seq<string>)
    requires fields != []
    ensures Terminated(fields) == T.Join(fields, NUL) + [NUL]
    ensures Terminated(fields) == T.Join(fields + [""], NUL)
  {
    assert (fields + [""])[1..] == fields[1..] + [""];
    if |fields| > 1 { TerminatedJoins(fields[1..]); }
  }

  /** Splitting loses nothing but whether the last field is terminated. */
  lemma ListingOfFields(raw: string)
    ensures Terminated(Fields(raw)) == raw
            || (raw != "" && raw[|raw| - 1] != NUL && Terminated(Fields(raw)) == raw + [NUL])
  {
    var parts := T.Split(raw, NUL);
    T.JoinSplit(raw, NUL);
    var n := |parts| - 1;
    if parts[n] == "" {
      assert parts == parts[..n] + [""];
      if n > 0 { TerminatedJoins(parts[..n]); }
    } else {
      TerminatedJoins(parts);
      LastOfJoin(parts);
    }
  }

  lemma {:induction false} LastOfJoin(parts: seq<string>)
    requires parts != [] && parts[|parts| - 1] != "" && NUL !in parts[|parts| - 1]
    ensures var s := T.Join(parts, NUL); s != "" && s[|s| - 1] != NUL
  {
    if |parts| > 1 {
      LastOfJoin(parts[1..]);
    } else {
      assert parts[0][|parts[0]| - 1] in parts[0];
    }
  }

  ghost predicate AllNulFree(es: seq<Entry>) { forall i :: 0 <= i < |es| ==> NulFree(es[i]) }

  /** `raw` lists these records, the last field terminated or, unless it is empty, not. */
  ghost predicate Lists(raw: string, es: seq<Entry>)
  {
    && ValidEntries(es) && AllNulFree(es)
    && (Terminated(PrintFields(es)) == raw
        || (raw != "" && raw[|raw| - 1] != NUL && Terminated(PrintFields(es)) == raw + [NUL]))
  }

  lemma {:induction false} EntriesAreNulFree(fields: seq<string>)
    requires ParseFields(fields).Ok? && forall i :: 0 <= i < |fields| ==> NUL !in fields[i]
    ensures AllNulFree(Entries(fields))
    decreases |fields|
  {
    if fields != [] {
      var n := if MoveStatus(fields[0]) then 3 else 2;
      EntriesAreNulFree(fields[n..]);
      assert Entries(fields)[1..] == Entries(fields[n..]);
      assert NulFree(Entries(fields)[0]);
    }
  }

  lemma FieldsAreNulFree(raw: string)
    ensures forall i :: 0 <= i < |Fields(raw)| ==> NUL !in Fields(raw)[i]
  {
  }

  lemma ListedFields(raw: string, es: seq<Entry>)
    requires Lists(raw, es)
    ensures Fields(raw) == PrintFields(es)
  {
    var fields := PrintFields(es);
    PrintedFieldsAreNulFree(es);
    if Terminated(fields) == raw {
      FieldsOfTerminated(fields);
    } else {
      TerminatedJoins(fields);
      assert (raw + [NUL])[..|raw|] == raw && (T.Join(fields, NUL) + [NUL])[..|raw|] == T.Join(fields, NUL);
      T.SplitJoin(fields, NUL);
      if fields[|fields| - 1] == "" { EmptyLastEndsInNul(fields); }
    }
  }

  lemma {:induction false} EmptyLastEndsInNul(parts: seq<string>)
    requires parts != [] && parts[|parts| - 1] == ""
    ensures var s := T.Join(parts, NUL); s == "" || s[|s| - 1] == NUL
  {
    if |parts| > 1 { EmptyLastEndsInNul(parts[1..]); }
  }

  /** A raw listing is accepted exactly if it lists complete records, and then gives their meanings. */
  lemma ListingAcceptedExactly(raw: string)
    ensures ParseFields(Fields(raw)).Ok? <==> exists es :: Lists(raw, es)
    ensures forall es :: Lists(raw, es) ==> ParseFields(Fields(raw)) == Ok(Meanings(es))
  {
    var fields := Fields(raw);
    forall es | Lists(raw, es) ensures ParseFields(fields) == Ok(Meanings(es)) {
      ListedFields(raw, es);
      PrintedFieldsAreNulFree(es);
      ParseUndoesPrint(es);
      FieldsOfTerminated(PrintFields(es));
    }
    if ParseFields(fields).Ok? {
      AcceptedFieldsArePrinted(fields);
      FieldsAreNulFree(raw);
      EntriesAreNulFree(fields);
      ListingOfFields(raw);
      assert Lists(raw, Entries(fields));
    }
  }

  /** A raw listing whose last record is cut short is refused. */
  lemma CutListingIsRefused(es: seq<Entry>, last: Entry, keep: nat)
    requires ValidEntries(es) && AllNulFree(es) && ValidEntry(last) && NulFree(last) && 0 < keep < |FieldsOf(last)|
    ensures ParseFields(Fields(Terminated(PrintFields(es) + FieldsOf(last)[..keep]))) == Err(Truncated)
  {
    PrintedFieldsAreNulFree(es);
    FieldsOfTerminated(PrintFields(es) + FieldsOf(last)[..keep]);
    CutShortIsRefused(es, last, keep);
  }

  // ---------- what the letters mean ----------

  /** The change of a record with one path, by the first letter of its status; any other status stays as it is. */
  lemma LetterMeans(letter: char, rest: string, path: string)
    requires letter != 'R' && letter != 'C'
    ensures Meaning(One([letter] + rest, path)) == Touched(
      if letter == 'A' then "added" else if letter == 'D' then "deleted" else if letter == 'M' then "modified"
      else if letter == 'T' then "type_changed" else if letter == 'U' then "unmerged"
      else if letter == 'X' then "unknown" else if letter == 'B' then "broken_pair" else [letter] + rest, path)
  {
  }

  /** A rename or copy, with its similarity as git prints it. */
  lemma MoveMeans(renamed: bool, similarity: nat, old_: string, new_: string)
    ensures Meaning(Two((if renamed then "R" else "C") + T.Decimal(similarity), old_, new_))
         == Moved(renamed, Some(similarity), old_, new_)
    ensures Meaning(Two(if renamed then "R" else "C", old_, new_)) == Moved(renamed, None, old_, new_)
  {
    var status := (if renamed then "R" else "C") + T.Decimal(similarity);
    assert status[1..] == T.Decimal(similarity);
    T.ValueOfDecimal(similarity);
  }

  /** So a listing of one added and one deleted file reads as exactly that. */
  lemma AddedThenDeleted(added: string, deleted: string)
    requires NUL !in added && NUL !in deleted
    ensures ParseFields(Fields(Terminated(["A", added, "D", deleted])))
         == Ok([Touched("added", added), Touched("deleted", deleted)])
  {
    var es := [One("A", added), One("D", deleted)];
    assert es[1..] == [One("D", deleted)] && es[1..][1..] == [];
    assert PrintFields(es[1..][1..]) == [] && PrintFields(es[1..]) == ["D", deleted];
    assert PrintFields(es) == ["A", added, "D", deleted];
    LetterMeans('A', "", added);
    LetterMeans('D', "", deleted);
    assert Meanings(es[1..]) == [Touched("deleted", deleted)];
    assert Meanings(es) == [Touched("added", added), Touched("deleted", deleted)];
    FieldsOfTerminated(PrintFields(es));
    ParseUndoesPrint(es);
  }

  // ---------- resolution ----------

  type Sha = string

  datatype MergeTree = Clean(tree: Sha) | Conflict | Unavailable

  /** What git answers; None where the command fails. */
  datatype Git = Git(
    resolve: string -> Option<Sha>,
    mergeBases: (Sha, Sha) -> seq<Sha>,
    mergeTree: (Sha, Sha) -> MergeTree,
    parents: Sha -> Option<seq<Sha>>,
    tree: Sha -> Option<Sha>,
    nameStatus: (Sha, Sha) -> Option<string>)

  datatype Reason =
    | MissingTarget | MissingHead | MissingIntegration | NoMergeBase | AmbiguousMergeBase
    | IntegrationConflict | IntegrationUnavailable | IntegrationMismatch | IntegrationTreeMismatch
    | DiffFailed | DiffParseFailed

  datatype Diff = Diff(
    target: Option<Sha>, head: Option<Sha>, integration: Option<Sha>, mergeBase: Option<Sha>,
    broadRequired: bool, reasons: seq<Reason>, changes: seq<Change>)

  function Fallback(d: Diff, reason: Reason): Diff
  {
    d.(broadRequired := true, reasons := d.reasons + [reason], changes := [])
  }

  /** The integration commit merges exactly target and head, with the tree git computes. */
  predicate ExactIntegration(g: Git, integration: Sha, target: Sha, head: Sha)
  {
    && g.parents(integration) == Some([target, head])
    && g.mergeTree(target, head).Clean?
    && g.tree(integration) == Some(g.mergeTree(target, head).tree)
  }

  /** An empty name counts as none. */
  predicate Given(integration: Option<string>) { integration.Some? && integration.value != "" }

  /** An integration is asked for exactly by a name that is not empty, and then resolved by it. */
  lemma GivenExactly(g: Git, integration: Option<string>, name: string)
    ensures Given(integration) <==> integration != None && integration != Some("")
    ensures integration == Some(name) && |name| > 0 ==> ResolveGiven(g, integration) == g.resolve(name)
    ensures integration == None || integration == Some("") ==> ResolveGiven(g, integration) == None
  {
  }

  function ResolveGiven(g: Git, integration: Option<string>): Option<Sha>
  {
    if Given(integration) then g.resolve(integration.value) else None
  }

  /** Everything that is proved before the changes are listed. */
  predicate Comparable(g: Git, targetBase: string, head: string, integration: Option<string>)
  {
    && g.resolve(targetBase).Some? && g.resolve(head).Some?
    && var target, headSha := g.resolve(targetBase).value, g.resolve(head).value;
    && |g.mergeBases(target, headSha)| == 1
    && g.mergeTree(target, headSha).Clean?
    && (Given(integration) ==>
          ResolveGiven(g, integration).Some?
            && ExactIntegration(g, ResolveGiven(g, integration).value, target, headSha))
  }

  function MergeBaseOf(g: Git, targetBase: string, head: string): Option<Sha>
  {
    if g.resolve(targetBase).None? || g.resolve(head).None? then None
    else
      var bases := g.mergeBases(g.resolve(targetBase).value, g.resolve(head).value);
      if |bases| == 1 then Some(bases[0]) else None
  }

  /** The listing between merge base and head, parsed; None if git cannot make it. */
  function Listing(g: Git, targetBase: string, head: string, integration: Option<string>)
    : Option<Result<seq<Change>, Error>>
    requires Comparable(g, targetBase, head, integration)
  {
    var raw := g.nameStatus(MergeBaseOf(g, targetBase, head).value, g.resolve(head).value);
    if raw.None? then None else Some(ParseFields(Fields(raw.value)))
  }

  /** The target, the head and, if it is asked for, the integration resolve. */
  predicate Named(g: Git, targetBase: string, head: string, integration: Option<string>)
  {
    && g.resolve(targetBase).Some? && g.resolve(head).Some?
    && (Given(integration) ==> ResolveGiven(g, integration).Some?)
  }

  /** They are named, and target and head have one merge base. */
  predicate Based(g: Git, targetBase: string, head: string, integration: Option<string>)
  {
    Named(g, targetBase, head, integration) && MergeBaseOf(g, targetBase, head).Some?
  }

  /** The fact that fails, with all facts before it proved. */
  predicate Explains(g: Git, targetBase: string, head: string, integration: Option<string>, reason: Reason)
  {
    var target, headSha := g.resolve(targetBase), g.resolve(head);
    match reason
    case MissingTarget => target.None?
    case MissingHead => target.Some? && headSha.None?
    case MissingIntegration =>
      target.Some? && headSha.Some? && Given(integration) && g.resolve(integration.value).None?
    case NoMergeBase =>
      Named(g, targetBase, head, integration) && g.mergeBases(target.value, headSha.value) == []
    case AmbiguousMergeBase =>
      Named(g, targetBase, head, integration) && |g.mergeBases(target.value, headSha.value)| > 1
    case IntegrationConflict =>
      Based(g, targetBase, head, integration) && g.mergeTree(target.value, headSha.value).Conflict?
    case IntegrationUnavailable =>
      && Based(g, targetBase, head, integration)
      && (|| g.mergeTree(target.value, headSha.value).Unavailable?
          || IntegrationFails(g, target.value, headSha.value, integration, reason))
    case IntegrationMismatch =>
      Based(g, targetBase, head, integration) && IntegrationFails(g, target.value, headSha.value, integration, reason)
    case IntegrationTreeMismatch =>
      Based(g, targetBase, head, integration) && IntegrationFails(g, target.value, headSha.value, integration, reason)
    case DiffFailed =>
      Comparable(g, targetBase, head, integration) && Listing(g, targetBase, head, integration) == None
    case DiffParseFailed =>
      Comparable(g, targetBase, head, integration) && Listing(g, targetBase, head, integration) == Some(Err(Truncated))
  }

  /** An integration was given for a clean merge and is not exactly that merge, for this reason. */
  predicate IntegrationFails(g: Git, target: Sha, head: Sha, integration: Option<string>, reason: Reason)
  {
    && ResolveGiven(g, integration).Some? && g.mergeTree(target, head).Clean?
    && Deviates(g, ResolveGiven(g, integration).value, target, head, g.mergeTree(target, head).tree, reason)
  }

  /** Its parents are inspected first, then its tree. */
  predicate Deviates(g: Git, commit: Sha, target: Sha, head: Sha, tree: Sha, reason: Reason)
  {
    match reason
    case IntegrationUnavailable =>
      g.parents(commit).None? || (g.parents(commit) == Some([target, head]) && g.tree(commit).None?)
    case IntegrationMismatch => g.parents(commit).Some? && g.parents(commit).value != [target, head]
    case IntegrationTreeMismatch =>
      g.parents(commit) == Some([target, head]) && g.tree(commit).Some? && g.tree(commit).value != tree
    case _ => false
  }

  /** A reason exists exactly if not everything is proved, and there is only one. */
  lemma OneReasonExactly(g: Git, targetBase: string, head: string, integration: Option<string>)
    ensures (exists reason :: Explains(g, targetBase, head, integration, reason)) <==>
      !(&& Comparable(g, targetBase, head, integration)
        && Listing(g, targetBase, head, integration).Some?
        && Listing(g, targetBase, head, integration).value != Err(Truncated))
    ensures forall x, y ::
      Explains(g, targetBase, head, integration, x) && Explains(g, targetBase, head, integration, y) ==> x == y
  {
    if Named(g, targetBase, head, integration) {
      BasedHasReason(g, targetBase, head, integration);
      if Comparable(g, targetBase, head, integration) { ListingHasReason(g, targetBase, head, integration); }
    } else {
      var reason := if g.resolve(targetBase).None? then MissingTarget
                    else if g.resolve(head).None? then MissingHead else MissingIntegration;
      assert Explains(g, targetBase, head, integration, reason);
    }
  }

  lemma ListingHasReason(g: Git, targetBase: string, head: string, integration: Option<string>)
    requires Comparable(g, targetBase, head, integration)
    ensures var listing := Listing(g, targetBase, head, integration);
            listing.None? || listing.value == Err(Truncated) ==>
              exists reason :: Explains(g, targetBase, head, integration, reason)
  {
    if Listing(g, targetBase, head, integration).None? {
      assert Explains(g, targetBase, head, integration, DiffFailed);
    } else if Listing(g, targetBase, head, integration).value == Err(Truncated) {
      assert Explains(g, targetBase, head, integration, DiffParseFailed);
    }
  }

  lemma BasedHasReason(g: Git, targetBase: string, head: string, integration: Option<string>)
    requires Named(g, targetBase, head, integration)
    ensures Comparable(g, targetBase, head, integration)
            || exists reason :: Explains(g, targetBase, head, integration, reason)
  {
    var target, headSha := g.resolve(targetBase).value, g.resolve(head).value;
    if MergeBaseOf(g, targetBase, head).None? {
      var reason := if g.mergeBases(target, headSha) == [] then NoMergeBase else AmbiguousMergeBase;
      assert Explains(g, targetBase, head, integration, reason);
    } else if !g.mergeTree(target, headSha).Clean? {
      var reason := if g.mergeTree(target, headSha).Conflict? then IntegrationConflict else IntegrationUnavailable;
      assert Explains(g, targetBase, head, integration, reason);
    } else if Given(integration) && !ExactIntegration(g, g.resolve(integration.value).value, target, headSha) {
      var commit := g.resolve(integration.value).value;
      var reason := DeviationExists(g, commit, target, headSha, g.mergeTree(target, headSha).tree);
      assert Explains(g, targetBase, head, integration, reason);
    }
  }

  lemma DeviationExists(g: Git, commit: Sha, target: Sha, head: Sha, tree: Sha) returns (reason: Reason)
    requires g.parents(commit) != Some([target, head]) || g.tree(commit) != Some(tree)
    ensures Deviates(g, commit, target, head, tree, reason)
  {
    reason := if g.parents(commit).None? then IntegrationUnavailable
              else if g.parents(commit).value != [target, head] then IntegrationMismatch
              else if g.tree(commit).None? then IntegrationUnavailable
              else IntegrationTreeMismatch;
  }

  /** The exactness checks on the integration commit. */
  method InspectIntegration(g: Git, commit: Sha, target: Sha, head: Sha, merged: Sha) returns (failure: Option<Reason>)
    ensures failure.None? <==> g.parents(commit) == Some([target, head]) && g.tree(commit) == Some(merged)
    ensures failure.Some? ==> Deviates(g, commit, target, head, merged, failure.value)
  {
    var parents := g.parents(commit);
    if parents.None? { return Some(IntegrationUnavailable); }
    if parents.value != [target, head] { return Some(IntegrationMismatch); }
    var tree := g.tree(commit);
    if tree.None? { return Some(IntegrationUnavailable); }
    if tree.value != merged { return Some(IntegrationTreeMismatch); }
    return None;
  }

  /** `resolve_pr_diff`. The answer is narrow exactly if everything is comparable and the listing
      parses, and then carries its changes; it aborts exactly if everything is comparable and the
      listing has an empty status; otherwise broad coverage is required, for the one reason that names the
      first fact that fails, and without any change to narrow by. */
  method ResolvePrDiff(g: Git, targetBase: string, head: string, integration: Option<string>)
    returns (r: Result<Diff, Error>)
    ensures r.Err? <==>
      Comparable(g, targetBase, head, integration)
        && Listing(g, targetBase, head, integration) == Some(Err(EmptyStatus))
    ensures r.Err? ==> r.error == EmptyStatus
    ensures r.Ok? ==>
      && r.value.target == g.resolve(targetBase) && r.value.head == g.resolve(head)
      && r.value.integration == ResolveGiven(g, integration)
    ensures r.Ok? ==>
      (!r.value.broadRequired <==>
         && Comparable(g, targetBase, head, integration)
         && Listing(g, targetBase, head, integration).Some? && Listing(g, targetBase, head, integration).value.Ok?)
    ensures r.Ok? ==>
      r.value.mergeBase == if Given(integration) && ResolveGiven(g, integration).None? then None
                           else MergeBaseOf(g, targetBase, head)
    ensures r.Ok? && !r.value.broadRequired ==>
      && r.value.reasons == []
      && Listing(g, targetBase, head, integration) == Some(Ok(r.value.changes))
    ensures r.Ok? && r.value.broadRequired ==>
      && r.value.changes == []
      && |r.value.reasons| == 1 && Explains(g, targetBase, head, integration, r.value.reasons[0])
  {
    var result := Diff(g.resolve(targetBase), g.resolve(head), ResolveGiven(g, integration), None, false, [], []);
    if result.target.None? { return Ok(Fallback(result, MissingTarget)); }
    if result.head.None? { return Ok(Fallback(result, MissingHead)); }
    if Given(integration) && result.integration.None? { return Ok(Fallback(result, MissingIntegration)); }
    var target, headSha := result.target.value, result.head.value;
    var bases := g.mergeBases(target, headSha);
    if bases == [] { return Ok(Fallback(result, NoMergeBase)); }
    if |bases| != 1 { return Ok(Fallback(result, AmbiguousMergeBase)); }
    result := result.(mergeBase := Some(bases[0]));
    var merge := g.mergeTree(target, headSha);
    if merge == Conflict { return Ok(Fallback(result, IntegrationConflict)); }
    if merge == Unavailable { return Ok(Fallback(result, IntegrationUnavailable)); }
    if result.integration.Some? {
      var failure := InspectIntegration(g, result.integration.value, target, headSha, merge.tree);
      if failure.Some? { return Ok(Fallback(result, failure.value)); }
    }
    var listing := g.nameStatus(bases[0], headSha);
    if listing.None? { return Ok(Fallback(result, DiffFailed)); }
    var parsed := ParseNameStatus(listing.value);
    match parsed
    case Ok(changes) => return Ok(result.(changes := changes));
    case Err(EmptyStatus) => return Err(EmptyStatus);
    case Err(Truncated) => return Ok(Fallback(result, DiffParseFailed));
  }

  /** A concrete abort: everything is comparable and git lists one path with an empty status. */
  lemma EmptyStatusIsNotCaught(g: Git, targetBase: string, head: string, path: string)
    requires Comparable(g, targetBase, head, None) && NUL !in path
    requires g.nameStatus(MergeBaseOf(g, targetBase, head).value, g.resolve(head).value) == Some(Terminated(["", path]))
    ensures Listing(g, targetBase, head, None) == Some(Err(EmptyStatus))
  {
    EmptyStatusAborts(path);
  }
}
