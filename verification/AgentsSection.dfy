/** The managed section of AGENTS.md: written once, replaced in place, everything else preserved.
    The prose between the markers is a parameter; it contains no angle bracket. */
module AgentsSection {
  import opened Wrappers

  /** The two markers. Nothing below depends on their text, only on their shape. */
  datatype Markers = Markers(start: string, end: string)

  const MARKERS := Markers("<!-- baseharbor:start -->", "<!-- baseharbor:end -->")

  predicate NoAngle(s: string) { '<' !in s && '>' !in s }

  function Section(k: Markers, body: string): string { k.start + body + k.end }

  // ---------- occurrences, as the strings package finds them ----------

  predicate At(s: string, m: string, i: int) { 0 <= i && i + |m| <= |s| && s[i..i + |m|] == m }

  /** First occurrence of `m`, or -1. */
  function Index(s: string, m: string): (k: int)
    ensures -1 <= k <= |s|
    ensures k >= 0 ==> At(s, m, k)
    ensures forall i :: 0 <= i < k ==> !At(s, m, i)
    ensures k < 0 ==> forall i :: !At(s, m, i)
  {
    Find(s, m, 0)
  }

  /** First occurrence at `i` or after it, or -1. */
  function Find(s: string, m: string, i: nat): (k: int)
    ensures -1 <= k <= |s|
    ensures k >= 0 ==> At(s, m, k) && i <= k
    ensures forall j :: i <= j && (k < 0 || j < k) ==> !At(s, m, j)
    decreases |s| - i
  {
    if |s| < i + |m| then -1
    else if At(s, m, i) then i
    else if |s| <= i then -1
    else Find(s, m, i + 1)
  }

  /** Number of non-overlapping occurrences, counted from the left. */
  function Count(s: string, m: string): nat
    requires m != ""
    decreases |s|
  {
    var k := Index(s, m);
    if k < 0 then 0 else 1 + Count(s[k + |m|..], m)
  }

  /** A marker opens with the only '<' it has and closes with the only '>'. */
  predicate Marker(m: string)
  {
    && |m| > 1 && m[0] == '<' && m[|m| - 1] == '>'
    && (forall i :: 0 < i < |m| ==> m[i] != '<')
    && (forall i :: 0 <= i < |m| - 1 ==> m[i] != '>')
  }

  predicate WellShaped(k: Markers)
  {
    Marker(k.start) && Marker(k.end) && |k.end| < |k.start| && k.start[..|k.end|] != k.end
  }

  lemma StartMarker(m: string)
    requires m == MARKERS.start
    ensures Marker(m) && |m| == 25 && m[16] == 's'
  {
    assert m == "<!-- baseharbor:start -->";
    assert m[|m| - 1] == '>';
  }

  lemma EndMarker(m: string)
    requires m == MARKERS.end
    ensures Marker(m) && |m| == 23 && m[16] == 'e'
  {
    assert m == "<!-- baseharbor:end -->";
    assert m[|m| - 1] == '>';
  }

  lemma MarkersAreWellShaped()
    ensures WellShaped(MARKERS)
    ensures MARKERS == Markers("<!-- baseharbor:start -->", "<!-- baseharbor:end -->")
  {
    var a, b := MARKERS.start, MARKERS.end;
    StartMarker(a);
    EndMarker(b);
    assert a[..|b|][16] == a[16];
  }

  /** Inside an occurrence only the first character is '<' and only the last is '>'. */
  lemma OccurrenceAngles(s: string, m: string, i: int)
    requires Marker(m) && At(s, m, i)
    ensures s[i] == '<' && s[i + |m| - 1] == '>'
    ensures forall q :: i < q < i + |m| ==> s[q] != '<'
    ensures forall q :: i <= q < i + |m| - 1 ==> s[q] != '>'
  {
    assert forall q :: i <= q < i + |m| ==> s[q] == s[i..i + |m|][q - i];
  }

  /** Two occurrences of a marker never overlap. */
  lemma NoOverlap(s: string, m: string, i: int, j: int)
    requires Marker(m) && At(s, m, i) && At(s, m, j) && i < j
    ensures i + |m| <= j
  {
    OccurrenceAngles(s, m, i);
    OccurrenceAngles(s, m, j);
  }

  lemma ShiftedOccurrence(s: string, m: string, cut: nat, i: int)
    requires cut <= |s| && cut <= i
    ensures At(s, m, i) <==> At(s[cut..], m, i - cut)
  {
    if i + |m| <= |s| {
      assert s[cut..][i - cut..i - cut + |m|] == s[i..i + |m|];
    }
  }

  ghost predicate Unique(s: string, m: string, i: int)
  {
    At(s, m, i) && forall j :: At(s, m, j) ==> j == i
  }

  lemma NoneCounted(s: string, m: string)
    requires m != ""
    ensures Count(s, m) == 0 <==> forall i :: !At(s, m, i)
  {
  }

  /** After the first occurrence come exactly those of the rest. */
  lemma OccurrencesAfterFirst(s: string, m: string, j: int)
    requires Marker(m) && Index(s, m) >= 0
    ensures var cut := Index(s, m) + |m|;
            At(s, m, j) && j != Index(s, m) <==> j >= cut && At(s[cut..], m, j - cut)
  {
    var k := Index(s, m);
    if At(s, m, j) && j != k { NoOverlap(s, m, k, j); }
    if j >= k + |m| { ShiftedOccurrence(s, m, k + |m|, j); }
  }

  ghost predicate NoOccurrence(s: string, m: string) { forall i :: !At(s, m, i) }

  lemma OnlyTheFirst(s: string, m: string)
    requires Marker(m) && Index(s, m) >= 0
    ensures Unique(s, m, Index(s, m)) <==> NoOccurrence(s[Index(s, m) + |m|..], m)
  {
    var k, cut := Index(s, m), Index(s, m) + |m|;
    var rest := s[cut..];
    forall i | At(rest, m, i) ensures At(s, m, i + cut) && i + cut != k { OccurrencesAfterFirst(s, m, i + cut); }
    forall j | At(s, m, j) && j != k ensures At(rest, m, j - cut) { OccurrencesAfterFirst(s, m, j); }
  }

  /** The count is one exactly when there is exactly one occurrence. */
  lemma OneCounted(s: string, m: string)
    requires Marker(m)
    ensures Count(s, m) == 1 <==> Unique(s, m, Index(s, m))
  {
    if Index(s, m) >= 0 {
      NoneCounted(s[Index(s, m) + |m|..], m);
      OnlyTheFirst(s, m);
    }
  }

  lemma UniqueIsIndex(s: string, m: string, i: int)
    requires Unique(s, m, i)
    ensures Index(s, m) == i
  {
  }

  // ---------- the borders of a section ----------

  lemma SectionAngles(k: Markers, body: string)
    requires WellShaped(k) && NoAngle(body)
    ensures var b := Section(k, body);
            && b[0] == '<' && b[|b| - 1] == '>'
            && (forall p :: 0 <= p < |b| && b[p] == '<' ==> p == 0 || p == |k.start| + |body|)
            && b[..|k.start|] == k.start && b[|k.start| + |body|..] == k.end
  {
    var b := Section(k, body);
    assert forall p :: 0 <= p < |k.start| ==> b[p] == k.start[p];
    assert forall p :: |k.start| <= p < |k.start| + |body| ==> b[p] == body[p - |k.start|] && b[p] in body;
    assert forall p :: |k.start| + |body| <= p < |b| ==> b[p] == k.end[p - |k.start| - |body|];
  }

  lemma InsideSection(k: Markers, body: string, m: string, i: int)
    requires WellShaped(k) && NoAngle(body) && (m == k.start || m == k.end) && At(Section(k, body), m, i)
    ensures i == if m == k.start then 0 else |k.start| + |body|
  {
    SectionAngles(k, body);
    var b := Section(k, body);
    OccurrenceAngles(b, m, i);
    assert b[0..|k.end|] == k.start[..|k.end|];
  }

  lemma SliceOfFront(front: string, back: string, i: nat, n: nat)
    requires i + n <= |front|
    ensures (front + back)[i..i + n] == front[i..i + n]
  {
  }

  lemma SliceOfBack(front: string, back: string, i: nat, n: nat)
    requires |front| <= i && i + n <= |front| + |back|
    ensures (front + back)[i..i + n] == back[i - |front|..i - |front| + n]
  {
  }

  /** A part that opens with '<' and closes with '>' is not cut by an occurrence of a marker. */
  lemma NoCrossing(a: string, b: string, c: string, m: string, i: int)
    requires Marker(m) && b != "" && b[0] == '<' && b[|b| - 1] == '>' && At(a + b + c, m, i)
    ensures i + |m| <= |a| || |a| + |b| <= i || (|a| <= i && i + |m| <= |a| + |b|)
  {
    var s := a + b + c;
    OccurrenceAngles(s, m, i);
    assert s[|a|] == b[0];
    assert s[|a| + |b| - 1] == b[|b| - 1];
  }

  /** So an occurrence lies in one of the three parts. */
  lemma InOnePart(a: string, b: string, c: string, m: string, i: int)
    requires Marker(m) && b != "" && b[0] == '<' && b[|b| - 1] == '>' && At(a + b + c, m, i)
    ensures At(a, m, i) || At(b, m, i - |a|) || At(c, m, i - |a| - |b|)
  {
    NoCrossing(a, b, c, m, i);
    if i >= |a| + |b| {
      SliceOfBack(a + b, c, i, |m|);
    } else {
      SliceOfFront(a + b, c, i, |m|);
      if i + |m| <= |a| { SliceOfFront(a, b, i, |m|); } else { SliceOfBack(a, b, i, |m|); }
    }
  }

  /** No marker straddles the borders of a section: an occurrence in a + section + c lies inside
      `a`, inside `c`, or is one of the section's own two markers. */
  lemma NoStraddling(k: Markers, a: string, body: string, c: string, m: string, i: int)
    requires WellShaped(k) && NoAngle(body) && (m == k.start || m == k.end)
    requires At(a + Section(k, body) + c, m, i)
    ensures || At(a, m, i)
            || At(c, m, i - |a| - |Section(k, body)|)
            || i == |a| + if m == k.start then 0 else |k.start| + |body|
  {
    SectionAngles(k, body);
    InOnePart(a, Section(k, body), c, m, i);
    if At(Section(k, body), m, i - |a|) { InsideSection(k, body, m, i - |a|); }
  }

  /** If neither side holds a marker, the section's own markers are the only ones. */
  lemma OneSection(k: Markers, a: string, body: string, c: string, m: string)
    requires WellShaped(k) && NoAngle(body) && (m == k.start || m == k.end)
    requires (forall i :: !At(a, m, i)) && (forall i :: !At(c, m, i))
    ensures Unique(a + Section(k, body) + c, m, |a| + if m == k.start then 0 else |k.start| + |body|)
  {
    SectionAngles(k, body);
    var b := Section(k, body);
    var s := a + b + c;
    var at := |a| + if m == k.start then 0 else |k.start| + |body|;
    SliceOfFront(a + b, c, at, |m|);
    SliceOfBack(a, b, at, |m|);
    assert b[at - |a|..at - |a| + |m|] == m;
    forall i | At(s, m, i)
      ensures i == at
    {
      NoStraddling(k, a, body, c, m, i);
    }
  }

  // ---------- the update ----------

  /** White_Space, as strings.TrimSpace uses it. */
  predicate Space(c: char)
  {
    || '\t' <= c <= '\r' || c == ' ' || c == '\U{85}' || c == '\U{A0}' || c == '\U{1680}'
    || '\U{2000}' <= c <= '\U{200A}' || c == '\U{2028}' || c == '\U{2029}' || c == '\U{202F}'
    || c == '\U{205F}' || c == '\U{3000}'
  }

  predicate Blank(s: string) { forall i :: 0 <= i < |s| ==> Space(s[i]) }

  datatype Error = AmbiguousSection | InvalidMarkers | Io

  /** Where the managed section is: nowhere, or from its start to the end of its end marker. */
  function Locate(k: Markers, original: string): (r: Result<Option<(int, int)>, Error>)
    requires WellShaped(k)
    ensures r.Ok? && r.value.Some? ==> 0 <= r.value.value.0 <= r.value.value.1 <= |original|
  {
    var starts, ends := Count(original, k.start), Count(original, k.end);
    if starts != ends || starts > 1 then Err(AmbiguousSection)
    else if starts == 0 then Ok(None)
    else
      var start := Index(original, k.start);
      if start < 0 then Err(InvalidMarkers)
      else
        var end := Index(original[start..], k.end);
        if end < 0 then Err(InvalidMarkers) else Ok(Some((start, start + end + |k.end|)))
  }

  /** What precedes a section that is appended. */
  function Lead(original: string): string { if Blank(original) then original else original + "\n\n" }

  /** The content after the update of `original`. */
  function Update(k: Markers, original: string, body: string): Result<string, Error>
    requires WellShaped(k)
  {
    match Locate(k, original)
    case Err(e) => Err(e)
    case Ok(None) => Ok(Lead(original) + Section(k, body) + "\n")
    case Ok(Some((from, to))) => Ok(original[..from] + Section(k, body) + original[to..])
  }

  lemma PartOccurrence(s: string, m: string, from: nat, to: nat, i: int)
    requires from <= to <= |s| && At(s[from..to], m, i)
    ensures At(s, m, from + i) && from + i + |m| <= to
  {
    assert s[..to][from..] == s[from..to];
    ShiftedOccurrence(s[..to], m, from, from + i);
    assert s[..to][from + i..from + i + |m|] == s[from + i..from + i + |m|];
  }

  lemma NoMarkerInPart(s: string, m: string, from: nat, to: nat)
    requires from <= to <= |s| && m != ""
    requires forall i :: At(s, m, i) ==> i < from || to < i + |m|
    ensures forall i :: !At(s[from..to], m, i)
  {
    forall i
      ensures !At(s[from..to], m, i)
    {
      if At(s[from..to], m, i) { PartOccurrence(s, m, from, to, i); }
    }
  }

  ghost predicate NoMarkers(k: Markers, s: string)
  {
    (forall i :: !At(s, k.start, i)) && (forall i :: !At(s, k.end, i))
  }

  /** Exactly one start marker, and exactly one end marker after it. */
  ghost predicate OneOrderedPair(k: Markers, s: string)
  {
    && Unique(s, k.start, Index(s, k.start)) && Unique(s, k.end, Index(s, k.end))
    && Index(s, k.start) < Index(s, k.end)
  }

  /** An end marker found at or after the start marker begins after it. */
  lemma EndAfterStart(k: Markers, s: string, start: nat, end: nat)
    requires WellShaped(k) && At(s, k.start, start) && At(s, k.end, end) && start <= end
    ensures start + |k.start| <= end
  {
    OccurrenceAngles(s, k.start, start);
    OccurrenceAngles(s, k.end, end);
    assert s[start..start + |k.start|][..|k.end|] == s[start..start + |k.end|];
  }

  lemma EndFromStart(k: Markers, s: string, start: nat)
    requires WellShaped(k) && At(s, k.start, start) && Unique(s, k.end, Index(s, k.end))
    ensures var e := Index(s[start..], k.end);
            if start <= Index(s, k.end) then e == Index(s, k.end) - start else e < 0
  {
    forall j | At(s[start..], k.end, j)
      ensures j + start == Index(s, k.end)
    {
      ShiftedOccurrence(s, k.end, start, j + start);
    }
    if start <= Index(s, k.end) { ShiftedOccurrence(s, k.end, start, Index(s, k.end)); }
  }

  lemma PairIsCounted(k: Markers, original: string)
    requires WellShaped(k) && OneOrderedPair(k, original)
    ensures Count(original, k.start) == 1 && Count(original, k.end) == 1
  {
    OneCounted(original, k.start);
    OneCounted(original, k.end);
  }

  lemma LocateOfPair(k: Markers, original: string)
    requires WellShaped(k) && OneOrderedPair(k, original)
    ensures Locate(k, original) == Ok(Some((Index(original, k.start), Index(original, k.end) + |k.end|)))
  {
    PairIsCounted(k, original);
    EndFromStart(k, original, Index(original, k.start));
  }

  lemma LocateOfUnmarked(k: Markers, original: string)
    requires WellShaped(k) && NoMarkers(k, original)
    ensures Locate(k, original) == Ok(None)
  {
    NoneCounted(original, k.start);
    NoneCounted(original, k.end);
  }

  /** White space by code point. */
  predicate WhiteSpace(n: int)
  {
    || 9 <= n <= 13 || n == 32 || n == 133 || n == 160 || n == 5760 || 8192 <= n <= 8202
    || n == 8232 || n == 8233 || n == 8239 || n == 8287 || n == 12288
  }

  lemma SpaceExactly(c: char)
    ensures Space(c) <==> WhiteSpace(c as int)
  {
  }

  /** A first update keeps the content and appends the section and a newline, after an empty line if the
      content has anything but white space. */
  lemma FirstUpdateExactly(k: Markers, original: string, body: string)
    requires WellShaped(k) && NoMarkers(k, original)
    ensures Update(k, original, body) == Ok(
      original + (if forall i :: 0 <= i < |original| ==> WhiteSpace(original[i] as int) then "" else "\n\n")
      + (k.start + body + k.end) + "\n")
  {
    LocateOfUnmarked(k, original);
    forall i | 0 <= i < |original| ensures Space(original[i]) <==> WhiteSpace(original[i] as int) {
      SpaceExactly(original[i]);
    }
    assert original + "" == original;
  }

  lemma LocatedMeansMarked(k: Markers, original: string)
    requires WellShaped(k) && Locate(k, original).Ok?
    ensures NoMarkers(k, original) || OneOrderedPair(k, original)
  {
    NoneCounted(original, k.start);
    NoneCounted(original, k.end);
    OneCounted(original, k.start);
    OneCounted(original, k.end);
    if Count(original, k.start) == 1 && Count(original, k.end) == 1 {
      EndFromStart(k, original, Index(original, k.start));
      if Index(original, k.start) == Index(original, k.end) {
        EndAfterStart(k, original, Index(original, k.start), Index(original, k.end));
      }
    }
  }

  /** The update succeeds exactly on content without markers and on content with one ordered pair. */
  lemma UpdateSucceedsExactly(k: Markers, original: string, body: string)
    requires WellShaped(k)
    ensures Update(k, original, body).Ok? <==> NoMarkers(k, original) || OneOrderedPair(k, original)
  {
    if NoMarkers(k, original) { LocateOfUnmarked(k, original); }
    else if OneOrderedPair(k, original) { LocateOfPair(k, original); }
    else if Locate(k, original).Ok? { LocatedMeansMarked(k, original); }
  }

  lemma OccurrenceBeforeNewlines(s: string, m: string, i: int)
    requires Marker(m) && At(s + "\n\n", m, i)
    ensures At(s, m, i)
  {
    OccurrenceAngles(s + "\n\n", m, i);
    assert s[i..i + |m|] == (s + "\n\n")[i..i + |m|];
  }

  lemma MarkerBeforeNewlines(s: string, m: string)
    requires Marker(m) && forall i :: !At(s, m, i)
    ensures forall i :: !At(s + "\n\n", m, i)
  {
    forall i
      ensures !At(s + "\n\n", m, i)
    {
      if At(s + "\n\n", m, i) { OccurrenceBeforeNewlines(s, m, i); }
    }
  }

  lemma OutsideHasNoMarkers(k: Markers, original: string, s: nat, e: nat)
    requires WellShaped(k) && Unique(original, k.start, s) && Unique(original, k.end, e) && s + |k.start| <= e
    ensures NoMarkers(k, original[0..s]) && NoMarkers(k, original[e + |k.end|..|original|])
  {
    NoMarkerInPart(original, k.start, 0, s);
    NoMarkerInPart(original, k.end, 0, s);
    NoMarkerInPart(original, k.start, e + |k.end|, |original|);
    NoMarkerInPart(original, k.end, e + |k.end|, |original|);
  }

  /** The three parts of content with one ordered pair of markers. */
  lemma PartsAroundSection(k: Markers, original: string) returns (before: string, replaced: string, after: string)
    requires WellShaped(k) && OneOrderedPair(k, original)
    ensures original == before + replaced + after && NoMarkers(k, before) && NoMarkers(k, after)
    ensures k.start <= replaced && |k.end| <= |replaced| && replaced[|replaced| - |k.end|..] == k.end
    ensures |before| == Index(original, k.start) && |before| + |replaced| == Index(original, k.end) + |k.end|
  {
    var s, e := Index(original, k.start), Index(original, k.end);
    EndAfterStart(k, original, s, e);
    OutsideHasNoMarkers(k, original, s, e);
    before, replaced, after := original[0..s], original[s..e + |k.end|], original[e + |k.end|..|original|];
    FramedPart(original, k.start, k.end, s, e);
  }

  lemma FramedPart(s: string, first: string, last: string, i: nat, j: nat)
    requires At(s, first, i) && At(s, last, j) && i + |first| <= j
    ensures var part := s[i..j + |last|]; first <= part && part[|part| - |last|..] == last
    ensures s == s[0..i] + s[i..j + |last|] + s[j + |last|..|s|]
  {
    var part := s[i..j + |last|];
    assert part[..|first|] == s[i..i + |first|];
    assert part[|part| - |last|..] == s[j..j + |last|];
  }

  lemma UpdateOfPair(k: Markers, original: string, body: string)
    requires WellShaped(k) && OneOrderedPair(k, original)
    ensures Index(original, k.end) + |k.end| <= |original|
    ensures Update(k, original, body)
         == Ok(original[..Index(original, k.start)] + Section(k, body) + original[Index(original, k.end) + |k.end|..])
  {
    LocateOfPair(k, original);
  }

  lemma LeadHasNoMarkers(k: Markers, original: string)
    requires WellShaped(k) && NoMarkers(k, original)
    ensures NoMarkers(k, Lead(original)) && NoMarkers(k, "\n")
  {
    MarkerBeforeNewlines(original, k.start);
    MarkerBeforeNewlines(original, k.end);
  }

  /** What a successful update replaces: nothing, or the text from the start marker to the end
      marker; everything before and after is kept byte for byte, and holds no marker. */
  lemma UpdateKeepsOutside(k: Markers, original: string, body: string)
    returns (before: string, replaced: string, after: string)
    requires WellShaped(k) && Update(k, original, body).Ok?
    ensures Update(k, original, body).value == before + Section(k, body) + after
    ensures NoMarkers(k, before) && NoMarkers(k, after)
    ensures NoMarkers(k, original) ==> before == Lead(original) && after == "\n"
    ensures !NoMarkers(k, original) ==>
              && original == before + replaced + after
              && k.start <= replaced && |k.end| <= |replaced| && replaced[|replaced| - |k.end|..] == k.end
  {
    UpdateSucceedsExactly(k, original, body);
    if NoMarkers(k, original) {
      LocateOfUnmarked(k, original);
      LeadHasNoMarkers(k, original);
      before, replaced, after := Lead(original), "", "\n";
    } else {
      UpdateOfPair(k, original, body);
      before, replaced, after := PartsAroundSection(k, original);
      OuterParts(before, replaced, after);
    }
  }

  lemma FreshSectionIsAPair(k: Markers, before: string, body: string, after: string)
    requires WellShaped(k) && NoAngle(body) && NoMarkers(k, before) && NoMarkers(k, after)
    ensures var u := before + Section(k, body) + after;
            && OneOrderedPair(k, u)
            && Index(u, k.start) == |before| && Index(u, k.end) == |before| + |k.start| + |body|
  {
    var u := before + Section(k, body) + after;
    OneSection(k, before, body, after, k.start);
    OneSection(k, before, body, after, k.end);
    UniqueIsIndex(u, k.start, |before|);
    UniqueIsIndex(u, k.end, |before| + |k.start| + |body|);
  }

  lemma OuterParts(before: string, b: string, after: string)
    ensures (before + b + after)[..|before|] == before && (before + b + after)[|before| + |b|..] == after
  {
  }

  lemma FreshSectionIsCounted(k: Markers, before: string, body: string, after: string)
    requires WellShaped(k) && NoAngle(body) && NoMarkers(k, before) && NoMarkers(k, after)
    ensures var u := before + Section(k, body) + after; Count(u, k.start) == 1 && Count(u, k.end) == 1
  {
    FreshSectionIsAPair(k, before, body, after);
    OneCounted(before + Section(k, body) + after, k.start);
    OneCounted(before + Section(k, body) + after, k.end);
  }

  lemma FreshSectionIsStable(k: Markers, before: string, body: string, after: string)
    requires WellShaped(k) && NoAngle(body) && NoMarkers(k, before) && NoMarkers(k, after)
    ensures var u := before + Section(k, body) + after; Update(k, u, body) == Ok(u)
  {
    var u := before + Section(k, body) + after;
    FreshSectionIsAPair(k, before, body, after);
    UpdateOfPair(k, u, body);
    OuterParts(before, Section(k, body), after);
    assert Index(u, k.end) + |k.end| == |before| + |Section(k, body)|;
  }

  /** After a successful update there is exactly one start marker and one end marker, and a
      second update changes nothing. */
  lemma UpdateIsStable(k: Markers, original: string, body: string)
    requires WellShaped(k) && NoAngle(body) && Update(k, original, body).Ok?
    ensures var updated := Update(k, original, body).value;
            && Count(updated, k.start) == 1 && Count(updated, k.end) == 1
            && Update(k, updated, body) == Ok(updated)
  {
    var before, _, after := UpdateKeepsOutside(k, original, body);
    FreshSectionIsCounted(k, before, body, after);
    FreshSectionIsStable(k, before, body, after);
  }

  // ---------- the file ----------

  method Revise(k: Markers, original: string, body: string) returns (r: Result<string, Error>)
    requires WellShaped(k)
    ensures r == Update(k, original, body)
  {
    var place := Locate(k, original);
    if place.Err? { return Err(place.error); }
    var updated := original;
    match place.value {
      case None =>
        if !Blank(updated) { updated := updated + "\n\n"; }
        updated := updated + Section(k, body) + "\n";
      case Some((from, to)) =>
        updated := updated[..from] + Section(k, body) + updated[to..];
    }
    return Ok(updated);
  }

  class AgentsFile {
    /** None when the file does not exist. */
    var content: Option<string>

    const k: Markers

    constructor (c: Option<string>)
      ensures content == c && k == MARKERS && WellShaped(k)
    {
      content, k := c, MARKERS;
      MarkersAreWellShaped();
    }

    /** `ensureBaseHarborAgentsSection`. Reading and writing may fail; a refused update and an
        update that would change nothing write nothing. */
    method Ensure(body: string, readable: bool, writable: bool) returns (changed: Result<bool, Error>)
      requires WellShaped(k)
      modifies this
      ensures var original := if old(content).Some? then old(content).value else "";
              var update := Update(k, original, body);
              && (!readable ==> changed == Err(Io))
              && (readable && update.Err? ==> changed == Err(update.error))
              && (readable && update.Ok? ==>
                    if update.value == original then changed == Ok(false)
                    else changed == if writable then Ok(true) else Err(Io))
              && content == if changed == Ok(true) then Some(update.value) else old(content)
    {
      if !readable { return Err(Io); }
      var original := if content.Some? then content.value else "";
      var revised := Revise(k, original, body);
      if revised.Err? { return Err(revised.error); }
      var updated := revised.value;
      if updated == original { return Ok(false); }
      if !writable { return Err(Io); }
      content := Some(updated);
      return Ok(true);
    }

    /** Two runs on a file that can be read and written: the first succeeds exactly if the markers allow an
        update and reports whether it changed the file; the second then finds nothing to do, and otherwise
        fails alike. */
    method EnsureTwice(body: string) returns (first: Result<bool, Error>, second: Result<bool, Error>)
      requires WellShaped(k) && NoAngle(body)
      modifies this
      ensures var original := if old(content).Some? then old(content).value else "";
              match Update(k, original, body)
              case Ok(updated) =>
                first == Ok(updated != original) && second == Ok(false) && content == Some(updated)
              case Err(error) => first == second == Err(error) && content == old(content)
    {
      ghost var original := if content.Some? then content.value else "";
      first := Ensure(body, true, true);
      if first.Ok? { UpdateIsStable(k, original, body); }
      second := Ensure(body, true, true);
    }
  }
}
