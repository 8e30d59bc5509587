/** Publication of commit receipts to a shared branch: any number of writers, each with its own
    checkout, push to one `main`; unrelated pushes, local meddling and lost acknowledgements may
    happen between any two of their actions. */
module ReceiptPublication {
  import opened Wrappers
  import opened GitDag
  import Text

  const MAX_PUSH_RETRIES := 3
  const RECEIPTS := "evidence/receipts/commits/"

  // ---------- receipt records ----------

  datatype Record = Record(commit: string, pullRequest: int)

  predicate ValidRecord(r: Record) { Text.FullSha(r.commit) && r.pullRequest > 0 }

  const OPENING := "{\"commit\":\""
  const MIDDLE := "\",\"pull_request\":"

  /** Canonical bytes of a valid record: sorted keys, no spaces, one final newline. */
  function CanonicalBytes(r: Record): Bytes
    requires ValidRecord(r)
  {
    OPENING + r.commit + MIDDLE + Text.Decimal(r.pullRequest) + "}\n"
  }

  /** The record whose canonical bytes are `raw`, if there is one. */
  function CheckCommitRecord(raw: Bytes): (r: Option<Record>)
    ensures r.Some? ==> ValidRecord(r.value) && raw == CanonicalBytes(r.value)
  {
    if |raw| < 71 then None
    else
      var sha, digits := raw[11..51], raw[68..|raw| - 2];
      if !Text.FullSha(sha) || !Text.Canonical(digits) || Text.Value(digits) == 0 then None
      else
        var r := Record(sha, Text.Value(digits));
        if raw == CanonicalBytes(r) then Some(r) else None
  }

  function RecordPath(r: Record): Path { RECEIPTS + r.commit + ".json" }

  predicate IsReceiptFor(path: Path, raw: Bytes)
  {
    CheckCommitRecord(raw).Some? && path == RecordPath(CheckCommitRecord(raw).value)
  }

  predicate InReceipts(p: Path) { RECEIPTS <= p }

  /** Reading back canonical bytes gives the record; so bytes determine the record and the
      record determines the bytes. */
  lemma CanonicalRoundTrip(r: Record)
    requires ValidRecord(r)
    ensures CheckCommitRecord(CanonicalBytes(r)) == Some(r)
  {
    var raw := CanonicalBytes(r);
    var number := Text.Decimal(r.pullRequest);
    assert |OPENING| == 11 && |MIDDLE| == 17;
    assert raw[11..51] == r.commit;
    assert raw[68..|raw| - 2] == number;
    Text.ValueOfDecimal(r.pullRequest);
  }

  // ---------- state ----------

  datatype Phase =
    | Idle                        // before the receipt is committed locally
    | Committed                   // commit_file has returned
    | Looping                     // at the top of an attempt
    | Fetched                     // the tracking ref has been refreshed
    | Pushing                     // the receipt sits on the tracking ref
    | Returned(commit: Commit)
    | Failed

  /** A reset that replaced `lost` as HEAD by `base`. */
  datatype Reset = Reset(lost: Commit, base: Commit)

  datatype Writer = Writer(
    path: Path,
    raw: Bytes,
    head: Commit,
    clean: bool,
    local: Commit,
    tracking: Commit,
    attempt: nat,
    phase: Phase,
    resets: seq<Reset>)

  /** `history` lists every value `main` has had, oldest first. */
  datatype System = System(main: Commit, history: seq<Commit>, writers: seq<Writer>)

  /** Where, if anywhere, a local git command fails while the receipt is replayed. */
  datatype Fault = NoFault | BeforeReset | AfterReset

  datatype Event =
    | CommitLocally(w: nat, stamp: nat, gitOk: bool)
    | Enter(w: nat)
    | Fetch(w: nat, gitOk: bool)
    | Decide(w: nat, stamp: nat, fault: Fault)
    | Push(w: nat, delivered: bool, acknowledged: bool)
    | ForeignPush(next: Commit)
    | Meddle(w: nat, head: Commit, clean: bool)

  // ---------- the actions of one writer ----------

  /** `commit_file` after its path check: refuses a dirty checkout and a conflicting file, keeps
      HEAD when the same bytes are already there, and otherwise commits this one file. */
  function CommitFile(head: Commit, clean: bool, path: Path, raw: Bytes, stamp: nat): Option<Commit>
  {
    if !clean then None
    else if path in head.tree then
      if head.tree[path] == raw then Some(head) else None
    else Some(Commit([head], head.tree[path := raw], stamp))
  }

  function DoCommit(w: Writer, stamp: nat, gitOk: bool): Writer
  {
    var made := CommitFile(w.head, w.clean, w.path, w.raw, stamp);
    if !gitOk || made.None? then w.(phase := Failed)
    else w.(head := made.value, local := made.value, phase := Committed)
  }

  function DoEnter(w: Writer): Writer
  {
    if !w.clean || w.head != w.local || w.path !in w.head.tree
       || !IsReceiptFor(w.path, w.head.tree[w.path]) then w.(phase := Failed)
    else w.(raw := w.head.tree[w.path], attempt := 0, phase := Looping)
  }

  function DoFetch(w: Writer, main: Commit, gitOk: bool): Writer
  {
    if gitOk then w.(tracking := main, phase := Fetched) else w.(phase := Failed)
  }

  /** From reading the remote record to the fresh local commit on top of it. */
  function DoDecide(w: Writer, stamp: nat, fault: Fault): Writer
  {
    if w.path in w.tracking.tree then
      var existing := w.tracking.tree[w.path];
      if CheckCommitRecord(existing).Some? && existing == w.raw then w.(phase := Returned(w.tracking))
      else w.(phase := Failed)
    else if w.head != w.local || DiffNames(w.local) != {w.path}
            || !Ancestor(w.local.parents[0], w.tracking) || !w.clean || fault == BeforeReset
    then w.(phase := Failed)
    else
      var r := w.(resets := w.resets + [Reset(w.head, w.tracking)], head := w.tracking);
      var made := CommitFile(r.head, true, w.path, w.raw, stamp);
      if fault == AfterReset || made.None? then r.(phase := Failed)
      else r.(head := made.value, local := made.value, phase := Pushing)
  }

  /** What the writer learns from its push: success, or one attempt fewer. */
  function AfterPush(w: Writer, ok: bool): Writer
  {
    if ok then w.(phase := Returned(w.local))
    else if w.attempt + 1 < MAX_PUSH_RETRIES then w.(attempt := w.attempt + 1, phase := Looping)
    else w.(attempt := w.attempt + 1, phase := Failed)
  }

  // ---------- the shared branch ----------

  /** Pushes by others never rewrite or remove a receipt that is already on `main`. */
  predicate KeepsReceipts(before: Tree, after: Tree)
  {
    forall p :: p in before && InReceipts(p) ==> p in after && after[p] == before[p]
  }

  function Advance(s: System, next: Commit): System
  {
    if next == s.main then s else s.(main := next, history := s.history + [next])
  }

  function WithWriter(s: System, i: nat, w: Writer): System
    requires i < |s.writers|
  {
    s.(writers := s.writers[i := w])
  }

  /** A push that is not forced lands exactly when `main` is an ancestor of what is pushed; a
      push that landed may still be reported as a failure. */
  function DoPush(s: System, i: nat, delivered: bool, acknowledged: bool): System
    requires i < |s.writers|
  {
    var w := s.writers[i];
    var landed := delivered && Ancestor(s.main, w.local);
    var t := if landed then Advance(s, w.local) else s;
    WithWriter(t, i, AfterPush(w, landed && acknowledged))
  }

  predicate Addresses(s: System, i: nat, phase: Phase) { i < |s.writers| && s.writers[i].phase == phase }

  /** One step of the whole system; an event that does not apply changes nothing. */
  function Step(s: System, e: Event): System
  {
    match e
    case CommitLocally(i, stamp, gitOk) =>
      if Addresses(s, i, Idle) then WithWriter(s, i, DoCommit(s.writers[i], stamp, gitOk)) else s
    case Enter(i) =>
      if Addresses(s, i, Committed) then WithWriter(s, i, DoEnter(s.writers[i])) else s
    case Fetch(i, gitOk) =>
      if Addresses(s, i, Looping) then WithWriter(s, i, DoFetch(s.writers[i], s.main, gitOk)) else s
    case Decide(i, stamp, fault) =>
      if Addresses(s, i, Fetched) then WithWriter(s, i, DoDecide(s.writers[i], stamp, fault)) else s
    case Push(i, delivered, acknowledged) =>
      if Addresses(s, i, Pushing) then DoPush(s, i, delivered, acknowledged) else s
    case ForeignPush(next) =>
      if Ancestor(s.main, next) && KeepsReceipts(s.main.tree, next.tree) then Advance(s, next) else s
    case Meddle(i, head, clean) =>
      if i < |s.writers| then WithWriter(s, i, s.writers[i].(head := head, clean := clean)) else s
  }

  function Run(s: System, es: seq<Event>): System
    decreases |es|
  {
    if es == [] then s else Run(Step(s, es[0]), es[1..])
  }

  predicate Initial(s: System)
  {
    && s.history == [s.main]
    && forall i :: 0 <= i < |s.writers| ==>
         && s.writers[i].phase == Idle
         && s.writers[i].resets == []
         && IsReceiptFor(s.writers[i].path, s.writers[i].raw)
  }

  // ---------- the invariant ----------

  predicate Link(a: Commit, b: Commit) { Ancestor(a, b) && KeepsReceipts(a.tree, b.tree) }

  predicate GoodHistory(h: seq<Commit>)
  {
    |h| > 0 && forall i :: 0 < i < |h| ==> Link(h[i - 1], h[i])
  }

  /** The receipt commit sits directly on `base` and changes only its own absent file. */
  predicate OwnReceipt(c: Commit, base: Commit, path: Path, raw: Bytes)
  {
    && path !in base.tree
    && c == Commit([base], base.tree[path := raw], c.stamp)
  }

  predicate Holds(c: Commit, path: Path, raw: Bytes) { path in c.tree && c.tree[path] == raw }

  predicate GoodReset(r: Reset, path: Path, raw: Bytes, h: seq<Commit>)
  {
    && r.base in h
    && Holds(r.lost, path, raw)
    && DiffNames(r.lost) == {path}
    && |r.lost.parents| == 1
    && Ancestor(r.lost.parents[0], r.base)
  }

  predicate GoodWriter(w: Writer, h: seq<Commit>)
  {
    && IsReceiptFor(w.path, w.raw)
    && (w.phase.Fetched? ==> w.tracking in h)
    && (w.phase.Pushing? ==> w.tracking in h && OwnReceipt(w.local, w.tracking, w.path, w.raw))
    && (w.phase.Returned? ==> w.phase.commit in h && Holds(w.phase.commit, w.path, w.raw))
    && (w.phase in {Looping, Fetched, Pushing} ==> Holds(w.local, w.path, w.raw))
    && (w.phase in {Idle, Committed} ==> w.resets == [])
    && (forall r :: r in w.resets ==> GoodReset(r, w.path, w.raw, h))
  }

  predicate Inv(s: System)
  {
    && GoodHistory(s.history)
    && s.main == s.history[|s.history| - 1]
    && forall i :: 0 <= i < |s.writers| ==> GoodWriter(s.writers[i], s.history)
  }

  lemma {:induction false} HistoryLinks(h: seq<Commit>, i: nat, j: nat)
    requires GoodHistory(h) && i <= j < |h|
    ensures Link(h[i], h[j])
    decreases j
  {
    if i < j {
      HistoryLinks(h, i, j - 1);
      AncestorTransitive(h[i], h[j - 1], h[j]);
    }
  }

  lemma ReceiptPathInside(path: Path, raw: Bytes)
    requires IsReceiptFor(path, raw)
    ensures InReceipts(path)
  {
  }

  /** Fast-forward acceptance is compare-and-swap: a receipt commit built on a former `main`
      lands only if `main` is still that commit, or already is the receipt commit. */
  lemma FastForwardIsCompareAndSwap(h: seq<Commit>, base: Commit, c: Commit, path: Path, raw: Bytes)
    requires GoodHistory(h) && base in h && OwnReceipt(c, base, path, raw)
    requires Ancestor(h[|h| - 1], c)
    ensures h[|h| - 1] == base || h[|h| - 1] == c
  {
    var main := h[|h| - 1];
    if main != c {
      AncestorOfChild(main, c);
      var i :| 0 <= i < |h| && h[i] == base;
      HistoryLinks(h, i, |h| - 1);
      AncestorAntisymmetric(main, base);
    }
  }

  lemma GoodWriterLater(w: Writer, h: seq<Commit>, c: Commit)
    requires GoodWriter(w, h)
    ensures GoodWriter(w, h + [c])
  {
    forall r | r in w.resets
      ensures GoodReset(r, w.path, w.raw, h + [c])
    {
      assert GoodReset(r, w.path, w.raw, h);
    }
  }

  lemma AdvanceKeepsInv(s: System, next: Commit)
    requires Inv(s) && (next == s.main || Link(s.main, next))
    ensures Inv(Advance(s, next))
    ensures s.history <= Advance(s, next).history
    ensures next in Advance(s, next).history
  {
    if next != s.main {
      forall i | 0 <= i < |s.writers|
        ensures GoodWriter(s.writers[i], s.history + [next])
      {
        GoodWriterLater(s.writers[i], s.history, next);
      }
    }
  }

  lemma ReplaceWriterKeepsInv(s: System, i: nat, w: Writer)
    requires Inv(s) && i < |s.writers| && GoodWriter(w, s.history)
    ensures Inv(WithWriter(s, i, w))
  {
    var t := WithWriter(s, i, w);
    assert forall k :: 0 <= k < |t.writers| ==> t.writers[k] == if k == i then w else s.writers[k];
  }

  lemma AfterPushIsGood(w: Writer, h: seq<Commit>, ok: bool)
    requires GoodWriter(w, h) && w.phase == Pushing && (ok ==> w.local in h)
    ensures GoodWriter(AfterPush(w, ok), h)
  {
  }

  lemma ReceiptPushIsALink(s: System, i: nat)
    requires Inv(s) && Addresses(s, i, Pushing) && Ancestor(s.main, s.writers[i].local)
    ensures var w := s.writers[i];
            w.local == s.main || (w.tracking == s.main && Link(s.main, w.local))
  {
    var w := s.writers[i];
    assert GoodWriter(w, s.history);
    FastForwardIsCompareAndSwap(s.history, w.tracking, w.local, w.path, w.raw);
  }

  lemma PushKeepsInv(s: System, i: nat, delivered: bool, acknowledged: bool)
    requires Inv(s) && Addresses(s, i, Pushing)
    ensures Inv(DoPush(s, i, delivered, acknowledged))
    ensures s.history <= DoPush(s, i, delivered, acknowledged).history
  {
    var w := s.writers[i];
    if delivered && Ancestor(s.main, w.local) {
      ReceiptPushIsALink(s, i);
      AdvanceKeepsInv(s, w.local);
      var t := Advance(s, w.local);
      AfterPushIsGood(w, t.history, acknowledged);
      ReplaceWriterKeepsInv(t, i, AfterPush(w, acknowledged));
    } else {
      AfterPushIsGood(w, s.history, false);
      ReplaceWriterKeepsInv(s, i, AfterPush(w, false));
    }
  }

  lemma LocalActionsKeepGood(w: Writer, h: seq<Commit>, stamp: nat, gitOk: bool)
    requires GoodWriter(w, h) && |h| > 0
    ensures w.phase == Idle ==> GoodWriter(DoCommit(w, stamp, gitOk), h)
    ensures w.phase == Committed ==> GoodWriter(DoEnter(w), h)
    ensures w.phase == Looping ==> GoodWriter(DoFetch(w, h[|h| - 1], gitOk), h)
  {
  }

  /** The remote already has the receipt: nothing but the phase changes. */
  lemma RecognitionKeepsGood(w: Writer, h: seq<Commit>, stamp: nat, fault: Fault)
    requires GoodWriter(w, h) && w.phase == Fetched && w.path in w.tracking.tree
    ensures GoodWriter(DoDecide(w, stamp, fault), h)
  {
    assert w.tracking in h;
  }

  lemma ReplayKeepsGood(w: Writer, h: seq<Commit>, stamp: nat, fault: Fault)
    requires GoodWriter(w, h) && w.phase == Fetched && w.path !in w.tracking.tree
    ensures GoodWriter(DoDecide(w, stamp, fault), h)
  {
    assert w.tracking in h;
    if DoDecide(w, stamp, fault).resets != w.resets {
      DecidedResets(w, h, stamp, fault);
      FreshCommitIsOwn(w.tracking, w.path, w.raw, stamp);
    }
  }

  lemma DecideKeepsGood(w: Writer, h: seq<Commit>, stamp: nat, fault: Fault)
    requires GoodWriter(w, h) && w.phase == Fetched
    ensures GoodWriter(DoDecide(w, stamp, fault), h)
  {
    if w.path in w.tracking.tree {
      RecognitionKeepsGood(w, h, stamp, fault);
    } else {
      ReplayKeepsGood(w, h, stamp, fault);
    }
  }

  lemma DecidedResets(w: Writer, h: seq<Commit>, stamp: nat, fault: Fault)
    requires GoodWriter(w, h) && w.phase == Fetched && w.path !in w.tracking.tree
    requires DoDecide(w, stamp, fault).resets != w.resets
    ensures forall r :: r in DoDecide(w, stamp, fault).resets ==> GoodReset(r, w.path, w.raw, h)
  {
    var reset := Reset(w.head, w.tracking);
    assert DoDecide(w, stamp, fault).resets == w.resets + [reset];
    assert GoodReset(reset, w.path, w.raw, h);
  }

  lemma FreshCommitIsOwn(base: Commit, path: Path, raw: Bytes, stamp: nat)
    requires path !in base.tree
    ensures OwnReceipt(Commit([base], base.tree[path := raw], stamp), base, path, raw)
  {
  }

  /** Actions in which a writer touches its own checkout only. */
  lemma LocalStepKeepsInv(s: System, e: Event)
    requires Inv(s) && !e.Push? && !e.ForeignPush?
    ensures Inv(Step(s, e)) && Step(s, e).history == s.history
  {
    if e.w < |s.writers| {
      var w := s.writers[e.w];
      assert GoodWriter(w, s.history);
      LocalStepKeepsGood(s, e);
      ReplaceWriterKeepsInv(s, e.w, Step(s, e).writers[e.w]);
      assert s.writers[e.w := w] == s.writers;
    }
  }

  lemma LocalStepKeepsGood(s: System, e: Event)
    requires !e.Push? && !e.ForeignPush? && e.w < |s.writers| && GoodWriter(s.writers[e.w], s.history)
    requires s.history != [] && s.main == s.history[|s.history| - 1]
    ensures |Step(s, e).writers| == |s.writers| && GoodWriter(Step(s, e).writers[e.w], s.history)
    ensures Step(s, e) == WithWriter(s, e.w, Step(s, e).writers[e.w])
  {
    var w := s.writers[e.w];
    assert s.writers[e.w := w] == s.writers;
    match e
    case CommitLocally(_, stamp, gitOk) => LocalActionsKeepGood(w, s.history, stamp, gitOk);
    case Enter(_) => LocalActionsKeepGood(w, s.history, 0, true);
    case Fetch(_, gitOk) => LocalActionsKeepGood(w, s.history, 0, gitOk);
    case Decide(_, stamp, fault) => if w.phase == Fetched { DecideKeepsGood(w, s.history, stamp, fault); }
    case Meddle(_, _, _) =>
  }

  lemma StepKeepsInv(s: System, e: Event)
    requires Inv(s)
    ensures Inv(Step(s, e))
    ensures s.history <= Step(s, e).history
  {
    match e
    case Push(i, delivered, acknowledged) =>
      if Addresses(s, i, Pushing) { PushKeepsInv(s, i, delivered, acknowledged); }
    case ForeignPush(next) =>
      if Ancestor(s.main, next) && KeepsReceipts(s.main.tree, next.tree) { AdvanceKeepsInv(s, next); }
    case _ => LocalStepKeepsInv(s, e);
  }

  lemma {:induction false} RunKeepsInv(s: System, es: seq<Event>)
    requires Inv(s)
    ensures Inv(Run(s, es))
    ensures s.history <= Run(s, es).history
    decreases |es|
  {
    if es != [] {
      StepKeepsInv(s, es[0]);
      RunKeepsInv(Step(s, es[0]), es[1..]);
    }
  }

  // ---------- what every run guarantees ----------

  /** Once a receipt is on `main` it stays there with the same bytes, and every earlier `main`
      remains an ancestor. */
  lemma ReceiptsAreWriteOnce(s: System, es: seq<Event>, i: nat, j: nat)
    requires Initial(s) && i <= j < |Run(s, es).history|
    ensures var h := Run(s, es).history; Ancestor(h[i], h[j]) && KeepsReceipts(h[i].tree, h[j].tree)
  {
    RunKeepsInv(s, es);
    HistoryLinks(Run(s, es).history, i, j);
  }

  /** At most one advance of `main` adds a given receipt path. */
  lemma ReceiptAddedOnce(s: System, es: seq<Event>, p: Path, i: nat, j: nat)
    requires Initial(s) && InReceipts(p)
    requires var h := Run(s, es).history;
             0 < i < |h| && 0 < j < |h|
             && p !in h[i - 1].tree && p in h[i].tree && p !in h[j - 1].tree && p in h[j].tree
    ensures i == j
  {
    if i < j { ReceiptsAreWriteOnce(s, es, i, j - 1); }
    if j < i { ReceiptsAreWriteOnce(s, es, j, i - 1); }
  }

  /** A writer changes `main` only by appending one commit that adds its own absent receipt:
      no other file and no other commit is touched. */
  lemma WriterAddsOnlyItsReceipt(s: System, es: seq<Event>, e: Event)
    requires Initial(s) && !e.ForeignPush?
    requires var r := Run(s, es); Step(r, e).main != r.main
    ensures e.Push? && e.w < |Run(s, es).writers|
    ensures var r := Run(s, es); var w := r.writers[e.w];
            OwnReceipt(Step(r, e).main, r.main, w.path, w.raw)
            && Step(r, e).history == r.history + [Step(r, e).main]
  {
    RunKeepsInv(s, es);
    var r := Run(s, es);
    var w := r.writers[e.w];
    assert GoodWriter(w, r.history);
    FastForwardIsCompareAndSwap(r.history, w.tracking, w.local, w.path, w.raw);
  }

  lemma StaysPublished(r: System, later: seq<Event>, c: Commit, path: Path, raw: Bytes)
    requires Inv(r) && c in r.history && Holds(c, path, raw) && IsReceiptFor(path, raw)
    ensures Holds(Run(r, later).main, path, raw)
  {
    RunKeepsInv(r, later);
    ReceiptPathInside(path, raw);
    StaysInHistory(r.history, Run(r, later).history, c, path, raw);
  }

  lemma StaysInHistory(h: seq<Commit>, later: seq<Commit>, c: Commit, path: Path, raw: Bytes)
    requires GoodHistory(later) && c in h && h <= later && Holds(c, path, raw) && InReceipts(path)
    ensures Holds(later[|later| - 1], path, raw)
  {
    var k :| 0 <= k < |h| && h[k] == c;
    HistoryLinks(later, k, |later| - 1);
    KeptByLink(c, later[|later| - 1], path, raw);
  }

  lemma KeptByLink(c: Commit, d: Commit, path: Path, raw: Bytes)
    requires Link(c, d) && Holds(c, path, raw) && InReceipts(path)
    ensures Holds(d, path, raw)
  {
  }

  /** A successful return names a commit that was `main`, and from then on `main` holds exactly
      the writer's bytes, whatever happens next. */
  lemma ReturnedIsPublished(s: System, es: seq<Event>, later: seq<Event>, i: nat)
    requires Initial(s) && i < |Run(s, es).writers| && Run(s, es).writers[i].phase.Returned?
    ensures var r := Run(s, es); var w := r.writers[i];
            w.phase.commit in r.history && Holds(w.phase.commit, w.path, w.raw)
            && Holds(Run(r, later).main, w.path, w.raw)
  {
    RunKeepsInv(s, es);
    var r := Run(s, es);
    assert GoodWriter(r.writers[i], r.history);
    StaysPublished(r, later, r.writers[i].phase.commit, r.writers[i].path, r.writers[i].raw);
  }

  /** Two writers with different bytes for one path cannot both succeed. */
  lemma ConflictingWritersDoNotBothSucceed(s: System, es: seq<Event>, i: nat, j: nat)
    requires Initial(s)
    requires var ws := Run(s, es).writers;
             i < |ws| && j < |ws| && ws[i].phase.Returned? && ws[j].phase.Returned?
             && ws[i].path == ws[j].path
    ensures Run(s, es).writers[i].raw == Run(s, es).writers[j].raw
  {
    ReturnedIsPublished(s, es, [], i);
    ReturnedIsPublished(s, es, [], j);
  }

  /** The commit has one parent and differs from it in exactly this: it holds the receipt's bytes, which
      the parent did not. */
  predicate IsReceiptCommit(c: Commit, path: Path, raw: Bytes)
  {
    && |c.parents| == 1
    && c.tree == c.parents[0].tree[path := raw] && !Holds(c.parents[0], path, raw)
  }

  lemma OneFileDiffers(c: Commit, path: Path, raw: Bytes)
    requires DiffNames(c) == {path} && |c.parents| == 1 && Holds(c, path, raw)
    ensures IsReceiptCommit(c, path, raw)
  {
    var before := c.parents[0].tree;
    assert path in DiffNames(c);
    forall p
      ensures p in c.tree <==> p in before[path := raw]
      ensures p in c.tree && p in before[path := raw] ==> c.tree[p] == before[path := raw][p]
    {
      if p != path { assert p !in DiffNames(c); }
    }
  }

  /** `reset --hard` loses no local work: every commit reachable from the HEAD it replaces,
      except the writer's own single-file receipt commit, is reachable from a former `main`. */
  lemma ResetLosesOnlyTheReceipt(s: System, es: seq<Event>, i: nat, k: nat, c: Commit)
    requires Initial(s) && i < |Run(s, es).writers| && k < |Run(s, es).writers[i].resets|
    requires Ancestor(c, Run(s, es).writers[i].resets[k].lost)
    ensures var r := Run(s, es); var w := r.writers[i]; var reset := w.resets[k];
            (c == reset.lost && IsReceiptCommit(c, w.path, w.raw))
            || (Ancestor(c, reset.base) && Ancestor(reset.base, r.main))
  {
    RunKeepsInv(s, es);
    var r := Run(s, es);
    var w := r.writers[i];
    var reset := w.resets[k];
    assert GoodWriter(w, r.history);
    assert GoodReset(reset, w.path, w.raw, r.history);
    GoodResetLosesOnlyTheReceipt(reset, w.path, w.raw, r.history, c);
  }

  lemma GoodResetLosesOnlyTheReceipt(reset: Reset, path: Path, raw: Bytes, h: seq<Commit>, c: Commit)
    requires GoodHistory(h) && GoodReset(reset, path, raw, h) && Ancestor(c, reset.lost)
    ensures (c == reset.lost && IsReceiptCommit(c, path, raw))
            || (Ancestor(c, reset.base) && Ancestor(reset.base, h[|h| - 1]))
  {
    OneFileDiffers(reset.lost, path, raw);
    if c != reset.lost {
      AncestorOfChild(c, reset.lost);
      AncestorTransitive(c, reset.lost.parents[0], reset.base);
      var n :| 0 <= n < |h| && h[n] == reset.base;
      HistoryLinks(h, n, |h| - 1);
    }
  }

  predicate ByOthers(es: seq<Event>, i: nat)
  {
    forall k :: 0 <= k < |es| ==> es[k].ForeignPush? || es[k].w != i
  }

  lemma {:induction false} OthersLeaveWriterAlone(s: System, es: seq<Event>, i: nat)
    requires i < |s.writers| && ByOthers(es, i)
    ensures |Run(s, es).writers| == |s.writers| && Run(s, es).writers[i] == s.writers[i]
    decreases |es|
  {
    if es != [] {
      assert es[0].ForeignPush? || es[0].w != i;
      OthersLeaveWriterAlone(Step(s, es[0]), es[1..], i);
    }
  }

  lemma PublishedReceiptIsRecognised(t: System, i: nat, stamp: nat)
    requires Addresses(t, i, Looping) && IsReceiptFor(t.writers[i].path, t.writers[i].raw)
    requires Holds(t.main, t.writers[i].path, t.writers[i].raw)
    ensures var u := Step(Step(t, Fetch(i, true)), Decide(i, stamp, NoFault));
            Addresses(u, i, Returned(t.main)) && u.main == t.main
  {
    var w := t.writers[i];
    var f := Step(t, Fetch(i, true));
    assert f.writers[i] == w.(tracking := t.main, phase := Fetched);
    assert DoDecide(f.writers[i], stamp, NoFault).phase == Returned(t.main);
  }

  lemma LandedPush(r: System, i: nat)
    requires Inv(r) && Addresses(r, i, Pushing) && Ancestor(r.main, r.writers[i].local)
    requires r.writers[i].attempt + 1 < MAX_PUSH_RETRIES
    ensures var t := Step(r, Push(i, true, false)); var w := r.writers[i];
            && Inv(t) && Addresses(t, i, Looping)
            && t.writers[i] == AfterPush(w, false) && Holds(t.main, w.path, w.raw)
  {
    assert GoodWriter(r.writers[i], r.history);
    PushKeepsInv(r, i, true, false);
  }

  lemma HeldReceiptStays(s: System, es: seq<Event>, path: Path, raw: Bytes)
    requires Inv(s) && IsReceiptFor(path, raw) && Holds(s.main, path, raw)
    ensures Holds(Run(s, es).main, path, raw)
  {
    RunKeepsInv(s, es);
    var h := Run(s, es).history;
    HistoryLinks(h, |s.history| - 1, |h| - 1);
    ReceiptPathInside(path, raw);
  }

  /** A push that landed but was reported as a failure is recognised by the next attempt, after
      any activity of others: it returns success and pushes nothing more. */
  lemma LostAcknowledgementIsRecognised(s: System, es: seq<Event>, i: nat, others: seq<Event>, stamp: nat)
    requires Initial(s) && ByOthers(others, i)
    requires Addresses(Run(s, es), i, Pushing)
    requires var r := Run(s, es);
             Ancestor(r.main, r.writers[i].local) && r.writers[i].attempt + 1 < MAX_PUSH_RETRIES
    ensures var r := Run(s, es);
            var t := Run(Step(r, Push(i, true, false)), others);
            var u := Step(Step(t, Fetch(i, true)), Decide(i, stamp, NoFault));
            && Addresses(u, i, Returned(t.main))
            && u.main == t.main && Holds(t.main, r.writers[i].path, r.writers[i].raw)
  {
    RunKeepsInv(s, es);
    var r := Run(s, es);
    var w := r.writers[i];
    assert GoodWriter(w, r.history);
    LandedPush(r, i);
    var landed := Step(r, Push(i, true, false));
    OthersLeaveWriterAlone(landed, others, i);
    HeldReceiptStays(landed, others, w.path, w.raw);
    PublishedReceiptIsRecognised(Run(landed, others), i, stamp);
  }

  // ---------- the local actions, exactly ----------

  /** The bytes of a record: its two members in order, without spaces, and a final newline. */
  lemma BytesExactly(r: Record)
    requires ValidRecord(r)
    ensures CanonicalBytes(r)
         == "{\"commit\":\"" + r.commit + "\",\"pull_request\":" + Text.Decimal(r.pullRequest) + "}\n"
  {
  }

  /** Valid records name a commit in full and a pull request. */
  lemma ValidRecordExactly(r: Record)
    ensures ValidRecord(r) <==>
      && |r.commit| == 40 && r.pullRequest >= 1
      && forall i :: 0 <= i < 40 ==> '0' <= r.commit[i] <= '9' || 'a' <= r.commit[i] <= 'f'
  {
  }

  /** The receipts are the canonical bytes of valid records, each under the name of its commit. */
  lemma ReceiptsExactly(path: Path, raw: Bytes)
    ensures IsReceiptFor(path, raw) <==>
      exists r :: ValidRecord(r) && raw == CanonicalBytes(r)
                  && path == "evidence/receipts/commits/" + r.commit + ".json"
    ensures InReceipts(path) <==> "evidence/receipts/commits/" <= path
  {
    if IsReceiptFor(path, raw) {
      var r := CheckCommitRecord(raw).value;
      assert ValidRecord(r) && raw == CanonicalBytes(r);
    }
    if r :| ValidRecord(r) && raw == CanonicalBytes(r) && path == "evidence/receipts/commits/" + r.commit + ".json" {
      CanonicalRoundTrip(r);
    }
  }

  /** Committing keeps a HEAD that has these bytes already, makes one commit when the file is absent, and
      fails on a dirty checkout, on other bytes, and when git does. */
  lemma CommitExactly(w: Writer, stamp: nat, gitOk: bool)
    ensures var d := DoCommit(w, stamp, gitOk);
      && (d.phase == Committed <==>
            gitOk == true && w.clean == true && (w.path in w.head.tree ==> w.head.tree[w.path] == w.raw))
      && (d.phase == Committed || d.phase == Failed)
      && (d.phase == Committed ==>
            && d.head == d.local && d.clean
            && d.local == if w.path in w.head.tree then w.head
                          else Commit([w.head], w.head.tree[w.path := w.raw], stamp))
  {
  }

  /** The publication starts exactly on a clean checkout that still is at the commit it was given, whose
      tree holds a receipt under the path; the bytes are read from there. */
  lemma EnterExactly(w: Writer)
    ensures var d := DoEnter(w);
      && (d.phase == Looping <==>
            && w.clean == true && w.head == w.local && w.path in w.head.tree
            && IsReceiptFor(w.path, w.head.tree[w.path]))
      && (d.phase == Looping || d.phase == Failed)
      && (d.phase == Looping ==> d.raw == w.head.tree[w.path] && d.attempt == 0)
  {
  }

  lemma FetchExactly(w: Writer, main: Commit, gitOk: bool)
    ensures DoFetch(w, main, gitOk) ==
      if gitOk == true then w.(tracking := main, phase := Fetched) else w.(phase := Failed)
  {
  }

  /** A push lands exactly if it is delivered and extends `main`; the writer learns of it only if it is
      acknowledged, and has two more attempts otherwise. */
  lemma PushExactly(s: System, i: nat, delivered: bool, acknowledged: bool)
    requires Addresses(s, i, Pushing)
    ensures var w := s.writers[i]; var t := Step(s, Push(i, delivered, acknowledged)); var v := t.writers[i];
      var landed := delivered && Ancestor(s.main, w.local);
      && t.main == (if landed then w.local else s.main)
      && t.history == (if t.main != s.main then s.history + [t.main] else s.history)
      && (if landed && acknowledged then v == w.(phase := Returned(w.local))
          else v == w.(attempt := w.attempt + 1, phase := if w.attempt + 1 <= 2 then Looping else Failed))
  {
  }

  /** What the writers have to live with: anybody may extend `main` without touching the receipts on it, and
      anything may happen to a checkout. */
  lemma OthersExactly(s: System, next: Commit, i: nat, head: Commit, clean: bool)
    ensures Step(s, ForeignPush(next)).main ==
      if Ancestor(s.main, next)
         && forall p :: "evidence/receipts/commits/" <= p && p in s.main.tree ==>
              p in next.tree && next.tree[p] == s.main.tree[p]
      then next else s.main
    ensures i < |s.writers| ==>
      Step(s, Meddle(i, head, clean)) == s.(writers := s.writers[i := s.writers[i].(head := head, clean := clean)])
  {
  }

  // ---------- when a publication succeeds ----------

  /** A clean checkout at the writer's own receipt commit, which sits on some ancestor of `main`. */
  predicate Prepared(s: System, i: nat)
  {
    && i < |s.writers|
    && var w := s.writers[i];
       && IsReceiptFor(w.path, w.raw) && w.clean && w.head == w.local
       && |w.local.parents| == 1 && OwnReceipt(w.local, w.local.parents[0], w.path, w.raw)
       && Ancestor(w.local.parents[0], s.main)
  }

  predicate Ready(s: System, i: nat) { Prepared(s, i) && s.writers[i].phase == Looping }

  lemma OwnReceiptChangesOneFile(c: Commit, base: Commit, path: Path, raw: Bytes)
    requires OwnReceipt(c, base, path, raw)
    ensures DiffNames(c) == {path}
  {
    assert c.parents[0] == base && c.tree[path] == raw;
  }

  /** Committing on a clean checkout of any ancestor of `main` without the receipt prepares the writer,
      and the entry checks of the publication let it pass. */
  lemma CommitPrepares(s: System, i: nat, stamp: nat)
    requires Addresses(s, i, Idle) && IsReceiptFor(s.writers[i].path, s.writers[i].raw)
    requires s.writers[i].clean && Ancestor(s.writers[i].head, s.main)
    requires s.writers[i].path !in s.writers[i].head.tree
    ensures var t := Step(s, CommitLocally(i, stamp, true)); Prepared(t, i) && t.writers[i].phase == Committed
  {
    var w := s.writers[i];
    FreshCommitIsOwn(w.head, w.path, w.raw, stamp);
  }

  lemma EnterIsReady(s: System, i: nat)
    requires Prepared(s, i) && s.writers[i].phase == Committed
    ensures var t := Step(s, Enter(i));
      Ready(t, i) && t.main == s.main && t.writers[i].attempt == 0 && t.writers[i].path == s.writers[i].path
      && t.writers[i].raw == s.writers[i].raw
  {
  }

  /** What an attempt decides, once it has fetched: the receipt is there; or other bytes are; or the own
      commit is replayed on what was fetched, exactly if the checkout is clean and still at a commit of this
      one file whose parent the fetched `main` has, and git works. */
  lemma DecideExactly(w: Writer, stamp: nat, fault: Fault)
    requires w.phase == Fetched && IsReceiptFor(w.path, w.raw) && |w.local.parents| > 0
    ensures var d := DoDecide(w, stamp, fault);
      && (d.phase == Returned(w.tracking) <==> w.path in w.tracking.tree && w.tracking.tree[w.path] == w.raw)
      && (d.phase == Pushing <==>
            && w.path !in w.tracking.tree && w.clean && w.head == w.local && DiffNames(w.local) == {w.path}
            && Ancestor(w.local.parents[0], w.tracking) && fault == NoFault)
      && (d.phase == Returned(w.tracking) || d.phase == Pushing || d.phase == Failed)
      && (d.phase == Pushing ==>
            d.local == Commit([w.tracking], w.tracking.tree[w.path := w.raw], stamp) && d.head == d.local && d.clean)
  {
  }

  /** A fetch and a decision with working commands: the receipt was there, or it sits on what was fetched. */
  lemma ReadyDecides(s: System, i: nat, stamp: nat)
    requires Prepared(s, i) && s.writers[i].phase == Fetched && Ancestor(s.writers[i].tracking, s.main)
    requires Ancestor(s.writers[i].local.parents[0], s.writers[i].tracking)
    requires var w := s.writers[i]; w.path in w.tracking.tree ==> w.tracking.tree[w.path] == w.raw
    ensures var t := Step(s, Decide(i, stamp, NoFault)); var w := t.writers[i];
      && t.main == s.main && w.path == s.writers[i].path && w.raw == s.writers[i].raw
      && w.attempt == s.writers[i].attempt
      && (w.phase == Returned(s.writers[i].tracking)
          || (w.phase == Pushing && Prepared(t, i) && w.local.parents == [s.writers[i].tracking]))
  {
    var w := s.writers[i];
    OwnReceiptChangesOneFile(w.local, w.local.parents[0], w.path, w.raw);
    DecideExactly(w, stamp, NoFault);
    if w.path !in w.tracking.tree { FreshCommitIsOwn(w.tracking, w.path, w.raw, stamp); }
  }

  /** Nobody has moved `main` since the fetch, and the push works: published. */
  lemma UndisturbedPushLands(s: System, i: nat)
    requires Prepared(s, i) && s.writers[i].phase == Pushing && s.writers[i].local.parents == [s.main]
    ensures var t := Step(s, Push(i, true, true)); var w := s.writers[i];
      Addresses(t, i, Returned(t.main)) && t.main == w.local && OwnReceipt(t.main, s.main, w.path, w.raw)
  {
    assert s.main in s.writers[i].local.parents;
  }

  /** An undisturbed attempt on a `main` that may have moved past the local commit publishes the receipt as
      one commit on top of it. */
  lemma UndisturbedAttemptPublishes(s: System, i: nat, stamp: nat)
    requires Ready(s, i) && s.writers[i].path !in s.main.tree
    ensures var w := s.writers[i];
      var t := Step(Step(Step(s, Fetch(i, true)), Decide(i, stamp, NoFault)), Push(i, true, true));
      Addresses(t, i, Returned(t.main)) && OwnReceipt(t.main, s.main, w.path, w.raw)
  {
    var f := Step(s, Fetch(i, true));
    assert Ancestor(s.main, s.main);
    ReadyDecides(f, i, stamp);
    UndisturbedPushLands(Step(f, Decide(i, stamp, NoFault)), i);
  }

  /** From the very start: a writer on a clean checkout of any ancestor of `main`, neither of which has the
      receipt, publishes it when nothing disturbs it. */
  lemma FreshWriterPublishes(s: System, i: nat, first: nat, stamp: nat)
    requires Addresses(s, i, Idle) && IsReceiptFor(s.writers[i].path, s.writers[i].raw)
    requires s.writers[i].clean && Ancestor(s.writers[i].head, s.main)
    requires s.writers[i].path !in s.writers[i].head.tree && s.writers[i].path !in s.main.tree
    ensures var w := s.writers[i];
      var ready := Step(Step(s, CommitLocally(i, first, true)), Enter(i));
      var t := Step(Step(Step(ready, Fetch(i, true)), Decide(i, stamp, NoFault)), Push(i, true, true));
      Addresses(t, i, Returned(t.main)) && OwnReceipt(t.main, s.main, w.path, w.raw)
  {
    CommitPrepares(s, i, first);
    var c := Step(s, CommitLocally(i, first, true));
    EnterIsReady(c, i);
    UndisturbedAttemptPublishes(Step(c, Enter(i)), i, stamp);
  }
}
