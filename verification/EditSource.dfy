/** Confirmed edits of an application source. Editors serialize on the Target lifecycle lock;
    foreign writers of the same file know no lock and may write between any two actions. */
module EditSource {
  import opened Wrappers

  type Bytes = string

  /** Repository manifests are compared, staged, compared again and renamed into place;
      store-managed copies are compared, if they exist, and synchronized. */
  datatype Owner = Repository | Store

  datatype Phase =
    | Loaded                   // the source has been hydrated, no lock held
    | Locked                   // inside the Target lock, before the checks
    | Checked                  // plan, consent and preferences are confirmed
    | Compared                 // the source still had the hydrated bytes
    | Staged                   // the temporary file is complete
    | Rechecked                // the source still had the hydrated bytes, again
    | SourceDone               // the source step succeeded or was not needed
    | Mutated                  // preferences are saved as well
    | Refused                  // an error before anything was written
    | Broken                   // an error after the source step
  /** `stale` records that foreign bytes overtook this editor's last comparison: the source no longer
      has the bytes it compared. */
  datatype Editor = Editor(
    owner: Owner,
    hydrated: Bytes,
    desired: Bytes,
    changesSource: bool,
    preferences: Bytes,
    changesPreferences: bool,
    phase: Phase,
    stale: bool)

  /** One replacement of the source; `author` is None for a foreign writer. */
  datatype Replacement = Replacement(author: Option<nat>, before: Option<Bytes>, after: Bytes)

  datatype System = System(
    source: Option<Bytes>,
    preferences: Bytes,
    lock: Option<nat>,
    editors: seq<Editor>,
    log: seq<Replacement>,
    savedBy: seq<nat>)

  /** What the checks inside the lock find. */
  datatype Findings = Findings(
    canceled: bool, targetMatches: bool, viewReadable: bool, planUnchanged: bool, consentValid: bool,
    preferencesReadable: bool, preferencesValid: bool)

  datatype Event =
    | Hydrate(e: nat)
    | Lock(e: nat)
    | Check(e: nat, f: Findings)
    | Compare(e: nat, readable: bool)
    | Stage(e: nat, ok: bool)
    | Recheck(e: nat, readable: bool)
    | Replace(e: nat, ok: bool)
    | SavePreferences(e: nat, ok: bool)
    | Unlock(e: nat)
    | ForeignWrite(bytes: Bytes)

  function Put(s: System, e: nat, editor: Editor): System
    requires e < |s.editors|
  {
    s.(editors := s.editors[e := editor])
  }

  function To(s: System, e: nat, phase: Phase): System
    requires e < |s.editors|
  {
    Put(s, e, s.editors[e].(phase := phase))
  }

  predicate Acceptable(f: Findings, changesPreferences: bool)
  {
    && !f.canceled && f.targetMatches && f.viewReadable && f.planUnchanged && f.consentValid && f.preferencesReadable
    && (changesPreferences ==> f.preferencesValid)
  }

  /** The comparison against the hydrated bytes; a store may not have its copy yet. */
  predicate SourceUnchanged(s: System, d: Editor)
  {
    AsCompared(d, s.source)
  }

  function Write(s: System, author: Option<nat>, bytes: Bytes): System
  {
    s.(source := Some(bytes), log := s.log + [Replacement(author, s.source, bytes)])
  }

  function EditorStep(s: System, ev: Event, e: nat, d: Editor): System
    requires e < |s.editors| && d == s.editors[e]
  {
    match ev
    case Hydrate(_) =>
      if d.phase == Loaded && s.source.Some? then Put(s, e, d.(hydrated := s.source.value)) else s
    case Lock(_) => if d.phase == Loaded && s.lock.None? then To(s, e, Locked).(lock := Some(e)) else s
    case Check(_, f) =>
      if d.phase != Locked then s
      else
        var changes := s.preferences != d.preferences;
        if !Acceptable(f, changes) then To(s, e, Refused)
        else Put(s, e, d.(changesPreferences := changes, stale := false,
                          phase := if d.changesSource then Checked else SourceDone))
    case Compare(_, readable) =>
      if d.phase != Checked then s
      else if !readable || !SourceUnchanged(s, d) then To(s, e, Refused)
      else Put(s, e, d.(stale := false, phase := if d.owner == Repository then Compared else Rechecked))
    case Stage(_, ok) => if d.phase != Compared then s else To(s, e, if ok then Staged else Refused)
    case Recheck(_, readable) =>
      if d.phase != Staged then s
      else if !readable || s.source != Some(d.hydrated) then To(s, e, Refused)
      else Put(s, e, d.(stale := false, phase := Rechecked))
    case Replace(_, ok) =>
      if d.phase != Rechecked then s
      else if !ok then To(s, e, Refused)
      else Write(To(s, e, SourceDone), Some(e), d.desired)
    case SavePreferences(_, ok) =>
      if d.phase != SourceDone then s
      else if !d.changesPreferences then To(s, e, Mutated)
      else if !ok then To(s, e, if d.changesSource then Broken else Refused)
      else To(s, e, Mutated).(preferences := d.preferences, savedBy := s.savedBy + [e])
    case Unlock(_) =>
      if s.lock == Some(e) && d.phase in {Mutated, Refused, Broken} then s.(lock := None) else s
    case _ => s
  }

  /** A foreign write after the last comparison overtakes it, unless it writes the compared bytes. */
  function MarkStale(d: Editor, bytes: Bytes): Editor
  {
    if d.phase == Rechecked then d.(stale := bytes != d.hydrated) else d
  }

  function Step(s: System, ev: Event): System
  {
    match ev
    case ForeignWrite(bytes) =>
      Write(s, None, bytes).(
        editors := seq(|s.editors|, i requires 0 <= i < |s.editors| => MarkStale(s.editors[i], bytes)))
    case _ => if ev.e < |s.editors| then EditorStep(s, ev, ev.e, s.editors[ev.e]) else s
  }

  function Run(s: System, es: seq<Event>): System
    decreases |es|
  {
    if es == [] then s else Run(Step(s, es[0]), es[1..])
  }

  predicate Initial(s: System)
  {
    && s.lock.None? && s.log == [] && s.savedBy == []
    && forall e :: 0 <= e < |s.editors| ==> s.editors[e].phase == Loaded && !s.editors[e].stale
  }

  // ---------- the invariant ----------

  predicate InsideLock(phase: Phase)
  {
    phase in {Locked, Checked, Compared, Staged, Rechecked, SourceDone}
  }

  /** Each replacement starts from what the previous one left. */
  predicate Linked(log: seq<Replacement>, source: Option<Bytes>)
  {
    && (forall k :: 0 < k < |log| ==> log[k].before == Some(log[k - 1].after))
    && (log != [] ==> source == Some(log[|log| - 1].after))
  }

  /** The bytes an editor's comparison lets pass. */
  predicate AsCompared(d: Editor, source: Option<Bytes>)
  {
    source == Some(d.hydrated) || (d.owner == Store && source == None)
  }

  /** The latest write is foreign and not of these bytes. */
  predicate ForeignLast(log: seq<Replacement>, k: nat, hydrated: Bytes)
    requires k <= |log|
  {
    k > 0 && log[k - 1].author.None? && log[k - 1].after != hydrated
  }

  /** The replacement started from the bytes its editor hydrated (or created a missing store copy),
      exactly unless foreign bytes overtook the last comparison. */
  predicate Faithful(log: seq<Replacement>, k: nat, d: Editor)
    requires k < |log|
  {
    && log[k].after == d.desired
    && (!d.stale <==> AsCompared(d, log[k].before))
    && (d.stale <==> ForeignLast(log, k, d.hydrated))
  }

  /** How many replacements editor `e` has made. */
  function Writes(log: seq<Replacement>, e: nat): nat
  {
    if log == [] then 0
    else Writes(log[..|log| - 1], e) + if log[|log| - 1].author == Some(e) then 1 else 0
  }

  lemma WritesAppend(log: seq<Replacement>, r: Replacement, e: nat)
    ensures Writes(log + [r], e) == Writes(log, e) + if r.author == Some(e) then 1 else 0
  {
    assert (log + [r])[..|log|] == log;
  }

  lemma {:induction false} WritesPositive(log: seq<Replacement>, e: nat, k: nat)
    requires k < |log| && log[k].author == Some(e)
    ensures Writes(log, e) >= 1
    ensures forall j :: 0 <= j < |log| && j != k && log[j].author == Some(e) ==> Writes(log, e) >= 2
  {
    var front := log[..|log| - 1];
    if k < |front| { WritesPositive(front, e, k); }
    forall j | 0 <= j < |log| && j != k && log[j].author == Some(e)
      ensures Writes(log, e) >= 2
    {
      if j < |front| && k == |front| { WritesPositive(front, e, j); }
    }
  }

  predicate PhaseOk(s: System, e: nat)
    requires e < |s.editors|
  {
    var d := s.editors[e];
    && (InsideLock(d.phase) ==> s.lock == Some(e))
    && (d.phase == Rechecked ==>
        (!d.stale <==> SourceUnchanged(s, d)) && (d.stale <==> ForeignLast(s.log, |s.log|, d.hydrated)))
    && (d.phase in {Checked, Compared, Staged, Rechecked, Broken} ==> d.changesSource)
    && (e in s.savedBy ==> d.phase == Mutated)
  }

  predicate LogOk(s: System, e: nat)
    requires e < |s.editors|
  {
    var d := s.editors[e];
    && Writes(s.log, e) == (if d.phase in {SourceDone, Mutated, Broken} && d.changesSource then 1 else 0)
    && (forall k :: 0 <= k < |s.log| && s.log[k].author == Some(e) ==> Faithful(s.log, k, d))
  }

  predicate Inv(s: System)
  {
    && Linked(s.log, s.source)
    && (forall e :: 0 <= e < |s.editors| ==> PhaseOk(s, e))
    && (forall e :: 0 <= e < |s.editors| ==> LogOk(s, e))
    && (forall e :: e in s.savedBy ==> e < |s.editors|)
  }

  predicate Acts(s: System, ev: Event) { !ev.ForeignWrite? && ev.e < |s.editors| }

  lemma OwnStepKeepsPhase(s: System, ev: Event)
    requires Inv(s) && Acts(s, ev)
    ensures PhaseOk(Step(s, ev), ev.e)
  {
    assert PhaseOk(s, ev.e);
  }

  /** The others are outside the lock whenever somebody writes or saves. */
  lemma OtherStepKeepsPhase(s: System, ev: Event, e: nat)
    requires Inv(s) && Acts(s, ev) && e < |s.editors| && e != ev.e
    ensures PhaseOk(Step(s, ev), e)
  {
    assert PhaseOk(s, e);
    assert PhaseOk(s, ev.e);
  }

  lemma StepKeepsPhase(s: System, ev: Event, e: nat)
    requires Inv(s) && Acts(s, ev) && e < |s.editors|
    ensures PhaseOk(Step(s, ev), e)
  {
    if e == ev.e { OwnStepKeepsPhase(s, ev); } else { OtherStepKeepsPhase(s, ev, e); }
  }

  lemma NoWritesMeansNoEntry(log: seq<Replacement>, e: nat)
    requires Writes(log, e) == 0
    ensures forall k :: 0 <= k < |log| ==> log[k].author != Some(e)
  {
    forall k | 0 <= k < |log|
      ensures log[k].author != Some(e)
    {
      if log[k].author == Some(e) { WritesPositive(log, e, k); }
    }
  }

  /** The first entry of an editor is the last of the log. */
  lemma FirstOwnEntry(log: seq<Replacement>, r: Replacement, e: nat, d: Editor)
    requires Writes(log, e) == 0 && r.author == Some(e) && r.after == d.desired
    requires !d.stale <==> AsCompared(d, r.before)
    requires d.stale <==> ForeignLast(log, |log|, d.hydrated)
    ensures Writes(log + [r], e) == 1
    ensures forall k :: 0 <= k < |log + [r]| && (log + [r])[k].author == Some(e) ==> Faithful(log + [r], k, d)
  {
    NoWritesMeansNoEntry(log, e);
    WritesAppend(log, r, e);
    assert ForeignLast(log + [r], |log|, d.hydrated) <==> ForeignLast(log, |log|, d.hydrated);
  }

  lemma RenameKeepsLog(s: System, e: nat)
    requires e < |s.editors| && PhaseOk(s, e) && LogOk(s, e) && s.editors[e].phase == Rechecked
    ensures LogOk(Step(s, Replace(e, true)), e)
  {
    var d := s.editors[e];
    FirstOwnEntry(s.log, Replacement(Some(e), s.source, d.desired), e, d.(phase := SourceDone));
  }

  lemma OwnStepKeepsLog(s: System, ev: Event)
    requires Acts(s, ev) && PhaseOk(s, ev.e) && LogOk(s, ev.e)
    ensures LogOk(Step(s, ev), ev.e)
  {
    var e := ev.e;
    var d := s.editors[e];
    if ev.Replace? && d.phase == Rechecked && ev.ok {
      RenameKeepsLog(s, e);
    } else if d.phase in {Loaded, Locked, Checked, Compared, Staged} {
      NoWritesMeansNoEntry(s.log, e);
    }
  }

  /** An editor's action leaves other editors alone and appends at most its own replacement. */
  lemma ActorEffects(s: System, ev: Event)
    requires Acts(s, ev)
    ensures var t := Step(s, ev);
            |t.editors| == |s.editors|
            && forall e :: 0 <= e < |s.editors| && e != ev.e ==> t.editors[e] == s.editors[e]
    ensures var t := Step(s, ev);
            t.log == s.log || t.log == s.log + [Replacement(Some(ev.e), s.source, s.editors[ev.e].desired)]
  {
  }

  lemma AppendingKeepsLog(s: System, t: System, e: nat, r: Replacement)
    requires e < |s.editors| && e < |t.editors| && t.editors[e] == s.editors[e]
    requires LogOk(s, e) && t.log == s.log + [r] && r.author != Some(e)
    ensures LogOk(t, e)
  {
    WritesAppend(s.log, r, e);
    forall k | 0 <= k < |t.log| && t.log[k].author == Some(e) ensures Faithful(t.log, k, t.editors[e]) {
      assert Faithful(s.log, k, s.editors[e]);
    }
  }

  lemma OtherStepKeepsLog(s: System, ev: Event, e: nat)
    requires Inv(s) && Acts(s, ev) && e < |s.editors| && ev.e != e
    ensures LogOk(Step(s, ev), e)
  {
    assert LogOk(s, e);
    ActorEffects(s, ev);
    var t := Step(s, ev);
    if t.log != s.log {
      AppendingKeepsLog(s, t, e, Replacement(Some(ev.e), s.source, s.editors[ev.e].desired));
    }
  }

  lemma ForeignWriteKeepsLog(s: System, bytes: Bytes, e: nat)
    requires e < |s.editors| && LogOk(s, e)
    ensures LogOk(Step(s, ForeignWrite(bytes)), e)
  {
    WritesAppend(s.log, Replacement(None, s.source, bytes), e);
    if s.editors[e].phase == Rechecked { NoWritesMeansNoEntry(s.log, e); }
  }

  lemma ForeignWriteKeepsPhase(s: System, bytes: Bytes, e: nat)
    requires Inv(s) && e < |s.editors|
    ensures PhaseOk(Step(s, ForeignWrite(bytes)), e)
  {
    assert PhaseOk(s, e);
  }

  lemma ForeignWriteKeepsInv(s: System, bytes: Bytes)
    requires Inv(s)
    ensures Inv(Step(s, ForeignWrite(bytes)))
  {
    var t := Step(s, ForeignWrite(bytes));
    forall e | 0 <= e < |t.editors|
      ensures PhaseOk(t, e) && LogOk(t, e)
    {
      ForeignWriteKeepsPhase(s, bytes, e);
      ForeignWriteKeepsLog(s, bytes, e);
    }
  }

  lemma StepKeepsInv(s: System, ev: Event)
    requires Inv(s)
    ensures Inv(Step(s, ev))
  {
    if ev.ForeignWrite? {
      ForeignWriteKeepsInv(s, ev.bytes);
    } else if ev.e < |s.editors| {
      var t := Step(s, ev);
      forall e | 0 <= e < |t.editors|
        ensures PhaseOk(t, e) && LogOk(t, e)
      {
        StepKeepsPhase(s, ev, e);
        if e == ev.e { OwnStepKeepsLog(s, ev); } else { OtherStepKeepsLog(s, ev, e); }
      }
      assert PhaseOk(s, ev.e);
    }
  }

  lemma {:induction false} RunKeepsInv(s: System, es: seq<Event>)
    requires Inv(s)
    ensures Inv(Run(s, es))
    decreases |es|
  {
    if es != [] {
      StepKeepsInv(s, es[0]);
      RunKeepsInv(Step(s, es[0]), es[1..]);
    }
  }

  // ---------- what every run guarantees ----------

  /** The replacements form a chain ending in the current source. Each editor contributes at most
      one, to its own desired bytes, starting from exactly the bytes it hydrated (or creating a
      missing store copy), except exactly when foreign bytes overtook its last comparison. */
  lemma ReplacementsFormAChain(s: System, es: seq<Event>, k: nat, e: nat)
    requires Initial(s) && k < |Run(s, es).log|
    requires e < |s.editors| && Run(s, es).log[k].author == Some(e)
    ensures var r := Run(s, es);
            Linked(r.log, r.source) && |r.editors| == |s.editors| && Faithful(r.log, k, r.editors[e])
    ensures forall j :: 0 <= j < |Run(s, es).log| && Run(s, es).log[j].author == Some(e) ==> j == k
  {
    RunKeepsInv(s, es);
    SameEditors(s, es);
    var r := Run(s, es);
    assert LogOk(r, e);
    WritesPositive(r.log, e, k);
  }

  /** An edit starts from other bytes than its editor compared exactly if the write just before it is
      foreign and wrote other bytes; then, and only then, these are lost. */
  lemma OtherBytesAreReplacedExactly(s: System, es: seq<Event>, k: nat, e: nat)
    requires Initial(s) && k < |Run(s, es).log| && e < |Run(s, es).editors|
    requires Run(s, es).log[k].author == Some(e)
    ensures var r := Run(s, es);
            !AsCompared(r.editors[e], r.log[k].before) <==> ForeignLast(r.log, k, r.editors[e].hydrated)
  {
    RunKeepsInv(s, es);
    assert LogOk(Run(s, es), e);
    assert Faithful(Run(s, es).log, k, Run(s, es).editors[e]);
  }

  lemma {:induction false} SameEditors(s: System, es: seq<Event>)
    ensures |Run(s, es).editors| == |s.editors|
    decreases |es|
  {
    if es != [] { SameEditors(Step(s, es[0]), es[1..]); }
  }

  /** Of two editors that hydrated the same bytes, the second can replace the source only if
      somebody in between put exactly these bytes back (or the first wrote them unchanged). */
  lemma SecondEditNeedsARestore(s: System, es: seq<Event>, i: nat, j: nat, d: nat, e: nat)
    requires Initial(s) && i < j < |Run(s, es).log| && d < |s.editors| && e < |s.editors|
    requires d < |Run(s, es).editors| && e < |Run(s, es).editors|
    requires var r := Run(s, es);
             && r.log[i].author == Some(d) && r.log[j].author == Some(e)
             && r.editors[d].hydrated == r.editors[e].hydrated
             && !r.editors[e].stale
    ensures var r := Run(s, es);
            exists k :: i <= k < j && r.log[k].after == r.editors[e].hydrated
                        && (k == i ==> r.editors[d].desired == r.editors[d].hydrated)
  {
    ReplacementsFormAChain(s, es, i, d);
    ReplacementsFormAChain(s, es, j, e);
    var r := Run(s, es);
    assert r.log[j].before == Some(r.log[j - 1].after);
  }

  /** A refused edit has written nothing: it made no replacement and saved no preferences. */
  lemma RefusalLeavesNoTrace(s: System, es: seq<Event>, e: nat)
    requires Initial(s) && e < |Run(s, es).editors| && Run(s, es).editors[e].phase == Refused
    ensures var r := Run(s, es);
            e !in r.savedBy && forall k :: 0 <= k < |r.log| ==> r.log[k].author != Some(e)
  {
    RunKeepsInv(s, es);
    var r := Run(s, es);
    assert PhaseOk(r, e);
    assert LogOk(r, e);
    NoWritesMeansNoEntry(r.log, e);
  }

  /** Preferences are saved only by an editor whose source step succeeded or was not needed. */
  lemma PreferencesFollowTheSource(s: System, es: seq<Event>, e: nat)
    requires Initial(s) && e in Run(s, es).savedBy
    ensures var r := Run(s, es);
            && e < |r.editors| && r.editors[e].phase == Mutated
            && Writes(r.log, e) == if r.editors[e].changesSource then 1 else 0
  {
    RunKeepsInv(s, es);
    assert PhaseOk(Run(s, es), e);
    assert LogOk(Run(s, es), e);
  }

  /** Source and preferences change in no other way: a step that changes the source is a foreign
      write or the rename of the one editor inside the lock, and a step that changes preferences
      is that editor saving its own. */
  lemma OnlyTheLockHolderMutates(s: System, es: seq<Event>, ev: Event)
    requires Initial(s)
    requires var r := Run(s, es); Step(r, ev).source != r.source || Step(r, ev).preferences != r.preferences
    ensures var r := Run(s, es); var t := Step(r, ev);
            || ev.ForeignWrite?
            || (&& ev.e < |r.editors| && r.lock == Some(ev.e)
                && (ev.Replace? || ev.SavePreferences?)
                && (t.source != r.source ==> ev.Replace? && t.source == Some(r.editors[ev.e].desired))
                && (t.preferences != r.preferences ==>
                    ev.SavePreferences? && t.preferences == r.editors[ev.e].preferences))
  {
    RunKeepsInv(s, es);
    if Acts(Run(s, es), ev) { assert PhaseOk(Run(s, es), ev.e); }
  }

  // ---------- which edits are refused, and which succeed ----------

  /** Everything the checks inside the lock ask for. */
  predicate InOrder(f: Findings, changesPreferences: bool)
  {
    && f.canceled == false && f.targetMatches == true && f.viewReadable == true && f.planUnchanged == true
    && f.consentValid == true && f.preferencesReadable == true && (changesPreferences ==> f.preferencesValid == true)
  }

  /** The phases that an editor reaches only through its checks. */
  predicate PastChecks(phase: Phase)
  {
    phase in {Checked, Compared, Staged, Rechecked, SourceDone, Mutated, Broken}
  }

  /** An editor refuses in exactly these cases: at its checks when anything is out of order, at a comparison
      of the source that fails or finds other bytes, and when staging, renaming, or saving preferences without
      a source change fails. */
  lemma RefusesExactly(s: System, ev: Event)
    requires Acts(s, ev) && s.editors[ev.e].phase != Refused
    ensures var d := s.editors[ev.e];
      Step(s, ev).editors[ev.e].phase == Refused <==>
        || (ev.Check? && d.phase == Locked && !InOrder(ev.f, s.preferences != d.preferences))
        || (ev.Compare? && d.phase == Checked
            && !(ev.readable && (s.source == Some(d.hydrated) || (d.owner == Store && s.source == None))))
        || (ev.Stage? && d.phase == Compared && !ev.ok)
        || (ev.Recheck? && d.phase == Staged && !(ev.readable && s.source == Some(d.hydrated)))
        || (ev.Replace? && d.phase == Rechecked && !ev.ok)
        || (ev.SavePreferences? && d.phase == SourceDone && d.changesPreferences && !ev.ok && !d.changesSource)
  {
  }

  /** Checks that are in order are passed, and decide what is left to do. */
  lemma PassesChecksExactly(s: System, e: nat, f: Findings)
    requires e < |s.editors| && s.editors[e].phase == Locked
    ensures var d := Step(s, Check(e, f)).editors[e];
      && (PastChecks(d.phase) <==> InOrder(f, s.preferences != s.editors[e].preferences))
      && (d.phase == Checked ==> d.changesSource) && (d.phase == SourceDone ==> !d.changesSource)
      && (PastChecks(d.phase) ==> (d.changesPreferences <==> s.preferences != d.preferences))
  {
  }

  /** The editor's own check in a run, made inside the lock and with everything in order. */
  predicate ChecksAt(s: System, es: seq<Event>, e: nat, k: nat)
  {
    && k < |es| && es[k].Check? && es[k].e == e
    && var before := Run(s, es[..k]);
       && e < |before.editors| && before.editors[e].phase == Locked
       && InOrder(es[k].f, before.preferences != before.editors[e].preferences)
  }

  /** Whatever an editor does after its checks rests on one check of its own that was in order. */
  lemma {:induction false} PastChecksWasChecked(s: System, es: seq<Event>, e: nat) returns (k: nat)
    requires Initial(s) && e < |Run(s, es).editors| && PastChecks(Run(s, es).editors[e].phase)
    ensures ChecksAt(s, es, e, k)
    decreases |es|
  {
    assert es != [];
    var front, ev := es[..|es| - 1], es[|es| - 1];
    RunLast(s, es);
    var r := Run(s, front);
    SameEditors(s, front);
    if PastChecks(r.editors[e].phase) {
      k := PastChecksWasChecked(s, front, e);
      assert es[..k] == front[..k];
    } else {
      NewlyPastChecks(r, ev, e);
      k := |es| - 1;
    }
  }

  lemma NewlyPastChecks(s: System, ev: Event, e: nat)
    requires e < |s.editors| && e < |Step(s, ev).editors|
    requires !PastChecks(s.editors[e].phase) && PastChecks(Step(s, ev).editors[e].phase)
    ensures ev.Check? && ev.e == e && s.editors[e].phase == Locked
    ensures InOrder(ev.f, s.preferences != s.editors[e].preferences)
  {
  }

  lemma {:induction false} RunLast(s: System, es: seq<Event>)
    requires es != []
    ensures Run(s, es) == Step(Run(s, es[..|es| - 1]), es[|es| - 1])
    decreases |es|
  {
    if |es| > 1 {
      RunLast(Step(s, es[0]), es[1..]);
      assert es[1..][..|es| - 2] == es[..|es| - 1][1..];
    } else {
      assert es[1..] == [] && es[..0] == [];
    }
  }

  /** So a drifted plan, a stale consent or another Target never gets as far as a write: whoever replaced the
      source or saved preferences passed its checks. */
  lemma WritersWereChecked(s: System, es: seq<Event>, e: nat) returns (k: nat)
    requires Initial(s)
    requires e in Run(s, es).savedBy || exists j :: 0 <= j < |Run(s, es).log| && Run(s, es).log[j].author == Some(e)
    requires e < |s.editors|
    ensures ChecksAt(s, es, e, k)
  {
    RunKeepsInv(s, es);
    SameEditors(s, es);
    var r := Run(s, es);
    assert PhaseOk(r, e);
    assert LogOk(r, e);
    if e !in r.savedBy {
      var j :| 0 <= j < |r.log| && r.log[j].author == Some(e);
      WritesPositive(r.log, e, j);
    }
    k := PastChecksWasChecked(s, es, e);
  }

  lemma {:induction false} RunSteps(s: System, es: seq<Event>, fs: seq<Event>)
    ensures Run(s, es + fs) == Run(Run(s, es), fs)
    decreases |es|
  {
    if es == [] {
      assert es + fs == fs;
    } else {
      assert (es + fs)[1..] == es[1..] + fs;
      RunSteps(Step(s, es[0]), es[1..], fs);
    }
  }

  /** The source step of an editor that has passed its checks, on an unchanged source. */
  function SourceSteps(e: nat, d: Editor): seq<Event>
  {
    if !d.changesSource then []
    else if d.owner == Repository then [Compare(e, true), Stage(e, true), Recheck(e, true), Replace(e, true)]
    else [Compare(e, true), Replace(e, true)]
  }

  lemma TwoSteps(s: System, a: Event, b: Event)
    ensures Run(s, [a, b]) == Step(Step(s, a), b)
  {
    assert [a, b][1..] == [b] && [b][1..] == [];
    assert Run(Step(s, a), [b]) == Run(Step(Step(s, a), b), []);
  }

  lemma SourceStepWorks(s: System, e: nat)
    requires e < |s.editors|
    requires var d := s.editors[e];
      && d.phase == (if d.changesSource then Checked else SourceDone)
      && (s.source == Some(d.hydrated) || (d.owner == Store && s.source == None))
    ensures var d := s.editors[e]; var t := Run(s, SourceSteps(e, d));
      && |t.editors| == |s.editors| && t.lock == s.lock && t.preferences == s.preferences
      && t.source == (if d.changesSource then Some(d.desired) else s.source)
      && t.editors[e].phase == SourceDone && t.editors[e].preferences == d.preferences
      && t.editors[e].changesPreferences == d.changesPreferences
  {
    var d := s.editors[e];
    if d.changesSource {
      var compared := Step(s, Compare(e, true));
      if d.owner == Repository {
        var rechecked := Step(Step(compared, Stage(e, true)), Recheck(e, true));
        assert rechecked.editors[e].phase == Rechecked;
        assert SourceSteps(e, d) == [Compare(e, true), Stage(e, true)] + [Recheck(e, true), Replace(e, true)];
        RunSteps(s, [Compare(e, true), Stage(e, true)], [Recheck(e, true), Replace(e, true)]);
        TwoSteps(s, Compare(e, true), Stage(e, true));
        TwoSteps(Step(compared, Stage(e, true)), Recheck(e, true), Replace(e, true));
      } else {
        TwoSteps(s, Compare(e, true), Replace(e, true));
      }
    }
  }

  /** An edit in order, on the source it hydrated and with nobody in between, is carried out: the source has
      the desired bytes, the preferences are saved, and the lock is free again. */
  lemma UndisturbedEditSucceeds(s: System, e: nat, f: Findings)
    requires e < |s.editors| && s.editors[e].phase == Loaded && s.lock == None
    requires var d := s.editors[e];
      && InOrder(f, s.preferences != d.preferences)
      && (s.source == Some(d.hydrated) || (d.owner == Store && s.source == None))
    ensures var d := s.editors[e];
      var t := Run(s, [Lock(e), Check(e, f)] + SourceSteps(e, d) + [SavePreferences(e, true), Unlock(e)]);
      && e < |t.editors| && t.editors[e].phase == Mutated && t.lock == None
      && t.source == (if d.changesSource then Some(d.desired) else s.source)
      && t.preferences == d.preferences
  {
    var d := s.editors[e];
    var steps := SourceSteps(e, d);
    RunSteps(s, [Lock(e), Check(e, f)] + steps, [SavePreferences(e, true), Unlock(e)]);
    RunSteps(s, [Lock(e), Check(e, f)], steps);
    TwoSteps(s, Lock(e), Check(e, f));
    var checked := Step(Step(s, Lock(e)), Check(e, f));
    assert SourceSteps(e, checked.editors[e]) == steps;
    SourceStepWorks(checked, e);
    TwoSteps(Run(checked, steps), SavePreferences(e, true), Unlock(e));
  }

  const CONFIRMED := Findings(false, true, true, true, true, true, true)

  lemma Advance(s: System, es: seq<Event>, k: nat, t: System)
    requires k < |es| && t == Step(s, es[k])
    ensures Run(s, es[k..]) == Run(t, es[k + 1..])
  {
    assert es[k..][1..] == es[k + 1..];
  }

  function Single(source: Bytes, d: Editor): System
  {
    System(Some(source), "", if d.phase == Loaded then None else Some(0), [d], [], [])
  }

  /** A confirmed edit of an unchanged repository source on its way to the rename. */
  predicate Proceeds(ev: Event, from: Phase, to: Phase)
  {
    match from
    case Loaded => (ev == Hydrate(0) && to == Loaded) || (ev == Lock(0) && to == Locked)
    case Locked => ev == Check(0, CONFIRMED) && to == Checked
    case Checked => ev == Compare(0, true) && to == Compared
    case Compared => ev == Stage(0, true) && to == Staged
    case Staged => ev == Recheck(0, true) && to == Rechecked
    case _ => false
  }

  predicate PlainEdit(d: Editor)
  {
    d.owner == Repository && d.changesSource && d.preferences == "" && !d.changesPreferences && !d.stale
  }

  function InPhase(d: Editor, phase: Phase): System { Single(d.hydrated, d.(phase := phase)) }

  lemma EditProceeds(d: Editor, es: seq<Event>, k: nat, from: Phase, to: Phase)
    requires PlainEdit(d) && k < |es| && Proceeds(es[k], from, to)
    ensures Run(InPhase(d, from), es[k..]) == Run(InPhase(d, to), es[k + 1..])
  {
    var b := d.(phase := from);
    assert [b][0 := b.(phase := to)] == [b.(phase := to)];
    Advance(InPhase(d, from), es, k, InPhase(d, to));
  }

  lemma EditReachesRename(d: Editor, es: seq<Event>)
    requires PlainEdit(d) && |es| >= 6
    requires es[0] == Hydrate(0) && es[1] == Lock(0) && es[2] == Check(0, CONFIRMED)
    requires es[3] == Compare(0, true) && es[4] == Stage(0, true) && es[5] == Recheck(0, true)
    ensures Run(InPhase(d, Loaded), es[0..]) == Run(InPhase(d, Rechecked), es[6..])
  {
    EditProceeds(d, es, 0, Loaded, Loaded);
    EditProceeds(d, es, 1, Loaded, Locked);
    EditProceeds(d, es, 2, Locked, Checked);
    EditProceeds(d, es, 3, Checked, Compared);
    EditProceeds(d, es, 4, Compared, Staged);
    EditProceeds(d, es, 5, Staged, Rechecked);
  }

  /** The last comparison does not protect against writers outside the lock: bytes written
      between it and the rename are replaced by the edit. */
  lemma OvertakenForeignBytesAreLost(hydrated: Bytes, desired: Bytes, foreign: Bytes, es: seq<Event>)
    requires es == [Hydrate(0), Lock(0), Check(0, CONFIRMED), Compare(0, true), Stage(0, true), Recheck(0, true),
                    ForeignWrite(foreign), Replace(0, true)]
    requires foreign != hydrated
    ensures var s := Single(hydrated, Editor(Repository, hydrated, desired, true, "", false, Loaded, false));
            && Initial(s)
            && Run(s, es).log ==
               [Replacement(None, Some(hydrated), foreign), Replacement(Some(0), Some(foreign), desired)]
            && Run(s, es).source == Some(desired)
            && ForeignLast(Run(s, es).log, 1, hydrated)
  {
    var d := Editor(Repository, hydrated, desired, true, "", false, Loaded, false);
    EditReachesRename(d, es);
    assert es[0..] == es;
    assert d.(phase := Loaded) == d;
    var rechecked := InPhase(d, Rechecked);
    var overtaken := Step(rechecked, ForeignWrite(foreign));
    Advance(rechecked, es, 6, overtaken);
    Advance(overtaken, es, 7, Step(overtaken, Replace(0, true)));
    assert es[8..] == [];
    RenameAfterForeignWrite(d.(phase := Rechecked), foreign);
  }

  lemma RenameAfterForeignWrite(d: Editor, foreign: Bytes)
    requires PlainEdit(d) && d.phase == Rechecked
    ensures var t := Step(Step(Single(d.hydrated, d), ForeignWrite(foreign)), Replace(0, true));
            && t.log == [Replacement(None, Some(d.hydrated), foreign), Replacement(Some(0), Some(foreign), d.desired)]
            && t.source == Some(d.desired)
  {
    var t := Step(Single(d.hydrated, d), ForeignWrite(foreign));
    assert t.editors[0] == MarkStale(d, foreign);
  }
}
