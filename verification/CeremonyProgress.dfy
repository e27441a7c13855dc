/** What a ceremony achieves: it only moves forward, and when it completes
    every slot is its captured image with the new watermark and nothing else. */
module CeremonyProgress {
  import opened Watermark
  import opened Hardware
  import opened State
  import opened Ceremony
  import opened CeremonySafety
  import opened CeremonyTheorems

  // ----- forward only -----------------------------------------------------------

  /** `t` is the same subject, later: nothing it had reserved or stamped is lost. */
  ghost predicate Later(s: Subject, t: Subject) {
    && t.endpoint == s.endpoint && t.device == s.device && t.oldToken == s.oldToken && t.captured == s.captured
    && (s.token.Some? ==> t.token == s.token)
    && t.progress.Keys == s.progress.Keys
    && forall p <- s.progress :: s.progress[p] == Stamped ==> t.progress[p] == Stamped
  }

  ghost predicate JournalLater(j: Journal, k: Journal) {
    && k.phase == j.phase && |j.subjects| <= |k.subjects|
    && forall i :: 0 <= i < |j.subjects| ==> Later(j.subjects[i], k.subjects[i])
  }

  lemma LaterTransitive(j: Journal, k: Journal, l: Journal)
    requires JournalLater(j, k) && JournalLater(k, l)
    ensures JournalLater(j, l)
  {
    forall i | 0 <= i < |j.subjects| ensures Later(j.subjects[i], l.subjects[i]) {
      assert Later(j.subjects[i], k.subjects[i]) && Later(k.subjects[i], l.subjects[i]);
    }
  }

  /** A finalization that fails leaves the journal as it was. */
  lemma FinalizeKeepsJournal(s: StateFile, skip: bool)
    requires NumbersOk(s)
    ensures var t := Finalize(s, skip).state; t.journal.None? || t.journal == s.journal
  {
    AllocateTakesNext(s);
    if s.journal.Some? { AllocateManyFresh(s, |s.journal.value.subjects|); }
  }

  lemma MarkLater(s: StateFile, p: ProfileId)
    requires s.journal.Some? && s.journal.value.subjects != [] && p in LastSubject(s.journal.value).progress
    ensures JournalLater(s.journal.value, MarkCommit(s, p).journal.value)
  {}

  lemma AdvanceLater(w: World, p: ProfileId, v: World)
    requires AdvanceOk(w, p, v) && NumbersOk(w.state) && v.state.journal.Some?
    ensures JournalLater(w.state.journal.value, v.state.journal.value)
  {
    AdvanceForm(w, p, v);
    MarkLater(w.state, p);
    FinalizeKeepsJournal(Advanced(w, p, Finalizing).state, false);
  }

  lemma EnrollLater(w: World, uid: UnitId, sub: Subject, v: World)
    requires EnrollOk(w, uid, sub, v) && NumbersOk(w.state) && v.state.journal.Some?
    ensures JournalLater(w.state.journal.value, v.state.journal.value)
  {
    EnrollForm(w, uid, sub, v);
    FinalizeKeepsJournal(Pushed(w, uid, sub, Finalizing).state, false);
  }

  predicate WritesJournal(step: Step) {
    step.Enroll? || step.ReserveToken? || step.JournalMark? || step.Advance? || step.Decide? || step.Associate?
  }

  lemma OthersKeepJournal(w: World, step: Step, v: World)
    requires Effects(w, step, v) && !WritesJournal(step) && w.state.journal.Some? && v.state.journal.Some?
    ensures v.state.journal == w.state.journal
  {}

  lemma ReserveLater(w: World, token: Token, v: World)
    requires ReserveTokenOk(w, token, v)
    ensures JournalLater(w.state.journal.value, v.state.journal.value)
  {}

  lemma WriterLater(w: World, step: Step, v: World)
    requires Effects(w, step, v) && WritesJournal(step) && NumbersOk(w.state) && v.state.journal.Some?
    ensures w.state.journal.Some? && JournalLater(w.state.journal.value, v.state.journal.value)
  {
    match step {
      case Enroll(uid, sub) => EnrollLater(w, uid, sub, v);
      case ReserveToken(token) => ReserveLater(w, token, v);
      case JournalMark(p) => MarkLater(w.state, p);
      case Advance(p) => AdvanceLater(w, p, v);
      case Decide(skip) => FinalizeKeepsJournal(w.state, skip);
      case Associate(endpoint, target) => AssociateForm(w, endpoint, target, v);
    }
  }

  lemma LaterReflexive(j: Journal)
    ensures JournalLater(j, j)
  {}

  lemma StepLater(w: World, step: Step, v: World)
    requires Effects(w, step, v) && NumbersOk(w.state) && w.state.journal.Some? && v.state.journal.Some?
    ensures JournalLater(w.state.journal.value, v.state.journal.value)
  {
    if WritesJournal(step) {
      WriterLater(w, step, v);
    } else {
      OthersKeepJournal(w, step, v);
      LaterReflexive(w.state.journal.value);
    }
  }

  /** As long as a ceremony lasts, whatever interrupts it, no capture is
      rewritten, no reserved token is exchanged, and no stamped profile becomes
      pending again. */
  lemma {:induction false} StampedNeverShrinks(steps: seq<Step>, worlds: seq<World>)
    requires IsStretch(steps, worlds) && forall w <- worlds :: w.state.journal.Some?
    ensures JournalLater(worlds[0].state.journal.value, worlds[|steps|].state.journal.value)
    decreases |steps|
  {
    var n := |steps|;
    if n > 0 {
      assert IsStretch(steps[..n - 1], worlds[..n]) && worlds[..n][n - 1] == worlds[n - 1];
      StampedNeverShrinks(steps[..n - 1], worlds[..n]);
      StretchReachable(steps, worlds, n - 1);
      ReachableNumbers(worlds[n - 1]);
      assert worlds[n - 1] in worlds && worlds[n] in worlds;
      StepLater(worlds[n - 1], steps[n - 1], worlds[n]);
      LaterTransitive(worlds[0].state.journal.value, worlds[n - 1].state.journal.value, worlds[n].state.journal.value);
    }
  }

  /** Within the stamping stage the number of pending profiles falls by exactly
      one at every journaled mark and never moves otherwise: with a positive
      number left at all times, the measure that makes resuming terminate. */
  lemma PendingMeasure(w: World, step: Step, v: World)
    requires StepOk(w, step, v) && NumbersOk(w.state) && InStage(w, Stamping) && InStage(v, Stamping)
    ensures |PendingSet(LastSubject(v.state.journal.value))| + (if step.JournalMark? then 1 else 0)
            == |PendingSet(LastSubject(w.state.journal.value))|
  {
    match step {
      case ReserveToken(token) => ReservePending(LastSubject(w.state.journal.value), token);
      case JournalMark(p) => MarkPending(LastSubject(w.state.journal.value), p);
      case Advance(p) => AdvanceLeavesStamping(w, p, v);
      case Associate(endpoint, target) => AssociateForm(w, endpoint, target, v);
      case _ =>
    }
  }

  lemma ReservePending(sub: Subject, token: Token)
    ensures PendingSet(sub.(token := Some(token))) == PendingSet(sub)
  {}

  lemma AdvanceLeavesStamping(w: World, p: ProfileId, v: World)
    requires AdvanceOk(w, p, v) && NumbersOk(w.state)
    ensures !InStage(v, Stamping)
  {
    AdvanceForm(w, p, v);
    FinalizeKeepsJournal(Advanced(w, p, Finalizing).state, false);
  }

  // ----- completion ----------------------------------------------------------------

  /** Mouse `d`'s stored capture describes its unit exactly, watermark apart. */
  ghost predicate Completed(v: World, d: DeviceId) {
    && d in v.owner && v.owner[d] in v.units && d in v.state.devices
    && v.state.devices[d].token.Some?
    && var u, e := v.units[v.owner[d]], v.state.devices[d].evidence;
    && e.meta.Some? && MetadataOk(|u.slots|, e.meta.value)
    && forall p: ProfileId :: (p in e.profiles <==> p <= |u.slots|)
                              && (p in e.profiles ==>
                                    Remarked(e.profiles[p], v.state.devices[d].token.value, u.slots[p - 1]))
  }

  /** A subject's unit, after its last stamp. */
  ghost predicate FullyTracked(sub: Subject, u: Unit) {
    && sub.token.Some? && sub.captured.Some? && sub.captured.value.meta.Some?
    && MetadataOk(|u.slots|, sub.captured.value.meta.value)
    && forall p: ProfileId :: (p in sub.captured.value.profiles <==> p <= |u.slots|)
         && (p in sub.captured.value.profiles ==>
            Remarked(sub.captured.value.profiles[p], sub.token.value, u.slots[p - 1]))
  }

  lemma StampedTracks(sub: Subject, u: Unit)
    requires Tracks(sub, u) && FullyStamped(sub) && UnitOk(u)
    ensures FullyTracked(sub, u)
  {
    FullyStampedIsMarked(sub, u);
    forall p: ProfileId | p in sub.captured.value.profiles
      ensures Remarked(sub.captured.value.profiles[p], sub.token.value, u.slots[p - 1])
    {
      assert SlotTracks(sub, p, u.slots[p - 1]);
    }
  }

  lemma SubjectsFullyTracked(x: World)
    requires Finishing(x)
    ensures |x.who| == |x.state.journal.value.subjects|
    ensures forall i :: 0 <= i < |x.who| ==>
              x.who[i] in x.units && FullyTracked(x.state.journal.value.subjects[i], x.units[x.who[i]])
  {
    var j := x.state.journal.value;
    forall i | 0 <= i < |x.who| ensures x.who[i] in x.units && FullyTracked(j.subjects[i], x.units[x.who[i]]) {
      assert j.subjects[i] in j.subjects && Tracks(j.subjects[i], x.units[x.who[i]]);
      StampedTracks(j.subjects[i], x.units[x.who[i]]);
    }
  }

  /** Every unit of the ceremony is now some mouse's, and every newly owned
      unit is complete. */
  ghost predicate AllCompleted(x: World, v: World) {
    && (forall uid <- x.who :: uid in v.owner.Values)
    && (forall d <- v.owner :: v.owner[d] !in x.owner.Values ==> Completed(v, d))
  }

  lemma OneCompletes(x: World, v: World)
    requires Finishing(x) && OneSubject(x) && v == Committed(x, Finalize(x.state, false).state) && v.state.journal.None?
    ensures AllCompleted(x, v)
  {
    SubjectsFullyTracked(x);
    OneForm(x.state);
    var d := Subjected(x);
    assert v.state.devices[d].evidence == x.state.journal.value.subjects[0].captured.value;
    OwnedAloneCompletes(x, d, v);
  }

  lemma OwnedAloneCompletes(x: World, d: DeviceId, v: World)
    requires x.state.journal.Some? && |x.state.journal.value.subjects| == 1 && |x.who| == 1
    requires x.who[0] in x.units && FullyTracked(x.state.journal.value.subjects[0], x.units[x.who[0]])
    requires v.units == x.units && v.owner == x.owner[d := x.who[0]] && d in v.state.devices
    requires v.state.devices[d].token == x.state.journal.value.subjects[0].token
    requires Some(v.state.devices[d].evidence) == x.state.journal.value.subjects[0].captured
    ensures AllCompleted(x, v)
  {
    assert v.owner[d] == x.who[0];
  }

  lemma TwoDevicesEvidence(s: StateFile, j: Journal, skip: bool)
    requires 1 <= s.next && |j.subjects| == 2 && j.subjects[0].captured.Some? && j.subjects[1].captured.Some?
    ensures var t := TwoDevices(s, j, skip);
            && t[s.next].evidence == j.subjects[0].captured.value
            && t[s.next + 1].evidence == j.subjects[1].captured.value
  {}

  lemma OwnedPairCompletes(x: World, a: DeviceId, b: DeviceId, v: World)
    requires x.state.journal.Some? && |x.state.journal.value.subjects| == 2 && |x.who| == 2 && a != b
    requires forall i :: 0 <= i < 2 ==>
               x.who[i] in x.units && FullyTracked(x.state.journal.value.subjects[i], x.units[x.who[i]])
    requires v.units == x.units && v.owner == map[a := x.who[0], b := x.who[1]]
    requires a in v.state.devices && b in v.state.devices
    requires var j := x.state.journal.value;
             && v.state.devices[a].token == j.subjects[0].token && v.state.devices[b].token == j.subjects[1].token
             && Some(v.state.devices[a].evidence) == j.subjects[0].captured
             && Some(v.state.devices[b].evidence) == j.subjects[1].captured
    ensures AllCompleted(x, v)
  {
    assert v.owner[a] == x.who[0] && v.owner[b] == x.who[1];
  }

  ghost predicate BothTracked(x: World) {
    && x.state.journal.Some? && |x.state.journal.value.subjects| == 2 && |x.who| == 2
    && forall i :: 0 <= i < 2 ==>
         x.who[i] in x.units && FullyTracked(x.state.journal.value.subjects[i], x.units[x.who[i]])
  }

  lemma PairCompletes(x: World, t: StateFile, skip: bool, v: World)
    requires BothTracked(x) && 1 <= x.state.next && x.state.journal.value.phase.InitialEnrollment?
    requires t.journal.None? && t.devices == TwoDevices(x.state, x.state.journal.value, skip)
    requires v == Committed(x, t)
    ensures AllCompleted(x, v)
  {
    var j := x.state.journal.value;
    TwoDevicesTokens(x.state, j, skip);
    TwoDevicesEvidence(x.state, j, skip);
    OwnedPairCompletes(x, x.state.next, x.state.next + 1, v);
  }

  lemma BothComplete(x: World, skip: bool, v: World)
    requires Finishing(x) && x.state.journal.value.phase.InitialEnrollment? && |x.state.journal.value.subjects| == 2
    requires v == Committed(x, Finalize(x.state, skip).state) && v.state.journal.None?
    ensures AllCompleted(x, v)
  {
    assert BothTracked(x) by { SubjectsFullyTracked(x); }
    EnrollmentForm(x.state, skip);
    PairCompletes(x, Finalize(x.state, skip).state, skip, v);
  }

  /** A step that ends a ceremony other than by cancelling it or associating. */
  predicate Finishes(w: World, step: Step, v: World) {
    && w.state.journal.Some? && v.state.journal.None?
    && !step.Cancel? && !step.Associate?
  }

  lemma AdoptionCompletes(w: World, uid: UnitId, sub: Subject, v: World)
    requires Inv(w) && EnrollOk(w, uid, sub, v) && v.state.journal.None?
    ensures AllCompleted(w, v) && uid in v.owner.Values
  {
    JournalFacts(w.state);
    AdmittedPushable(w, uid, sub);
    EnrollForm(w, uid, sub, v);
    var x := Pushed(w, uid, sub, Finalizing);
    PushedSafe(w, uid, sub, Finalizing);
    assert sub.token.Some? by { FullyStampedIsMarked(sub, w.units[uid]); }
    AdoptionFinishes(w, uid, sub, x);
    OneCompletes(x, v);
    assert uid in x.who && forall id <- w.who :: id in x.who;
  }

  lemma AdvanceCompletes(w: World, p: ProfileId, v: World)
    requires Inv(w) && AdvanceOk(w, p, v) && v.state.journal.None?
    ensures AllCompleted(w, v)
  {
    JournalFacts(w.state);
    AdvanceForm(w, p, v);
    SingleWorld(w);
    AdvancedFinishes(w, p);
    AdvancedSingle(w, p);
    OneCompletes(Advanced(w, p, Finalizing), v);
  }

  lemma DecideCompletes(w: World, skip: bool, v: World)
    requires Inv(w) && DecideOk(w, skip, v) && v.state.journal.None?
    ensures AllCompleted(w, v)
  {
    JournalFacts(w.state);
    assert Finishing(w);
    BothComplete(w, skip, v);
  }

  /** However often it was interrupted, a ceremony that completes leaves every
      slot of every unit it enrolls as captured except for the watermark, which
      is the new mouse's own; the stored evidence is that capture. */
  lemma CompletionKeepsEverythingElse(w: World, step: Step, v: World)
    requires Reachable(w) && StepOk(w, step, v) && Finishes(w, step, v)
    ensures AllCompleted(w, v)
    ensures step.Enroll? ==> step.uid in v.owner.Values
  {
    ReachableInv(w);
    if CanFinish(step) {
      FinisherCompletes(w, step, v);
    } else {
      OthersKeepCeremony(w, step, v);
    }
  }

  lemma FinisherCompletes(w: World, step: Step, v: World)
    requires Inv(w) && Effects(w, step, v) && CanFinish(step) && Finishes(w, step, v)
    ensures AllCompleted(w, v)
    ensures step.Enroll? ==> step.uid in v.owner.Values
  {
    match step {
      case Enroll(uid, sub) => AdoptionCompletes(w, uid, sub, v);
      case Advance(p) => AdvanceCompletes(w, p, v);
      case Decide(skip) => DecideCompletes(w, skip, v);
    }
  }

  lemma OthersKeepCeremony(w: World, step: Step, v: World)
    requires Effects(w, step, v) && w.state.journal.Some?
    requires !CanFinish(step) && !step.Cancel?
    ensures v.state.journal.Some?
  {}

  // ----- adoption --------------------------------------------------------------------

  lemma PlannedKeys(phase: Phase, adopted: Option<Token>, profiles: map<ProfileId, Image>)
    requires phase.ForeignAdoption? && adopted.Some? && StampPlan(phase, adopted, profiles).Some?
    ensures var plan := StampPlan(phase, adopted, profiles).value;
            && plan.Keys == profiles.Keys
            && forall p <- plan ::
                 && (plan[p] == Stamped <==> Status(profiles[p].dpi.tail) == Decoded.Valid(adopted.value))
                 && (plan[p] != Stamped <==> Status(profiles[p].dpi.tail) == Absent)
  {}

  /** An adoption finishes without a single watermark report exactly when every
      slot already carries the token the mouse arrived with. */
  lemma AdoptionWritesNothingIff(w: World, uid: UnitId, sub: Subject)
    requires Enrollable(w, uid, sub) && w.state.journal.value.phase.ForeignAdoption?
    ensures sub.token.Some?
    ensures FullyStamped(sub) <==> AllMarked(w.units[uid], sub.token.value)
    ensures PendingSet(sub) == {} <==> AllMarked(w.units[uid], sub.token.value)
  {
    var u, profiles := w.units[uid], sub.captured.value.profiles;
    PlannedKeys(w.state.journal.value.phase, sub.token, profiles);
    forall i | 0 <= i < |u.slots|
      ensures var p: ProfileId := i + 1;
              && p in sub.progress
              && (sub.progress[p] == Stamped <==> u.slots[i].dpi.tail == Marked(sub.token.value))
    {
      var p: ProfileId := i + 1;
      assert p in profiles && profiles[p] == u.slots[i];
    }
    if FullyStamped(sub) {
      assert PendingSet(sub) == {};
    }
    if PendingSet(sub) == {} {
      forall i | 0 <= i < |u.slots| ensures u.slots[i].dpi.tail == Marked(sub.token.value) {
        var p: ProfileId := i + 1;
        assert p !in PendingSet(sub);
      }
    }
    if AllMarked(u, sub.token.value) {
      forall p <- sub.progress ensures sub.progress[p] == Stamped {
        assert u.slots[p - 1].dpi.tail == Marked(sub.token.value);
      }
    }
  }

  /** In an adoption every profile still pending was captured without a mark. */
  ghost predicate PendingWereBlank(s: StateFile) {
    s.journal.Some? && s.journal.value.phase.ForeignAdoption? ==>
      forall sub <- s.journal.value.subjects ::
        && sub.token.Some? && sub.captured.Some? && sub.progress.Keys == sub.captured.value.profiles.Keys
        && forall p :: IsPending(sub, p) ==> Status(sub.captured.value.profiles[p].dpi.tail) == Absent
  }

  lemma EnrollKeepsBlank(w: World, uid: UnitId, sub: Subject, v: World)
    requires EnrollOk(w, uid, sub, v) && NumbersOk(w.state) && PendingWereBlank(w.state)
    ensures PendingWereBlank(v.state)
  {
    EnrollForm(w, uid, sub, v);
    FinalizeKeepsJournal(Pushed(w, uid, sub, Finalizing).state, false);
    if w.state.journal.value.phase.ForeignAdoption? {
      AdoptionWritesNothingIff(w, uid, sub);
      PlannedKeys(w.state.journal.value.phase, sub.token, sub.captured.value.profiles);
    }
  }

  lemma LaterKeepsBlank(s: StateFile, t: StateFile)
    requires PendingWereBlank(s) && s.journal.Some? && t.journal.Some?
    requires JournalLater(s.journal.value, t.journal.value) && |t.journal.value.subjects| == |s.journal.value.subjects|
    ensures PendingWereBlank(t)
  {
    var j, k := s.journal.value, t.journal.value;
    forall i | 0 <= i < |k.subjects| && k.phase.ForeignAdoption?
      ensures var sub := k.subjects[i];
              && sub.token.Some? && sub.captured.Some? && sub.progress.Keys == sub.captured.value.profiles.Keys
              && forall p :: IsPending(sub, p) ==> Status(sub.captured.value.profiles[p].dpi.tail) == Absent
    {
      assert Later(j.subjects[i], k.subjects[i]) && j.subjects[i] in j.subjects;
      forall p | IsPending(k.subjects[i], p) ensures IsPending(j.subjects[i], p) {}
    }
  }

  lemma SameSubjectCount(w: World, step: Step, v: World)
    requires Effects(w, step, v) && NumbersOk(w.state) && w.state.journal.Some? && v.state.journal.Some?
             && !step.Enroll?
    ensures |v.state.journal.value.subjects| == |w.state.journal.value.subjects|
  {
    match step {
      case Advance(p) =>
        AdvanceForm(w, p, v);
        FinalizeKeepsJournal(Advanced(w, p, Finalizing).state, false);
      case Decide(skip) => FinalizeKeepsJournal(w.state, skip);
      case Associate(endpoint, target) => AssociateForm(w, endpoint, target, v);
      case _ =>
    }
  }

  lemma StepKeepsBlank(w: World, step: Step, v: World)
    requires Effects(w, step, v) && NumbersOk(w.state) && PendingWereBlank(w.state)
    ensures PendingWereBlank(v.state)
  {
    if step.Enroll? {
      EnrollKeepsBlank(w, step.uid, step.subject, v);
    } else if v.state.journal.Some? {
      if w.state.journal.Some? {
        StepLater(w, step, v);
        SameSubjectCount(w, step, v);
        LaterKeepsBlank(w.state, v.state);
      } else {
        assert step.Begin?;
      }
    }
  }

  lemma {:induction false} RunKeepsBlank(n: nat, w: World)
    requires ReachableIn(n, w)
    ensures PendingWereBlank(w.state)
    decreases n
  {
    if n == 0 {
      assert Arrives(0, w);
    } else {
      var u, step := LastStep(n, w);
      RunKeepsBlank(n - 1, u);
      RunKeepsInv(n - 1, u);
      StepKeepsBlank(u, step, w);
    }
  }

  /** Adoption never replaces a valid watermark: the driver's own hardware
      traffic only fills tails that carried no mark at all. */
  lemma AdoptionReplacesNoMark(w: World, step: Step, v: World, uid: UnitId, i: nat)
    requires Reachable(w) && StepOk(w, step, v) && step.SendMark?
    requires w.state.journal.value.phase.ForeignAdoption?
    requires uid in w.units && uid in v.units && i < |w.units[uid].slots|
    ensures i < |v.units[uid].slots|
    ensures v.units[uid].slots[i].dpi.tail != w.units[uid].slots[i].dpi.tail ==>
              w.units[uid].slots[i].dpi.tail.Unmarked?
  {
    var n: nat :| ReachableIn(n, w);
    RunKeepsBlank(n, w);
    RunKeepsInv(n, w);
    var j := w.state.journal.value;
    SubjectTracks(w, |j.subjects| - 1);
    BlankSlotFilled(w, step.uid, step.profile, v);
  }

  /** The slot about to be stamped in an adoption is still unmarked, or already
      carries the token. */
  lemma BlankSlot(sub: Subject, u: Unit, p: ProfileId)
    requires Tracks(sub, u) && IsPending(sub, p) && p in sub.captured.value.profiles && p <= |u.slots|
    requires sub.token.Some? && Status(sub.captured.value.profiles[p].dpi.tail) == Absent
    ensures u.slots[p - 1].dpi.tail.Unmarked? || u.slots[p - 1].dpi.tail == Marked(sub.token.value)
  {
    assert SlotTracks(sub, p, u.slots[p - 1]);
  }

  lemma LastWasBlank(s: StateFile, p: ProfileId)
    requires PendingWereBlank(s) && s.journal.Some? && s.journal.value.phase.ForeignAdoption?
    requires s.journal.value.subjects != [] && IsPending(LastSubject(s.journal.value), p)
    ensures var sub := LastSubject(s.journal.value);
            && sub.token.Some? && sub.captured.Some? && p in sub.captured.value.profiles
            && Status(sub.captured.value.profiles[p].dpi.tail) == Absent
  {
    assert LastSubject(s.journal.value) in s.journal.value.subjects;
  }

  lemma BlankSlotFilled(w: World, uid: UnitId, p: ProfileId, v: World)
    requires SendMarkOk(w, uid, p, v) && PendingWereBlank(w.state)
    requires w.state.journal.value.phase.ForeignAdoption? && Tracks(LastSubject(w.state.journal.value), w.units[uid])
    ensures forall i | 0 <= i < |w.units[uid].slots| ::
              i < |v.units[uid].slots|
              && (v.units[uid].slots[i].dpi.tail != w.units[uid].slots[i].dpi.tail ==>
                 w.units[uid].slots[i].dpi.tail.Unmarked?)
  {
    LastWasBlank(w.state, p);
    BlankSlot(LastSubject(w.state.journal.value), w.units[uid], p);
  }

  // ----- what eligibility does and does not protect --------------------------------------

  /** Eligibility is decided by the current profile's mark alone: adoption takes
      exactly a usable token nobody has or reserves, everything else exactly a
      unit whose current profile is unmarked or damaged. */
  lemma AdmittedIff(s: StateFile, j: Journal, mark: Decoded)
    ensures Admit(s, j, mark).Admitted? <==>
              if j.phase.ForeignAdoption? then
                mark.Valid? && !IsReserved(mark.token) && !TokenKnown(s.devices, mark.token)
                    && !JournalReserves(j, mark.token)
              else mark.Absent? || mark.Malformed?
    ensures Admit(s, j, mark).Admitted? ==>
              Admit(s, j, mark).adopted == if j.phase.ForeignAdoption? then Some(mark.token) else None
  {}

  /** So a valid mark on a profile that is not current protects nothing: with
      the current profile unmarked, every profile is scheduled for stamping,
      whatever it carries, and such units exist. */
  lemma OtherProfilesMarksAreNotSeen(s: StateFile, j: Journal, u: Unit, profiles: map<ProfileId, Image>)
    requires UnitOk(u) && Captures(profiles, u.slots) && !j.phase.ForeignAdoption?
    requires CurrentMark(u).Absent? || CurrentMark(u).Malformed?
    ensures Admit(s, j, CurrentMark(u)) == Admitted(None)
    ensures StampPlan(j.phase, None, profiles).Some?
    ensures var plan := StampPlan(j.phase, None, profiles).value;
            plan.Keys == profiles.Keys && forall p <- plan :: plan[p] == Captured
    ensures forall t: Token :: UnitOk(MarkedElsewhere(t)) && CurrentMark(MarkedElsewhere(t)) == Absent
                               && MarkedElsewhere(t).slots[1].dpi.tail == Marked(t)
  {}

  /** A unit whose second profile, not its current one, carries a mark. */
  function MarkedElsewhere(t: Token): Unit {
    var blank := Image(Dpi([], Unmarked([])), [], [], 1000);
    Unit([blank, Image(Dpi([], Marked(t)), [], [], 1000)], Metadata(1, 2), blank)
  }

  lemma UnjournaledIsLeast(sub: Subject, u: Unit, p: ProfileId, q: ProfileId)
    requires Tracks(sub, u) && p in sub.progress && q in sub.progress && p <= |u.slots| && q <= |u.slots|
    requires sub.progress[p] != Stamped && sub.progress[q] != Stamped
    ensures u.slots[p - 1] != sub.captured.value.profiles[p] && u.slots[q - 1] != sub.captured.value.profiles[q] ==>
              p == q
  {
    assert SlotTracks(sub, p, u.slots[p - 1]) && SlotTracks(sub, q, u.slots[q - 1]);
  }

  /** Cancelling is refused once a stamp is journaled, so at most one slot of
      the presented unit can be left behind with a new watermark. */
  lemma CancelLeavesAtMostOneMark(w: World, v: World, sub: Subject, u: Unit, p: ProfileId, q: ProfileId)
    requires Reachable(w) && CancelOk(w, v) && w.state.journal.value.subjects != []
    requires sub == LastSubject(w.state.journal.value) && p in sub.progress && q in sub.progress
    requires w.who != [] && w.who[|w.who| - 1] in w.units && u == w.units[w.who[|w.who| - 1]]
    ensures sub.captured.Some? && p in sub.captured.value.profiles && q in sub.captured.value.profiles
    ensures p <= |u.slots| && q <= |u.slots|
    ensures u.slots[p - 1] != sub.captured.value.profiles[p] && u.slots[q - 1] != sub.captured.value.profiles[q] ==>
              p == q
  {
    LastTracksIfReachable(w);
    assert sub in w.state.journal.value.subjects;
    UnjournaledIsLeast(sub, u, p, q);
  }

  lemma LastTracksIfReachable(w: World)
    requires Reachable(w) && w.state.journal.Some? && w.state.journal.value.subjects != []
    ensures w.who != [] && w.who[|w.who| - 1] in w.units
    ensures Tracks(LastSubject(w.state.journal.value), w.units[w.who[|w.who| - 1]])
  {
    ReachableInv(w);
    LastTracks(w);
  }

  lemma LastTracks(w: World)
    requires SubjectsOk(w) && w.state.journal.Some? && w.state.journal.value.subjects != []
    ensures w.who != [] && w.who[|w.who| - 1] in w.units
    ensures Tracks(LastSubject(w.state.journal.value), w.units[w.who[|w.who| - 1]])
  {}

  // ----- what a restore leaves behind --------------------------------------------------

  /** Only the transition after the last stamp rotates a token. */
  lemma RotationIsAdvance(w: World, step: Step, v: World, d: DeviceId)
    requires Reachable(w) && StepOk(w, step, v)
    requires d in w.state.devices && d in v.state.devices && v.state.devices[d].token != w.state.devices[d].token
    ensures step.Advance?
  {
    RestoreRetiresToken(w, step, v, d);
    if !CanFinish(step) && !step.Cancel? { OthersKeepCeremony(w, step, v); }
    match step {
      case Enroll(uid, sub) => EnrollForm(w, uid, sub, v);
      case Associate(endpoint, target) => AssociateForm(w, endpoint, target, v);
      case _ =>
    }
  }

  /** When a restore gives mouse `d` the token of a new unit, the unit it was
      on before, connected or not, belongs to no mouse any more and shows a
      token that no mouse has. */
  lemma RestoreOrphansOldUnit(w: World, step: Step, v: World, d: DeviceId)
    requires Reachable(w) && StepOk(w, step, v)
    requires d in w.state.devices && d in v.state.devices && v.state.devices[d].token != w.state.devices[d].token
    ensures w.state.devices[d].token.Some? && d in w.owner && w.owner[d] in v.units && UnitOk(v.units[w.owner[d]])
    ensures CurrentMark(v.units[w.owner[d]]) == Decoded.Valid(w.state.devices[d].token.value)
    ensures !TokenKnown(v.state.devices, w.state.devices[d].token.value) && w.owner[d] !in v.owner.Values
  {
    RestoreRetiresToken(w, step, v, d);
    RotationIsAdvance(w, step, v, d);
    ReachableInv(w);
    assert d in w.owner by { JournalFacts(w.state); }
    OwnerShowsItsToken(w, d);
    assert v.units == w.units;
    ReachableStep(w, step, v);
    UnknownTokenUnowned(v, w.owner[d], w.state.devices[d].token.value);
  }

  lemma UnknownTokenUnowned(w: World, uid: UnitId, token: Token)
    requires Reachable(w) && uid in w.units && UnitOk(w.units[uid])
    requires CurrentMark(w.units[uid]) == Decoded.Valid(token) && !TokenKnown(w.state.devices, token)
    ensures uid !in w.owner.Values
  {
    if uid in w.owner.Values {
      var e :| e in w.owner && w.owner[e] == uid;
      OwnerShowsItsToken(w, e);
    }
  }

  // ----- ordinary updates ------------------------------------------------------------------

  /** What a profile update by a mouse with this token may do to a unit: every
      tail is kept or becomes the token's watermark. */
  ghost predicate UpdatedBy(token: Token, u: Unit, v: Unit) {
    && UnitOk(v) && |v.slots| == |u.slots|
    && forall i :: 0 <= i < |v.slots| ==>
         v.slots[i].dpi.tail == u.slots[i].dpi.tail || v.slots[i].dpi.tail == Marked(token)
  }

  ghost predicate SameTails(u: Unit, v: Unit) {
    |v.slots| == |u.slots| && forall i :: 0 <= i < |v.slots| ==> v.slots[i].dpi.tail == u.slots[i].dpi.tail
  }

  lemma OwnedSlots(w: World, e: DeviceId)
    requires OwnersOk(w) && e in w.owner
    ensures e in w.state.devices && w.state.devices[e].token.Some? && w.owner[e] in w.units
    ensures AllMarked(w.units[w.owner[e]], w.state.devices[e].token.value)
  {}

  lemma UseIsStep(w: World, uid: UnitId, v: Unit)
    requires Reachable(w) && uid in w.units && UnitOk(v) && |v.slots| == |w.units[uid].slots| && uid !in w.who
    requires uid in w.owner.Values ==> SameTails(w.units[uid], v)
    ensures Reachable(w.(units := w.units[uid := v]))
  {
    assert UseOk(w, uid, v);
    ReachableStep(w, Use(uid), w.(units := w.units[uid := v]));
  }

  /** A token of another mouse on an enrolled unit is nothing a run leads to. */
  lemma ForeignTokenUnreachable(w: World, d: DeviceId, e: DeviceId, i: nat)
    requires Reachable(w) && d in w.state.devices && e in w.owner && d != e && w.owner[e] in w.units
    requires w.state.devices[d].token.Some? && i < |w.units[w.owner[e]].slots|
    ensures w.units[w.owner[e]].slots[i].dpi.tail != Marked(w.state.devices[d].token.value)
  {
    ReachableInv(w);
    OwnedSlots(w, e);
    if w.state.devices[e].token == w.state.devices[d].token {
      OwnerMarked(w, e);
      TokensDistinct(w.state);
    }
  }

  /** An update by mouse `d` on a unit that is no subject's is one of the things
      that may happen at any time exactly when it leaves the watermarks alone or
      the unit is no other mouse's. */
  lemma UpdateReachableIff(w: World, d: DeviceId, uid: UnitId, v: Unit)
    requires Reachable(w) && d in w.state.devices && w.state.devices[d].token.Some?
    requires uid in w.units && uid !in w.who && UpdatedBy(w.state.devices[d].token.value, w.units[uid], v)
    ensures Reachable(w.(units := w.units[uid := v])) <==>
              SameTails(w.units[uid], v) || forall e <- w.owner :: w.owner[e] == uid ==> e == d
  {
    ReachableInv(w);
    var x := w.(units := w.units[uid := v]);
    if SameTails(w.units[uid], v) {
      UseIsStep(w, uid, v);
    } else if e :| e in w.owner && w.owner[e] == uid && e != d {
      var i :| 0 <= i < |v.slots| && v.slots[i].dpi.tail != w.units[uid].slots[i].dpi.tail;
      if Reachable(x) { ForeignTokenUnreachable(x, d, e, i); }
    } else {
      if uid in w.owner.Values { OwnUpdateKeepsTails(w, d, uid, v); }
      UseIsStep(w, uid, v);
    }
  }

  lemma OwnUpdateKeepsTails(w: World, d: DeviceId, uid: UnitId, v: Unit)
    requires OwnersOk(w) && d in w.owner && w.owner[d] == uid && uid in w.units && d in w.state.devices
    requires w.state.devices[d].token.Some? && UpdatedBy(w.state.devices[d].token.value, w.units[uid], v)
    ensures SameTails(w.units[uid], v)
  {
    OwnedSlots(w, d);
  }

  /** An update by mouse `d` on any unit whose current watermark is that mouse's
      token, its own or a copy, and which is no subject's, leads to a reachable
      state: the check in front of every session is what keeps the rest of the
      guarantees. */
  lemma AuthenticatedUpdateIsUse(w: World, d: DeviceId, uid: UnitId, v: Unit)
    requires Reachable(w) && d in w.state.devices && w.state.devices[d].token.Some?
    requires uid in w.units && uid !in w.who && UnitOk(w.units[uid])
    requires CurrentMark(w.units[uid]) == Decoded.Valid(w.state.devices[d].token.value)
    requires UpdatedBy(w.state.devices[d].token.value, w.units[uid], v)
    ensures Reachable(w.(units := w.units[uid := v]))
  {
    forall e | e in w.owner && w.owner[e] == uid ensures e == d { OwnerShowsItsToken(w, e); }
    UpdateReachableIff(w, d, uid, v);
  }

  /** Without it they are lost: an update by mouse `d` that marks another
      mouse's unit leads to a state that no run reaches. */
  lemma MisdirectedUpdateUnreachable(w: World, d: DeviceId, e: DeviceId, v: Unit)
    requires Reachable(w) && d in w.state.devices && w.state.devices[d].token.Some? && e in w.owner && e != d
    requires w.owner[e] in w.units && UpdatedBy(w.state.devices[d].token.value, w.units[w.owner[e]], v)
    requires !SameTails(w.units[w.owner[e]], v)
    ensures !Reachable(w.(units := w.units[w.owner[e] := v]))
  {
    NoUnitEnrolledTwice(w);
    assert w.owner[e] !in w.who;
    UpdateReachableIff(w, d, w.owner[e], v);
  }
}
