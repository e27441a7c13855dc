/** Where a ceremony can end badly: errors that leave a trace in the document,
    and ceremonies that nothing can finish or cancel any more. */
module CeremonyLimits {
  import opened Hardware
  import opened State
  import opened Ceremony
  import opened CeremonySafety
  import opened CeremonyTheorems
  import opened CeremonyProgress
  import opened CeremonyCommits

  // ----- errors that leave a trace ---------------------------------------------------

  /** The closure failed, and what it left behind is committed all the same. */
  predicate LeavesTrace(s: StateFile, m: Mutation) {
    m.error.Some? && m.state != s && Validate(m.state)
  }

  /** The migration decision fails exactly when two numbers are not left, and
      leaves a trace exactly when one is: that one is used up. */
  lemma DecideTraceIff(s: StateFile, skip: bool)
    requires Validate(s) && s.journal.Some? && ReadyToDecide(s.journal.value)
    ensures var m := Finalize(s, skip);
            && (m.error.Some? <==> s.next + 1 >= MAX_NUMBER)
            && (LeavesTrace(s, m) <==> s.next + 1 == MAX_NUMBER)
            && (LeavesTrace(s, m) ==> m.state == s.(next := MAX_NUMBER))
  {
    AllocateTakesNext(s);
    var t := s.(next := s.next + 1);
    AllocateTakesNext(t);
    if s.next + 1 < MAX_NUMBER {
      var u := s.(next := s.next + 2);
      assert AllocateMany(u, 0) == Taken(u, []);
      assert AllocateMany(t, 1).Taken?;
    } else if s.next + 1 == MAX_NUMBER {
      assert AllocateMany(t, 1) == Short(t);
      NextBumpValid(s, t);
    }
  }

  lemma NextBumpValid(s: StateFile, t: StateFile)
    requires Validate(s) && t == s.(next := s.next + 1)
    ensures Validate(t)
  {
    if s.journal.Some? {
      assert JournalOk(t, s.journal.value) by {
        forall sub | sub in s.journal.value.subjects ensures SubjectOk(t, sub) { assert SubjectOk(s, sub); }
        assert ShapeOk(t, s.journal.value) by { assert ShapeOk(s, s.journal.value); }
      }
    }
  }

  /** The phases whose completion creates one mouse, and so needs a number. */
  predicate NeedsNumber(phase: Phase) {
    phase.AddMouse? || phase.ForeignAdoption?
  }

  lemma OneMouseErrorIff(x: StateFile)
    requires Validate(x) && x.journal.Some? && x.journal.value.stage.Finalizing?
    requires x.journal.value.phase in {AddMouse, ForeignAdoption, Restore}
    ensures var m := Finalize(x, false);
            && (m.error.Some? <==> NeedsNumber(x.journal.value.phase) && x.next >= MAX_NUMBER)
            && (m.error.Some? ==> m == Mutation(x, Some(NumberOverflow)))
  {
    var sub := x.journal.value.subjects[0];
    assert sub in x.journal.value.subjects && SubjectOk(x, sub);
    AllocateTakesNext(x);
  }

  /** One profile of the last subject is left to journal, and every earlier
      subject is stamped. */
  ghost predicate LastToStamp(s: StateFile, p: ProfileId) {
    && Validate(s) && s.journal.Some? && s.journal.value.stage.Stamping? && s.journal.value.subjects != []
    && var j := s.journal.value;
    && LastSubject(j).token.Some? && PendingSet(LastSubject(j)) == {p}
    && forall i | 0 <= i < |j.subjects| - 1 :: j.subjects[i].token.Some? && FullyStamped(j.subjects[i])
  }

  lemma IsLastToStamp(w: World, p: ProfileId)
    requires Inv(w) && InStage(w, Stamping)
    requires var sub := LastSubject(w.state.journal.value); sub.token.Some? && PendingSet(sub) == {p}
    ensures LastToStamp(w.state, p)
  {
    EarlierStamped(w);
  }

  /** The journal after the last stamp is accepted at its next stage. */
  lemma LastParks(s: StateFile, p: ProfileId)
    requires LastToStamp(s, p)
    ensures 1 <= s.next && !s.journal.value.phase.BleAssociation?
    ensures !s.journal.value.phase.InitialEnrollment? ==> |s.journal.value.subjects| == 1
    ensures Validate(Parked(s, p, if AwaitSecond(s.journal.value) then AwaitingCapture else Finalizing))
  {
    ParkedAccepted(s, p, if AwaitSecond(s.journal.value) then AwaitingCapture else Finalizing);
  }

  lemma EnrollmentParks(s: StateFile, p: ProfileId)
    requires 1 <= s.next && s.journal.Some? && s.journal.value.subjects != []
    requires s.journal.value.phase.InitialEnrollment?
    ensures AdvanceCommit(s, p, AwaitSecond(s.journal.value)) ==
              Mutation(Parked(s, p, if AwaitSecond(s.journal.value) then AwaitingCapture else Finalizing), None)
  {}

  lemma OtherFinalizes(s: StateFile, p: ProfileId)
    requires 1 <= s.next && s.journal.Some? && s.journal.value.subjects != []
    requires !s.journal.value.phase.InitialEnrollment?
    ensures AdvanceCommit(s, p, AwaitSecond(s.journal.value)) == Finalize(Parked(s, p, Finalizing), false)
  {}

  /** The transition after the last stamp fails exactly when it needs a number
      and none is left; the document then keeps the ceremony, parked. */
  lemma TransitionTraceIff(s: StateFile, p: ProfileId)
    requires LastToStamp(s, p)
    ensures 1 <= s.next
    ensures var j := s.journal.value;
            var m := AdvanceCommit(s, p, AwaitSecond(j));
            && (m.error.Some? <==> NeedsNumber(j.phase) && s.next >= MAX_NUMBER)
            && (LeavesTrace(s, m) <==> m.error.Some?)
            && (m.error.Some? ==> m == Mutation(Parked(s, p, Finalizing), Some(NumberOverflow)))
  {
    LastParks(s, p);
    if s.journal.value.phase.InitialEnrollment? {
      EnrollmentParks(s, p);
    } else {
      OtherFinalizes(s, p);
      OneMouseErrorIff(Parked(s, p, Finalizing));
    }
  }

  lemma EarlierStamped(w: World)
    requires Safe(w) && w.state.journal.Some?
    ensures var j := w.state.journal.value;
            forall i | 0 <= i < |j.subjects| - 1 :: j.subjects[i].token.Some? && FullyStamped(j.subjects[i])
  {
    var j := w.state.journal.value;
    forall i | 0 <= i < |j.subjects| - 1 ensures j.subjects[i].token.Some? && FullyStamped(j.subjects[i]) {
      SubjectTracks(w, i);
      FullyStampedIsMarked(j.subjects[i], w.units[w.who[i]]);
    }
  }

  /** Journaling a capture fails exactly for an adoption with nothing left to
      stamp and no number left; the document then holds it, parked. */
  lemma EnrollTraceIff(w: World, uid: UnitId, sub: Subject)
    requires Validate(w.state) && Enrollable(w, uid, sub)
    ensures 1 <= w.state.next
    ensures var s, m := w.state, EnrollCommit(w.state, sub);
            && (m.error.Some? <==> s.journal.value.phase.ForeignAdoption? && FullyStamped(sub) && s.next >= MAX_NUMBER)
            && (LeavesTrace(s, m) <==> m.error.Some?)
            && (m.error.Some? ==> m == Mutation(PushedState(s, sub, Finalizing), Some(NumberOverflow)))
  {
    var s, j := w.state, w.state.journal.value;
    if j.phase.ForeignAdoption? && FullyStamped(sub) {
      EnrollablePlanned(w, uid, sub);
      PushedAccepted(s, sub, Finalizing);
      OneMouseErrorIff(PushedState(s, sub, Finalizing));
      assert EnrollCommit(s, sub) == Finalize(PushedState(s, sub, Finalizing), false);
    }
  }

  // ----- dead ends -------------------------------------------------------------------------

  /** A decision that validation or the numbers refuse, a stamped addition,
      adoption or restore that is parked, or one past cancelling whose last
      stamp will not be accepted. */
  predicate Stuck(s: StateFile) {
    && s.journal.Some?
    && var j := s.journal.value;
    || (ReadyToDecide(j) && (s.mapping != map[] || s.next + 1 >= MAX_NUMBER || !CoherentSubjects(j)))
    || (j.stage.Finalizing? && !j.phase.InitialEnrollment?)
    || (j.stage.Stamping? && Unstorable(s, j) && !Cancellable(j))
  }

  /** No number, or no endpoint to store the mouse of this ceremony with. */
  predicate Unstorable(s: StateFile, j: Journal) {
    || (!j.phase.InitialEnrollment? && !CoherentSubjects(j))
    || (NeedsNumber(j.phase) && s.next >= MAX_NUMBER)
  }

  /** Some call can still be made that a working system accepts: cancelling,
      stamping on, presenting the second mouse, or deciding. */
  predicate CanGoOn(s: StateFile) {
    && s.journal.Some?
    && var j := s.journal.value;
    || Cancellable(j) || (j.stage.Stamping? && !Unstorable(s, j))
    || (j.phase.InitialEnrollment? && j.stage.AwaitingCapture?)
    || (ReadyToDecide(j) && s.mapping == map[] && s.next + 1 < MAX_NUMBER && CoherentSubjects(j))
  }

  lemma StampedIsFinal(sub: Subject, u: Unit)
    requires Tracks(sub, u) && FullyStamped(sub) && UnitOk(u)
    ensures exists p :: p in sub.progress && sub.progress[p] == Stamped
  {
    var one: ProfileId := 1;
    assert one in sub.captured.value.profiles;
  }

  lemma StuckFacts(w: World)
    requires Inv(w) && Stuck(w.state)
    ensures !Cancellable(w.state.journal.value) && !w.state.journal.value.stage.AwaitingCapture?
  {
    JournalFacts(w.state);
    var j := w.state.journal.value;
    if j.stage.Finalizing? {
      assert !j.phase.BleAssociation? by { assert SubjectsOk(w); }
      assert j.subjects[0] in j.subjects && FullyStamped(j.subjects[0]);
      SubjectTracks(w, 0);
      StampedIsFinal(j.subjects[0], w.units[w.who[0]]);
    }
  }

  lemma AwaitingFacts(w: World)
    requires Inv(w) && w.state.journal.Some? && w.state.journal.value.stage.AwaitingCapture?
    ensures Cancellable(w.state.journal.value) || w.state.journal.value.phase.InitialEnrollment?
  {
    JournalFacts(w.state);
  }

  lemma FinalizingFacts(w: World)
    requires Inv(w) && w.state.journal.Some? && w.state.journal.value.stage.Finalizing?
    ensures w.state.journal.value.phase.InitialEnrollment? ==> ReadyToDecide(w.state.journal.value)
  {
    JournalFacts(w.state);
  }

  /** In every reachable state of every ceremony, either some call goes on from
      it or it is a dead end; never both, never neither. */
  lemma DeadEndIff(w: World)
    requires Reachable(w) && w.state.journal.Some?
    ensures CanGoOn(w.state) <==> !Stuck(w.state)
  {
    ReachableInv(w);
    var j := w.state.journal.value;
    if Stuck(w.state) { StuckFacts(w); }
    if j.stage.AwaitingCapture? { AwaitingFacts(w); }
    if j.stage.Finalizing? { FinalizingFacts(w); }
  }

  // ----- dead ends are for good ------------------------------------------------------------

  lemma DecideRefused(s: StateFile, skip: bool)
    requires s.journal.Some? && ReadyToDecide(s.journal.value)
    requires Validate(s) && (s.mapping != map[] || !CoherentSubjects(s.journal.value)) && s.next + 1 < MAX_NUMBER
    ensures !Validate(Finalize(s, skip).state)
  {
    DecideAcceptedIff(s, skip);
  }

  lemma DecideStaysStuck(w: World, skip: bool, v: World)
    requires Validate(w.state) && Stuck(w.state) && DecideOk(w, skip, v)
    requires v.state == w.state || Validate(v.state)
    ensures v.state.journal == w.state.journal && v.state.mapping == w.state.mapping && w.state.next <= v.state.next
  {
    EnrollmentForm(w.state, skip);
    if w.state.next + 1 < MAX_NUMBER { DecideRefused(w.state, skip); }
  }

  lemma OthersStayStuck(w: World, step: Step, v: World)
    requires Effects(w, step, v) && w.state.journal.Some? && v.state.journal.Some?
    requires !WritesJournal(step)
    ensures v.state.journal == w.state.journal && w.state.mapping.Keys <= v.state.mapping.Keys
            && w.state.next <= v.state.next
  {}

  /** All that a parked ceremony still takes part in. */
  lemma ParkedSteps(w: World, step: Step, v: World)
    requires Effects(w, step, v) && w.state.journal.Some? && w.state.journal.value.stage.Finalizing?
    requires !Cancellable(w.state.journal.value)
    ensures step.Decide? || (!WritesJournal(step) && v.state.journal.Some?)
  {
    if step.Associate? { AssociateForm(w, step.endpoint, step.target, v); }
  }

  lemma ParkedStep(w: World, step: Step, v: World)
    requires Inv(w) && Stuck(w.state) && StepOk(w, step, v) && w.state.journal.value.stage.Finalizing?
    ensures v.state.journal == w.state.journal && Stuck(v.state)
  {
    assert !Cancellable(w.state.journal.value) by { StuckFacts(w); }
    ParkedSteps(w, step, v);
    if step.Decide? { DecideStaysStuck(w, step.skip, v); } else { OthersStayStuck(w, step, v); }
  }

  lemma StampsStay(j: Journal, k: Journal)
    requires JournalLater(j, k) && !Cancellable(j)
    ensures !Cancellable(k)
  {
    var sub :| sub in j.subjects && exists p :: p in sub.progress && sub.progress[p] == Stamped;
    var p :| p in sub.progress && sub.progress[p] == Stamped;
    var i :| 0 <= i < |j.subjects| && j.subjects[i] == sub;
    assert Later(j.subjects[i], k.subjects[i]);
    assert k.subjects[i] in k.subjects && k.subjects[i].progress[p] == Stamped;
  }

  lemma UnstorableStays(s: StateFile, t: StateFile, j: Journal, k: Journal)
    requires JournalLater(j, k) && Unstorable(s, j) && s.next <= t.next
    ensures Unstorable(t, k)
  {
    if !CoherentSubjects(j) {
      var sub :| sub in j.subjects && !Coherent(sub.endpoint);
      var i :| 0 <= i < |j.subjects| && j.subjects[i] == sub;
      assert Later(j.subjects[i], k.subjects[i]);
      assert k.subjects[i] in k.subjects;
    }
  }

  lemma UnstorableFinal(x: StateFile)
    requires Validate(x) && x.journal.Some? && x.journal.value.stage.Finalizing?
    requires x.journal.value.phase in {AddMouse, ForeignAdoption, Restore}
    requires Unstorable(x, x.journal.value) && Validate(Finalize(x, false).state)
    ensures Finalize(x, false).state == x
  {
    var j := x.journal.value;
    assert CoherentSubjects(j) <==> Coherent(j.subjects[0].endpoint) by { assert j.subjects == [j.subjects[0]]; }
    FinalizeOneAcceptedIff(x);
    OneMouseErrorIff(x);
  }

  lemma ParkedLater(s: StateFile, p: ProfileId)
    requires s.journal.Some? && s.journal.value.subjects != [] && p in LastSubject(s.journal.value).progress
    ensures JournalLater(s.journal.value, Parked(s, p, Finalizing).journal.value)
  {
    MarkLater(s, p);
  }

  /** What stamping on can lead to when the mouse cannot be stored. */
  lemma UnstorableTransition(s: StateFile, p: ProfileId)
    requires LastToStamp(s, p) && Unstorable(s, s.journal.value) && 1 <= s.next
    requires Validate(AdvanceCommit(s, p, AwaitSecond(s.journal.value)).state)
    ensures AdvanceCommit(s, p, AwaitSecond(s.journal.value)).state == Parked(s, p, Finalizing)
  {
    var x := Parked(s, p, Finalizing);
    LastParks(s, p);
    OtherFinalizes(s, p);
    assert p in PendingSet(LastSubject(s.journal.value));
    ParkedLater(s, p);
    UnstorableStays(s, x, s.journal.value, x.journal.value);
    UnstorableFinal(x);
  }

  lemma UnstorableAdvance(w: World, p: ProfileId, v: World)
    requires Inv(w) && AdvanceOk(w, p, v) && Validate(v.state) && Unstorable(w.state, w.state.journal.value)
    ensures v.state == Parked(w.state, p, Finalizing) && !w.state.journal.value.phase.InitialEnrollment?
  {
    IsLastToStamp(w, p);
    assert v.state == AdvanceCommit(w.state, p, AwaitSecond(w.state.journal.value)).state;
    UnstorableTransition(w.state, p);
  }

  lemma StampingOrParked(w: World, step: Step, v: World)
    requires Effects(w, step, v) && NumbersOk(w.state) && w.state.journal.Some? && v.state.journal.Some?
    requires w.state.journal.value.stage.Stamping? && !step.Advance?
    ensures v.state.journal.value.stage.Stamping?
  {
    match step {
      case Associate(endpoint, target) => AssociateForm(w, endpoint, target, v);
      case JournalMark(p) => MarkedStaysStamping(w.state, p);
      case _ =>
    }
  }

  lemma StampingStays(w: World, step: Step, v: World)
    requires Effects(w, step, v) && w.state.journal.Some? && w.state.journal.value.stage.Stamping?
    requires !Cancellable(w.state.journal.value) && !step.Advance?
    ensures v.state.journal.Some?
  {
    if step.Associate? { AssociateForm(w, step.endpoint, step.target, v); }
  }

  lemma UnstorableStep(w: World, step: Step, v: World)
    requires Inv(w) && Stuck(w.state) && StepOk(w, step, v) && w.state.journal.value.stage.Stamping?
    ensures Stuck(v.state) && JournalLater(w.state.journal.value, v.state.journal.value)
  {
    assert NumbersOk(w.state);
    var j := w.state.journal.value;
    if step.Advance? {
      AdvanceChanges(w, step.profile, v);
      UnstorableAdvance(w, step.profile, v);
      AdvanceLater(w, step.profile, v);
    } else {
      StampingStays(w, step, v);
      StampingOrParked(w, step, v);
      StepLater(w, step, v);
      StampsStay(j, v.state.journal.value);
      StepEvolves(w, step, v);
      UnstorableStays(w.state, v.state, j, v.state.journal.value);
    }
  }

  lemma AdvanceChanges(w: World, p: ProfileId, v: World)
    requires AdvanceOk(w, p, v) && NumbersOk(w.state)
    ensures v.state != w.state
  {
    AdvanceLeavesStamping(w, p, v);
  }

  lemma StuckStep(w: World, step: Step, v: World)
    requires Inv(w) && Stuck(w.state) && StepOk(w, step, v)
    ensures Stuck(v.state) && JournalLater(w.state.journal.value, v.state.journal.value)
  {
    if w.state.journal.value.stage.Finalizing? {
      ParkedStep(w, step, v);
      LaterReflexive(w.state.journal.value);
    } else {
      assert w.state.journal.value.stage.Stamping? by { StuckFacts(w); }
      UnstorableStep(w, step, v);
    }
  }

  /** Nothing the program or the environment can do ever ends a ceremony that
      has reached a dead end: forgetting, remembering, replugging and calling
      again all leave its journal in place. */
  lemma {:induction false} DeadEndIsForGood(steps: seq<Step>, worlds: seq<World>)
    requires IsStretch(steps, worlds) && Stuck(worlds[0].state)
    ensures Stuck(worlds[|steps|].state)
    ensures JournalLater(worlds[0].state.journal.value, worlds[|steps|].state.journal.value)
    decreases |steps|
  {
    var n := |steps|;
    if n == 0 {
      LaterReflexive(worlds[0].state.journal.value);
    } else {
      assert IsStretch(steps[..n - 1], worlds[..n]);
      DeadEndIsForGood(steps[..n - 1], worlds[..n]);
      StretchReachable(steps, worlds, n - 1);
      ReachableInv(worlds[n - 1]);
      StuckStep(worlds[n - 1], steps[n - 1], worlds[n]);
      LaterTransitive(worlds[0].state.journal.value, worlds[n - 1].state.journal.value, worlds[n].state.journal.value);
    }
  }

  // ----- outside initial enrollment only numbers run out ------------------------------------

  /** A parked addition, adoption or restore means the numbers have run out. */
  predicate ParkedForNumbers(s: StateFile) {
    s.journal.Some? && s.journal.value.stage.Finalizing? && !s.journal.value.phase.InitialEnrollment? ==>
      s.next >= MAX_NUMBER
  }

  lemma AdvanceParks(w: World, p: ProfileId, v: World)
    requires Inv(w) && AdvanceOk(w, p, v)
    ensures ParkedForNumbers(v.state)
  {
    AdvanceForm(w, p, v);
    if !w.state.journal.value.phase.InitialEnrollment? {
      SingleWorld(w);
      AdvancedSingle(w, p);
      OneDevice(Advanced(w, p, Finalizing));
      OneForm(Advanced(w, p, Finalizing).state);
    }
  }

  lemma FinalizeParks(x: StateFile)
    requires Validate(x) && x.journal.Some? && x.journal.value.stage.Finalizing?
    requires x.journal.value.phase in {AddMouse, ForeignAdoption, Restore}
    ensures ParkedForNumbers(Finalize(x, false).state)
  {
    OneMouseErrorIff(x);
  }

  lemma EnrollParks(w: World, uid: UnitId, sub: Subject, v: World)
    requires Inv(w) && EnrollOk(w, uid, sub, v)
    ensures ParkedForNumbers(v.state)
  {
    EnrollForm(w, uid, sub, v);
    if w.state.journal.value.phase.ForeignAdoption? && FullyStamped(sub) {
      var x := PushedState(w.state, sub, Finalizing);
      EnrollablePlanned(w, uid, sub);
      PushedAccepted(w.state, sub, Finalizing);
      assert x == Pushed(w, uid, sub, Finalizing).state;
      FinalizeParks(x);
    }
  }

  lemma WriterParks(w: World, step: Step, v: World)
    requires Inv(w) && Effects(w, step, v) && WritesJournal(step) && ParkedForNumbers(w.state)
    ensures ParkedForNumbers(v.state)
  {
    match step {
      case Enroll(uid, sub) => EnrollParks(w, uid, sub, v);
      case Advance(p) => AdvanceParks(w, p, v);
      case Decide(skip) => FinalizeKeepsJournal(w.state, skip);
      case Associate(endpoint, target) => AssociateForm(w, endpoint, target, v);
      case ReserveToken(token) =>
      case JournalMark(p) => MarkedStaysStamping(w.state, p);
    }
  }

  lemma MarkedStaysStamping(s: StateFile, p: ProfileId)
    requires s.journal.Some? && s.journal.value.subjects != []
    ensures MarkCommit(s, p).journal.Some? && MarkCommit(s, p).journal.value.stage == s.journal.value.stage
  {}

  lemma StepParks(w: World, step: Step, v: World)
    requires Inv(w) && StepOk(w, step, v) && ParkedForNumbers(w.state)
    ensures ParkedForNumbers(v.state)
  {
    if WritesJournal(step) {
      WriterParks(w, step, v);
    } else if v.state.journal.Some? && w.state.journal.Some? {
      OthersStayStuck(w, step, v);
    }
  }

  lemma LastStepParks(n: nat, w: World)
    requires n > 0 && ReachableIn(n, w) && forall u | ReachableIn(n - 1, u) :: ParkedForNumbers(u.state)
    ensures ParkedForNumbers(w.state)
  {
    var u, step := LastStep(n, w);
    RunKeepsInv(n - 1, u);
    StepParks(u, step, w);
  }

  lemma {:induction false} RunParks(n: nat, w: World)
    requires ReachableIn(n, w)
    ensures ParkedForNumbers(w.state)
    decreases n
  {
    if n == 0 {
      assert Arrives(0, w);
    } else {
      forall u | ReachableIn(n - 1, u) ensures ParkedForNumbers(u.state) { RunParks(n - 1, u); }
      LastStepParks(n, w);
    }
  }

  /** So a ceremony on endpoints as the transports list them can only get stuck
      over remembered endpoints, in an initial enrollment, or over mouse
      numbers. */
  lemma StuckOnlyOver(w: World)
    requires Reachable(w) && Stuck(w.state)
    ensures w.state.next + 1 >= MAX_NUMBER || !CoherentSubjects(w.state.journal.value)
            || (ReadyToDecide(w.state.journal.value) && w.state.mapping != map[])
  {
    var n: nat :| ReachableIn(n, w);
    RunParks(n, w);
  }
}
