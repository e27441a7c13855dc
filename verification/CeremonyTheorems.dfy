/** What the invariant means: the journal and the hardware agree across every
    crash, no unit is enrolled twice, tokens and numbers identify for good. */
module CeremonyTheorems {
  import opened Watermark
  import opened Hardware
  import opened State
  import opened Ceremony
  import opened CeremonySafety

  lemma InitialInv(w: World)
    requires Initial(w)
    ensures Inv(w)
  {}

  lemma LastStep(n: nat, w: World) returns (u: World, step: Step)
    requires n > 0 && ReachableIn(n, w)
    ensures ReachableIn(n - 1, u) && StepOk(u, step, w)
  {
    assert Arrives(n, w);
    u, step :| ReachableIn(n - 1, u) && StepOk(u, step, w);
  }

  /** Every state of every run satisfies the invariant. */
  lemma {:induction false} RunKeepsInv(n: nat, w: World)
    requires ReachableIn(n, w)
    ensures Inv(w)
    decreases n
  {
    if n == 0 {
      assert Arrives(0, w);
      InitialInv(w);
    } else {
      var u, step := LastStep(n, w);
      RunKeepsInv(n - 1, u);
      StepKeepsInv(u, step, w);
    }
  }

  lemma ReachableInv(w: World)
    requires Reachable(w)
    ensures Inv(w)
  {
    var n: nat :| ReachableIn(n, w);
    RunKeepsInv(n, w);
  }

  /** Reachable states are closed under steps, so a theorem about them is a
      theorem about every state of every run. */
  lemma ReachableStep(w: World, step: Step, v: World)
    requires Reachable(w) && StepOk(w, step, v)
    ensures Reachable(v)
  {
    var n: nat :| ReachableIn(n, w);
    assert Arrives(n + 1, v);
    assert ReachableIn(n + 1, v);
  }

  // ----- journal and hardware ----------------------------------------------------

  lemma SubjectTracks(w: World, i: nat)
    requires Safe(w) && w.state.journal.Some? && i < |w.state.journal.value.subjects|
    ensures i < |w.who| && w.who[i] in w.units && Tracks(w.state.journal.value.subjects[i], w.units[w.who[i]])
    ensures UnitOk(w.units[w.who[i]])
  {}

  /** A profile journaled as stamped really holds its captured image with the
      subject's watermark; before a token is reserved nothing on the unit has
      changed; and of the pending profiles only the least can already carry an
      un-journaled watermark. */
  lemma JournalMatchesHardware(w: World, i: nat, p: ProfileId)
    requires Reachable(w) && w.state.journal.Some? && i < |w.state.journal.value.subjects|
    requires p in w.state.journal.value.subjects[i].progress
    ensures var sub := w.state.journal.value.subjects[i];
            && i < |w.who| && w.who[i] in w.units && p <= |w.units[w.who[i]].slots|
            && sub.captured.Some? && p in sub.captured.value.profiles
            && var slot, image := w.units[w.who[i]].slots[p - 1], sub.captured.value.profiles[p];
            && (sub.progress[p] == Stamped ==> sub.token.Some? && Remarked(image, sub.token.value, slot))
            && (sub.token.None? ==> slot == image)
            && (sub.progress[p] != Stamped && slot != image ==>
                  sub.token.Some? && Remarked(image, sub.token.value, slot)
                  && forall q: ProfileId :: IsPending(sub, q) ==> p <= q)
  {
    ReachableInv(w);
    SubjectTracks(w, i);
    assert SlotTracks(w.state.journal.value.subjects[i], p, w.units[w.who[i]].slots[p - 1]);
  }

  lemma NoPendingMeansStamped(sub: Subject)
    requires PendingSet(sub) == {} && sub.captured.Some? && sub.progress.Keys == sub.captured.value.profiles.Keys
    ensures FullyStamped(sub)
  {
    forall p | p in sub.progress ensures sub.progress[p] == Stamped { assert p !in PendingSet(sub); }
  }

  /** The stamping stage always has work left, so resuming it makes progress;
      and the watermark reports sent so far never exceed the profiles that were
      pending when the subject was captured plus the interruptions since. */
  lemma StampingHasWorkAndIsBounded(w: World)
    requires Reachable(w) && InStage(w, Stamping)
    ensures PendingSet(LastSubject(w.state.journal.value)) != {}
    ensures w.sent <= w.plan + w.breaks
  {
    ReachableInv(w);
    StampingBounded(w);
  }

  lemma StampingBounded(w: World)
    requires Safe(w) && InStage(w, Stamping) && Validate(w.state)
    ensures PendingSet(LastSubject(w.state.journal.value)) != {}
    ensures w.sent <= w.plan + w.breaks
  {
    JournalFacts(w.state);
    var sub := LastSubject(w.state.journal.value);
    SubjectTracks(w, |w.state.journal.value.subjects| - 1);
    if PendingSet(sub) == {} { NoPendingMeansStamped(sub); }
    assert |PendingSet(sub)| >= 1;
    assert CountOk(w);
  }

  // ----- who is who ----------------------------------------------------------------

  /** No unit is ever enrolled under two mice, and no unit of a ceremony in
      progress is enrolled or presented twice. */
  lemma NoUnitEnrolledTwice(w: World)
    requires Reachable(w)
    ensures forall d, e | d in w.owner && e in w.owner && w.owner[d] == w.owner[e] :: d == e
    ensures forall i, k | 0 <= i < k < |w.who| :: w.who[i] != w.who[k]
    ensures forall i | 0 <= i < |w.who| :: w.who[i] !in w.owner.Values
  {
    ReachableInv(w);
    forall d, e | d in w.owner && e in w.owner && w.owner[d] == w.owner[e] ensures d == e {
      OwnedTogether(w, d, e);
    }
    if w.state.journal.Some? { WhoDistinct(w); }
  }

  lemma WhoDistinct(w: World)
    requires SubjectsOk(w)
    ensures forall i, k | 0 <= i < k < |w.who| :: w.who[i] != w.who[k]
    ensures forall i | 0 <= i < |w.who| :: w.who[i] !in w.owner.Values
  {}

  lemma OwnedTogether(w: World, d: DeviceId, e: DeviceId)
    requires OwnersOk(w) && ModeOk(w.state) && (forall id <- w.units :: UnitOk(w.units[id]))
    requires d in w.owner && e in w.owner && w.owner[d] == w.owner[e]
    ensures d == e
  {
    var u := w.units[w.owner[d]];
    assert AllMarked(u, w.state.devices[d].token.value) && AllMarked(u, w.state.devices[e].token.value);
    assert u.slots[0].dpi.tail == Tail.Marked(w.state.devices[d].token.value);
  }

  /** The program admits a unit to a ceremony only if it is neither an enrolled
      mouse's unit nor the unit of an earlier subject: the second mouse of an
      initial enrollment is not the first one again, whichever profile either
      has current. */
  lemma AdmittedIsNew(w: World, uid: UnitId, sub: Subject)
    requires Reachable(w) && Enrollable(w, uid, sub)
    ensures uid !in w.owner.Values && uid !in w.who
  {
    ReachableInv(w);
    JournalFacts(w.state);
    AdmittedUnitIsFresh(w, uid, sub);
  }

  /** Conversely an enrolled mouse on its own unit is recognized whichever
      profile is current: its token, and no other mouse's, is what it shows. */
  lemma OwnerShowsItsToken(w: World, d: DeviceId)
    requires Reachable(w) && d in w.owner
    ensures w.owner[d] in w.units && UnitOk(w.units[w.owner[d]]) && d in w.state.devices
    ensures w.state.devices[d].token.Some?
    ensures CurrentMark(w.units[w.owner[d]]) == Decoded.Valid(w.state.devices[d].token.value)
    ensures forall e | e in w.state.devices && w.state.devices[e].token == w.state.devices[d].token :: e == d
  {
    ReachableInv(w);
    OwnerMarked(w, d);
    TokensDistinct(w.state);
  }

  lemma OwnerMarked(w: World, d: DeviceId)
    requires Safe(w) && d in w.owner
    ensures w.owner[d] in w.units && UnitOk(w.units[w.owner[d]]) && d in w.state.devices && w.state.mode.Persistent?
    ensures w.state.devices[d].token.Some? && !IsReserved(w.state.devices[d].token.value)
    ensures CurrentMark(w.units[w.owner[d]]) == Decoded.Valid(w.state.devices[d].token.value)
  {
    assert AllMarked(w.units[w.owner[d]], w.state.devices[d].token.value);
  }

  lemma TokensDistinct(s: StateFile)
    requires ModeOk(s) && s.mode.Persistent?
    ensures forall d, e | d in s.devices && e in s.devices && s.devices[d].token == s.devices[e].token :: d == e
    ensures forall d | d in s.devices :: s.devices[d].token.Some?
  {}

  /** In persistent mode every mouse has a usable token of its own, so a token
      never has two owners. */
  lemma TokensIdentify(w: World)
    requires Reachable(w) && w.state.mode.Persistent?
    ensures forall d | d in w.state.devices ::
              w.state.devices[d].token.Some? && !IsReserved(w.state.devices[d].token.value)
    ensures forall d, e | d in w.state.devices && e in w.state.devices
            && w.state.devices[d].token == w.state.devices[e].token :: d == e
  {
    ReachableInv(w);
    TokensDistinct(w.state);
    forall d | d in w.state.devices
      ensures w.state.devices[d].token.Some? && !IsReserved(w.state.devices[d].token.value)
    {
      assert d in w.owner;
      OwnerMarked(w, d);
    }
  }

  /** The selected mouse exists and so does every remembered one. */
  lemma ReferencesExist(w: World)
    requires Reachable(w)
    ensures w.state.selected.Some? ==> w.state.selected.value in w.state.devices
    ensures forall f | f in w.state.mapping :: w.state.mapping[f] in w.state.devices
  {
    ReachableInv(w);
  }

  // ----- numbers, mode and tokens over time ------------------------------------------

  /** The restore in progress ends and gives mouse `d` the subject's token. */
  ghost predicate Rotated(s: StateFile, t: StateFile, d: DeviceId) {
    && s.journal.Some? && s.journal.value.phase.Restore? && s.journal.value.subjects != [] && t.journal.None?
    && var sub := s.journal.value.subjects[0];
    sub.device == Some(d) && t.devices.Keys == s.devices.Keys && d in t.devices && t.devices[d].token == sub.token
  }

  /** What one step may do to the document's identities: numbers only grow,
      new mice take unused numbers, persistent mode is for good, and a mouse's
      token changes only by a restore. */
  ghost predicate Evolves(s: StateFile, t: StateFile) {
    && s.next <= t.next
    && (s.mode.Persistent? ==> t.mode.Persistent?)
    && (forall d <- t.devices :: d in s.devices || s.next <= d)
    && (forall d <- t.devices :: d in s.devices && t.devices[d].token != s.devices[d].token ==> Rotated(s, t, d))
  }

  lemma {:induction false} AllocateManyFresh(s: StateFile, n: nat)
    requires NumbersOk(s)
    ensures var r := AllocateMany(s, n);
            && s.next <= r.state.next && r.state == s.(next := r.state.next)
            && (r.Taken? ==> forall id <- r.ids :: s.next <= id)
    decreases n
  {
    if n > 0 {
      AllocateTakesNext(s);
      if Allocate(s).Allocated? { AllocateManyFresh(s.(next := s.next + 1), n - 1); }
    }
  }

  lemma {:induction false} NewDevicesKeys(s: StateFile, j: Journal, skip: bool, ids: seq<DeviceId>)
    requires |ids| <= |j.subjects|
    ensures forall d <- NewDevices(s, j, skip, ids) :: d in ids
    decreases |ids|
  {
    if ids != [] { NewDevicesKeys(s, j, skip, ids[..|ids| - 1]); }
  }

  lemma EnrollmentEvolves(s: StateFile, j: Journal, skip: bool)
    requires NumbersOk(s) && s.journal == Some(j)
    ensures var m := FinalizeEnrollment(s, j, skip);
            Evolves(s, if m.error.Some? then m.state else m.state.(journal := None))
  {
    AllocateManyFresh(s, |j.subjects|);
    var r := AllocateMany(s, |j.subjects|);
    if r.Taken? { NewDevicesKeys(s, j, skip, r.ids); }
  }

  lemma OneEvolves(s: StateFile, j: Journal)
    requires NumbersOk(s) && s.journal == Some(j) && !j.phase.InitialEnrollment?
    ensures var m := FinalizeOne(s, j);
            Evolves(s, if m.error.Some? then m.state else m.state.(journal := None))
  {
    AllocateTakesNext(s);
  }

  lemma FinalizeEvolves(s: StateFile, skip: bool)
    requires NumbersOk(s)
    ensures Evolves(s, Finalize(s, skip).state)
  {
    if s.journal.Some? {
      if s.journal.value.phase.InitialEnrollment? {
        EnrollmentEvolves(s, s.journal.value, skip);
      } else {
        OneEvolves(s, s.journal.value);
      }
    }
  }

  /** The journal's own changes do not matter to how the document evolves. */
  lemma EvolvesFrom(s: StateFile, x: StateFile, t: StateFile)
    requires Evolves(x, t) && x == s.(journal := x.journal) && s.journal.Some? && x.journal.Some?
    requires x.journal.value.phase == s.journal.value.phase
    requires s.journal.value.phase.Restore? ==> s.journal.value.subjects != [] && x.journal.value.subjects != []
    requires s.journal.value.phase.Restore? ==>
               var a, b := s.journal.value.subjects[0], x.journal.value.subjects[0];
               a.device == b.device && a.token == b.token
    ensures Evolves(s, t)
  {}

  lemma AdvanceEvolves(w: World, p: ProfileId, v: World)
    requires AdvanceOk(w, p, v) && NumbersOk(w.state)
    ensures Evolves(w.state, v.state)
  {
    AdvanceForm(w, p, v);
    var x := Advanced(w, p, Finalizing);
    FinalizeEvolves(x.state, false);
    if !w.state.journal.value.phase.InitialEnrollment? {
      assert v.state == Finalize(x.state, false).state;
      EvolvesFrom(w.state, x.state, v.state);
    }
  }

  lemma EnrollEvolves(w: World, uid: UnitId, sub: Subject, v: World)
    requires EnrollOk(w, uid, sub, v) && NumbersOk(w.state)
    ensures Evolves(w.state, v.state)
  {
    EnrollForm(w, uid, sub, v);
    if w.state.journal.value.phase.ForeignAdoption? && FullyStamped(sub) {
      var x := Pushed(w, uid, sub, Finalizing);
      FinalizeEvolves(x.state, false);
      EvolvesFrom(w.state, x.state, v.state);
    }
  }

  lemma AssociateEvolves(w: World, endpoint: Endpoint, target: DeviceId, v: World)
    requires AssociateOk(w, endpoint, target, v)
    ensures Evolves(w.state, v.state)
  {
    AssociateForm(w, endpoint, target, v);
  }

  predicate CanFinish(step: Step) {
    step.Enroll? || step.Advance? || step.Decide? || step.Associate?
  }

  lemma OthersEvolve(w: World, step: Step, v: World)
    requires Effects(w, step, v) && NumbersOk(w.state) && !CanFinish(step)
    ensures Evolves(w.state, v.state)
  {}

  lemma FinishersEvolve(w: World, step: Step, v: World)
    requires Effects(w, step, v) && NumbersOk(w.state) && CanFinish(step)
    ensures Evolves(w.state, v.state)
  {
    match step {
      case Enroll(uid, sub) => EnrollEvolves(w, uid, sub, v);
      case Advance(p) => AdvanceEvolves(w, p, v);
      case Decide(skip) => FinalizeEvolves(w.state, skip);
      case Associate(endpoint, target) => AssociateEvolves(w, endpoint, target, v);
    }
  }

  lemma StepEvolves(w: World, step: Step, v: World)
    requires StepOk(w, step, v) && NumbersOk(w.state)
    ensures Evolves(w.state, v.state)
  {
    if CanFinish(step) { FinishersEvolve(w, step, v); } else { OthersEvolve(w, step, v); }
  }

  /** A stretch of a run. */
  ghost predicate IsStretch(steps: seq<Step>, worlds: seq<World>) {
    && |worlds| == |steps| + 1 && Reachable(worlds[0])
    && forall k :: 0 <= k < |steps| ==> StepOk(worlds[k], steps[k], worlds[k + 1])
  }

  lemma {:induction false} StretchReachable(steps: seq<Step>, worlds: seq<World>, k: nat)
    requires IsStretch(steps, worlds) && k <= |steps|
    ensures Reachable(worlds[k])
    decreases k
  {
    if k > 0 {
      StretchReachable(steps, worlds, k - 1);
      ReachableStep(worlds[k - 1], steps[k - 1], worlds[k]);
    }
  }

  lemma ReachableNumbers(w: World)
    requires Reachable(w)
    ensures NumbersOk(w.state)
  {
    ReachableInv(w);
  }

  /** Over any stretch of a run without direct registrations persistent mode
      never returns to legacy, the next number never falls, and a number that
      was handed out and is not in use now was not handed out again meanwhile: a
      mouse that exists at the end either existed at the start or has a number
      unused until then. */
  lemma {:induction false} IdentitiesAreForGood(steps: seq<Step>, worlds: seq<World>)
    requires IsStretch(steps, worlds)
    ensures var s, t := worlds[0].state, worlds[|steps|].state;
            && s.next <= t.next
            && (s.mode.Persistent? ==> t.mode.Persistent?)
            && (forall d <- t.devices :: d in s.devices || s.next <= d)
    decreases |steps|
  {
    var n := |steps|;
    if n > 0 {
      assert IsStretch(steps[..n - 1], worlds[..n]);
      IdentitiesAreForGood(steps[..n - 1], worlds[..n]);
      StretchReachable(steps, worlds, n - 1);
      ReachableNumbers(worlds[n - 1]);
      StepEvolves(worlds[n - 1], steps[n - 1], worlds[n]);
    }
  }

  /** In runs of ceremonies, forgetting and bookkeeping a mouse number that
      disappears never comes back, so whatever still names it can never reach a
      different mouse.  Registering a mouse directly is not among these steps:
      `Registration` says when it brings a number back. */
  lemma NumbersNeverReused(steps: seq<Step>, worlds: seq<World>, m: nat, d: DeviceId)
    requires IsStretch(steps, worlds) && m <= |steps|
    requires d in worlds[0].state.devices && d !in worlds[m].state.devices
    ensures d !in worlds[|steps|].state.devices
  {
    var n := |steps|;
    ReachableNumbers(worlds[0]);
    assert IsStretch(steps[..m], worlds[..m + 1]);
    IdentitiesAreForGood(steps[..m], worlds[..m + 1]);
    StretchReachable(steps, worlds, m);
    assert IsStretch(steps[m..], worlds[m..]);
    IdentitiesAreForGood(steps[m..], worlds[m..]);
    assert worlds[m..][n - m] == worlds[n];
  }

  /** A mouse's token changes only when a restore of that very mouse finalizes,
      which ends the ceremony; no mouse of the document had the new token
      before, and none has the old one afterwards. */
  lemma RestoreRetiresToken(w: World, step: Step, v: World, d: DeviceId)
    requires Reachable(w) && StepOk(w, step, v)
    requires d in w.state.devices && d in v.state.devices && v.state.devices[d].token != w.state.devices[d].token
    ensures w.state.journal.Some? && w.state.journal.value.phase.Restore? && w.state.journal.value.subjects != []
    ensures w.state.journal.value.subjects[0].device == Some(d) && v.state.journal.None?
    ensures v.state.devices[d].token.Some? && !TokenKnown(w.state.devices, v.state.devices[d].token.value)
    ensures w.state.devices[d].token.Some? && !TokenKnown(v.state.devices, w.state.devices[d].token.value)
  {
    ReachableInv(w);
    StepEvolves(w, step, v);
    ReachableStep(w, step, v);
    ReachableInv(v);
    RotatedTokenFresh(w.state, d, v.state);
  }

  lemma RotatedTokenFresh(s: StateFile, d: DeviceId, t: StateFile)
    requires Validate(s) && Validate(t) && Evolves(s, t) && s.mode.Persistent? && d in s.devices && Rotated(s, t, d)
    requires t.devices[d].token != s.devices[d].token
    ensures t.devices[d].token.Some? && !TokenKnown(s.devices, t.devices[d].token.value)
    ensures s.devices[d].token.Some? && !TokenKnown(t.devices, s.devices[d].token.value)
  {
    var sub := s.journal.value.subjects[0];
    assert sub in s.journal.value.subjects;
    forall e | e in t.devices ensures t.devices[e].token != s.devices[d].token {
      if e != d { assert t.devices[e].token == s.devices[e].token; }
    }
  }
}
