/** The ceremony calls, effect by effect: what each write, read and commit does
    to the world, and that it is a step of the ceremony system. */
module ManagerSteps {
  import opened Watermark
  import opened Hardware
  import opened State
  import opened Ceremony
  import opened CeremonySafety
  import opened CeremonyTheorems
  import opened CeremonyProgress
  import opened CeremonyCommits
  import opened CeremonyLimits

  /** A token that may be assigned, being no mouse's, and neither reserved nor
      taken away by a subject. */
  predicate Usable(s: StateFile, token: Token) {
    && (exists i :: 0 <= i < |token| && token[i] != 0) && (forall d <- s.devices :: s.devices[d].token != Some(token))
    && (s.journal.Some? ==>
          forall sub <- s.journal.value.subjects :: sub.token != Some(token) && sub.oldToken != Some(token))
  }

  const MINT_ATTEMPTS: nat := 16

  /** The subject has its token, or one of the draws will do. */
  predicate CanMint(s: StateFile, draws: seq<Token>)
    requires s.journal.Some? && s.journal.value.subjects != []
  {
    LastSubject(s.journal.value).token.Some? || exists i :: 0 <= i < |draws| && i < MINT_ATTEMPTS && Usable(s, draws[i])
  }

  /** The profiles still to stamp, ascending. */
  function Ascending(s: set<ProfileId>): seq<ProfileId>
    decreases |s|
  {
    if s == {} then []
    else
      HasLeast(s);
      var p :| p in s && forall q <- s :: p <= q;
      [p] + Ascending(s - {p})
  }

  lemma {:induction false} AscendingMembers(s: set<ProfileId>)
    ensures |Ascending(s)| == |s|
    ensures forall p: ProfileId :: p in Ascending(s) <==> p in s
    decreases |s|
  {
    if s != {} {
      var p := Ascending(s)[0];
      AscendingMembers(s - {p});
      assert Ascending(s) == [p] + Ascending(s - {p});
    }
  }

  lemma {:induction false} AscendingSorted(s: set<ProfileId>)
    ensures var r := Ascending(s); forall i, k :: 0 <= i < k < |r| ==> r[i] < r[k]
    decreases |s|
  {
    if s != {} {
      var r := Ascending(s);
      var p := r[0];
      var rest := Ascending(s - {p});
      assert r == [p] + rest;
      AscendingSorted(s - {p});
      AscendingMembers(s - {p});
      forall k | 1 <= k < |r| ensures p < r[k] { assert r[k] == rest[k - 1] && rest[k - 1] in rest; }
      forall i, k | 1 <= i < k < |r| ensures r[i] < r[k] { assert r[i] == rest[i - 1] && r[k] == rest[k - 1]; }
    }
  }

  lemma HasLeast(s: set<ProfileId>)
    requires s != {}
    ensures exists p :: p in s && forall q <- s :: p <= q
  {
    var p :| p in s;
    LeastFrom(s, p);
  }

  lemma {:induction false} LeastFrom(s: set<ProfileId>, p: ProfileId)
    requires p in s
    ensures exists q :: q in s && forall x <- s :: q <= x
    decreases p
  {
    if q :| q in s && q < p {
      LeastFrom(s, q);
    } else {
      assert forall x <- s :: p <= x;
    }
  }

  // ----- the steps the calls take ------------------------------------------------

  lemma EndpointUnit(w: World, e: Endpoint)
    requires Reachable(w) && e in w.plugged
    ensures w.plugged[e] in w.units && UnitOk(w.units[w.plugged[e]])
  {
    ReachableInv(w);
  }

  lemma HandleStep(w: World, uid: UnitId, u: Unit)
    requires Reachable(w) && uid in w.units && SameSlots(w.units[uid], u)
    ensures Reachable(w.(units := w.units[uid := u]))
  {
    ReachableStep(w, Handle(uid), w.(units := w.units[uid := u]));
  }

  lemma BreakStep(w: World)
    requires Reachable(w)
    ensures Reachable(w.(breaks := w.breaks + 1, loose := false))
  {
    ReachableStep(w, Step.Break, w.(breaks := w.breaks + 1, loose := false));
  }

  /** A commit is a step as soon as validation accepts it. */
  lemma CommitStep(w: World, step: Step, v: World)
    requires Reachable(w) && Effects(w, step, v) && Validate(v.state)
    ensures Reachable(v)
  {
    ReachableStep(w, step, v);
  }

  /** A USB endpoint of this mouse is connected. */
  predicate Attached(plugged: map<Endpoint, UnitId>, d: Device) {
    exists e ::
      && e in plugged && IsUsb(e.transport)
      && exists t :: t in d.endpoints && d.endpoints[t].locator == e.locator
  }

  /** What each ceremony needs of its target before it may start. */
  predicate TargetFits(s: StateFile, plugged: map<Endpoint, UnitId>, phase: Phase, target: Option<DeviceId>) {
    (phase.Restore? || phase.BleAssociation? ==> target.Some? && target.value in s.devices)
    && (phase.Restore? ==> s.devices[target.value].token.Some? && !Attached(plugged, s.devices[target.value]))
  }

  /** The first thing in a ceremony's way; a mouse that is named and has a token
      is in the way of its restore only by being connected. */
  function Objection(s: StateFile, phase: Phase, target: Option<DeviceId>): Reason {
    if s.journal.Some? then InProgress
    else if phase.InitialEnrollment? then AlreadyPersistent
    else if s.mode.Legacy? then RequiresPersistent
    else if target.None? then TargetRequired
    else if target.value !in s.devices then UnknownDevice
    else if s.devices[target.value].token.None? then RequiresPhysicalId
    else DeviceConnected
  }

  /** The tail of the unit's current profile. */
  function CurrentTail(u: Unit): Tail
    requires UnitOk(u)
  {
    u.slots[u.meta.current - 1].dpi.tail
  }

  /** What a unit must show: for an adoption a usable token that nobody has or
      reserves, for anything else no watermark, or a damaged one. */
  predicate MarkFits(s: StateFile, j: Journal, tail: Tail) {
    if j.phase.ForeignAdoption? then
      && tail.Marked? && !IsReserved(tail.token)
      && !TokenKnown(s.devices, tail.token) && !JournalReserves(j, tail.token)
    else tail.Unmarked? || tail.Damaged?
  }

  /** What a restore needs of the mouse named when the unit is presented. */
  predicate TargetBinds(s: StateFile, j: Journal, target: Option<DeviceId>) {
    j.phase.Restore? ==> target.Some? && target.value in s.devices && s.devices[target.value].token.Some?
  }

  /** In an adoption every profile shows the adopted token or no watermark. */
  predicate TailsFit(j: Journal, tail: Tail, u: Unit) {
    j.phase.ForeignAdoption? ==>
      forall i :: 0 <= i < |u.slots| ==> u.slots[i].dpi.tail == tail || u.slots[i].dpi.tail.Unmarked?
  }

  /** Nothing about this unit, this target or the document refuses it. */
  predicate Eligible(s: StateFile, j: Journal, u: Unit, target: Option<DeviceId>) {
    && UnitOk(u) && MarkFits(s, j, CurrentTail(u)) && TargetBinds(s, j, target) && TailsFit(j, CurrentTail(u), u)
  }

  /** An adoption with nothing left to stamp. */
  predicate AdoptsAtOnce(j: Journal, u: Unit)
    requires UnitOk(u)
  {
    j.phase.ForeignAdoption? && forall i :: 0 <= i < |u.slots| ==> u.slots[i].dpi.tail == CurrentTail(u)
  }

  /** What a working system accepts: no association, an eligible unit, and, if
      the adoption completes on the spot, a mouse that can be stored. */
  predicate Joinable(s: StateFile, e: Endpoint, u: Unit, target: Option<DeviceId>) {
    && s.journal.Some? && s.journal.value.stage.AwaitingCapture? && !s.journal.value.phase.BleAssociation?
    && Eligible(s, s.journal.value, u, target)
    && (AdoptsAtOnce(s.journal.value, u) ==> e.locator.UsbPath? && e.model.Some? && s.next < MAX_NUMBER)
  }

  /** What is wrong with a watermark that does not fit. */
  function MarkObjection(s: StateFile, j: Journal, tail: Tail): Reason {
    if tail.Unmarked? || tail.Damaged? then NotApplicable
    else if tail.Future? then IntactMarker
    else if IsReserved(tail.token) then ReservedId
    else if j.phase.InitialEnrollment? then IntactMarker
    else if j.phase.BleAssociation? then NotApplicable
    else if TokenKnown(s.devices, tail.token) then AlreadyRegistered
    else if j.phase.ForeignAdoption? then ReservedByJournal
    else AdoptInstead
  }

  /** The objection a unit that is not eligible meets first. */
  function WhyNot(s: StateFile, j: Journal, u: Unit, target: Option<DeviceId>): Reason
    requires UnitOk(u)
  {
    if !MarkFits(s, j, CurrentTail(u)) then MarkObjection(s, j, CurrentTail(u))
    else if !TargetBinds(s, j, target) then
      if target.None? then TargetRequired
      else if target.value !in s.devices then UnknownDevice
      else RequiresPhysicalId
    else TokenDisagreement
  }

  /** The subject describes this very unit: its token, if it brings one, its
      mouse, if it is to be somebody's, its slots whole, and the profiles that
      carry the token already as stamped, all others as captured. */
  ghost predicate Describes(s: StateFile, j: Journal, sub: Subject, u: Unit) {
    && UnitOk(u) && MarkFits(s, j, CurrentTail(u)) && TailsFit(j, CurrentTail(u), u)
    && sub.token == (if j.phase.ForeignAdoption? then Some(CurrentTail(u).token) else None)
    && (if j.phase.Restore?
        then && sub.device.Some? && sub.device.value in s.devices && sub.oldToken.Some?
             && s.devices[sub.device.value].token == sub.oldToken
        else sub.device.None? && sub.oldToken.None?)
    && sub.captured.Some? && sub.captured.value.meta == Some(u.meta)
    && Captures(sub.captured.value.profiles, u.slots)
    && sub.progress.Keys == sub.captured.value.profiles.Keys
    && forall p <- sub.progress ::
         sub.progress[p] == if j.phase.ForeignAdoption? && u.slots[p - 1].dpi.tail == CurrentTail(u) then Stamped
                            else Captured
  }

  lemma DescribesPhysical(s: StateFile, j: Journal, sub: Subject, u: Unit, v: Unit)
    requires Describes(s, j, sub, u) && v.slots == u.slots && v.meta == u.meta
    ensures Describes(s, j, sub, v)
  {}

  /** Admission, binding and the stamp plan, as the program computes them, come
      to exactly that. */
  lemma FitsAdmitted(s: StateFile, j: Journal, u: Unit)
    requires UnitOk(u)
    ensures Admit(s, j, CurrentMark(u)).Admitted? <==> MarkFits(s, j, CurrentTail(u))
    ensures MarkFits(s, j, CurrentTail(u)) ==>
              Admit(s, j, CurrentMark(u)) ==
              Admitted(if j.phase.ForeignAdoption? then Some(CurrentTail(u).token) else None)
    ensures !MarkFits(s, j, CurrentTail(u)) ==>
              Admit(s, j, CurrentMark(u)) == Refused(MarkObjection(s, j, CurrentTail(u)))
  {}

  lemma FitsBinds(s: StateFile, j: Journal, target: Option<DeviceId>)
    ensures Bind(s, j.phase, target).Bound? <==> TargetBinds(s, j, target)
    ensures Bind(s, j.phase, target) ==
              if !TargetBinds(s, j, target)
              then Unbound(if target.None? then TargetRequired
                           else if target.value !in s.devices then UnknownDevice else RequiresPhysicalId)
              else if j.phase.Restore? then Bound(target, s.devices[target.value].token) else Bound(None, None)
  {}

  /** A plan exists exactly when the tails fit, and marks exactly the profiles
      that carry the token. */
  lemma FitsPlanned(j: Journal, u: Unit, profiles: map<ProfileId, Image>)
    requires UnitOk(u) && Captures(profiles, u.slots) && (j.phase.ForeignAdoption? ==> CurrentTail(u).Marked?)
    ensures var adopted := if j.phase.ForeignAdoption? then Some(CurrentTail(u).token) else None;
            var plan := StampPlan(j.phase, adopted, profiles);
            && (plan.Some? <==> TailsFit(j, CurrentTail(u), u))
            && (plan.Some? ==>
                  && plan.value.Keys == profiles.Keys
                  && forall p <- plan.value ::
                       plan.value[p] == if j.phase.ForeignAdoption? && u.slots[p - 1].dpi.tail == CurrentTail(u)
                                        then Stamped else Captured)
  {
    forall i | 0 <= i < |u.slots| ensures (i + 1) as ProfileId in profiles && profiles[i + 1] == u.slots[i] {
      var p: ProfileId := i + 1;
      assert p in profiles;
    }
  }

  lemma DescribesIff(s: StateFile, j: Journal, sub: Subject, u: Unit)
    requires UnitOk(u) && sub.captured.Some? && sub.captured.value.meta == Some(u.meta)
    requires Captures(sub.captured.value.profiles, u.slots)
    ensures Describes(s, j, sub, u) <==>
              && Admit(s, j, CurrentMark(u)) == Admitted(sub.token)
              && Bind(s, j.phase, sub.device) == Bound(sub.device, sub.oldToken)
              && StampPlan(j.phase, sub.token, sub.captured.value.profiles) == Some(sub.progress)
  {
    FitsAdmitted(s, j, u);
    FitsBinds(s, j, sub.device);
    if MarkFits(s, j, CurrentTail(u)) {
      FitsPlanned(j, u, sub.captured.value.profiles);
      var plan := StampPlan(j.phase, if j.phase.ForeignAdoption? then Some(CurrentTail(u).token) else None,
                            sub.captured.value.profiles);
      if Describes(s, j, sub, u) { assert plan.value == sub.progress; }
    }
  }

  /** The mouse has the subject's token, if that was known, its endpoint alone,
      and its capture as evidence. */
  predicate MadeFrom(sub: Subject, d: Device) {
    && d.token.Some? && (sub.token.Some? ==> d.token == sub.token) && d.preferred.None?
    && d.endpoints == map[sub.endpoint.transport := sub.endpoint] && sub.captured == Some(d.evidence)
  }

  /** The ceremony ended with its one subject: a new nameless mouse under the
      next number, or the restored one under its own number and name; nothing
      else of the document differs. */
  ghost predicate BecameMouse(s: StateFile, phase: Phase, sub: Subject, t: StateFile) {
    && 1 <= s.next && (phase.Restore? ==> sub.device.Some? && sub.device.value in s.devices)
    && var d: DeviceId := if phase.Restore? then sub.device.value else s.next;
    && t == s.(journal := None, next := if phase.Restore? then s.next else s.next + 1, devices := t.devices)
    && t.devices.Keys == s.devices.Keys + {d} && (forall e <- s.devices :: e != d ==> t.devices[e] == s.devices[e])
    && MadeFrom(sub, t.devices[d])
    && t.devices[d].name == if phase.Restore? then s.devices[d].name else None
  }

  /** What finalizing a stamped subject comes to. */
  lemma OneBecomes(s: StateFile)
    requires NumbersOk(s) && s.journal.Some? && s.journal.value.phase in {AddMouse, ForeignAdoption, Restore}
    requires s.journal.value.subjects != [] && s.journal.value.subjects[0].token.Some?
    requires s.journal.value.subjects[0].captured.Some?
    requires var sub := s.journal.value.subjects[0];
             s.journal.value.phase.Restore? ==> sub.device.Some? && sub.device.value in s.devices
    requires Finalize(s, false).error.None?
    ensures BecameMouse(s, s.journal.value.phase, s.journal.value.subjects[0], Finalize(s, false).state)
  {
    OneForm(s);
    AllocateTakesNext(s);
  }

  /** The capture is journaled, or the adoption it completes is done. */
  ghost predicate EnrolledAs(w: World, uid: UnitId, sub: Subject, v: World)
    requires w.state.journal.Some?
  {
    var j := w.state.journal.value;
    if v.state.journal.None? then
      && j.phase.ForeignAdoption? && FullyStamped(sub) && BecameMouse(w.state, j.phase, sub, v.state)
      && v.owner == w.owner[w.state.next := uid]
    else
      && v.who == w.who + [uid] && v.owner == w.owner
      && v.state.journal == Some(Journal(j.phase, Stamping, j.subjects + [sub]))
  }

  lemma AdoptedOwned(x: World, uid: UnitId, t: StateFile)
    requires x.state.journal.Some? && x.state.journal.value.phase.ForeignAdoption? && 1 <= x.state.next
    requires x.who == [uid] && t.journal.None?
    ensures Committed(x, t).owner == x.owner[x.state.next := uid]
  {}

  lemma AdoptionBecomes(w: World, uid: UnitId, sub: Subject)
    requires Enrollable(w, uid, sub) && NumbersOk(w.state) && StageOk(w.state.journal.value)
    requires w.state.journal.value.phase.ForeignAdoption? && FullyStamped(sub)
    requires EnrollCommit(w.state, sub).error.None?
    ensures BecameMouse(w.state, ForeignAdoption, sub, EnrollCommit(w.state, sub).state)
  {
    var x := PushedState(w.state, sub, Finalizing);
    assert x.journal.value.subjects == [sub];
    assert EnrollCommit(w.state, sub) == Finalize(x, false);
    EnrollableDescribes(w, uid, sub);
    OneBecomes(x);
  }

  lemma EnrollResult(w: World, uid: UnitId, sub: Subject, v: World)
    requires EnrollOk(w, uid, sub, v) && SubjectsOk(w) && StageOk(w.state.journal.value) && NumbersOk(w.state)
    requires EnrollCommit(w.state, sub).error.None?
    ensures EnrolledAs(w, uid, sub, v)
  {
    EnrollForm(w, uid, sub, v);
    if w.state.journal.value.phase.ForeignAdoption? && FullyStamped(sub) {
      var x := Pushed(w, uid, sub, Finalizing);
      assert w.who == [];
      AdoptedOwned(x, uid, Finalize(x.state, false).state);
      AdoptionBecomes(w, uid, sub);
    }
  }

  /** An adoption with nothing left to stamp and no number for its mouse: the
      capture is in the journal, parked, and nothing else differs. */
  ghost predicate CaptureParked(s: StateFile, t: StateFile) {
    && s.journal.Some? && s.journal.value.phase.ForeignAdoption? && s.next >= MAX_NUMBER
    && t.journal.Some? && t.journal.value.subjects != []
    && t == PushedState(s, LastSubject(t.journal.value), Finalizing) && FullyStamped(LastSubject(t.journal.value))
  }

  /** The unit behind the endpoint, new to every mouse and earlier subject, has
      joined the ceremony: its capture is journaled as the last subject, or it
      is already the adopted mouse's. */
  ghost predicate Joined(w: World, e: Endpoint, target: Option<DeviceId>, v: World) {
    && InStage(w, AwaitingCapture) && e in w.plugged
    && var j, uid := w.state.journal.value, w.plugged[e];
    && uid in w.units && uid in v.units && v.units == w.units[uid := v.units[uid]]
    && v.units[uid].meta == w.units[uid].meta && uid !in w.owner.Values && uid !in w.who
    && if v.state.journal.None? then
         && j.phase.ForeignAdoption? && 1 <= w.state.next && v.owner == w.owner[w.state.next := uid]
         && exists sub :: Describes(w.state, j, sub, v.units[uid]) && sub.endpoint == e
                          && BecameMouse(w.state, j.phase, sub, v.state)
       else
         && v.who == w.who + [uid] && v.owner == w.owner && v.state.journal.value.subjects != []
         && var sub := LastSubject(v.state.journal.value);
         && v.state == PushedState(w.state, sub, Stamping) && sub.endpoint == e
         && (j.phase.Restore? ==> sub.device == target)
         && Describes(w.state, j, sub, v.units[uid])
  }

  lemma JoinedBy(w: World, x: World, e: Endpoint, target: Option<DeviceId>, sub: Subject, v: World)
    requires InStage(w, AwaitingCapture) && e in w.plugged && w.plugged[e] in w.units
    requires w.plugged[e] in x.units
    requires x == w.(units := x.units) && x.units == w.units[w.plugged[e] := x.units[w.plugged[e]]]
    requires x.units[w.plugged[e]].meta == w.units[w.plugged[e]].meta
    requires Enrollable(x, w.plugged[e], sub) && sub.endpoint == e
    requires w.state.journal.value.phase.Restore? ==> sub.device == target
    requires w.plugged[e] !in w.owner.Values && w.plugged[e] !in w.who && v.units == x.units
    requires EnrolledAs(x, w.plugged[e], sub, v)
    requires v.state.journal.Some? ==> v.state == PushedState(x.state, sub, Stamping)
    ensures Joined(w, e, target, v)
  {
    EnrollableDescribes(x, w.plugged[e], sub);
  }

  lemma FullyStampedIff(w: World, uid: UnitId, sub: Subject)
    requires Enrollable(w, uid, sub)
    ensures FullyStamped(sub) <==> AdoptsAtOnce(w.state.journal.value, w.units[uid])
  {
    EnrollableDescribes(w, uid, sub);
    var u, j := w.units[uid], w.state.journal.value;
    if FullyStamped(sub) {
      forall i | 0 <= i < |u.slots| ensures u.slots[i].dpi.tail == CurrentTail(u) {
        var p: ProfileId := i + 1;
        assert p in sub.captured.value.profiles && sub.progress[p] == Stamped;
      }
      var one: ProfileId := 1;
      assert one in sub.captured.value.profiles && sub.progress[one] == Stamped;
    }
  }

  lemma JoinableIff(w: World, x: World, e: Endpoint, target: Option<DeviceId>, sub: Subject)
    requires e in w.plugged && w.plugged[e] in w.units && UnitOk(w.units[w.plugged[e]])
    requires x.state == w.state && Enrollable(x, w.plugged[e], sub) && sub.endpoint == e
    requires x.units[w.plugged[e]].slots == w.units[w.plugged[e]].slots
    requires x.units[w.plugged[e]].meta == w.units[w.plugged[e]].meta
    requires Eligible(w.state, w.state.journal.value, w.units[w.plugged[e]], target)
    ensures Joinable(w.state, e, w.units[w.plugged[e]], target) <==>
              && !w.state.journal.value.phase.BleAssociation?
              && (FullyStamped(sub) ==> Coherent(e) && w.state.next < MAX_NUMBER)
  {
    FullyStampedIff(x, w.plugged[e], sub);
  }

  lemma EnrollableDescribes(w: World, uid: UnitId, sub: Subject)
    requires Enrollable(w, uid, sub)
    ensures Describes(w.state, w.state.journal.value, sub, w.units[uid])
  {
    DescribesIff(w.state, w.state.journal.value, sub, w.units[uid]);
  }

  /** The world an enrollment commits. */
  function EnrolledWorld(w: World, uid: UnitId, sub: Subject): World
    requires w.state.journal.Some? && 1 <= w.state.next
  {
    Committed(w.(who := w.who + [uid], plan := |PendingSet(sub)|, sent := 0, breaks := 0),
        EnrollCommit(w.state, sub).state)
  }

  lemma EnrollFailsIff(w: World, uid: UnitId, sub: Subject)
    requires Validate(w.state) && Enrollable(w, uid, sub)
    ensures 1 <= w.state.next
    ensures var m := EnrollCommit(w.state, sub);
            && (m.error.Some? ==> m.error == Some(NumberOverflow) && CaptureParked(w.state, m.state))
            && (m.error.Some? <==> FullyStamped(sub) && w.state.next >= MAX_NUMBER)
  {
    EnrollTraceIff(w, uid, sub);
    if FullyStamped(sub) { PlanLeavesWork(w, uid, sub); }
  }

  lemma EnrollStep(w: World, uid: UnitId, sub: Subject)
    requires Reachable(w) && Enrollable(w, uid, sub)
    ensures 1 <= w.state.next
    ensures var m, v := EnrollCommit(w.state, sub), EnrolledWorld(w, uid, sub);
            && (Validate(m.state) ==> Reachable(v)) && v.state == m.state && v.units == w.units
               && v.plugged == w.plugged
            && !v.loose
            && (m.error.None? ==> EnrolledAs(w, uid, sub, v))
            && (m.error.Some? ==> m.error == Some(NumberOverflow) && CaptureParked(w.state, m.state))
            && (m.error.Some? <==> FullyStamped(sub) && w.state.next >= MAX_NUMBER)
  {
    ReachableInv(w);
    JournalFacts(w.state);
    var m, v := EnrollCommit(w.state, sub), EnrolledWorld(w, uid, sub);
    EnrollFailsIff(w, uid, sub);
    if m.error.None? { EnrollResult(w, uid, sub, v); }
    if Validate(v.state) { CommitStep(w, Step.Enroll(uid, sub), v); }
  }

  // ----- stamping ------------------------------------------------------------------

  /** Stamping the unit `uid` with `token` is under way. */
  ghost predicate Ongoing(w: World, uid: UnitId, token: Token) {
    Presented(w, uid) && LastSubject(w.state.journal.value).token == Some(token)
  }

  lemma OngoingTracks(w: World, uid: UnitId, token: Token)
    requires Reachable(w) && Ongoing(w, uid, token)
    ensures Tracks(LastSubject(w.state.journal.value), w.units[uid]) && UnitOk(w.units[uid])
  {
    ReachableInv(w);
    SubjectTracks(w, |w.state.journal.value.subjects| - 1);
  }

  /** The world after one profile was handled and possibly written. */
  function Written(w: World, uid: UnitId, u: Unit, sent: bool): World {
    if sent then w.(units := w.units[uid := u], sent := w.sent + 1, loose := true) else w.(units := w.units[uid := u])
  }

  /** The captured DPI state of a pending profile, about to be stamped. */
  function CapturedDpi(s: StateFile, p: ProfileId): Dpi
    requires s.journal.Some? && s.journal.value.subjects != []
    requires var sub := LastSubject(s.journal.value); sub.captured.Some? && p in sub.captured.value.profiles
  {
    LastSubject(s.journal.value).captured.value.profiles[p].dpi
  }

  /** The next profile to stamp, on the unit being stamped. */
  ghost predicate Next(w: World, uid: UnitId, token: Token, p: ProfileId) {
    && Ongoing(w, uid, token) && !w.loose && LeastPending(LastSubject(w.state.journal.value), p)
    && UnitOk(w.units[uid]) && p <= |w.units[uid].slots|
    && var sub := LastSubject(w.state.journal.value); sub.captured.Some? && p in sub.captured.value.profiles
  }

  lemma NextInRange(w: World, uid: UnitId, token: Token, p: ProfileId)
    requires Reachable(w) && Ongoing(w, uid, token) && !w.loose && LeastPending(LastSubject(w.state.journal.value), p)
    ensures Next(w, uid, token, p)
  {
    OngoingTracks(w, uid, token);
  }

  lemma WrittenIsStep(w: World, uid: UnitId, token: Token, p: ProfileId, u: Unit, sent: bool)
    requires Reachable(w) && Next(w, uid, token, p) && UnitOk(u)
    requires u.slots == w.units[uid].slots
             || (sent && u.slots == Effect(w.units[uid],
                Write.WriteDpi(p, Overlay(CapturedDpi(w.state, p), token))).slots)
    ensures Reachable(Written(w, uid, u, sent))
  {
    ReachableStep(w, if sent then SendMark(uid, p) else Handle(uid), Written(w, uid, u, sent));
  }

  /** A write, confirmed or not, leaves the stamping under way. */
  lemma WrittenOngoing(w: World, uid: UnitId, token: Token, p: ProfileId, u: Unit, sent: bool)
    requires Next(w, uid, token, p) && |u.slots| == |w.units[uid].slots|
    ensures Ongoing(Written(w, uid, u, sent), uid, token)
    ensures sent && u.slots[p - 1].dpi == Overlay(CapturedDpi(w.state, p), token) ==>
              MarkSent(Written(w, uid, u, sent), p)
  {}

  lemma MarkedLast(s: StateFile, p: ProfileId)
    requires s.journal.Some? && s.journal.value.subjects != []
    ensures var j, k, sub := s.journal.value, MarkCommit(s, p).journal.value, LastSubject(s.journal.value);
            && k.stage == j.stage && |k.subjects| == |j.subjects|
            && LastSubject(k) == sub.(progress := sub.progress[p := Stamped])
  {}

  /** Journaling a sent mark leaves the rest of the stamping as it was. */
  lemma MarkedOngoing(w: World, uid: UnitId, token: Token, p: ProfileId, v: World)
    requires Ongoing(w, uid, token) && MarkSent(w, p) && v == w.(state := MarkCommit(w.state, p), loose := false)
    ensures Ongoing(v, uid, token)
    ensures PendingSet(LastSubject(v.state.journal.value)) == PendingSet(LastSubject(w.state.journal.value)) - {p}
    ensures SameCeremony(w.state, v.state)
  {
    MarkedLast(w.state, p);
    MarkPending(LastSubject(w.state.journal.value), p);
    MarkedSame(w.state, p);
  }

  lemma MarkedSame(s: StateFile, p: ProfileId)
    requires s.journal.Some? && s.journal.value.subjects != [] && p in LastSubject(s.journal.value).progress
    ensures SameCeremony(s, MarkCommit(s, p))
  {
    var j, k := s.journal.value, MarkCommit(s, p).journal.value;
    assert Later(LastSubject(j), LastSubject(k));
  }

  /** The same ceremony at the same subject: of the whole document only the
      last subject's token and progress differ, and only by moving forward. */
  ghost predicate SameCeremony(s: StateFile, t: StateFile) {
    && s.journal.Some? && t.journal.Some? && t == s.(journal := t.journal)
    && var j, k := s.journal.value, t.journal.value;
    && j.subjects != [] && k.subjects != [] && k == WithLast(j, LastSubject(k))
    && Later(LastSubject(j), LastSubject(k))
  }

  lemma SameCeremonyGoesOn(s: StateFile, t: StateFile, u: StateFile)
    requires SameCeremony(s, t) && SameCeremony(t, u)
    ensures SameCeremony(s, u)
  {
    var j, k, l := s.journal.value, t.journal.value, u.journal.value;
    assert l.subjects == WithLast(j, LastSubject(l)).subjects;
  }

  lemma UnstorableSame(s: StateFile, t: StateFile)
    requires SameCeremony(s, t)
    ensures Unstorable(s, s.journal.value) <==> Unstorable(t, t.journal.value)
  {
    var j, k := s.journal.value, t.journal.value;
    forall i | 0 <= i < |j.subjects| ensures k.subjects[i].endpoint == j.subjects[i].endpoint {}
    assert CoherentSubjects(j) <==> forall i | 0 <= i < |j.subjects| :: Coherent(j.subjects[i].endpoint);
    assert CoherentSubjects(k) <==> forall i | 0 <= i < |k.subjects| :: Coherent(k.subjects[i].endpoint);
  }

  lemma SameCeremonyStarts(s: StateFile)
    requires s.journal.Some? && s.journal.value.subjects != []
    ensures SameCeremony(s, s)
  {
    assert s.journal.value.subjects == WithLast(s.journal.value, LastSubject(s.journal.value)).subjects;
  }

  /** Every profile is stamped, no number was left for the new mouse, and the
      ceremony is parked: of the rest of the document nothing differs. */
  ghost predicate ParkedFor(s: StateFile, t: StateFile) {
    && s.journal.Some? && NeedsNumber(s.journal.value.phase) && s.next >= MAX_NUMBER
    && t.journal.Some? && t.journal.value.stage.Finalizing?
    && SameCeremony(s, t.(journal := Some(t.journal.value.(stage := s.journal.value.stage))))
    && FullyStamped(LastSubject(t.journal.value))
  }

  lemma SameIsLater(s: StateFile, t: StateFile)
    requires SameCeremony(s, t)
    ensures JournalLater(s.journal.value, t.journal.value)
  {
    forall i | 0 <= i < |s.journal.value.subjects|
      ensures Later(s.journal.value.subjects[i], t.journal.value.subjects[i])
    {}
  }

  lemma AdvancedFromBefore(w: World, x: World, uid: UnitId, v: World)
    requires SameCeremony(w.state, x.state) && x.who == w.who && x.owner == w.owner && AdvancedAs(x, uid, v)
    ensures AdvancedAs(w, uid, v)
  {
    SameIsLater(w.state, x.state);
    if v.state.journal.Some? {
      LaterTransitive(w.state.journal.value, x.state.journal.value, v.state.journal.value);
    }
  }

  /** Whatever came out of a ceremony that first went on from `s` to `t` came
      out of `s`. */
  lemma SeenFromBefore(s: StateFile, t: StateFile, u: StateFile)
    requires SameCeremony(s, t)
    ensures SameCeremony(t, u) ==> SameCeremony(s, u)
    ensures ParkedFor(t, u) ==> ParkedFor(s, u)
    ensures Unstorable(s, s.journal.value) <==> Unstorable(t, t.journal.value)
  {
    UnstorableSame(s, t);
    if SameCeremony(t, u) { SameCeremonyGoesOn(s, t, u); }
    if ParkedFor(t, u) {
      SameCeremonyGoesOn(s, t, u.(journal := Some(u.journal.value.(stage := t.journal.value.stage))));
    }
  }

  /** The captured profiles not yet journaled as stamped. */
  function StillToStamp(sub: Subject): set<ProfileId>
    requires sub.captured.Some?
  {
    set p | p in sub.captured.value.profiles && (p !in sub.progress || sub.progress[p] != Stamped)
  }

  lemma StillToStampIsPending(w: World, uid: UnitId, token: Token)
    requires Reachable(w) && Ongoing(w, uid, token)
    ensures var sub := LastSubject(w.state.journal.value);
            sub.captured.Some? && StillToStamp(sub) == PendingSet(sub) && PendingSet(sub) != {}
  {
    OngoingTracks(w, uid, token);
    StampingHasWorkAndIsBounded(w);
    var sub := LastSubject(w.state.journal.value);
    assert StillToStamp(sub) == PendingSet(sub);
  }

  /** From `pending[i]` on, the list is exactly what is pending. */
  ghost predicate Remaining(sub: Subject, pending: seq<ProfileId>, i: nat) {
    && i < |pending|
    && (forall a, b :: 0 <= a < b < |pending| ==> pending[a] < pending[b])
    && forall p: ProfileId :: p in PendingSet(sub) <==> p in pending[i..]
  }

  lemma RemainingLeast(sub: Subject, pending: seq<ProfileId>, i: nat)
    requires Remaining(sub, pending, i)
    ensures LeastPending(sub, pending[i])
    ensures PendingSet(sub) == {pending[i]} <==> i + 1 == |pending|
  {
    assert pending[i..][0] == pending[i];
    assert pending[i] in PendingSet(sub);
    forall q: ProfileId | IsPending(sub, q) ensures pending[i] <= q {
      assert q in PendingSet(sub);
      var k :| 0 <= k < |pending[i..]| && pending[i..][k] == q;
    }
    if i + 1 < |pending| {
      assert pending[i..][1] == pending[i + 1];
      assert pending[i + 1] in PendingSet(sub);
    }
  }

  lemma RemainingNext(sub: Subject, next: Subject, pending: seq<ProfileId>, i: nat)
    requires Remaining(sub, pending, i) && i + 1 < |pending| && PendingSet(next) == PendingSet(sub) - {pending[i]}
    ensures Remaining(next, pending, i + 1)
  {
    assert pending[i..] == [pending[i]] + pending[i + 1..];
    forall p: ProfileId ensures p in PendingSet(next) <==> p in pending[i + 1..] {
      if p in pending[i + 1..] {
        var k :| 0 <= k < |pending[i + 1..]| && pending[i + 1..][k] == p;
        assert p in pending[i..];
      }
    }
  }

  lemma AscendingRemains(sub: Subject, pending: seq<ProfileId>)
    requires pending == Ascending(PendingSet(sub)) && PendingSet(sub) != {}
    ensures Remaining(sub, pending, 0)
  {
    AscendingSorted(PendingSet(sub));
    AscendingMembers(PendingSet(sub));
    assert pending[0..] == pending;
  }

  /** `pending[..i]` is on the unit and journaled, the very last entry apart. */
  ghost predicate StampedUpTo(w: World, uid: UnitId, token: Token, pending: seq<ProfileId>, i: nat) {
    && pending != [] && Ongoing(w, uid, token)
    && if i < |pending| then !w.loose && Remaining(LastSubject(w.state.journal.value), pending, i)
       else AllSent(w, uid, token, pending[|pending| - 1])
  }

  lemma StampingStarts(w: World, uid: UnitId, token: Token)
    requires Reachable(w) && Ongoing(w, uid, token) && !w.loose
    ensures var sub := LastSubject(w.state.journal.value);
            sub.captured.Some? && StampedUpTo(w, uid, token, Ascending(StillToStamp(sub)), 0)
  {
    StillToStampIsPending(w, uid, token);
    var sub := LastSubject(w.state.journal.value);
    AscendingRemains(sub, Ascending(StillToStamp(sub)));
  }

  /** The last watermark is on the unit, and only its journal entry is missing. */
  ghost predicate AllSent(w: World, uid: UnitId, token: Token, p: ProfileId) {
    Ongoing(w, uid, token) && MarkSent(w, p) && PendingSet(LastSubject(w.state.journal.value)) == {p}
  }

  /** Then every slot is its captured image with the watermark. */
  lemma AllSentTracked(w: World, uid: UnitId, token: Token, p: ProfileId)
    requires Reachable(w) && AllSent(w, uid, token, p)
    ensures FullyTracked(LastSubject(w.state.journal.value), w.units[uid])
  {
    OngoingTracks(w, uid, token);
    var sub := LastSubject(w.state.journal.value);
    LastMarkCompletes(sub, p);
    MarkTracks(sub, w.units[uid], p);
    StampedTracks(sub.(progress := sub.progress[p := Stamped]), w.units[uid]);
  }

  lemma HandledAllSent(w: World, uid: UnitId, token: Token, p: ProfileId, u: Unit)
    requires Reachable(w) && AllSent(w, uid, token, p) && SameSlots(w.units[uid], u)
    ensures var v := w.(units := w.units[uid := u]); Reachable(v) && AllSent(v, uid, token, p)
  {
    HandleStep(w, uid, u);
  }

  // ----- the transition after the last stamp ------------------------------------------

  /** Initial enrollment awaits its second mouse or the migration decision; any
      other ceremony is over and the unit is some mouse's. */
  ghost predicate AdvancedAs(w: World, uid: UnitId, v: World)
    requires w.state.journal.Some?
  {
    var j := w.state.journal.value;
    if v.state.journal.Some? then
      && j.phase.InitialEnrollment? && v.state.journal.value.phase.InitialEnrollment?
      && v.state.journal.value.stage == (if |j.subjects| == 1 then AwaitingCapture else Finalizing)
      && |v.state.journal.value.subjects| == |j.subjects|
      && (forall sub <- v.state.journal.value.subjects :: FullyStamped(sub))
      && v.state == w.state.(journal := v.state.journal) && JournalLater(j, v.state.journal.value)
      && v.who == w.who && v.owner == w.owner
    else
      && !j.phase.InitialEnrollment? && j.subjects != [] && BecameMouse(w.state, j.phase, LastSubject(j), v.state)
      && v.owner == w.owner[(if j.phase.Restore? then LastSubject(j).device.value else w.state.next) := uid]
  }

  function Transition(s: StateFile, p: ProfileId): Mutation
    requires 1 <= s.next && s.journal.Some? && s.journal.value.subjects != []
  {
    AdvanceCommit(s, p, AwaitSecond(s.journal.value))
  }

  function TransitionWorld(w: World, p: ProfileId): World
    requires 1 <= w.state.next && w.state.journal.Some? && w.state.journal.value.subjects != []
  {
    Committed(w, Transition(w.state, p).state)
  }

  lemma SingleOwned(x: World, uid: UnitId, t: StateFile)
    requires OneSubject(x) && x.who == [uid] && t.journal.None?
    ensures Committed(x, t).owner == x.owner[Subjected(x) := uid]
  {}

  lemma EnrollmentAdvances(w: World, uid: UnitId, token: Token, p: ProfileId)
    requires NumbersOk(w.state) && SubjectsOk(w) && AllSent(w, uid, token, p)
    requires w.state.journal.value.phase.InitialEnrollment?
    requires AdvanceOk(w, p, TransitionWorld(w, p))
    ensures Transition(w.state, p).error.None? && AdvancedAs(w, uid, TransitionWorld(w, p))
  {
    AdvanceForm(w, p, TransitionWorld(w, p));
    AdvancedStamped(w, p, if AwaitSecond(w.state.journal.value) then AwaitingCapture else Finalizing);
    AdvanceLater(w, p, TransitionWorld(w, p));
  }

  lemma SingleAdvances(w: World, uid: UnitId, token: Token, p: ProfileId)
    requires Safe(w) && Single(w) && AllSent(w, uid, token, p)
    requires AdvanceOk(w, p, TransitionWorld(w, p)) && Transition(w.state, p).error.None?
    ensures AdvancedAs(w, uid, TransitionWorld(w, p))
  {
    var x := Advanced(w, p, Finalizing);
    AdvancedSingle(w, p);
    AdvanceForm(w, p, TransitionWorld(w, p));
    SingleOwned(x, uid, Finalize(x.state, false).state);
    SingleBecomes(w, p);
  }

  /** What the last stamp changes about the subject does not matter to the
      mouse it becomes. */
  lemma SingleBecomes(w: World, p: ProfileId)
    requires Single(w) && MarkSent(w, p) && Transition(w.state, p).error.None?
    ensures BecameMouse(w.state, w.state.journal.value.phase, LastSubject(w.state.journal.value),
                        Transition(w.state, p).state)
  {
    var x := Parked(w.state, p, Finalizing);
    assert w.state.journal.value.subjects == [LastSubject(w.state.journal.value)];
    OtherFinalizes(w.state, p);
    OneBecomes(x);
  }

  lemma ParkedCoherent(s: StateFile, p: ProfileId)
    requires s.journal.Some? && |s.journal.value.subjects| == 1
    ensures CoherentSubjects(s.journal.value) <==>
              Coherent(Parked(s, p, Finalizing).journal.value.subjects[0].endpoint)
  {
    assert s.journal.value.subjects == [s.journal.value.subjects[0]];
  }

  /** The transition succeeds exactly when the mouse, if the ceremony ends with
      it, can be stored: on a coherent endpoint, with a number if it needs one. */
  lemma TransitionAcceptedIff(s: StateFile, p: ProfileId)
    requires LastToStamp(s, p)
    ensures 1 <= s.next
    ensures var m := Transition(s, p);
            m.error.None? && Validate(m.state) <==> !Unstorable(s, s.journal.value)
  {
    LastParks(s, p);
    if s.journal.value.phase.InitialEnrollment? {
      EnrollmentParks(s, p);
    } else {
      OtherFinalizes(s, p);
      ParkedCoherent(s, p);
      OneAcceptedIff(Parked(s, p, Finalizing));
    }
  }

  lemma OneAcceptedIff(x: StateFile)
    requires Validate(x) && x.journal.Some? && x.journal.value.stage.Finalizing?
    requires x.journal.value.phase in {AddMouse, ForeignAdoption, Restore}
    ensures var m := Finalize(x, false);
            m.error.None? && Validate(m.state) <==>
              && Coherent(x.journal.value.subjects[0].endpoint)
              && (NeedsNumber(x.journal.value.phase) ==> x.next < MAX_NUMBER)
  {
    FinalizeOneAcceptedIff(x);
    OneMouseErrorIff(x);
  }

  lemma TransitionResult(w: World, uid: UnitId, token: Token, p: ProfileId)
    requires Inv(w) && AllSent(w, uid, token, p)
    requires AdvanceOk(w, p, TransitionWorld(w, p)) && Transition(w.state, p).error.None?
    ensures AdvancedAs(w, uid, TransitionWorld(w, p))
  {
    if w.state.journal.value.phase.InitialEnrollment? {
      EnrollmentAdvances(w, uid, token, p);
    } else {
      SingleWorld(w);
      SingleAdvances(w, uid, token, p);
    }
  }

  lemma TransitionParks(w: World, uid: UnitId, token: Token, p: ProfileId)
    requires Inv(w) && AllSent(w, uid, token, p)
    requires NeedsNumber(w.state.journal.value.phase) && w.state.next >= MAX_NUMBER
    ensures ParkedFor(w.state, Parked(w.state, p, Finalizing))
  {
    SubjectTracks(w, |w.state.journal.value.subjects| - 1);
    LastMarkCompletes(LastSubject(w.state.journal.value), p);
    MarkedLast(w.state, p);
    MarkedSame(w.state, p);
    var t := Parked(w.state, p, Finalizing);
    assert t.(journal := Some(t.journal.value.(stage := w.state.journal.value.stage))) == MarkCommit(w.state, p);
  }

  /** It fails exactly when it needs a number and none is left. */
  lemma TransitionFailsIff(w: World, uid: UnitId, token: Token, p: ProfileId)
    requires Inv(w) && AllSent(w, uid, token, p)
    ensures 1 <= w.state.next
    ensures var m := Transition(w.state, p);
            && (m.error.Some? ==> m.error == Some(NumberOverflow) && ParkedFor(w.state, m.state))
            && (m.error.Some? <==> NeedsNumber(w.state.journal.value.phase) && w.state.next >= MAX_NUMBER)
  {
    IsLastToStamp(w, p);
    TransitionTraceIff(w.state, p);
    if Transition(w.state, p).error.Some? { TransitionParks(w, uid, token, p); }
  }

  lemma TransitionStep(w: World, uid: UnitId, token: Token, p: ProfileId)
    requires Reachable(w) && AllSent(w, uid, token, p)
    requires LastSubject(w.state.journal.value).captured.value.meta == Some(w.units[uid].meta)
    ensures 1 <= w.state.next
    ensures var m, v := Transition(w.state, p), TransitionWorld(w, p);
            && (Validate(m.state) ==> Reachable(v))
            && v.state == m.state && v.units == w.units && v.plugged == w.plugged && v.breaks == w.breaks && !v.loose
            && (m.error.None? ==> AdvancedAs(w, uid, v))
            && (m.error.Some? ==> m.error == Some(NumberOverflow) && ParkedFor(w.state, m.state))
            && (m.error.Some? <==> NeedsNumber(w.state.journal.value.phase) && w.state.next >= MAX_NUMBER)
            && (m.error.None? && Validate(m.state) <==> !Unstorable(w.state, w.state.journal.value))
  {
    ReachableInv(w);
    var v := TransitionWorld(w, p);
    assert AdvanceOk(w, p, v);
    if Transition(w.state, p).error.None? { TransitionResult(w, uid, token, p); }
    TransitionFailsIff(w, uid, token, p);
    if Validate(v.state) { CommitStep(w, Step.Advance(p), v); }
    IsLastToStamp(w, p);
    TransitionAcceptedIff(w.state, p);
  }

  // ----- reserving a token -----------------------------------------------------------------

  lemma ReserveEffect(w: World, uid: UnitId, token: Token)
    requires Presented(w, uid) && LastSubject(w.state.journal.value).token.None? && Usable(w.state, token)
    ensures var v := w.(state := ReserveCommit(w.state, token));
            ReserveTokenOk(w, token, v) && Ongoing(v, uid, token)
            && LastSubject(v.state.journal.value) == LastSubject(w.state.journal.value).(token := Some(token))
  {}

  lemma ReservedSame(s: StateFile, token: Token)
    requires s.journal.Some? && s.journal.value.subjects != [] && LastSubject(s.journal.value).token.None?
    ensures SameCeremony(s, ReserveCommit(s, token))
  {
    var j, k := s.journal.value, ReserveCommit(s, token).journal.value;
    assert Later(LastSubject(j), LastSubject(k));
  }

  lemma ReserveStep(w: World, uid: UnitId, token: Token)
    requires Reachable(w) && Presented(w, uid) && LastSubject(w.state.journal.value).token.None?
             && Usable(w.state, token)
    ensures var v := w.(state := ReserveCommit(w.state, token));
            Reachable(v) && Ongoing(v, uid, token) && Validate(v.state) && SameCeremony(w.state, v.state)
            && LastSubject(v.state.journal.value) == LastSubject(w.state.journal.value).(token := Some(token))
  {
    var v := w.(state := ReserveCommit(w.state, token));
    ReserveEffect(w, uid, token);
    ReservedSame(w.state, token);
    assert Validate(v.state) by {
      ReachableInv(w);
      ReserveAccepted(w.state, token);
    }
    CommitStep(w, Step.ReserveToken(token), v);
  }

  /** In the stamping stage the last subject's endpoint, if connected, leads to
      the subject's own unit. */
  lemma StampingUnit(w: World)
    requires Reachable(w) && InStage(w, Stamping)
    ensures w.who != [] && w.who[|w.who| - 1] in w.units && Presented(w, w.who[|w.who| - 1])
    ensures var e := LastSubject(w.state.journal.value).endpoint; e in w.plugged ==> w.plugged[e] == w.who[|w.who| - 1]
    ensures LastSubject(w.state.journal.value).oldToken.Some? ==>
              TokenKnown(w.state.devices, LastSubject(w.state.journal.value).oldToken.value)
  {
    ReachableInv(w);
    SubjectTracks(w, |w.state.journal.value.subjects| - 1);
    assert LastSubject(w.state.journal.value) in w.state.journal.value.subjects;
  }

  /** An adopted mouse brings its token along. */
  lemma AdoptionHasToken(w: World)
    requires Reachable(w) && InStage(w, Stamping) && w.state.journal.value.phase.ForeignAdoption?
    ensures LastSubject(w.state.journal.value).token.Some?
  {
    var n: nat :| ReachableIn(n, w);
    RunKeepsBlank(n, w);
    assert LastSubject(w.state.journal.value) in w.state.journal.value.subjects;
  }

  lemma JournalNeverStampsBle(w: World)
    requires Reachable(w) && w.state.journal.Some? && w.state.journal.value.stage.Stamping?
    ensures !w.state.journal.value.phase.BleAssociation? && w.state.journal.value.subjects != []
  {
    ReachableInv(w);
    JournalFacts(w.state);
  }

  /** Every slot is the captured image with the reserved token's watermark, or
      with that of a token usable in `s` where none was reserved yet; and the
      metadata is as captured. */
  ghost predicate StampedWhole(s: StateFile, sub: Subject, u: Unit) {
    && (exists token: Token ::
          && (if sub.token.Some? then token == sub.token.value else Usable(s, token))
          && FullyTracked(sub.(token := Some(token)), u))
    && sub.captured.Some? && sub.captured.value.meta == Some(u.meta)
  }

  lemma TrackedIsWhole(s: StateFile, sub: Subject, now: Subject, token: Token, u: Unit)
    requires FullyTracked(now, u) && now.token == Some(token) && now.captured == sub.captured
    requires if sub.token.Some? then sub.token == Some(token) else Usable(s, token)
    requires now.captured.value.meta == Some(u.meta)
    ensures StampedWhole(s, sub, u)
  {
    assert FullyTracked(sub.(token := Some(token)), u);
  }

  lemma AllSentWhole(s: StateFile, w: World, uid: UnitId, token: Token, p: ProfileId)
    requires Reachable(w) && AllSent(w, uid, token, p) && SameCeremony(s, w.state)
    requires LastSubject(s.journal.value).token == Some(token)
    requires LastSubject(w.state.journal.value).captured.value.meta == Some(w.units[uid].meta)
    ensures StampedWhole(s, LastSubject(s.journal.value), w.units[uid])
  {
    AllSentTracked(w, uid, token, p);
    TrackedIsWhole(s, LastSubject(s.journal.value), LastSubject(w.state.journal.value), token, w.units[uid]);
  }

  /** What was whole after the token was reserved is whole as seen from before. */
  lemma WholeFromBefore(s: StateFile, sub: Subject, t: StateFile, now: Subject, u: Unit)
    requires StampedWhole(t, now, u) && now.token.Some? && now.captured == sub.captured
    requires if sub.token.Some? then sub.token == now.token else Usable(s, now.token.value)
    ensures StampedWhole(s, sub, u)
  {
    var token: Token :| (if now.token.Some? then token == now.token.value else Usable(t, token))
                        && FullyTracked(now.(token := Some(token)), u);
    assert FullyTracked(sub.(token := Some(token)), u);
  }

  /** Where a ceremony that is no dead end and past cancelling can stand. */
  lemma WaysOn(w: World)
    requires Reachable(w) && w.state.journal.Some? && !Stuck(w.state)
    ensures var s, j := w.state, w.state.journal.value;
            || Cancellable(j) || (InStage(w, Stamping) && !Unstorable(s, j))
            || (InStage(w, AwaitingCapture) && j.phase.InitialEnrollment?)
            || (ReadyToDecide(j) && s.mapping == map[] && s.next + 1 < MAX_NUMBER && CoherentSubjects(j))
  {
    DeadEndIff(w);
    if w.state.journal.value.stage.Stamping? { JournalNeverStampsBle(w); }
  }

  // ----- deciding, associating, forgetting ----------------------------------------------------

  /** Both mice are on their units, in persistent mode, the first one selected. */
  ghost predicate EnrolledPair(w: World, skip: bool, v: World) {
    && w.state.journal.Some? && PairMade(w.state, w.state.journal.value.subjects, skip, v.state)
    && |w.who| == 2 && v.owner == map[w.state.next := w.who[0], w.state.next + 1 := w.who[1]]
    && AllCompleted(w, v)
  }

  /** One mouse per subject, under the next two numbers, in persistent mode, the
      first one selected. */
  ghost predicate PairMade(s: StateFile, subjects: seq<Subject>, skip: bool, t: StateFile) {
    && 1 <= s.next && |subjects| == 2 && t.devices.Keys == {s.next, s.next + 1}
    && t == s.(journal := None, mode := Persistent, next := s.next + 2, selected := Some(s.next as DeviceId),
               devices := t.devices)
    && (forall i :: 0 <= i < 2 ==> MadeFrom(subjects[i], t.devices[s.next + i]))
    && NamedBy(s, skip, subjects[0], subjects[1], "Mouse 1", t.devices[s.next].name)
    && NamedBy(s, skip, subjects[1], subjects[0], "Mouse 2", t.devices[s.next + 1].name)
  }

  /** The legacy mouse's name, if migration is wanted and this subject's capture
      alone equals its evidence; the default name otherwise. */
  ghost predicate NamedBy(s: StateFile, skip: bool, sub: Subject, other: Subject, default: string,
                          name: Option<string>)
  {
    && (forall d <- s.devices :: !skip && MatchesAlone(s.devices[d], sub, other) ==> name == s.devices[d].name)
    && (skip || (forall d <- s.devices :: !MatchesAlone(s.devices[d], sub, other)) ==> name == Some(default))
  }

  predicate MatchesAlone(legacy: Device, sub: Subject, other: Subject) {
    sub.captured == Some(legacy.evidence) && other.captured != Some(legacy.evidence)
  }

  lemma PairDocument(s: StateFile, skip: bool)
    requires NumbersOk(s) && ModeOk(s) && s.mode.Legacy? && s.journal.Some?
    requires s.journal.value.phase.InitialEnrollment? && |s.journal.value.subjects| == 2
    requires forall sub <- s.journal.value.subjects :: sub.token.Some? && sub.captured.Some?
    requires Finalize(s, skip).error.None?
    ensures PairMade(s, s.journal.value.subjects, skip, Finalize(s, skip).state)
  {
    EnrollmentErrors(s, skip);
    EnrollmentForm(s, skip);
    TwoDevicesTokens(s, s.journal.value, skip);
    PairNamed(s, s.journal.value, skip);
    PairFilled(s, s.journal.value, skip);
  }

  lemma PairFilled(s: StateFile, j: Journal, skip: bool)
    requires 1 <= s.next && |j.subjects| == 2
    requires forall sub <- j.subjects :: sub.token.Some? && sub.captured.Some?
    ensures var t := TwoDevices(s, j, skip);
            && t.Keys == {s.next, s.next + 1}
            && (forall i :: 0 <= i < 2 ==> MadeFrom(j.subjects[i], t[s.next + i]))
            && t[s.next].name == NameFor(s, j, skip, 0) && t[s.next + 1].name == NameFor(s, j, skip, 1)
  {
    TwoDevicesTokens(s, j, skip);
    assert j.subjects[0] in j.subjects && j.subjects[1] in j.subjects;
  }

  lemma PairNamed(s: StateFile, j: Journal, skip: bool)
    requires ModeOk(s) && s.mode.Legacy? && |j.subjects| == 2
    ensures NamedBy(s, skip, j.subjects[0], j.subjects[1], "Mouse 1", NameFor(s, j, skip, 0))
    ensures NamedBy(s, skip, j.subjects[1], j.subjects[0], "Mouse 2", NameFor(s, j, skip, 1))
  {
    if d :| d in s.devices {
      assert s.devices.Keys == {d} by {
        assert |s.devices.Keys - {d}| == 0;
      }
      LegacyNameGoesToUniqueMatch(s, j, skip, d, 0, 1);
      LegacyNameGoesToUniqueMatch(s, j, skip, d, 1, 0);
    } else {
      assert LegacyDevice(s).None?;
    }
  }

  lemma PairEnrolled(w: World, skip: bool, v: World)
    requires Inv(w) && DecideOk(w, skip, v) && Finalize(w.state, skip).error.None?
    ensures EnrolledPair(w, skip, v)
  {
    DecideEnds(w, skip, v);
    DecideCompletes(w, skip, v);
    assert SubjectsOk(w) && NumbersOk(w.state) && ModeOk(w.state) && w.state.mode.Legacy? by { JournalFacts(w.state); }
    assert forall sub <- w.state.journal.value.subjects :: sub.token.Some? && sub.captured.Some? by { PairTokens(w); }
    PairIs(w, skip, v);
  }

  lemma PairTokens(w: World)
    requires Inv(w) && w.state.journal.Some? && ReadyToDecide(w.state.journal.value)
    ensures forall sub <- w.state.journal.value.subjects :: sub.token.Some? && sub.captured.Some?
  {
    JournalFacts(w.state);
  }

  lemma DecideEnds(w: World, skip: bool, v: World)
    requires DecideOk(w, skip, v) && Finalize(w.state, skip).error.None?
    ensures v.state == Finalize(w.state, skip).state && v.state.journal.None? && v == Committed(w, v.state)
  {}

  lemma PairIs(w: World, skip: bool, v: World)
    requires NumbersOk(w.state) && ModeOk(w.state) && w.state.mode.Legacy? && SubjectsOk(w) && w.state.journal.Some?
    requires w.state.journal.value.phase.InitialEnrollment? && |w.state.journal.value.subjects| == 2
    requires forall sub <- w.state.journal.value.subjects :: sub.token.Some? && sub.captured.Some?
    requires Finalize(w.state, skip).error.None? && v.state == Finalize(w.state, skip).state && AllCompleted(w, v)
    requires v.state.journal.None? && v == Committed(w, v.state)
    ensures EnrolledPair(w, skip, v)
  {
    PairDocument(w.state, skip);
    PairOwned(w, v);
  }

  lemma PairOwned(w: World, v: World)
    requires SubjectsOk(w) && w.state.journal.Some? && 1 <= w.state.next && v == Committed(w, v.state)
    requires w.state.journal.value.phase.InitialEnrollment? && |w.state.journal.value.subjects| == 2
    requires v.state.journal.None?
    ensures |w.who| == 2 && v.owner == map[w.state.next := w.who[0], w.state.next + 1 := w.who[1]]
  {}

  lemma DecideStep(w: World, skip: bool)
    requires Reachable(w) && w.state.journal.Some? && ReadyToDecide(w.state.journal.value)
    ensures 1 <= w.state.next
    ensures var m := Finalize(w.state, skip);
            var v := Committed(w, m.state);
            && (Validate(m.state) ==> Reachable(v))
            && (m.error.None? ==> EnrolledPair(w, skip, v))
            && (m.error.None? <==> w.state.next + 1 < MAX_NUMBER)
  {
    ReachableInv(w);
    var m := Finalize(w.state, skip);
    var v := Committed(w, m.state);
    EnrollmentErrors(w.state, skip);
    if m.error.None? { PairEnrolled(w, skip, v); }
    if Validate(v.state) { CommitStep(w, Step.Decide(skip), v); }
  }

  /** The decision either commits both mice, or is refused, or leaves at most
      the last number used up. */
  lemma DecideOutcome(w: World, skip: bool)
    requires Reachable(w) && w.state.journal.Some? && ReadyToDecide(w.state.journal.value)
    ensures 1 <= w.state.next
    ensures var s, m := w.state, Finalize(w.state, skip);
            && (m.error.None? && Validate(m.state) <==>
                  s.next + 1 < MAX_NUMBER && s.mapping == map[] && CoherentSubjects(s.journal.value))
            && (m.error.Some? <==> s.next + 1 >= MAX_NUMBER)
            && (m.error.Some? && Validate(m.state) ==>
                  m.state == if s.next + 1 == MAX_NUMBER then s.(next := MAX_NUMBER) else s)
            && (m.error.Some? && s.next + 1 == MAX_NUMBER ==> Validate(m.state))
  {
    ReachableInv(w);
    DecideTraceIff(w.state, skip);
    if w.state.next + 1 < MAX_NUMBER { DecideAcceptedIff(w.state, skip); }
  }

  lemma EnrollmentErrors(s: StateFile, skip: bool)
    requires NumbersOk(s) && s.journal.Some? && s.journal.value.phase.InitialEnrollment?
             && |s.journal.value.subjects| == 2
    ensures Finalize(s, skip).error.None? <==> s.next + 1 < MAX_NUMBER
  {
    AllocateTakesNext(s);
    var t := s.(next := s.next + 1);
    AllocateTakesNext(t);
    if s.next + 1 < MAX_NUMBER {
      var u := s.(next := s.next + 2);
      assert AllocateMany(u, 0) == Taken(u, []);
      assert AllocateMany(t, 1).Taken?;
    }
  }

  /** The world an association commits; a refused one leaves the document as it
      was or is stopped by validation. */
  function AssociatedWorld(w: World, endpoint: Endpoint, target: DeviceId): World
    requires 1 <= w.state.next && w.state.journal.Some?
  {
    var m := AssociateCommit(w.state, endpoint, target);
    if m.error.None? then Committed(w, m.state) else w.(state := m.state)
  }

  /** Exactly what an association needs. */
  predicate Associable(s: StateFile, endpoint: Endpoint, target: DeviceId) {
    && s.journal.Some? && s.journal.value.phase.BleAssociation? && s.journal.value.stage.AwaitingCapture?
    && target in s.devices && LocatorFree(s.devices, endpoint.locator, Some(target))
  }

  lemma AssociateErrorIff(s: StateFile, endpoint: Endpoint, target: DeviceId)
    requires 1 <= s.next && (s.journal.Some? ==> StageOk(s.journal.value))
    ensures AssociateCommit(s, endpoint, target).error.None? <==> Associable(s, endpoint, target)
  {}

  lemma AssociateReached(w: World, endpoint: Endpoint, target: DeviceId)
    requires Reachable(w) && NumbersOk(w.state) && endpoint.transport.Ble? && w.state.journal.Some?
    requires AssociateCommit(w.state, endpoint, target).error.None?
    ensures var v := AssociatedWorld(w, endpoint, target);
            && (Validate(v.state) ==> Reachable(v)) && !v.loose && v.units == w.units && v.plugged == w.plugged
               && v.owner == w.owner
  {
    var v := AssociatedWorld(w, endpoint, target);
    AssociateForm(w, endpoint, target, v);
    if Validate(v.state) { CommitStep(w, Step.Associate(endpoint, target), v); }
  }

  lemma AssociateStep(w: World, endpoint: Endpoint, target: DeviceId)
    requires Reachable(w) && endpoint.transport.Ble? && w.state.journal.Some?
    ensures 1 <= w.state.next
    ensures var m, v := AssociateCommit(w.state, endpoint, target), AssociatedWorld(w, endpoint, target);
            && (Validate(m.state) ==> Reachable(v)) && (w.loose || !v.loose)
            && v.state == m.state && v.units == w.units && v.plugged == w.plugged && v.owner == w.owner
            && (m.error.None? <==> Associable(w.state, endpoint, target))
            && (m.error.Some? ==> m.state == w.state || !Validate(m.state))
  {
    assert NumbersOk(w.state) && StageOk(w.state.journal.value) by {
      ReachableInv(w);
      JournalFacts(w.state);
    }
    var m, v := AssociateCommit(w.state, endpoint, target), AssociatedWorld(w, endpoint, target);
    AssociateErrorIff(w.state, endpoint, target);
    if m.error.None? {
      AssociateReached(w, endpoint, target);
    } else {
      RefusedAssociationNeverCommits(w.state, endpoint, target);
    }
  }

  lemma AssociateAcceptedIff(s: StateFile, endpoint: Endpoint, target: DeviceId)
    requires Validate(s) && Associable(s, endpoint, target) && endpoint.transport.Ble?
    ensures var t, d := AssociateCommit(s, endpoint, target).state, s.devices[target];
            && t == s.(journal := None,
                       devices := s.devices[target := d.(endpoints := d.endpoints[endpoint.transport := endpoint])])
            && (Validate(t) <==> endpoint.locator.BlePlatformId?)
  {
    var t := AssociateCommit(s, endpoint, target).state;
    assert endpoint.transport in t.devices[target].endpoints;
  }

  /** Who is enrolled, who is presented, and what was planned. */
  ghost predicate SameSetting(w: World, v: World) {
    v.owner == w.owner && v.who == w.who && v.plan == w.plan && v.plugged == w.plugged
  }
}
