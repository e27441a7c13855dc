/** The ceremony calls themselves, over a store and devices that may fail at
    any point.  Every effect is one step of the ceremony system, so whatever a
    call leaves behind, on success or failure, is a reachable state. */
module Manager {
  import opened Watermark
  import opened Hardware
  import opened Session
  import opened State
  import opened Ceremony
  import opened CeremonySafety
  import opened CeremonyTheorems
  import opened CeremonyCommits
  import opened CeremonyLimits
  import opened ManagerSteps

  /** What becomes of one commit that passed validation: done, lost, or done
      although the caller is told it failed. */
  datatype Outcome = Done | Lost | Unsure

  datatype Failure =
    | NoCeremonyRunning
    | WrongAction
    | Denied(reason: Reason)
    | Faulty(fault: Error)
    | NotCommitted
    | Erred(error: StateError)
    | TokenGeneration

  datatype Reply = Accepted | Rejected(failure: Failure)

  /** The first draw that collides with nothing, sixteen draws at most; a
      missing draw stands for a failing generator. */
  method MintUniqueToken(s: StateFile, oldToken: Option<Token>, draws: seq<Token>) returns (r: Option<Token>)
    requires oldToken.Some? ==> TokenKnown(s.devices, oldToken.value)
    ensures r.Some? ==> Usable(s, r.value) && Some(r.value) != oldToken
    ensures r.Some? ==> exists i :: 0 <= i < |draws| && i < 16 && draws[i] == r.value
                                    && forall k :: 0 <= k < i ==> !Usable(s, draws[k])
    ensures r.None? <==> forall i :: 0 <= i < |draws| && i < 16 ==> !Usable(s, draws[i])
  {
    for i := 0 to MINT_ATTEMPTS
      invariant i <= |draws|
      invariant forall k :: 0 <= k < i ==> !Usable(s, draws[k])
    {
      if i >= |draws| { return None; }
      var token := draws[i];
      if IsReserved(token) { continue; }
      if TokenKnown(s.devices, token) { continue; }
      if s.journal.Some? && JournalReserves(s.journal.value, token) { continue; }
      if oldToken == Some(token) { continue; }
      return Some(token);
    }
    r := None;
  }

  datatype Prepared = Ready(subject: Subject) | NotReady(failure: Failure)

  /** Reads the current profile's watermark, the only thing eligibility is
      decided on. */
  method CurrentWatermark(session: UsbSession) returns (r: Result<Decoded>)
    requires session.Valid() && Truthful(session.script)
    modifies session`script, session`unit
    ensures session.Valid() && Truthful(session.script)
    ensures session.unit.slots == old(session.unit.slots) && session.unit.meta == old(session.unit.meta)
    ensures r.Ok? ==> r.value == CurrentMark(session.unit)
    ensures old(session.script) == [] ==> r.Ok? && session.script == []
  {
    var meta := session.ReadMetadata();
    if meta.Err? { return Err(meta.error); }
    var dpi := session.ReadDpi(meta.value.current);
    if dpi.Err? { return Err(dpi.error); }
    r := Ok(Status(dpi.value.tail));
  }

  method BuildSubject(session: UsbSession, s: StateFile, j: Journal, endpoint: Endpoint, target: Option<DeviceId>)
      returns (r: Prepared)
    requires session.Valid() && Truthful(session.script)
    modifies session
    ensures session.Valid() && Truthful(session.script)
    ensures session.unit.slots == old(session.unit.slots)
    ensures r.Ready? ==> session.unit.meta == old(session.unit.meta)
    ensures r.Ready? ==> r.subject.endpoint == endpoint && Describes(s, j, r.subject, old(session.unit))
    ensures r.Ready? && j.phase.Restore? ==> r.subject.device == target
    ensures r.Ready? ==> Eligible(s, j, old(session.unit), target)
    ensures old(session.script) == [] && Eligible(s, j, old(session.unit), target) ==> r.Ready?
    ensures old(session.script) == [] && !Eligible(s, j, old(session.unit), target) ==>
              r == NotReady(Denied(WhyNot(s, j, old(session.unit), target)))
    ensures old(session.script) == [] ==> session.script == []
  {
    ghost var u := session.unit;
    FitsAdmitted(s, j, u);
    FitsBinds(s, j, target);
    var mark := CurrentWatermark(session);
    if mark.Err? { return NotReady(Faulty(mark.error)); }
    var admission := Admit(s, j, mark.value);
    if admission.Refused? { return NotReady(Denied(admission.reason)); }
    var binding := Bind(s, j.phase, target);
    if binding.Unbound? { return NotReady(Denied(binding.reason)); }
    var capture := session.CaptureAll();
    if capture.Err? { return NotReady(Faulty(capture.error)); }
    var evidence := Evidence(Some(capture.value.original), capture.value.profiles);
    var plan := StampPlan(j.phase, admission.adopted, evidence.profiles);
    FitsPlanned(j, u, evidence.profiles);
    if plan.None? { return NotReady(Denied(TokenDisagreement)); }
    r := Ready(Subject(endpoint, binding.device, admission.adopted, binding.previous, Some(evidence), plan.value));
    DescribesIff(s, j, r.subject, u);
  }

  /** Opens a session on the unit and puts its metadata back. */
  method RestoreUnit(u: Unit, script: seq<Io>, meta: Metadata) returns (r: Result<Metadata>, v: Unit, rest: seq<Io>)
    requires UnitOk(u) && MetadataOk(|u.slots|, meta) && Truthful(script)
    ensures UnitOk(v) && Truthful(rest) && v.slots == u.slots
    ensures r.Ok? ==> v.meta == meta
    ensures script == [] ==> r.Ok? && rest == []
  {
    var session := new UsbSession(u, script);
    r := session.WriteExactMetadata(meta);
    v, rest := session.unit, session.script;
  }

  /** Opens a session on the unit and stamps one profile. */
  method StampUnit(u: Unit, script: seq<Io>, p: ProfileId, token: Token, dpi: Dpi)
      returns (r: Result<()>, v: Unit, rest: seq<Io>, sent: bool)
    requires UnitOk(u) && p <= |u.slots| && Truthful(script)
    ensures UnitOk(v) && Truthful(rest)
    ensures v.slots == u.slots || (sent && v.slots == Effect(u, Write.WriteDpi(p, Overlay(dpi, token))).slots)
    ensures r.Ok? ==> sent && v.slots[p - 1].dpi == Overlay(dpi, token)
    ensures script == [] ==> r.Ok? && rest == []
  {
    var session := new UsbSession(u, script);
    r := session.StampOne(p, token, dpi);
    v, rest, sent := session.unit, session.script, session.writes != [];
  }

  class Manager {
    var state: StateFile
    var units: map<UnitId, Unit>
    var plugged: map<Endpoint, UnitId>
    /** Outcomes of the report exchanges and of the commits still to come; an
        exhausted script is fault free. */
    var script: seq<Io>
    var outcomes: seq<Outcome>
    ghost var w: World

    ghost predicate Valid()
      reads this
    {
      && w.state == state && w.units == units && w.plugged == plugged
      && Reachable(w) && Truthful(script)
    }

    /** Between calls no sent watermark is waiting for its journal entry. */
    ghost predicate Idle()
      reads this
    {
      Valid() && !w.loose
    }

    /** Same bytes on every unit, no matter what the driver just did. */
    twostate predicate SlotsKept()
      reads this
    {
      units.Keys == old(units).Keys && forall id <- units :: units[id].slots == old(units)[id].slots
    }

    constructor (units: map<UnitId, Unit>, plugged: map<Endpoint, UnitId>, script: seq<Io>, outcomes: seq<Outcome>)
      requires (forall id <- units :: UnitOk(units[id])) && (forall e <- plugged :: plugged[e] in units)
               && Truthful(script)
      ensures Idle() && state == FRESH && this.units == units && this.plugged == plugged
      ensures this.script == script && this.outcomes == outcomes && w.owner == map[] && w.who == []
    {
      state, this.units, this.plugged, this.script, this.outcomes := FRESH, units, plugged, script, outcomes;
      w := World(FRESH, units, plugged, map[], [], 0, 0, 0, false);
      new;
      assert Arrives(0, w) && ReachableIn(0, w);
    }

    // ----- effects -----------------------------------------------------------

    /** Validates and commits what a closure left behind, atomically or not at
        all.  The closure's own error is returned only after the commit. */
    method Commit(m: Mutation, ghost v: World) returns (r: Reply)
      requires Valid() && v.state == m.state && v.units == units && v.plugged == plugged
      requires Validate(v.state) ==> Reachable(v)
      modifies this`state, this`outcomes, this`w
      ensures Valid()
      ensures w == v || w == old(w)
      ensures r.Accepted? ==> w == v && m.error.None?
      ensures !Validate(m.state) ==> w == old(w) && r.Rejected?
      ensures old(outcomes) == [] ==> outcomes == []
      ensures old(outcomes) == [] && Validate(m.state) ==>
                w == v && r == (if m.error.Some? then Rejected(Erred(m.error.value)) else Accepted)
    {
      if !Validate(m.state) { return Rejected(NotCommitted); }
      var outcome := Done;
      if outcomes != [] {
        outcome := outcomes[0];
        outcomes := outcomes[1..];
      }
      if outcome.Lost? { return Rejected(NotCommitted); }
      state := m.state;
      w := v;
      r := if outcome.Unsure? then Rejected(NotCommitted)
           else if m.error.Some? then Rejected(Erred(m.error.value)) else Accepted;
    }

    /** Takes back a unit the driver talked to, and what is left of the script. */
    method Release(uid: UnitId, u: Unit, rest: seq<Io>, ghost v: World)
      requires Valid() && uid in units && Reachable(v)
      requires v.state == w.state && v.plugged == w.plugged && v.units == w.units[uid := u]
      requires Truthful(rest)
      modifies this`units, this`script, this`w
      ensures Valid() && w == v && script == rest
    {
      units := units[uid := u];
      script := rest;
      w := v;
    }

    /** A call stops here: with an error, or because the process died. */
    ghost method Interrupt()
      requires Valid()
      modifies this`w
      ensures Valid() && w == old(w).(breaks := old(w).breaks + 1, loose := false)
    {
      BreakStep(w);
      w := w.(breaks := w.breaks + 1, loose := false);
    }

    // ----- what happens between calls -------------------------------------------

    /** Mice are plugged and unplugged; while a subject is being stamped, its
        endpoint is either free or leads to the subject's own unit. */
    method Replug(now: map<Endpoint, UnitId>)
      requires Idle() && (forall e <- now :: now[e] in units)
      requires InStage(w, Stamping) ==>
                 var e := LastSubject(state.journal.value).endpoint;
                 e in now ==> w.who != [] && now[e] == w.who[|w.who| - 1]
      modifies this`plugged, this`w
      ensures Idle() && plugged == now && w == old(w).(plugged := now)
    {
      ReachableStep(w, Step.Replug, w.(plugged := now));
      plugged := now;
      w := w.(plugged := now);
    }

    // ----- calls ---------------------------------------------------------------

    method Begin(phase: Phase, target: Option<DeviceId>) returns (r: Reply)
      requires Idle()
      modifies this`state, this`outcomes, this`w
      ensures Idle()
      ensures r.Accepted? ==> state == old(state).(journal := Some(Journal(phase, AwaitingCapture, [])))
      ensures r.Accepted? ==> old(state).journal.None? && (phase.InitialEnrollment? <==> old(state).mode.Legacy?)
                              && TargetFits(old(state), plugged, phase, target)
      ensures w.who == old(w).who && w.owner == old(w).owner && w.units == old(w).units && w.plugged == old(w).plugged
      ensures old(outcomes) == [] ==> outcomes == []
      ensures old(outcomes) == [] ==>
                (r.Accepted? <==> && old(state).journal.None? && (phase.InitialEnrollment? <==> old(state).mode.Legacy?)
                                  && TargetFits(old(state), plugged, phase, target))
                && (r.Rejected? ==> state == old(state) && r.failure == Denied(Objection(state, phase, target)))
    {
      if state.journal.Some? { return Rejected(Denied(InProgress)); }
      if phase.InitialEnrollment? {
        if state.mode.Persistent? { return Rejected(Denied(AlreadyPersistent)); }
      } else {
        if state.mode.Legacy? { return Rejected(Denied(RequiresPersistent)); }
      }
      if phase.Restore? || phase.BleAssociation? {
        if target.None? { return Rejected(Denied(TargetRequired)); }
        if target.value !in state.devices { return Rejected(Denied(UnknownDevice)); }
        if phase.Restore? {
          if state.devices[target.value].token.None? { return Rejected(Denied(RequiresPhysicalId)); }
          if Attached(plugged, state.devices[target.value]) { return Rejected(Denied(DeviceConnected)); }
        }
      }
      var t := state.(journal := Some(Journal(phase, AwaitingCapture, [])));
      ghost var v := w.(state := t, loose := false);
      ReachableInv(w);
      BeginAcceptedIff(state, phase);
      CommitStep(w, Step.Begin(phase), v);
      r := Commit(Mutation(t, None), v);
    }

    /** A physically presented mouse: authenticated, captured, journaled.  No
        slot of any unit changes, and the unit is new to every mouse and to
        every earlier subject. */
    method Reconnected(endpoint: Endpoint, target: Option<DeviceId>) returns (r: Reply)
      requires Idle()
      modifies this
      ensures Idle() && SlotsKept() && plugged == old(plugged)
      ensures r.Accepted? ==> Joined(old(w), endpoint, target, w)
      ensures old(script) == [] ==> script == []
      ensures old(outcomes) == [] ==> outcomes == []
      ensures old(outcomes) == [] && r.Rejected? ==>
                state == old(state) || (r.failure == Erred(NumberOverflow) && CaptureParked(old(state), state))
      ensures r.Accepted? ==> Eligible(old(state), old(state).journal.value, old(units)[plugged[endpoint]], target)
      ensures old(script) == [] && old(outcomes) == [] ==>
                (r.Accepted? <==>
                   && !endpoint.transport.Ble? && endpoint in plugged && plugged[endpoint] in old(units)
                   && Joinable(old(state), endpoint, old(units)[plugged[endpoint]], target))
      ensures old(script) == [] && old(state).journal.Some? && old(state).journal.value.stage.AwaitingCapture?
              && IsUsb(endpoint.transport) && endpoint in plugged ==>
                && plugged[endpoint] in old(units) && UnitOk(old(units)[plugged[endpoint]])
                && var j, u := old(state).journal.value, old(units)[plugged[endpoint]];
                (!Eligible(old(state), j, u, target) ==> r == Rejected(Denied(WhyNot(old(state), j, u, target))))
    {
      if state.journal.None? { return Rejected(NoCeremonyRunning); }
      var j := state.journal.value;
      ReachableInv(w);
      JournalFacts(state);
      if !j.stage.AwaitingCapture? { return Rejected(WrongAction); }
      if !j.phase.InitialEnrollment? && j.subjects != [] { return Rejected(WrongAction); }
      if j.phase.InitialEnrollment? && |j.subjects| > 1 { return Rejected(WrongAction); }
      if !IsUsb(endpoint.transport) { return Rejected(Denied(RequiresUsb)); }
      if endpoint !in plugged { return Rejected(Faulty(TransportFailed)); }
      r := Join(endpoint, target);
    }

    /** The presented unit is authenticated and captured, then journaled. */
    method Join(endpoint: Endpoint, target: Option<DeviceId>) returns (r: Reply)
      requires Idle() && InStage(w, AwaitingCapture) && endpoint in plugged && IsUsb(endpoint.transport)
      requires var j := state.journal.value; |j.subjects| <= (if j.phase.InitialEnrollment? then 1 else 0)
      modifies this
      ensures Idle() && SlotsKept() && plugged == old(plugged)
      ensures r.Accepted? ==> Joined(old(w), endpoint, target, w)
      ensures old(script) == [] ==> script == []
      ensures old(outcomes) == [] ==> outcomes == []
      ensures old(outcomes) == [] && r.Rejected? ==>
                state == old(state) || (r.failure == Erred(NumberOverflow) && CaptureParked(old(state), state))
      ensures plugged[endpoint] in old(units)
      ensures UnitOk(old(units)[plugged[endpoint]])
      ensures r.Accepted? ==> Eligible(old(state), old(state).journal.value, old(units)[plugged[endpoint]], target)
      ensures old(script) == [] && old(outcomes) == [] ==>
                (r.Accepted? <==> Joinable(old(state), endpoint, old(units)[plugged[endpoint]], target))
      ensures var j, u := old(state).journal.value, old(units)[plugged[endpoint]];
              old(script) == [] && !Eligible(old(state), j, u, target) ==>
                r == Rejected(Denied(WhyNot(old(state), j, u, target)))
    {
      EndpointUnit(w, endpoint);
      var prepared := Present(endpoint, target);
      if prepared.NotReady? { return Rejected(prepared.failure); }
      ghost var presented := w;
      JoinableIff(old(w), w, endpoint, target, prepared.subject);
      r := Enrolled(plugged[endpoint], prepared.subject);
      if r.Accepted? { JoinedBy(old(w), presented, endpoint, target, prepared.subject, w); }
    }

    /** Opens the endpoint and builds the subject from the unit behind it. */
    method Present(endpoint: Endpoint, target: Option<DeviceId>) returns (r: Prepared)
      requires Valid() && InStage(w, AwaitingCapture) && endpoint in plugged && IsUsb(endpoint.transport)
      requires var j := state.journal.value; |j.subjects| <= (if j.phase.InitialEnrollment? then 1 else 0)
      modifies this`units, this`script, this`w
      ensures Valid() && SlotsKept() && w == old(w).(units := units) && plugged[endpoint] in units
      ensures old(script) == [] ==> script == []
      ensures plugged[endpoint] in old(units)
      ensures r.Ready? ==> Eligible(state, state.journal.value, old(units)[plugged[endpoint]], target)
      ensures old(script) == [] && r.NotReady? ==>
                && UnitOk(old(units)[plugged[endpoint]])
                && !Eligible(state, state.journal.value, old(units)[plugged[endpoint]], target)
                && r.failure == Denied(WhyNot(state, state.journal.value, old(units)[plugged[endpoint]], target))
      ensures units == old(units)[plugged[endpoint] := units[plugged[endpoint]]]
      ensures r.Ready? ==> r.subject.endpoint == endpoint && Enrollable(w, plugged[endpoint], r.subject)
                           && units[plugged[endpoint]].meta == old(units)[plugged[endpoint]].meta
      ensures r.Ready? && state.journal.value.phase.Restore? ==> r.subject.device == target
    {
      var uid := plugged[endpoint];
      EndpointUnit(w, endpoint);
      var session := new UsbSession(units[uid], script);
      r := BuildSubject(session, state, state.journal.value, endpoint, target);
      HandleStep(w, uid, session.unit);
      if r.Ready? {
        DescribesPhysical(state, state.journal.value, r.subject, units[uid], session.unit);
        DescribesIff(state, state.journal.value, r.subject, session.unit);
      }
      Release(uid, session.unit, session.script, w.(units := w.units[uid := session.unit]));
    }

    /** Journals the captured subject, completing the adoption on the spot if
        nothing is left to stamp. */
    method Enrolled(uid: UnitId, sub: Subject) returns (r: Reply)
      requires Idle() && Enrollable(w, uid, sub)
      modifies this`state, this`outcomes, this`w
      ensures Idle() && w.units == old(w).units && w.plugged == old(w).plugged
      ensures uid !in old(w).owner.Values && uid !in old(w).who
      ensures r.Accepted? ==> EnrolledAs(old(w), uid, sub, w)
      ensures r.Accepted? && state.journal.Some? ==> state == PushedState(old(state), sub, Stamping)
      ensures old(outcomes) == [] ==> outcomes == []
      ensures old(outcomes) == [] && r.Rejected? ==>
                state == old(state) || (r.failure == Erred(NumberOverflow) && CaptureParked(old(state), state))
      ensures old(outcomes) == [] ==>
                (r.Accepted? <==> && !old(state).journal.value.phase.BleAssociation?
                                  && (FullyStamped(sub) ==> Coherent(sub.endpoint) && old(state).next < MAX_NUMBER))
      ensures FullyStamped(sub) ==> old(state).journal.value.phase.ForeignAdoption?
    {
      AdmittedIsNew(w, uid, sub);
      EnrollStep(w, uid, sub);
      ReachableInv(w);
      EnrollAcceptedIff(w, uid, sub);
      if FullyStamped(sub) { PlanLeavesWork(w, uid, sub); }
      r := Commit(EnrollCommit(state, sub), EnrolledWorld(w, uid, sub));
    }

    /** Writes one pending profile's watermark and confirms it. */
    method SendProfile(uid: UnitId, token: Token, p: ProfileId) returns (r: Reply)
      requires Valid() && Next(w, uid, token, p)
      modifies this`units, this`script, this`w
      ensures Valid() && Ongoing(w, uid, token) && w.units == old(w).units[uid := w.units[uid]]
      ensures w == old(w).(units := w.units, sent := w.sent, breaks := w.breaks, loose := w.loose)
      ensures w.sent <= old(w).sent + 1
      ensures r.Accepted? ==> MarkSent(w, p) && w.breaks == old(w).breaks
      ensures r.Rejected? ==> !w.loose && w.breaks == old(w).breaks + 1
      ensures old(script) == [] ==> r.Accepted? && script == []
    {
      var stamped, u, rest, sent := StampUnit(units[uid], script, p, token, CapturedDpi(state, p));
      WrittenIsStep(w, uid, token, p, u, sent);
      WrittenOngoing(w, uid, token, p, u, sent);
      Release(uid, u, rest, Written(w, uid, u, sent));
      if stamped.Err? {
        Interrupt();
        r := Rejected(Faulty(stamped.error));
      } else {
        r := Accepted;
      }
    }

    /** Journals a sent mark while others are still pending. */
    method JournalProfile(uid: UnitId, token: Token, p: ProfileId) returns (r: Reply)
      requires Valid() && Ongoing(w, uid, token) && MarkSent(w, p)
               && PendingSet(LastSubject(state.journal.value)) != {p}
      modifies this`state, this`outcomes, this`w
      ensures Valid() && w.units == old(w).units && w.plugged == old(w).plugged
      ensures SameSetting(old(w), w)
      ensures r.Accepted? ==>
                && Ongoing(w, uid, token) && !w.loose && w.breaks == old(w).breaks
                && SameCeremony(old(state), state)
                && PendingSet(LastSubject(state.journal.value)) ==
                   PendingSet(LastSubject(old(state).journal.value)) - {p}
      ensures r.Rejected? ==> !w.loose && w.breaks == old(w).breaks + 1
      ensures old(outcomes) == [] ==> r.Accepted? && outcomes == []
    {
      ghost var v := w.(state := MarkCommit(state, p), loose := false);
      MarkedOngoing(w, uid, token, p, v);
      ReachableInv(w);
      MarkAccepted(state, p);
      CommitStep(w, JournalMark(p), v);
      r := Commit(Mutation(MarkCommit(state, p), None), v);
      if r.Rejected? { Interrupt(); }
    }

    /** One round: write `pending[i]`, confirm it, and journal it unless it is
        the last, whose entry is left to the transition. */
    method StampNext(uid: UnitId, token: Token, pending: seq<ProfileId>, i: nat) returns (r: Reply)
      requires Valid() && i < |pending| && StampedUpTo(w, uid, token, pending, i)
      modifies this
      ensures Valid() && SameSetting(old(w), w)
      ensures uid in units && units == old(units)[uid := units[uid]]
      ensures r.Accepted? ==> StampedUpTo(w, uid, token, pending, i + 1) && w.breaks == old(w).breaks
                              && SameCeremony(old(state), state)
      ensures r.Rejected? ==> !w.loose && w.breaks == old(w).breaks + 1
      ensures old(outcomes) == [] ==> outcomes == [] && (r.Rejected? ==> state == old(state))
      ensures old(script) == [] && old(outcomes) == [] ==> r.Accepted? && script == []
    {
      ghost var sub := LastSubject(state.journal.value);
      RemainingLeast(sub, pending, i);
      NextInRange(w, uid, token, pending[i]);
      r := SendProfile(uid, token, pending[i]);
      if r.Accepted? && i + 1 < |pending| {
        r := JournalProfile(uid, token, pending[i]);
        if r.Accepted? { RemainingNext(sub, LastSubject(state.journal.value), pending, i); }
      }
    }

    /** Stamps every pending profile in ascending order. */
    method StampPending(uid: UnitId, token: Token) returns (r: Reply, final: ProfileId)
      requires Valid() && Ongoing(w, uid, token) && !w.loose
      modifies this
      ensures Valid() && SameSetting(old(w), w)
      ensures uid in units && units == old(units)[uid := units[uid]]
      ensures r.Accepted? ==> AllSent(w, uid, token, final) && w.breaks == old(w).breaks
                              && SameCeremony(old(state), state)
      ensures r.Rejected? ==> !w.loose && w.breaks == old(w).breaks + 1
      ensures old(outcomes) == [] ==> outcomes == [] && SameCeremony(old(state), state)
      ensures old(script) == [] && old(outcomes) == [] ==> r.Accepted? && script == []
    {
      StampingStarts(w, uid, token);
      SameCeremonyStarts(state);
      ghost var before, works, quiet := state, outcomes == [], script == [] && outcomes == [];
      var pending := Ascending(StillToStamp(LastSubject(state.journal.value)));
      final := pending[|pending| - 1];
      r := Accepted;
      for i := 0 to |pending|
        invariant Valid() && StampedUpTo(w, uid, token, pending, i)
        invariant SameSetting(old(w), w) && w.breaks == old(w).breaks
        invariant uid in units && units == old(units)[uid := units[uid]]
        invariant SameCeremony(before, state) && r.Accepted?
        invariant works ==> outcomes == []
        invariant quiet ==> script == []
      {
        ghost var now := state;
        r := StampNext(uid, token, pending, i);
        if r.Rejected? { return; }
        SameCeremonyGoesOn(before, now, state);
      }
    }

    /** Leaves the unit neither expanded nor switched. */
    method RestoreMetadata(uid: UnitId, ghost token: Token, ghost final: ProfileId, meta: Metadata) returns (r: Reply)
      requires Valid() && AllSent(w, uid, token, final)
               && LastSubject(state.journal.value).captured.value.meta == Some(meta)
      modifies this`units, this`script, this`w
      ensures Valid() && uid in units && units == old(units)[uid := units[uid]]
      ensures w == old(w).(units := w.units, breaks := w.breaks, loose := w.loose)
      ensures r.Accepted? ==> AllSent(w, uid, token, final) && units[uid].meta == meta && w.breaks == old(w).breaks
      ensures r.Rejected? ==> !w.loose && w.breaks == old(w).breaks + 1
      ensures old(script) == [] ==> r.Accepted? && script == []
    {
      OngoingTracks(w, uid, token);
      var restored, u, rest := RestoreUnit(units[uid], script, meta);
      HandledAllSent(w, uid, token, final, u);
      Release(uid, u, rest, w.(units := w.units[uid := u]));
      if restored.Err? {
        Interrupt();
        return Rejected(Faulty(RefreshRestorationFailed));
      }
      r := Accepted;
    }

    /** Reserves the subject's token in the journal, unless it has one. */
    method Reserve(ghost uid: UnitId, draws: seq<Token>) returns (r: Reply)
      requires Valid() && Presented(w, uid)
      modifies this`state, this`outcomes, this`w
      ensures Valid() && w == old(w).(state := state, breaks := w.breaks, loose := w.loose)
      ensures r.Accepted? ==>
                && state.journal.Some? && state.journal.value.subjects != []
                && var sub := LastSubject(state.journal.value);
                && sub.token.Some? && Ongoing(w, uid, sub.token.value) && w.breaks == old(w).breaks
                   && w.loose == old(w).loose
                && SameCeremony(old(state), state)
                && (LastSubject(old(state).journal.value).token.None? ==> Usable(old(state), sub.token.value))
      ensures r.Rejected? ==> (w.loose ==> old(w).loose) && w.breaks <= old(w).breaks + 1
      ensures old(outcomes) == [] ==>
                outcomes == [] && (r.Rejected? ==> state == old(state) && r.failure.TokenGeneration?)
      ensures old(outcomes) == [] && CanMint(old(state), draws) ==> r.Accepted?
    {
      var sub := LastSubject(state.journal.value);
      SameCeremonyStarts(state);
      if sub.token.Some? { return Accepted; }
      StampingUnit(w);
      var token := MintUniqueToken(state, sub.oldToken, draws);
      if token.None? { return Rejected(TokenGeneration); }
      ReserveStep(w, uid, token.value);
      r := Commit(Mutation(ReserveCommit(state, token.value), None), w.(state := ReserveCommit(state, token.value)));
      if r.Rejected? { Interrupt(); }
    }

    /** The atomic transition after the last stamp. */
    method Transit(uid: UnitId, ghost token: Token, final: ProfileId) returns (r: Reply)
      requires Valid() && AllSent(w, uid, token, final)
      requires LastSubject(state.journal.value).captured.value.meta == Some(units[uid].meta)
      modifies this`state, this`outcomes, this`w
      ensures Valid() && w.units == old(w).units && w.plugged == old(w).plugged
      ensures r.Accepted? ==> AdvancedAs(old(w), uid, w) && !w.loose && w.breaks == old(w).breaks
      ensures r.Rejected? ==> !w.loose && w.breaks == old(w).breaks + 1
      ensures old(outcomes) == [] ==> outcomes == []
      ensures old(outcomes) == [] && r.Rejected? ==>
                state == old(state) || (r.failure == Erred(NumberOverflow) && ParkedFor(old(state), state))
      ensures old(outcomes) == [] ==> (r.Accepted? <==> !Unstorable(old(state), old(state).journal.value))
    {
      TransitionStep(w, uid, token, final);
      r := Commit(Transition(state, final), TransitionWorld(w, final));
      if r.Rejected? { Interrupt(); }
    }

    /** Stamps the last subject's pending profiles and advances the ceremony.
        However it fails, it can be called again; each failed call costs at
        most one repeated watermark report. */
    method Stamp(draws: seq<Token>) returns (r: Reply)
      requires Idle()
      modifies this
      ensures old(script) == [] && old(outcomes) == [] ==> script == [] && outcomes == []
      ensures Idle() && plugged == old(plugged) && w.breaks <= old(w).breaks + 1
      ensures !InStage(old(w), Stamping) ==> r.Rejected? && w == old(w)
      ensures r.Accepted? ==>
                && InStage(old(w), Stamping) && old(w).who != [] && w.breaks == old(w).breaks
                && var uid := old(w).who[|old(w).who| - 1];
                && uid in units && AdvancedAs(old(w), uid, w)
                && StampedWhole(old(state), LastSubject(old(state).journal.value), units[uid])
      ensures InStage(old(w), Stamping) && old(w).who != [] ==>
                var uid := old(w).who[|old(w).who| - 1]; uid in units && units == old(units)[uid := units[uid]]
      ensures old(outcomes) == [] && r.Rejected? && InStage(old(w), Stamping) ==>
                || SameCeremony(old(state), state)
                || (r.failure == Erred(NumberOverflow) && ParkedFor(old(state), state))
      ensures old(script) == [] && old(outcomes) == [] && InStage(old(w), Stamping) && CanMint(old(state), draws)
              && LastSubject(old(state).journal.value).endpoint in plugged
              ==> (r.Accepted? <==> !Unstorable(old(state), old(state).journal.value))
    {
      if state.journal.None? { return Rejected(NoCeremonyRunning); }
      if !state.journal.value.stage.Stamping? || state.journal.value.phase.BleAssociation?
          || state.journal.value.subjects == [] {
        if state.journal.value.stage.Stamping? { JournalNeverStampsBle(w); }
        return Rejected(WrongAction);
      }
      StampingUnit(w);
      r := StampSubject(w.who[|w.who| - 1], draws);
    }

    /** Reserves the token and stamps; the same document as seen from before. */
    method StampSubject(ghost uid: UnitId, draws: seq<Token>) returns (r: Reply)
      requires Idle() && Presented(w, uid)
      modifies this
      ensures old(script) == [] && old(outcomes) == [] ==> script == [] && outcomes == []
      ensures Idle() && plugged == old(plugged) && w.breaks <= old(w).breaks + 1
      ensures uid in units && units == old(units)[uid := units[uid]]
      ensures r.Accepted? ==> w.breaks == old(w).breaks && AdvancedAs(old(w), uid, w)
                              && StampedWhole(old(state), LastSubject(old(state).journal.value), units[uid])
      ensures old(outcomes) == [] && r.Rejected? ==>
                || SameCeremony(old(state), state)
                || (r.failure == Erred(NumberOverflow) && ParkedFor(old(state), state))
      ensures old(script) == [] && old(outcomes) == [] && CanMint(old(state), draws)
              && LastSubject(old(state).journal.value).endpoint in plugged
              ==> (r.Accepted? <==> !Unstorable(old(state), old(state).journal.value))
    {
      SameCeremonyStarts(state);
      r := Reserve(uid, draws);
      if r.Rejected? { return; }
      ghost var reserved, reservedWorld := state, w;
      r := StampReserved(uid);
      SeenFromBefore(old(state), reserved, state);
      if r.Accepted? { AdvancedFromBefore(old(w), reservedWorld, uid, w); }
      if r.Accepted? {
        WholeFromBefore(old(state), LastSubject(old(state).journal.value), reserved,
            LastSubject(reserved.journal.value), units[uid]);
      }
    }

    /** The rest of the stamping, once the token is in the journal. */
    method StampReserved(ghost uid: UnitId) returns (r: Reply)
      requires Idle() && Presented(w, uid) && LastSubject(state.journal.value).token.Some?
      modifies this
      ensures old(script) == [] && old(outcomes) == [] ==> script == [] && outcomes == []
      ensures Idle() && plugged == old(plugged) && w.breaks <= old(w).breaks + 1
      ensures uid in units && units == old(units)[uid := units[uid]]
      ensures r.Accepted? ==> w.breaks == old(w).breaks && AdvancedAs(old(w), uid, w)
                              && StampedWhole(old(state), LastSubject(old(state).journal.value), units[uid])
      ensures old(outcomes) == [] && r.Rejected? ==>
                || SameCeremony(old(state), state)
                || (r.failure == Erred(NumberOverflow) && ParkedFor(old(state), state))
      ensures old(script) == [] && old(outcomes) == [] && LastSubject(old(state).journal.value).endpoint in plugged ==>
                (r.Accepted? <==> !Unstorable(old(state), old(state).journal.value))
    {
      var sub := LastSubject(state.journal.value);
      var token := sub.token.value;
      StampingUnit(w);
      SameCeremonyStarts(state);
      if sub.endpoint !in plugged { return Rejected(Faulty(TransportFailed)); }
      var unit := plugged[sub.endpoint];
      var final: ProfileId;
      r, final := StampUnitWhole(unit, token);
      if r.Rejected? { return; }
      AllSentWhole(old(state), w, unit, token, final);
      ghost var sent, sentWorld := state, w;
      r := Transit(unit, token, final);
      SeenFromBefore(old(state), sent, state);
      if r.Accepted? { AdvancedFromBefore(old(w), sentWorld, uid, w); }
    }

    /** Every pending profile, then the captured metadata. */
    method StampUnitWhole(uid: UnitId, token: Token) returns (r: Reply, final: ProfileId)
      requires Idle() && Ongoing(w, uid, token)
      modifies this
      ensures Valid() && plugged == old(plugged) && uid in units && units == old(units)[uid := units[uid]]
      ensures SameSetting(old(w), w)
      ensures r.Accepted? ==>
                && AllSent(w, uid, token, final) && SameCeremony(old(state), state) && w.breaks == old(w).breaks
                && LastSubject(state.journal.value).captured.value.meta == Some(units[uid].meta)
      ensures r.Rejected? ==> !w.loose && w.breaks == old(w).breaks + 1
      ensures old(outcomes) == [] ==> outcomes == [] && SameCeremony(old(state), state)
      ensures old(script) == [] && old(outcomes) == [] ==> r.Accepted? && script == []
    {
      OngoingTracks(w, uid, token);
      var meta := LastSubject(state.journal.value).captured.value.meta;
      r, final := StampPending(uid, token);
      if r.Rejected? { return; }
      r := RestoreMetadata(uid, token, final, meta.value);
    }

    /** The explicit confirmation of an adoption, which needs no token minted. */
    method Adopt(draws: seq<Token>) returns (r: Reply)
      requires Idle()
      modifies this
      ensures Idle() && plugged == old(plugged) && w.breaks <= old(w).breaks + 1
      ensures r.Accepted? ==> && InStage(old(w), Stamping) && old(state).journal.value.phase.ForeignAdoption?
                              && state.journal.None? && old(w).who != []
                              && var uid := old(w).who[|old(w).who| - 1];
                              && BecameMouse(old(state), ForeignAdoption, LastSubject(old(state).journal.value), state)
                              && w.owner == old(w).owner[old(state).next := uid]
                              && uid in units && units == old(units)[uid := units[uid]]
                              && StampedWhole(old(state), LastSubject(old(state).journal.value), units[uid])
      ensures !InStage(old(w), Stamping) || !old(state).journal.value.phase.ForeignAdoption? ==>
                r.Rejected? && w == old(w)
      ensures old(outcomes) == [] && r.Rejected? && InStage(old(w), Stamping) ==>
                || state == old(state) || SameCeremony(old(state), state)
                || (r.failure == Erred(NumberOverflow) && ParkedFor(old(state), state))
      ensures old(script) == [] && old(outcomes) == []
              && InStage(old(w), Stamping) && old(state).journal.value.phase.ForeignAdoption?
              && LastSubject(old(state).journal.value).endpoint in plugged
              ==> (r.Accepted? <==> !Unstorable(old(state), old(state).journal.value))
    {
      if state.journal.None? { return Rejected(NoCeremonyRunning); }
      if !state.journal.value.phase.ForeignAdoption? { return Rejected(WrongAction); }
      if InStage(w, Stamping) { AdoptionHasToken(w); }
      r := Stamp(draws);
    }

    /** The migration decision finishes the initial enrollment.  With a working
        store it succeeds exactly when two numbers are left, no endpoint is
        remembered yet and both mice can be stored; otherwise it leaves the
        document as it was, except that a single number left is used up. */
    method FinalizeMigration(skip: bool) returns (r: Reply)
      requires Idle()
      modifies this`state, this`outcomes, this`w
      ensures Idle() && w.units == old(w).units && w.plugged == old(w).plugged
      ensures r.Accepted? ==>
                old(state).journal.Some? && ReadyToDecide(old(state).journal.value) && EnrolledPair(old(w), skip, w)
      ensures old(state).journal.None? || !ReadyToDecide(old(state).journal.value) ==> r.Rejected? && w == old(w)
      ensures old(outcomes) == [] ==> outcomes == []
      ensures old(outcomes) == [] && old(state).journal.Some? && ReadyToDecide(old(state).journal.value) ==>
                && (r.Accepted? <==> && old(state).next + 1 < MAX_NUMBER && old(state).mapping == map[]
                                     && CoherentSubjects(old(state).journal.value))
                && (r.Rejected? ==>
                  state == if old(state).next + 1 != MAX_NUMBER then old(state) else old(state).(next := MAX_NUMBER))
    {
      if state.journal.None? { return Rejected(NoCeremonyRunning); }
      if !ReadyToDecide(state.journal.value) { return Rejected(WrongAction); }
      DecideStep(w, skip);
      DecideOutcome(w, skip);
      r := Commit(Finalize(state, skip), Committed(w, Finalize(state, skip).state));
    }

    /** Associates a BLE endpoint with a mouse in one commit.  With a working
        store it succeeds exactly when the endpoint is no other mouse's. */
    method Associate(endpoint: Endpoint, target: Option<DeviceId>) returns (r: Reply)
      requires Idle()
      modifies this`state, this`outcomes, this`w
      ensures Idle() && w.units == old(w).units && w.plugged == old(w).plugged && w.owner == old(w).owner
      ensures r.Accepted? ==>
                && target.Some? && Associable(old(state), endpoint, target.value)
                && var d := old(state).devices[target.value];
                state == old(state).(journal := None, devices := old(state).devices[target.value :=
                           d.(endpoints := d.endpoints[endpoint.transport := endpoint])])
      ensures old(outcomes) == [] && r.Rejected? ==> state == old(state)
      ensures old(outcomes) == [] ==>
                (r.Accepted? <==> && endpoint.transport.Ble? && endpoint.locator.BlePlatformId? && target.Some?
                                  && Associable(old(state), endpoint, target.value))
    {
      if !endpoint.transport.Ble? { return Rejected(Denied(RequiresBle)); }
      if target.None? { return Rejected(Denied(TargetRequired)); }
      if state.journal.None? { return Rejected(NoCeremonyRunning); }
      AssociateStep(w, endpoint, target.value);
      if Associable(state, endpoint, target.value) {
        ReachableInv(w);
        AssociateAcceptedIff(state, endpoint, target.value);
      }
      r := Commit(AssociateCommit(state, endpoint, target.value), AssociatedWorld(w, endpoint, target.value));
    }

    /** Cancels while no stamp is journaled. */
    method Cancel() returns (r: Reply)
      requires Idle()
      modifies this`state, this`outcomes, this`w
      ensures Idle() && w.units == old(w).units && w.plugged == old(w).plugged && w.owner == old(w).owner
      ensures r.Accepted? ==>
                && old(state).journal.Some? && Cancellable(old(state).journal.value)
                && state == old(state).(journal := None)
      ensures old(outcomes) == [] ==>
                (r.Accepted? <==> old(state).journal.Some? && Cancellable(old(state).journal.value))
      ensures old(outcomes) == [] && r.Rejected? ==> state == old(state)
    {
      if state.journal.None? { return Rejected(NoCeremonyRunning); }
      if !Cancellable(state.journal.value) { return Rejected(Denied(StampsIrreversible)); }
      var t := state.(journal := None);
      ReachableInv(w);
      CancelAccepted(state);
      CommitStep(w, Step.Cancel, w.(state := t, who := [], loose := false));
      r := Commit(Mutation(t, None), w.(state := t, who := [], loose := false));
    }

    /** Removes a mouse; one with evidence only when forced.  With a working
        store it succeeds exactly when nothing else names the mouse. */
    method Forget(device: DeviceId, force: bool) returns (r: Reply, removed: bool)
      requires Idle()
      modifies this`state, this`outcomes, this`w
      ensures Idle() && w.units == old(w).units && w.plugged == old(w).plugged
      ensures removed ==>
                && device in old(state).devices && (force || old(state).devices[device].evidence == NO_EVIDENCE)
                && Unreferenced(old(state), device)
                && state.devices == old(state).devices - {device}
                && state.selected == (if old(state).selected == Some(device) then None else old(state).selected)
                && state == old(state).(devices := state.devices, selected := state.selected)
      ensures old(outcomes) == [] && !removed ==> state == old(state)
      ensures old(outcomes) == [] ==>
                (removed <==> && device in old(state).devices
                              && (force || old(state).devices[device].evidence == NO_EVIDENCE)
                              && Unreferenced(old(state), device))
    {
      removed := false;
      if device !in state.devices { return Rejected(Denied(UnknownDevice)), false; }
      if HasEvidence(state.devices[device]) && !force { return Accepted, false; }
      var t := ForgetCommit(state, device);
      ghost var v := w.(state := t, owner := w.owner - {device});
      ReachableInv(w);
      ForgetAcceptedIff(state, device);
      if Validate(t) { CommitStep(w, Step.Forget(device), v); }
      r := Commit(Mutation(t, None), v);
      removed := r.Accepted?;
    }

    // ----- no dead end but the known ones ------------------------------------------------

    /** From every state of every ceremony that is not a dead end, one call
        goes on: cancelling, stamping with the subject's unit connected,
        presenting the second mouse, or deciding. */
    method GoOn(endpoint: Endpoint, draws: seq<Token>, skip: bool) returns (r: Reply)
      requires Idle() && script == [] && outcomes == [] && state.journal.Some? && !Stuck(state)
      requires InStage(w, Stamping) ==> LastSubject(state.journal.value).endpoint in plugged && CanMint(state, draws)
      requires InStage(w, AwaitingCapture) && !Cancellable(state.journal.value) ==>
                 && IsUsb(endpoint.transport) && endpoint in plugged && plugged[endpoint] in units
                 && Eligible(state, state.journal.value, units[plugged[endpoint]], None)
      modifies this
      ensures Idle() && r.Accepted? && plugged == old(plugged)
    {
      WaysOn(w);
      if Cancellable(state.journal.value) {
        r := Cancel();
      } else if state.journal.value.stage.Stamping? {
        r := Stamp(draws);
      } else if state.journal.value.stage.AwaitingCapture? {
        r := Reconnected(endpoint, None);
      } else {
        r := FinalizeMigration(skip);
      }
    }
  }
}
