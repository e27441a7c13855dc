/** Which of the ceremony's commits validation accepts: the driver is never
    refused half way, with two exceptions stated exactly. */
module CeremonyCommits {
  import opened Watermark
  import opened Hardware
  import opened State
  import opened Ceremony
  import opened CeremonySafety

  // ----- starting and cancelling ---------------------------------------------------

  /** A ceremony may start exactly when none is running and its kind fits the
      mode: enrollment in legacy mode, everything else in persistent mode. */
  lemma BeginAcceptedIff(s: StateFile, phase: Phase)
    requires Validate(s) && s.journal.None?
    ensures Validate(s.(journal := Some(Journal(phase, AwaitingCapture, [])))) <==>
              (phase.InitialEnrollment? <==> s.mode.Legacy?)
  {
    var j := Journal(phase, AwaitingCapture, []);
    assert JournalOk(s.(journal := Some(j)), j) <==> (phase.InitialEnrollment? <==> s.mode.Legacy?);
  }

  lemma CancelAccepted(s: StateFile)
    requires Validate(s)
    ensures Validate(s.(journal := None))
  {}

  // ----- stamping --------------------------------------------------------------------

  lemma WithLastStage(j: Journal, sub: Subject)
    requires j.stage.Stamping? && StageOk(j) && ReservationsOk(j)
    requires var prior := LastSubject(j);
             sub.captured == prior.captured && sub.oldToken == prior.oldToken && !FullyStamped(sub)
    requires sub.token.Some? ==> forall i | 0 <= i < |j.subjects| - 1 :: j.subjects[i].token != sub.token
    ensures StageOk(WithLast(j, sub)) && ReservationsOk(WithLast(j, sub))
  {}

  /** Replacing the last subject is accepted when the new one stands on its own. */
  lemma WithLastAccepted(s: StateFile, sub: Subject)
    requires Validate(s) && s.journal.Some? && s.journal.value.stage.Stamping?
    requires var prior := LastSubject(s.journal.value);
             && sub.captured == prior.captured && sub.device == prior.device && sub.oldToken == prior.oldToken
             && sub.endpoint == prior.endpoint && !FullyStamped(sub)
             && (prior.token.Some? ==> sub.token == prior.token)
    requires SubjectOk(s, sub)
    requires sub.token.Some? ==> forall i | 0 <= i < |s.journal.value.subjects| - 1 ::
               s.journal.value.subjects[i].token != sub.token
    ensures Validate(s.(journal := Some(WithLast(s.journal.value, sub))))
  {
    var j := s.journal.value;
    var k := WithLast(j, sub);
    var t := s.(journal := Some(k));
    assert LastSubject(j) in j.subjects;
    assert forall x <- k.subjects :: x == sub || x in j.subjects;
    WithLastStage(j, sub);
    assert forall x <- k.subjects :: SubjectOk(t, x) by {
      forall x | x in k.subjects ensures SubjectOk(t, x) { assert SubjectOk(s, x); }
    }
    assert ShapeOk(t, k) by { assert ShapeOk(s, j); }
  }

  /** A minted token is always accepted: it differs from every mouse's and
      from everything the journal reserves. */
  lemma ReserveAccepted(s: StateFile, token: Token)
    requires Validate(s) && s.journal.Some? && s.journal.value.stage.Stamping?
    requires LastSubject(s.journal.value).token.None?
    requires !TokenKnown(s.devices, token) && !JournalReserves(s.journal.value, token)
    ensures Validate(ReserveCommit(s, token))
  {
    var j := s.journal.value;
    var sub := LastSubject(j);
    assert sub in j.subjects;
    forall i | 0 <= i < |j.subjects| - 1 ensures j.subjects[i].token != Some(token) {
      assert j.subjects[i] in j.subjects;
    }
    assert SubjectOk(s, sub.(token := Some(token)));
    WithLastAccepted(s, sub.(token := Some(token)));
  }

  /** Journaling a stamp that leaves work to do is always accepted. */
  lemma MarkAccepted(s: StateFile, p: ProfileId)
    requires Validate(s) && s.journal.Some? && s.journal.value.stage.Stamping?
    requires var sub := LastSubject(s.journal.value);
             sub.token.Some? && p in PendingSet(sub) && PendingSet(sub) != {p}
    ensures Validate(MarkCommit(s, p))
  {
    var j := s.journal.value;
    var sub := LastSubject(j);
    var sub' := sub.(progress := sub.progress[p := Stamped]);
    assert sub in j.subjects;
    assert sub'.progress.Keys == sub.progress.Keys;
    assert SubjectOk(s, sub');
    var q :| q in PendingSet(sub) && q != p;
    assert !FullyStamped(sub') by { assert sub'.progress[q] != Stamped; }
    forall i | 0 <= i < |j.subjects| - 1 ensures j.subjects[i].token != sub'.token { assert ReservationsOk(j); }
    WithLastAccepted(s, sub');
  }

  // ----- the last stamp ----------------------------------------------------------------

  /** The journal after the last stamp, at its next stage. */
  function Parked(s: StateFile, p: ProfileId, stage: Stage): StateFile
    requires s.journal.Some? && s.journal.value.subjects != []
  {
    var marked := MarkCommit(s, p);
    marked.(journal := Some(marked.journal.value.(stage := stage)))
  }

  lemma LastStampedOk(s: StateFile, p: ProfileId)
    requires Validate(s) && s.journal.Some? && s.journal.value.subjects != []
    requires var sub := LastSubject(s.journal.value); sub.token.Some? && PendingSet(sub) == {p}
    ensures var sub := LastSubject(s.journal.value);
            var sub' := sub.(progress := sub.progress[p := Stamped]);
            SubjectOk(s, sub') && FullyStamped(sub') && sub'.token.Some?
  {
    var sub := LastSubject(s.journal.value);
    assert sub in s.journal.value.subjects && p in PendingSet(sub);
    LastMarkCompletes(sub, p);
  }

  /** The transition after the last stamp is accepted at whichever stage the
      number of subjects calls for. */
  lemma ParkedAccepted(s: StateFile, p: ProfileId, stage: Stage)
    requires Validate(s) && s.journal.Some? && s.journal.value.stage.Stamping?
    requires var sub := LastSubject(s.journal.value); sub.token.Some? && PendingSet(sub) == {p}
    requires var j := s.journal.value;
             && stage == (if AwaitSecond(j) then AwaitingCapture else Finalizing)
             && forall i | 0 <= i < |j.subjects| - 1 :: j.subjects[i].token.Some? && FullyStamped(j.subjects[i])
    ensures Validate(Parked(s, p, stage))
  {
    var j := s.journal.value;
    var sub := LastSubject(j);
    var sub' := sub.(progress := sub.progress[p := Stamped]);
    LastStampedOk(s, p);
    var t := Parked(s, p, stage);
    var k := t.journal.value;
    assert sub in j.subjects && k.subjects == WithLast(j, sub').subjects;
    forall i | 0 <= i < |k.subjects|
      ensures SubjectOk(t, k.subjects[i]) && k.subjects[i].token.Some? && FullyStamped(k.subjects[i])
    {
      if i < |k.subjects| - 1 {
        assert k.subjects[i] == j.subjects[i] && j.subjects[i] in j.subjects && SubjectOk(s, j.subjects[i]);
      }
    }
    assert StageOk(k);
    assert ReservationsOk(k) by { assert ReservationsOk(j); }
    assert ShapeOk(t, k) by { assert ShapeOk(s, j); }
  }

  /** Rotating the token of `d`, or giving a fresh number a fresh token, keeps
      every mouse distinct; what can still be refused is the endpoint the mouse
      is to be stored with. */
  lemma FinalizeOneAcceptedIff(x: StateFile)
    requires Validate(x) && x.journal.Some? && x.journal.value.stage.Finalizing?
    requires x.journal.value.phase in {AddMouse, ForeignAdoption, Restore}
    ensures var m := Finalize(x, false);
            Validate(m.state) <==> m.error.Some? || Coherent(x.journal.value.subjects[0].endpoint)
  {
    var j := x.journal.value;
    var sub := j.subjects[0];
    assert sub in j.subjects && SubjectOk(x, sub) && sub.token.Some?;
    OneForm(x);
    assert !TokenKnown(x.devices, sub.token.value);
    var t := Finalize(x, false).state;
    if t.journal.None? {
      var d: DeviceId := if j.phase.Restore? then sub.device.value else x.next;
      assert d in t.devices && sub.endpoint.transport in t.devices[d].endpoints;
      assert EndpointsOk(t.devices[d]) <==> Coherent(sub.endpoint);
    }
  }

  // ----- the captured subject -------------------------------------------------------------

  function PushedState(s: StateFile, sub: Subject, stage: Stage): StateFile
    requires s.journal.Some?
  {
    var j := s.journal.value;
    s.(journal := Some(j.(subjects := j.subjects + [sub], stage := stage)))
  }

  /** What admission, binding and the stamp plan establish about a subject. */
  ghost predicate Planned(s: StateFile, sub: Subject) {
    && s.journal.Some? && s.journal.value.stage.AwaitingCapture?
    && var j := s.journal.value;
    && !j.phase.BleAssociation? && |j.subjects| <= (if j.phase.InitialEnrollment? then 1 else 0)
    && sub.captured.Some? && sub.captured.value.profiles != map[]
    && sub.progress.Keys == sub.captured.value.profiles.Keys
    && (sub.token.Some? ==> !TokenKnown(s.devices, sub.token.value))
    && ((exists p :: p in sub.progress && sub.progress[p] == Stamped) ==> sub.token.Some?)
    && (j.phase.InitialEnrollment? ==> sub.token.None?)
    && (if j.phase.Restore? then
          && sub.device.Some? && sub.device.value in s.devices && sub.oldToken.Some?
          && s.devices[sub.device.value].token == sub.oldToken && sub.token.None?
        else sub.device.None? && sub.oldToken.None?)
  }

  lemma EnrollablePlanned(w: World, uid: UnitId, sub: Subject)
    requires Enrollable(w, uid, sub) && !w.state.journal.value.phase.BleAssociation?
    ensures Planned(w.state, sub)
  {
    var one: ProfileId := 1;
    assert one in sub.captured.value.profiles;
  }

  lemma PushedAccepted(s: StateFile, sub: Subject, stage: Stage)
    requires Validate(s) && Planned(s, sub)
    requires if FullyStamped(sub) then stage.Finalizing? && s.journal.value.phase.ForeignAdoption? else stage.Stamping?
    ensures Validate(PushedState(s, sub, stage))
  {
    var j, t := s.journal.value, PushedState(s, sub, stage);
    var k := t.journal.value;
    assert k.subjects[|k.subjects| - 1] == sub;
    assert SubjectOk(t, sub);
    forall x | x in k.subjects ensures SubjectOk(t, x) {
      if x in j.subjects { assert SubjectOk(s, x); }
    }
    if FullyStamped(sub) {
      var p :| p in sub.progress;
      assert sub.progress[p] == Stamped;
    }
    assert StageOk(k);
    assert ReservationsOk(k) by { assert ReservationsOk(j); }
    assert ShapeOk(t, k) by { assert ShapeOk(s, j); }
  }

  /** Only an adoption can present a subject with nothing left to stamp. */
  lemma PlanLeavesWork(w: World, uid: UnitId, sub: Subject)
    requires Enrollable(w, uid, sub) && FullyStamped(sub)
    ensures w.state.journal.value.phase.ForeignAdoption?
  {
    var one: ProfileId := 1;
    assert one in sub.captured.value.profiles;
    assert sub.progress[one] == Stamped;
  }

  /** The capture of an admitted unit is always accepted, whatever endpoint it
      was presented on; an adoption that completes on the spot needs a coherent
      one, unless there is no number for it; BLE association captures nothing. */
  lemma EnrollAcceptedIff(w: World, uid: UnitId, sub: Subject)
    requires Validate(w.state) && Enrollable(w, uid, sub)
    ensures 1 <= w.state.next
    ensures Validate(EnrollCommit(w.state, sub).state) <==>
              && !w.state.journal.value.phase.BleAssociation?
              && (FullyStamped(sub) && w.state.next < MAX_NUMBER ==> Coherent(sub.endpoint))
  {
    if w.state.journal.value.phase.BleAssociation? {
      var t := EnrollCommit(w.state, sub).state;
      assert t.journal.value.phase.BleAssociation? && t.journal.value.stage.Stamping?;
    } else {
      EnrollablePlanned(w, uid, sub);
      if FullyStamped(sub) {
        PlanLeavesWork(w, uid, sub);
        FullCaptureAcceptedIff(w.state, sub);
      } else {
        PushedAccepted(w.state, sub, Stamping);
      }
    }
  }

  lemma FullCaptureAcceptedIff(s: StateFile, sub: Subject)
    requires Validate(s) && Planned(s, sub) && FullyStamped(sub) && s.journal.value.phase.ForeignAdoption?
    ensures Validate(EnrollCommit(s, sub).state) <==> (s.next < MAX_NUMBER ==> Coherent(sub.endpoint))
  {
    var x := PushedState(s, sub, Finalizing);
    PushedAccepted(s, sub, Finalizing);
    FinalizeOneAcceptedIff(x);
    AllocateTakesNext(x);
    assert x.journal.value.subjects[0] == sub && sub in x.journal.value.subjects && StageOk(x.journal.value);
    assert EnrollCommit(s, sub) == Finalize(x, false);
  }

  // ----- the migration decision ---------------------------------------------------------

  lemma FreshEndpoints(sub: Subject, name: Option<string>)
    ensures EndpointsOk(FreshDevice(sub, name)) <==> Coherent(sub.endpoint)
  {
    assert sub.endpoint.transport in FreshDevice(sub, name).endpoints;
  }

  lemma NewPairValid(s: StateFile, j: Journal, skip: bool)
    requires 1 <= s.next && |j.subjects| == 2 && j.subjects[0].token.Some? && j.subjects[1].token.Some?
    requires j.subjects[0].token != j.subjects[1].token
    ensures var t := TwoDevices(s, j, skip);
            && (EndpointsOk(t[s.next]) <==> Coherent(j.subjects[0].endpoint))
            && (EndpointsOk(t[s.next + 1]) <==> Coherent(j.subjects[1].endpoint))
            && (forall d <- t :: t[d].token.Some? && d < s.next + 2)
            && (forall d, e | d in t && e in t && d != e :: t[d].token != t[e].token)
  {
    FreshEndpoints(j.subjects[0], NameFor(s, j, skip, 0));
    FreshEndpoints(j.subjects[1], NameFor(s, j, skip, 1));
  }

  /** Every remembered endpoint names a number below the two new ones. */
  lemma OldMappingNeverFits(s: StateFile, devices: map<DeviceId, Device>)
    requires NumbersOk(s) && MappingOk(s) && devices.Keys == {s.next, s.next + 1}
    ensures MappingOk(s.(devices := devices)) <==> s.mapping == map[]
  {
    if s.mapping != map[] {
      var f :| f in s.mapping;
      assert s.mapping[f] < s.next;
    }
  }

  lemma EnrolledValidIff(s: StateFile, t: StateFile, skip: bool)
    requires NumbersOk(s) && MappingOk(s) && s.journal.Some? && |s.journal.value.subjects| == 2
    requires var j := s.journal.value;
             && j.subjects[0].token.Some? && j.subjects[1].token.Some? && j.subjects[0].token != j.subjects[1].token
             && t == s.(journal := None, mode := Persistent, next := s.next + 2, selected := Some(s.next as DeviceId),
                        devices := TwoDevices(s, j, skip))
    ensures Validate(t) <==>
              && s.mapping == map[]
              && Coherent(s.journal.value.subjects[0].endpoint) && Coherent(s.journal.value.subjects[1].endpoint)
  {
    var j := s.journal.value;
    NewPairValid(s, j, skip);
    assert EndpointsOk(t.devices[s.next]) <==> Coherent(j.subjects[0].endpoint);
    assert EndpointsOk(t.devices[s.next + 1]) <==> Coherent(j.subjects[1].endpoint);
    TwoDevicesTokens(s, j, skip);
    OldMappingNeverFits(s, t.devices);
    assert MappingOk(t) <==> MappingOk(s.(devices := t.devices));
  }

  predicate CoherentSubjects(j: Journal) {
    forall sub <- j.subjects :: Coherent(sub.endpoint)
  }

  /** The initial enrollment's final commit replaces every mouse by two new
      ones and leaves the remembered endpoints alone, so it is accepted exactly
      when nothing was remembered and both mice can be stored with their
      endpoints. */
  lemma DecideAcceptedIff(s: StateFile, skip: bool)
    requires Validate(s) && s.journal.Some? && ReadyToDecide(s.journal.value) && s.next + 1 < MAX_NUMBER
    ensures Validate(Finalize(s, skip).state) <==> s.mapping == map[] && CoherentSubjects(s.journal.value)
  {
    var j := s.journal.value;
    assert NumbersOk(s) && j.subjects[0] in j.subjects && j.subjects[1] in j.subjects;
    assert CoherentSubjects(j) <==> Coherent(j.subjects[0].endpoint) && Coherent(j.subjects[1].endpoint);
    EnrollmentForm(s, skip);
    EnrolledValidIff(s, Finalize(s, skip).state, skip);
  }

  lemma TheLegacyDevice(s: StateFile, d: DeviceId)
    requires s.devices.Keys == {d}
    ensures LegacyDevice(s) == Some(s.devices[d])
  {
    assert d in s.devices && forall e <- s.devices :: e == d;
  }

  /** Migration is not skipped and subject `i`'s capture, and not the other's,
      equals the evidence stored for the legacy mouse. */
  predicate UniqueMatch(legacy: Device, j: Journal, skip: bool, i: nat, k: nat)
    requires i < |j.subjects| && k < |j.subjects|
  {
    !skip && j.subjects[i].captured == Some(legacy.evidence) && j.subjects[k].captured != Some(legacy.evidence)
  }

  /** The legacy mouse's name goes to a subject exactly on a unique match, or
      where it happens to be the subject's default name; an ambiguous or missing
      match names nobody. */
  lemma LegacyNameGoesToUniqueMatch(s: StateFile, j: Journal, skip: bool, d: DeviceId, i: nat, k: nat)
    requires s.devices.Keys == {d} && |j.subjects| == 2 && i < 2 && k < 2 && i != k
    ensures NameFor(s, j, skip, i) == s.devices[d].name <==>
              UniqueMatch(s.devices[d], j, skip, i, k) || s.devices[d].name == Some(DefaultName(i))
    ensures !UniqueMatch(s.devices[d], j, skip, i, k) ==> NameFor(s, j, skip, i) == Some(DefaultName(i))
  {
    TheLegacyDevice(s, d);
  }

  /** The two new mice get different names, except that a legacy mouse already
      named like the other subject's default passes that name on. */
  lemma NewNamesDifferIff(s: StateFile, j: Journal, skip: bool, d: DeviceId)
    requires s.devices.Keys == {d} && |j.subjects| == 2
    ensures NameFor(s, j, skip, 0) != NameFor(s, j, skip, 1) <==>
              && !(UniqueMatch(s.devices[d], j, skip, 0, 1) && s.devices[d].name == Some("Mouse 2"))
              && !(UniqueMatch(s.devices[d], j, skip, 1, 0) && s.devices[d].name == Some("Mouse 1"))
  {
    assert "Mouse 1"[6] != "Mouse 2"[6];
    LegacyNameGoesToUniqueMatch(s, j, skip, d, 0, 1);
    LegacyNameGoesToUniqueMatch(s, j, skip, d, 1, 0);
  }

  // ----- forgetting a mouse ---------------------------------------------------------------

  /** Nothing else in the document names the mouse. */
  predicate Unreferenced(s: StateFile, d: DeviceId) {
    && (forall f <- s.mapping :: s.mapping[f] != d)
    && (s.journal.Some? ==> forall sub <- s.journal.value.subjects :: sub.device != Some(d))
  }

  lemma ForgetJournalIff(s: StateFile, j: Journal, d: DeviceId)
    requires JournalOk(s, j) && d in s.devices
    ensures JournalOk(ForgetCommit(s, d), j) <==> forall sub <- j.subjects :: sub.device != Some(d)
  {
    var t := ForgetCommit(s, d);
    if forall sub <- j.subjects :: sub.device != Some(d) {
      forall sub | sub in j.subjects ensures SubjectOk(t, sub) { assert SubjectOk(s, sub); }
      assert ShapeOk(t, j) by { assert ShapeOk(s, j); }
    } else {
      var sub :| sub in j.subjects && sub.device == Some(d);
      assert !SubjectOk(t, sub);
    }
  }

  /** Forgetting clears the selection but not the remembered endpoints or the
      running restore, so it is accepted exactly when neither names the mouse. */
  lemma ForgetAcceptedIff(s: StateFile, d: DeviceId)
    requires Validate(s) && d in s.devices
    ensures Validate(ForgetCommit(s, d)) <==> Unreferenced(s, d)
  {
    var t := ForgetCommit(s, d);
    assert |t.devices.Keys| < |s.devices.Keys| by { assert s.devices.Keys == t.devices.Keys + {d}; }
    if s.journal.Some? { ForgetJournalIff(s, s.journal.value, d); }
  }

  /** A remembered mouse cannot be forgotten, with or without evidence. */
  lemma RememberedMouseCannotBeForgotten()
    ensures exists s: StateFile, d: DeviceId ::
              Validate(s) && d in s.devices && s.journal.None? && !Validate(ForgetCommit(s, d))
  {
    var one: DeviceId := 1;
    var device := Device(None, map[], None, None, NO_EVIDENCE);
    var s := StateFile(2, None, map[one := device], Legacy, None, map["usb:wired:1d57:fa55:" := one]);
    assert Validate(s) by { assert s.devices.Keys == {one}; }
    ForgetAcceptedIff(s, one);
    assert "usb:wired:1d57:fa55:" in s.mapping;
  }
}
