/** Documents and worlds at which a ceremony ends badly, or surprisingly. */
module CeremonyExamples {
  import opened Watermark
  import opened Hardware
  import opened State
  import opened Ceremony
  import opened CeremonySafety
  import opened CeremonyCommits
  import opened CeremonyLimits

  function Sixteen(b: Byte): Token {
    [b, b, b, b, b, b, b, b, b, b, b, b, b, b, b, b]
  }

  lemma SixteenDiffer(a: Byte, b: Byte)
    requires a != b
    ensures Sixteen(a) != Sixteen(b)
  {
    assert Sixteen(a)[0] != Sixteen(b)[0];
  }

  function PlainImage(tail: Tail, rate: nat): Image {
    Image(Dpi([], tail), [], [], rate)
  }

  function TwoProfiles(image: Image): Evidence {
    Evidence(Some(Metadata(1, 2)), map[1 as ProfileId := image, 2 as ProfileId := image])
  }

  function UsbEndpoint(path: string): Endpoint {
    Endpoint(Wired, UsbPath(path), Some((7511, 64085)), "")
  }

  /** A subject of two profiles, the first one stamped. */
  function SubjectAt(path: string, token: Token, image: Image, second: Progress): Subject {
    Subject(UsbEndpoint(path), None, Some(token), None, Some(TwoProfiles(image)),
            map[1 as ProfileId := Stamped, 2 as ProfileId := second])
  }

  const SLOW := PlainImage(Unmarked([]), 500)
  const FAST := PlainImage(Unmarked([]), 1000)

  // ----- the migration decision --------------------------------------------------------

  function BothStamped(): Journal {
    Journal(InitialEnrollment, Finalizing,
            [SubjectAt("a", Sixteen(1), FAST, Stamped), SubjectAt("b", Sixteen(2), SLOW, Stamped)])
  }

  /** An initial enrollment with both mice stamped and the decision still open. */
  function DecisionOpen(next: nat, mapping: map<Fingerprint, DeviceId>, legacy: Device): StateFile {
    StateFile(next, None, map[1 as DeviceId := legacy], Legacy, Some(BothStamped()), mapping)
  }

  const NAMELESS := Device(None, map[], None, None, NO_EVIDENCE)

  lemma DecisionOpenValid(next: nat, mapping: map<Fingerprint, DeviceId>, legacy: Device)
    requires next >= 2 && (forall f <- mapping :: mapping[f] == 1) && legacy.token.None? && EndpointsOk(legacy)
    ensures var s := DecisionOpen(next, mapping, legacy);
            Validate(s) && ReadyToDecide(s.journal.value) && CoherentSubjects(s.journal.value)
  {
    var s := DecisionOpen(next, mapping, legacy);
    BothStampedOk(s);
    assert s.devices.Keys == {1 as DeviceId};
  }

  lemma BothStampedOk(s: StateFile)
    requires s.mode.Legacy? && (forall d <- s.devices :: s.devices[d].token.None?) && s.journal == Some(BothStamped())
    ensures JournalOk(s, s.journal.value) && ReadyToDecide(s.journal.value) && CoherentSubjects(s.journal.value)
  {
    var j := s.journal.value;
    SixteenDiffer(1, 2);
    assert FullyStamped(j.subjects[0]) && FullyStamped(j.subjects[1]);
    assert forall sub <- j.subjects :: sub == j.subjects[0] || sub == j.subjects[1];
  }

  /** A document whose enrollment can never be finished: one endpoint was
      remembered for the legacy mouse before. */
  lemma RememberedEndpointBlocksDecision(skip: bool)
    ensures var s := DecisionOpen(2, map["usb:wired:1d57:fa55:" := 1 as DeviceId], NAMELESS);
            && Validate(s) && ReadyToDecide(s.journal.value) && Finalize(s, skip).error.None?
            && !Validate(Finalize(s, skip).state)
  {
    var mapping: map<Fingerprint, DeviceId> := map["usb:wired:1d57:fa55:" := 1];
    var s := DecisionOpen(2, mapping, NAMELESS);
    DecisionOpenValid(2, mapping, NAMELESS);
    assert "usb:wired:1d57:fa55:" in s.mapping;
    DecideTraceIff(s, skip);
    DecideAcceptedIff(s, skip);
  }

  /** A document whose decision fails and uses up the last number doing so. */
  lemma DecisionUsesUpNumber(skip: bool)
    ensures var s := DecisionOpen(MAX_NUMBER - 1, map[], NAMELESS);
            Validate(s) && LeavesTrace(s, Finalize(s, skip))
  {
    DecisionOpenValid(MAX_NUMBER - 1, map[], NAMELESS);
    DecideTraceIff(DecisionOpen(MAX_NUMBER - 1, map[], NAMELESS), skip);
  }

  /** A document whose decision names both new mice alike: the legacy mouse is
      called Mouse 1, and it is the second subject that matches it. */
  lemma DecisionNamesBothAlike()
    ensures var s := DecisionOpen(2, map[], NAMELESS.(name := Some("Mouse 1"), evidence := TwoProfiles(SLOW)));
            && Validate(s) && Validate(Finalize(s, false).state)
            && var t := Finalize(s, false).state;
            t.devices.Keys == {2, 3} && t.devices[2].name == t.devices[3].name == Some("Mouse 1")
  {
    var legacy := NAMELESS.(name := Some("Mouse 1"), evidence := TwoProfiles(SLOW));
    var s := DecisionOpen(2, map[], legacy);
    var j := s.journal.value;
    DecisionOpenValid(2, map[], legacy);
    DecideAcceptedIff(s, false);
    EnrollmentForm(s, false);
    TwoDevicesTokens(s, j, false);
    assert s.devices.Keys == {1 as DeviceId};
    assert TwoProfiles(FAST).profiles[1] != TwoProfiles(SLOW).profiles[1];
    LegacyNameGoesToUniqueMatch(s, j, false, 1, 0, 1);
    LegacyNameGoesToUniqueMatch(s, j, false, 1, 1, 0);
  }

  // ----- an addition without a number left ------------------------------------------------

  function Addition(stage: Stage, second: Progress): StateFile {
    StateFile(MAX_NUMBER, None, map[], Persistent,
              Some(Journal(AddMouse, stage, [SubjectAt("a", Sixteen(1), FAST, second)])), map[])
  }

  /** The last stamp of this addition fails, and what it leaves behind is
      validated, stamped through and through, and neither finishable nor
      cancellable. */
  lemma AdditionParksForGood()
    ensures var s, parked := Addition(Stamping, Captured), Addition(Finalizing, Stamped);
            && LastToStamp(s, 2) && 1 <= s.next
            && AdvanceCommit(s, 2, false) == Mutation(parked, Some(NumberOverflow))
            && LeavesTrace(s, AdvanceCommit(s, 2, false))
            && Stuck(parked) && !Cancellable(parked.journal.value)
            && Finalize(parked, false) == Mutation(parked, Some(NumberOverflow))
  {
    var s, parked := Addition(Stamping, Captured), Addition(Finalizing, Stamped);
    AdditionLast(s);
    TransitionTraceIff(s, 2);
    var sub := LastSubject(s.journal.value);
    assert sub.progress[2 as ProfileId := Stamped] == LastSubject(parked.journal.value).progress;
    assert Parked(s, 2, Finalizing).journal.value.subjects == parked.journal.value.subjects;
    OneMouseErrorIff(parked);
    var p: ProfileId := 1;
    assert p in parked.journal.value.subjects[0].progress;
    assert parked.journal.value.subjects[0] in parked.journal.value.subjects;
  }

  lemma AdditionLast(s: StateFile)
    requires s == Addition(Stamping, Captured)
    ensures LastToStamp(s, 2)
  {
    var sub := s.journal.value.subjects[0];
    var p: ProfileId := 2;
    assert forall x <- s.journal.value.subjects :: x == sub;
    assert p in sub.progress && !FullyStamped(sub);
    assert PendingSet(sub) == {p};
  }

  // ----- an adoption without a number left ------------------------------------------------

  /** A unit that carries its token on both profiles, presented to an adoption
      when no number is left. */
  function AdoptionWorld(): World {
    var marked := PlainImage(Marked(Sixteen(1)), 1000);
    World(StateFile(MAX_NUMBER, None, map[], Persistent, Some(Journal(ForeignAdoption, AwaitingCapture, [])), map[]),
          map[0 := Unit([marked, marked], Metadata(1, 2), marked)], map[UsbEndpoint("a") := 0],
          map[], [], 0, 0, 0, false)
  }

  /** Journaling its capture fails and leaves a trace. */
  lemma AdoptionLeavesTrace()
    ensures var w, sub := AdoptionWorld(), SubjectAt("a", Sixteen(1), PlainImage(Marked(Sixteen(1)), 1000), Stamped);
            && Validate(w.state) && Enrollable(w, 0, sub) && 1 <= w.state.next
            && LeavesTrace(w.state, EnrollCommit(w.state, sub))
  {
    var w, sub := AdoptionWorld(), SubjectAt("a", Sixteen(1), PlainImage(Marked(Sixteen(1)), 1000), Stamped);
    AdoptionEnrollable(w, sub);
    EnrollTraceIff(w, 0, sub);
  }

  lemma AdoptionEnrollable(w: World, sub: Subject)
    requires w == AdoptionWorld() && sub == SubjectAt("a", Sixteen(1), PlainImage(Marked(Sixteen(1)), 1000), Stamped)
    ensures Validate(w.state) && Enrollable(w, 0, sub) && FullyStamped(sub)
  {
    AdoptionAdmitted(w.state);
    AdoptionPlanned(Sixteen(1));
    assert CurrentMark(w.units[0]) == Decoded.Valid(Sixteen(1));
    assert Captures(sub.captured.value.profiles, w.units[0].slots);
    assert UsbEndpoint("a") in w.plugged;
  }

  lemma AdoptionAdmitted(s: StateFile)
    requires s.devices == map[]
    ensures Admit(s, Journal(ForeignAdoption, AwaitingCapture, []), Decoded.Valid(Sixteen(1)))
            == Admitted(Some(Sixteen(1)))
  {
    SixteenUsable(1);
  }

  lemma SixteenUsable(b: Byte)
    requires b != 0
    ensures !IsReserved(Sixteen(b))
  {
    assert Sixteen(b)[0] == b;
  }

  lemma AdoptionPlanned(token: Token)
    ensures var sub := SubjectAt("a", token, PlainImage(Marked(token), 1000), Stamped);
            StampPlan(ForeignAdoption, sub.token, sub.captured.value.profiles) == Some(sub.progress)
  {
    var sub := SubjectAt("a", token, PlainImage(Marked(token), 1000), Stamped);
    var plan := StampPlan(ForeignAdoption, sub.token, sub.captured.value.profiles);
    assert plan.Some? && plan.value == sub.progress;
  }
}
