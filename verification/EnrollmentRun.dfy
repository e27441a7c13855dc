/** A whole initial enrollment through the calls, on a working system: two blank
    mice become two enrolled ones. */
module EnrollmentRun {
  import opened Watermark
  import opened Hardware
  import opened State
  import opened Ceremony
  import opened CeremonySafety
  import opened CeremonyTheorems
  import opened CeremonyProgress
  import opened CeremonyCommits
  import opened CeremonyExamples
  import opened CeremonyLimits
  import opened ManagerSteps
  import M = Manager

  predicate Blank(u: Unit) {
    forall i :: 0 <= i < |u.slots| ==> u.slots[i].dpi.tail.Unmarked?
  }

  ghost predicate Quiet(m: M.Manager)
    reads m
  {
    m.Idle() && m.script == [] && m.outcomes == []
  }

  lemma BlankEligible(s: StateFile, j: Journal, u: Unit, target: Option<DeviceId>)
    requires UnitOk(u) && Blank(u) && !j.phase.ForeignAdoption? && !j.phase.BleAssociation?
    requires Bind(s, j.phase, target).Bound?
    ensures Eligible(s, j, u, target)
  {
    assert CurrentMark(u) == Absent;
  }

  /** A quiet manager in the middle of its initial enrollment. */
  ghost predicate Enrolling(m: M.Manager)
    reads m
  {
    && Quiet(m) && m.state.mode.Legacy? && m.state.journal.Some?
    && var j := m.state.journal.value;
    && j.phase.InitialEnrollment? && j.stage.AwaitingCapture? && |j.subjects| <= 1
  }

  /** Two draws always suffice, whatever the first mouse's token is. */
  lemma DrawsSuffice(w: World)
    requires Reachable(w) && w.state.mode.Legacy? && w.state.journal.Some? && |w.state.journal.value.subjects| in {1, 2}
    requires LastSubject(w.state.journal.value).token.None?
    ensures CanMint(w.state, [Sixteen(1), Sixteen(2)]) && !Unstorable(w.state, w.state.journal.value)
  {
    ReachableInv(w);
    JournalFacts(w.state);
    DrawsUsable(w.state);
  }

  lemma DrawsUsable(s: StateFile)
    requires Validate(s) && s.mode.Legacy? && s.journal.Some? && |s.journal.value.subjects| in {1, 2}
    requires LastSubject(s.journal.value).token.None?
    ensures CanMint(s, [Sixteen(1), Sixteen(2)])
  {
    var j := s.journal.value;
    var draws := [Sixteen(1), Sixteen(2)];
    SixteenDiffer(1, 2);
    SixteenUsable(1);
    SixteenUsable(2);
    forall sub | sub in j.subjects ensures sub.oldToken.None? { assert ShapeOk(s, j); }
    var i := if j.subjects[0].token == Some(draws[0]) then 1 else 0;
    forall sub | sub in j.subjects ensures sub.token != Some(draws[i]) {
      assert sub == j.subjects[0] || sub == LastSubject(j);
    }
    assert Usable(s, draws[i]);
  }

  /** The unit at `e` has become one more stamped subject. */
  ghost predicate OneMore(w: World, e: Endpoint, v: World) {
    && w.state.journal.Some? && v.state.journal.Some? && v.state == w.state.(journal := v.state.journal)
    && e in w.plugged && v.plugged == w.plugged && v.owner == w.owner && v.who == w.who + [w.plugged[e]]
    && w.plugged[e] in v.units && v.units == w.units[w.plugged[e] := v.units[w.plugged[e]]]
    && var j, k := w.state.journal.value, v.state.journal.value;
    && k.phase.InitialEnrollment? && |k.subjects| == |j.subjects| + 1
    && k.stage == (if |k.subjects| == 1 then AwaitingCapture else Finalizing)
    && (forall sub <- k.subjects :: FullyStamped(sub))
    && (forall i :: 0 <= i < |j.subjects| ==> k.subjects[i].endpoint == j.subjects[i].endpoint)
    && k.subjects[|j.subjects|].endpoint == e
  }

  lemma JoinedEnrollment(w: World, e: Endpoint, x: World)
    requires Joined(w, e, None, x) && w.state.journal.value.phase.InitialEnrollment?
    ensures x.state.journal.Some? && x.state == w.state.(journal := x.state.journal) && InStage(x, Stamping)
    ensures x.owner == w.owner && x.who == w.who + [w.plugged[e]]
    ensures w.plugged[e] in x.units && x.units == w.units[w.plugged[e] := x.units[w.plugged[e]]]
    ensures var j, k := w.state.journal.value, x.state.journal.value;
            && k.phase.InitialEnrollment? && |k.subjects| == |j.subjects| + 1
            && k.subjects[..|j.subjects|] == j.subjects
            && LastSubject(k).endpoint == e && LastSubject(k).token.None?
  {}

  lemma OneMoreStamped(w: World, e: Endpoint, x: World, v: World)
    requires Joined(w, e, None, x) && w.state.journal.value.phase.InitialEnrollment?
    requires x.plugged == w.plugged && v.plugged == w.plugged
    requires AdvancedAs(x, w.plugged[e], v)
    requires w.plugged[e] in v.units && v.units == x.units[w.plugged[e] := v.units[w.plugged[e]]]
    ensures OneMore(w, e, v)
  {
    JoinedEnrollment(w, e, x);
    var j, k, l := w.state.journal.value, x.state.journal.value, v.state.journal.value;
    forall i | 0 <= i < |k.subjects| ensures l.subjects[i].endpoint == k.subjects[i].endpoint {
      assert Later(k.subjects[i], l.subjects[i]);
    }
    forall i | 0 <= i < |j.subjects| ensures k.subjects[i] == j.subjects[i] {
      assert k.subjects[..|j.subjects|][i] == k.subjects[i];
    }
  }

  /** One mouse of an initial enrollment, presented and stamped. */
  method EnrollMouse(m: M.Manager, e: Endpoint)
    requires Enrolling(m) && IsUsb(e.transport) && e in m.plugged && m.plugged[e] in m.units
    requires Blank(m.units[m.plugged[e]])
    modifies m
    ensures Quiet(m) && OneMore(old(m.w), e, m.w)
  {
    Present(m, e);
    ghost var joined := m.w;
    JoinedEnrollment(old(m.w), e, joined);
    StampLast(m);
    OneMoreStamped(old(m.w), e, joined, m.w);
  }

  method StampLast(m: M.Manager)
    requires Quiet(m) && m.state.mode.Legacy? && InStage(m.w, Stamping) && m.w.who != []
    requires |m.state.journal.value.subjects| <= 2 && LastSubject(m.state.journal.value).token.None?
    requires LastSubject(m.state.journal.value).endpoint in m.plugged
    modifies m
    ensures Quiet(m) && m.plugged == old(m.plugged)
    ensures var uid := old(m.w).who[|old(m.w).who| - 1];
            && AdvancedAs(old(m.w), uid, m.w) && uid in m.units && m.units == old(m.units)[uid := m.units[uid]]
  {
    DrawsSuffice(m.w);
    var stamped := m.Stamp([Sixteen(1), Sixteen(2)]);
  }

  method Present(m: M.Manager, e: Endpoint)
    requires Enrolling(m) && IsUsb(e.transport) && e in m.plugged && m.plugged[e] in m.units
    requires Blank(m.units[m.plugged[e]])
    modifies m
    ensures Quiet(m) && m.plugged == old(m.plugged) && Joined(old(m.w), e, None, m.w)
  {
    ReachableInv(m.w);
    BlankEligible(m.state, m.state.journal.value, m.units[m.plugged[e]], None);
    var joined := m.Reconnected(e, None);
  }

  function BlankUnit(): Unit {
    Unit([FAST, FAST], Metadata(1, 2), FAST)
  }

  /** Mouse 1 enrolled on unit 0 at path a, mouse 2 on unit 1 at path b, and a
      blank third unit. */
  ghost predicate TwoMice(m: M.Manager)
    reads m
  {
    && Quiet(m) && m.state.journal.None? && m.state.mode.Persistent? && m.state.devices.Keys == {1, 2}
    && m.state.devices[1].endpoints == map[Wired := UsbEndpoint("a")]
    && m.state.devices[2].endpoints == map[Wired := UsbEndpoint("b")]
    && m.w.owner == map[1 := 0, 2 := 1] && m.units.Keys == {0, 1, 2} && Blank(m.units[2])
  }

  /** Both mice are stamped and the decision is open. */
  ghost predicate BothStamped(m: M.Manager)
    reads m
  {
    && Quiet(m) && m.state.journal.Some? && ReadyToDecide(m.state.journal.value)
    && m.state == FRESH.(journal := m.state.journal) && m.w.who == [0, 1]
    && m.state.journal.value.subjects[0].endpoint == UsbEndpoint("a")
    && m.state.journal.value.subjects[1].endpoint == UsbEndpoint("b")
    && m.units.Keys == {0, 1, 2} && Blank(m.units[2])
  }

  method BeginEnrollment() returns (m: M.Manager)
    ensures fresh(m) && Enrolling(m) && m.state == FRESH.(journal := m.state.journal)
    ensures m.state.journal.value.subjects == [] && m.w.who == []
    ensures m.units == map[0 := BlankUnit(), 1 := BlankUnit(), 2 := BlankUnit()]
    ensures m.plugged == map[UsbEndpoint("a") := 0, UsbEndpoint("b") := 1]
  {
    var unit, a, b := BlankUnit(), UsbEndpoint("a"), UsbEndpoint("b");
    m := new M.Manager(map[0 := unit, 1 := unit, 2 := unit], map[a := 0, b := 1], [], []);
    var begun := m.Begin(InitialEnrollment, None);
  }

  method StampBoth() returns (m: M.Manager)
    ensures fresh(m) && BothStamped(m)
  {
    m := BeginEnrollment();
    Distinct();
    EnrollMouse(m, UsbEndpoint("a"));
    EnrollMouse(m, UsbEndpoint("b"));
  }

  method EnrollTwo() returns (m: M.Manager)
    ensures fresh(m) && TwoMice(m)
  {
    m := StampBoth();
    ghost var j := m.state.journal.value;
    assert CoherentSubjects(j) by { assert j.subjects == [j.subjects[0], j.subjects[1]]; }
    var decided := m.FinalizeMigration(true);
    assert 0 <= 0 < 2 && 0 <= 1 < 2;
  }

  lemma Distinct()
    ensures "a" != "b" && "b" != "c" && "a" != "c"
  {
    assert "a"[0] != "b"[0] && "b"[0] != "c"[0] && "a"[0] != "c"[0];
  }
}
