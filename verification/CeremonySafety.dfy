/** The ceremony's invariant holds in every state of every run, and what that
    means for journal, watermarks and identities. */
module CeremonySafety {
  import opened Watermark
  import opened Hardware
  import opened State
  import opened Ceremony

  // ----- helpers -------------------------------------------------------------

  /** A fully journaled subject's unit carries the token in every slot. */
  lemma FullyStampedIsMarked(sub: Subject, u: Unit)
    requires Tracks(sub, u) && FullyStamped(sub) && UnitOk(u)
    ensures sub.token.Some? && AllMarked(u, sub.token.value)
  {
    var one: ProfileId := 1;
    assert one in sub.captured.value.profiles && SlotTracks(sub, one, u.slots[0]);
    forall i | 0 <= i < |u.slots| ensures u.slots[i].dpi.tail == Tail.Marked(sub.token.value) {
      var p: ProfileId := i + 1;
      assert p in sub.captured.value.profiles && SlotTracks(sub, p, u.slots[p - 1]);
    }
  }

  // ----- preservation --------------------------------------------------------

  lemma KeepsBegin(w: World, phase: Phase, v: World)
    requires Safe(w) && BeginOk(w, phase, v)
    ensures Safe(v)
  {}

  lemma KeepsHandle(w: World, uid: UnitId, v: World)
    requires Safe(w) && HandleOk(w, uid, v)
    ensures Safe(v)
  {
    forall i | 0 <= i < |w.who| ensures Tracks(v.state.journal.value.subjects[i], v.units[w.who[i]]) {
      assert Tracks(w.state.journal.value.subjects[i], w.units[w.who[i]]);
    }
  }

  /** Changing only the last subject, or only its unit, keeps the rest. */
  lemma LastReplaced(w: World, v: World)
    requires SubjectsOk(w) && w.state.journal.Some? && v.state.journal.Some?
    requires v.who == w.who && v.owner == w.owner && v.plugged == w.plugged
    requires var j, k := w.state.journal.value, v.state.journal.value;
             && j.stage.Stamping? && j.subjects != [] && |k.subjects| == |j.subjects| && k.phase == j.phase
             && k.subjects[..|j.subjects| - 1] == j.subjects[..|j.subjects| - 1]
             && LastSubject(k).endpoint == LastSubject(j).endpoint
             && (v.loose ==> k.stage.Stamping?)
             && v.units.Keys == w.units.Keys
             && (forall id <- w.units :: id != w.who[|w.who| - 1] ==> v.units[id] == w.units[id])
             && Tracks(LastSubject(k), v.units[w.who[|w.who| - 1]])
    ensures SubjectsOk(v)
  {
    EarlierKept(w, v);
    var k := v.state.journal.value;
    forall i | 0 <= i < |v.who| ensures v.who[i] in v.units && Tracks(k.subjects[i], v.units[v.who[i]]) {
      assert w.who[i] in w.units;
    }
  }

  /** The earlier subjects and their units, untouched. */
  lemma EarlierKept(w: World, v: World)
    requires SubjectsOk(w) && w.state.journal.Some? && v.state.journal.Some? && v.who == w.who
    requires var j, k := w.state.journal.value, v.state.journal.value;
             && j.subjects != [] && |k.subjects| == |j.subjects|
             && k.subjects[..|j.subjects| - 1] == j.subjects[..|j.subjects| - 1]
             && v.units.Keys == w.units.Keys
             && (forall id <- w.units :: id != w.who[|w.who| - 1] ==> v.units[id] == w.units[id])
    ensures var j, k := w.state.journal.value, v.state.journal.value;
            forall i :: 0 <= i < |j.subjects| - 1 ==>
              && k.subjects[i] == j.subjects[i] && w.who[i] in v.units
              && Tracks(k.subjects[i], v.units[w.who[i]]) && FullyStamped(k.subjects[i])
  {
    var j, k := w.state.journal.value, v.state.journal.value;
    var n := |j.subjects| - 1;
    forall i | 0 <= i < n
      ensures k.subjects[i] == j.subjects[i] && v.units[w.who[i]] == w.units[w.who[i]]
      ensures Tracks(k.subjects[i], v.units[w.who[i]])
    {
      assert k.subjects[i] == k.subjects[..n][i] == j.subjects[..n][i];
      assert w.who[i] != w.who[n] && w.who[i] in w.units;
      assert Tracks(j.subjects[i], w.units[w.who[i]]);
    }
  }

  /** Reserving a token changes nothing on the unit. */
  lemma ReserveTracks(sub: Subject, token: Token, u: Unit)
    requires Tracks(sub, u) && sub.token.None? && !IsReserved(token)
    ensures var sub' := sub.(token := Some(token));
            Tracks(sub', u) && PendingSet(sub') == PendingSet(sub)
  {
    var sub' := sub.(token := Some(token));
    forall p <- sub'.progress ensures SlotTracks(sub', p, u.slots[p - 1]) {
      assert SlotTracks(sub, p, u.slots[p - 1]);
    }
  }

  lemma KeepsReserveToken(w: World, token: Token, v: World)
    requires Safe(w) && ReserveTokenOk(w, token, v)
    ensures Safe(v)
  {
    var n := |w.who| - 1;
    var sub := LastSubject(w.state.journal.value);
    assert Tracks(sub, w.units[w.who[n]]) by { assert SubjectsOk(w); }
    ReserveTracks(sub, token, w.units[w.who[n]]);
    LastReplaced(w, v);
    assert CountOk(v) by { assert CountOk(w); }
  }

  /** A sent watermark report leaves its slot in one of the two states the
      least pending profile may be in. */
  lemma SendTracks(sub: Subject, u: Unit, p: ProfileId, v: Unit)
    requires Tracks(sub, u) && sub.token.Some? && LeastPending(sub, p) && p <= |u.slots|
    requires p in sub.captured.value.profiles
    requires var stamped := u.slots[p - 1].(dpi := Overlay(sub.captured.value.profiles[p].dpi, sub.token.value));
             v.slots == u.slots || v.slots == u.slots[p - 1 := stamped]
    ensures Tracks(sub, v)
  {
    forall q <- sub.progress ensures SlotTracks(sub, q, v.slots[q - 1]) {
      assert SlotTracks(sub, q, u.slots[q - 1]);
    }
  }

  lemma SendMarkTracks(w: World, uid: UnitId, p: ProfileId, v: World)
    requires SubjectsOk(w) && SendMarkOk(w, uid, p, v)
    ensures SubjectsOk(v)
  {
    var sub := LastSubject(w.state.journal.value);
    assert Tracks(sub, w.units[uid]);
    SendTracks(sub, w.units[uid], p, v.units[uid]);
    LastReplaced(w, v);
  }

  lemma SendMarkCounts(w: World, uid: UnitId, p: ProfileId, v: World)
    requires CountOk(w) && SendMarkOk(w, uid, p, v)
    ensures CountOk(v)
  {}

  lemma SendMarkElsewhere(w: World, uid: UnitId, p: ProfileId, v: World)
    requires Safe(w) && SendMarkOk(w, uid, p, v)
    ensures (forall id <- v.units :: UnitOk(v.units[id])) && (forall e <- v.plugged :: v.plugged[e] in v.units)
    ensures OwnersOk(v)
  {
    assert uid !in w.owner.Values by { assert SubjectsOk(w); }
    OwnersUntouched(w, uid, v.units[uid], v);
  }

  lemma KeepsSendMark(w: World, uid: UnitId, p: ProfileId, v: World)
    requires Safe(w) && SendMarkOk(w, uid, p, v)
    ensures Safe(v)
  {
    SendMarkElsewhere(w, uid, p, v);
    SendMarkTracks(w, uid, p, v);
    SendMarkCounts(w, uid, p, v);
  }

  /** A subject's unit belongs to no enrolled mouse. */
  lemma OwnersUntouched(w: World, uid: UnitId, u: Unit, v: World)
    requires OwnersOk(w) && uid !in w.owner.Values && uid in w.units
    requires v.owner == w.owner && v.state == w.state && v.units == w.units[uid := u]
    ensures OwnersOk(v)
  {}

  lemma MarkPending(sub: Subject, p: ProfileId)
    requires IsPending(sub, p)
    ensures var sub' := sub.(progress := sub.progress[p := Stamped]);
            && PendingSet(sub') == PendingSet(sub) - {p}
            && |PendingSet(sub')| == |PendingSet(sub)| - 1
  {
    assert PendingSet(sub.(progress := sub.progress[p := Stamped])) == PendingSet(sub) - {p};
    assert p in PendingSet(sub);
  }

  /** Marking the least pending profile turns its slot's two possibilities into
      one and leaves every other slot's untouched. */
  lemma MarkTracks(sub: Subject, u: Unit, p: ProfileId)
    requires Tracks(sub, u) && LeastPending(sub, p) && p <= |u.slots| && sub.token.Some?
    requires p in sub.captured.value.profiles
    requires u.slots[p - 1].dpi == Overlay(sub.captured.value.profiles[p].dpi, sub.token.value)
    ensures Tracks(sub.(progress := sub.progress[p := Stamped]), u)
  {
    var sub' := sub.(progress := sub.progress[p := Stamped]);
    assert sub'.progress.Keys == sub.progress.Keys;
    forall q <- sub'.progress ensures SlotTracks(sub', q, u.slots[q - 1]) {
      assert SlotTracks(sub, q, u.slots[q - 1]);
      assert q != p ==> !LeastPending(sub, q);
    }
  }

  /** Journaling a sent mark: the subject still tracks its unit and the count
      of pending profiles drops by one. */
  lemma MarkCommitTracks(w: World, p: ProfileId, v: World)
    requires SubjectsOk(w) && CountOk(w) && MarkSent(w, p)
    requires v == w.(state := MarkCommit(w.state, p), loose := false)
    ensures SubjectsOk(v) && CountOk(v)
  {
    var sub := LastSubject(w.state.journal.value);
    var u := w.units[w.who[|w.who| - 1]];
    MarkTracks(sub, u, p);
    MarkPending(sub, p);
    assert LastSubject(v.state.journal.value) == sub.(progress := sub.progress[p := Stamped]);
    LastReplaced(w, v);
  }

  lemma KeepsJournalMark(w: World, p: ProfileId, v: World)
    requires Safe(w) && JournalMarkOk(w, p, v)
    ensures Safe(v)
  {
    MarkCommitTracks(w, p, v);
    assert OwnersOk(v) by { assert OwnersOk(w); }
  }

  lemma KeepsBreak(w: World, v: World)
    requires Safe(w) && BreakOk(w, v)
    ensures Safe(v)
  {}

  lemma KeepsCancel(w: World, v: World)
    requires Safe(w) && CancelOk(w, v)
    ensures Safe(v)
  {}

  lemma KeepsForget(w: World, d: DeviceId, v: World)
    requires Safe(w) && ForgetOk(w, d, v)
    ensures Safe(v)
  {
    assert v.owner.Values <= w.owner.Values;
    if w.state.mode.Persistent? { assert v.owner.Keys == v.state.devices.Keys; }
  }

  lemma KeepsAddLegacyMouse(w: World, v: World)
    requires Safe(w) && AddLegacyMouseOk(w, v)
    ensures Safe(v)
  {}

  lemma KeepsBookkeep(w: World, v: World)
    requires Safe(w) && BookkeepStepOk(w, v)
    ensures Safe(v)
  {}

  lemma KeepsUse(w: World, uid: UnitId, v: World)
    requires Safe(w) && UseStepOk(w, uid, v)
    ensures Safe(v)
  {
    forall d <- w.owner ensures AllMarked(v.units[w.owner[d]], w.state.devices[d].token.value) {
      assert AllMarked(w.units[w.owner[d]], w.state.devices[d].token.value);
    }
    if w.state.journal.Some? {
      var j := w.state.journal.value;
      forall i | 0 <= i < |w.who| ensures Tracks(j.subjects[i], v.units[w.who[i]]) {
        assert Tracks(j.subjects[i], w.units[w.who[i]]);
      }
    }
  }

  lemma KeepsReplug(w: World, v: World)
    requires Safe(w) && ReplugOk(w, v)
    ensures Safe(v)
  {}

  // ----- enrolling -----------------------------------------------------------

  /** A unit the program admits is no enrolled mouse's unit and not the unit of
      an earlier subject: both carry a valid watermark on every profile, so the
      current one is recognized whichever it is. */
  lemma AdmittedUnitIsFresh(w: World, uid: UnitId, sub: Subject)
    requires Safe(w) && Enrollable(w, uid, sub) && StageOk(w.state.journal.value)
    ensures uid !in w.owner.Values && uid !in w.who
  {
    var j := w.state.journal.value;
    var u := w.units[uid];
    if uid in w.owner.Values {
      var d :| d in w.owner && w.owner[d] == uid;
      assert AllMarked(u, w.state.devices[d].token.value);
      assert TokenKnown(w.state.devices, CurrentMark(u).token);
    }
    if uid in w.who {
      var i :| 0 <= i < |w.who| && w.who[i] == uid;
      FullyStampedIsMarked(j.subjects[i], u);
    }
  }

  /** The journaled capture is what the unit holds, and a profile planned as
      already stamped carries the adopted token. */
  lemma CaptureTracks(w: World, uid: UnitId, sub: Subject)
    requires Enrollable(w, uid, sub)
    ensures Tracks(sub, w.units[uid])
  {
    var u := w.units[uid];
    var profiles := sub.captured.value.profiles;
    forall p <- sub.progress ensures SlotTracks(sub, p, u.slots[p - 1]) {
      assert profiles[p] == u.slots[p - 1];
    }
  }

  /** The world right after the capture is pushed, at either next stage. */
  function Pushed(w: World, uid: UnitId, sub: Subject, stage: Stage): World
    requires w.state.journal.Some?
  {
    var j := w.state.journal.value;
    w.(state := w.state.(journal := Some(Journal(j.phase, stage, j.subjects + [sub]))),
       who := w.who + [uid], plan := |PendingSet(sub)|, sent := 0, breaks := 0, loose := false)
  }

  /** Either the world with the subject pushed, or what finalizing it gives. */
  lemma EnrollForm(w: World, uid: UnitId, sub: Subject, v: World)
    requires EnrollOk(w, uid, sub, v)
    ensures if w.state.journal.value.phase.ForeignAdoption? && FullyStamped(sub) then
              var x := Pushed(w, uid, sub, Finalizing);
              v == Committed(x, Finalize(x.state, false).state)
            else v == Pushed(w, uid, sub, Stamping)
  {}

  /** What the program knows, and what the invariant adds, about a unit whose
      capture it is about to journal. */
  ghost predicate Pushable(w: World, uid: UnitId, sub: Subject) {
    && InStage(w, AwaitingCapture) && StageOk(w.state.journal.value)
    && uid in w.units && uid !in w.owner.Values && uid !in w.who && Tracks(sub, w.units[uid])
    && sub.endpoint in w.plugged && w.plugged[sub.endpoint] == uid
  }

  lemma AdmittedPushable(w: World, uid: UnitId, sub: Subject)
    requires Safe(w) && Enrollable(w, uid, sub) && StageOk(w.state.journal.value)
    ensures Pushable(w, uid, sub)
  {
    AdmittedUnitIsFresh(w, uid, sub);
    CaptureTracks(w, uid, sub);
  }

  lemma PushedSafe(w: World, uid: UnitId, sub: Subject, stage: Stage)
    requires Safe(w) && Pushable(w, uid, sub)
    requires !w.state.journal.value.phase.BleAssociation?
    ensures Safe(Pushed(w, uid, sub, stage))
  {
    var x := Pushed(w, uid, sub, stage);
    PushKeepsSubjects(w, uid, sub, x);
    assert OwnersOk(x) by { assert OwnersOk(w); }
    assert CountOk(x);
  }

  /** An adoption is ready to finalize as soon as its one subject is stamped. */
  lemma AdoptionFinishes(w: World, uid: UnitId, sub: Subject, x: World)
    requires w.state.journal.Some? && w.state.journal.value.subjects == [] && NumbersOk(w.state)
    requires w.state.mode.Persistent? && w.state.journal.value.phase.ForeignAdoption?
    requires FullyStamped(sub) && sub.token.Some? && x == Pushed(w, uid, sub, Finalizing) && Safe(x)
    ensures Finishing(x) && OneSubject(x)
  {}

  /** A mouse adopted with every profile already marked. */
  lemma KeepsAdoption(w: World, uid: UnitId, sub: Subject, v: World)
    requires Safe(w) && Pushable(w, uid, sub) && w.state.journal.value.phase.ForeignAdoption? && FullyStamped(sub)
    requires NumbersOk(w.state) && w.state.mode.Persistent?
    requires var x := Pushed(w, uid, sub, Finalizing); v == Committed(x, Finalize(x.state, false).state)
    ensures Safe(v)
  {
    var x := Pushed(w, uid, sub, Finalizing);
    PushedSafe(w, uid, sub, Finalizing);
    assert sub.token.Some? by { FullyStampedIsMarked(sub, w.units[uid]); }
    AdoptionFinishes(w, uid, sub, x);
    FinalizeOneKeeps(x, v);
  }

  lemma KeepsEnroll(w: World, uid: UnitId, sub: Subject, v: World)
    requires Safe(w) && EnrollOk(w, uid, sub, v) && StageOk(w.state.journal.value) && NumbersOk(w.state)
    requires w.state.mode.Legacy? <==> w.state.journal.value.phase.InitialEnrollment?
    requires v.state.journal.Some? && v.state.journal.value.stage.Stamping? ==>
               !v.state.journal.value.phase.BleAssociation?
    ensures Safe(v)
  {
    AdmittedPushable(w, uid, sub);
    EnrollForm(w, uid, sub, v);
    if w.state.journal.value.phase.ForeignAdoption? && FullyStamped(sub) {
      KeepsAdoption(w, uid, sub, v);
    } else {
      PushedSafe(w, uid, sub, Stamping);
    }
  }

  lemma PushKeepsSubjects(w: World, uid: UnitId, sub: Subject, v: World)
    requires SubjectsOk(w) && InStage(w, AwaitingCapture) && StageOk(w.state.journal.value)
    requires uid in w.units && uid !in w.owner.Values && uid !in w.who && Tracks(sub, w.units[uid])
    requires sub.endpoint in w.plugged && w.plugged[sub.endpoint] == uid
    requires v.units == w.units && v.owner == w.owner && v.plugged == w.plugged && v.who == w.who + [uid] && !v.loose
    requires v.state.journal.Some? && v.state.journal.value.phase == w.state.journal.value.phase
    requires v.state.journal.value.subjects == w.state.journal.value.subjects + [sub]
    requires !w.state.journal.value.phase.BleAssociation?
    ensures SubjectsOk(v)
  {
    var j, k := w.state.journal.value, v.state.journal.value;
    var n := |j.subjects|;
    forall i | 0 <= i < n ensures FullyStamped(k.subjects[i]) && k.subjects[i] == j.subjects[i] {
      assert j.subjects[i] in j.subjects;
    }
    forall i | 0 <= i < |v.who| ensures Tracks(k.subjects[i], v.units[v.who[i]]) {
      if i < n { assert Tracks(j.subjects[i], w.units[w.who[i]]); }
    }
  }

  // ----- finalizing ----------------------------------------------------------

  /** The enrollment's result, spelled out on a validated state. */
  lemma EnrollmentForm(s: StateFile, skip: bool)
    requires NumbersOk(s) && s.journal.Some? && s.journal.value.phase.InitialEnrollment?
    requires |s.journal.value.subjects| == 2
    ensures var j, t := s.journal.value, Finalize(s, skip).state;
            if s.next + 1 < MAX_NUMBER then
              t == s.(journal := None, mode := Persistent, next := s.next + 2, selected := Some(s.next as DeviceId),
                      devices := TwoDevices(s, j, skip))
            else t == s.(next := t.next) && s.next <= t.next && s.next + 1 >= t.next
  {
    var j := s.journal.value;
    AllocateTakesNext(s);
    var t := s.(next := s.next + 1);
    AllocateTakesNext(t);
    if s.next + 1 < MAX_NUMBER {
      var ids: seq<DeviceId> := [s.next, s.next + 1];
      var u := s.(next := s.next + 2);
      assert AllocateMany(u, 0) == Taken(u, []);
      assert AllocateMany(t, 1) == Taken(u, [s.next + 1] + []);
      assert AllocateMany(s, 2) == Taken(u, [s.next] + ([s.next + 1] + []));
      assert ids == [s.next] + ([s.next + 1] + []);
      NewDevicesTwo(s, j, skip, ids);
    }
  }

  function TwoDevices(s: StateFile, j: Journal, skip: bool): map<DeviceId, Device>
    requires 1 <= s.next && |j.subjects| == 2
  {
    var first: map<DeviceId, Device> := map[s.next := FreshDevice(j.subjects[0], NameFor(s, j, skip, 0))];
    first[s.next + 1 := FreshDevice(j.subjects[1], NameFor(s, j, skip, 1))]
  }

  lemma NewDevicesTwo(s: StateFile, j: Journal, skip: bool, ids: seq<DeviceId>)
    requires 1 <= s.next && |j.subjects| == 2 && ids == [s.next, s.next + 1]
    ensures NewDevices(s, j, skip, ids) == TwoDevices(s, j, skip)
  {
    assert ids[..1] == [s.next] && ids[..1][..0] == [];
    assert NewDevices(s, j, skip, ids[..1][..0]) == map[];
    assert NewDevices(s, j, skip, ids[..1]) == map[s.next := FreshDevice(j.subjects[0], NameFor(s, j, skip, 0))];
  }

  /** The one-subject ceremonies: which mouse ends up with the subject's token. */
  lemma OneForm(s: StateFile)
    requires NumbersOk(s) && s.journal.Some? && s.journal.value.subjects != []
    requires s.journal.value.phase in {AddMouse, ForeignAdoption, Restore}
    requires var sub := s.journal.value.subjects[0];
             && sub.token.Some?
             && (s.journal.value.phase.Restore? ==> sub.device.Some? && sub.device.value in s.devices)
    ensures var sub, t := s.journal.value.subjects[0], Finalize(s, false).state;
            if s.journal.value.phase.Restore? then
              var d := sub.device.value;
              && t == s.(journal := None, devices := s.devices[d := t.devices[d]])
              && t.devices[d] == ApplyCapture(s.devices[d].(token := sub.token, preferred := None,
                                   endpoints := map[sub.endpoint.transport := sub.endpoint]), sub.captured)
            else if s.next < MAX_NUMBER then
              t == s.(journal := None, next := s.next + 1, devices := s.devices[s.next := FreshDevice(sub, None)])
            else t == s
  {
    AllocateTakesNext(s);
  }

  /** Every subject is stamped through and through, with a usable token. */
  ghost predicate SubjectsMarked(x: World, j: Journal) {
    && |x.who| == |j.subjects|
    && forall i :: 0 <= i < |x.who| ==>
         && x.who[i] in x.units && j.subjects[i].token.Some? && !IsReserved(j.subjects[i].token.value)
         && AllMarked(x.units[x.who[i]], j.subjects[i].token.value)
  }

  lemma StampedSubjectsMarked(x: World)
    requires SubjectsOk(x) && x.state.journal.Some? && (forall id <- x.units :: UnitOk(x.units[id]))
    requires forall sub <- x.state.journal.value.subjects :: FullyStamped(sub)
    ensures SubjectsMarked(x, x.state.journal.value)
  {
    var j := x.state.journal.value;
    forall i | 0 <= i < |x.who|
      ensures j.subjects[i].token.Some? && !IsReserved(j.subjects[i].token.value)
              && AllMarked(x.units[x.who[i]], j.subjects[i].token.value)
    {
      assert j.subjects[i] in j.subjects && Tracks(j.subjects[i], x.units[x.who[i]]);
      FullyStampedIsMarked(j.subjects[i], x.units[x.who[i]]);
    }
  }

  /** When the journal stays because numbers ran out, nothing else moved. */
  lemma OverflowKeeps(x: World, v: World)
    requires SubjectsOk(x) && OwnersOk(x) && x.state.journal.Some? && x.state.journal.value.stage.Finalizing?
    requires v == x.(state := x.state.(next := v.state.next), loose := false)
    ensures SubjectsOk(v) && OwnersOk(v) && CountOk(v)
  {}

  /** Enrollment leaves exactly two mice, each on the unit of its subject. */
  lemma SettleEnrollment(x: World, v: World)
    requires 1 <= x.state.next && x.state.journal.Some? && SubjectsMarked(x, x.state.journal.value) && |x.who| == 2
    requires v == x.(state := v.state, who := [], loose := false,
                     owner := map[x.state.next := x.who[0], x.state.next + 1 := x.who[1]])
    requires v.state.mode.Persistent? && v.state.journal.None?
    requires v.state.devices.Keys == {x.state.next, x.state.next + 1}
    requires v.state.devices[x.state.next].token == x.state.journal.value.subjects[0].token
    requires v.state.devices[x.state.next + 1].token == x.state.journal.value.subjects[1].token
    ensures OwnersOk(v) && SubjectsOk(v) && CountOk(v)
  {}

  /** The one-subject ceremonies leave mouse `d` on the subject's unit. */
  lemma SettleOne(x: World, v: World, d: DeviceId)
    requires OwnersOk(x) && x.state.journal.Some? && SubjectsMarked(x, x.state.journal.value) && |x.who| == 1
    requires x.state.mode.Persistent? && v.state.mode.Persistent? && v.state.journal.None?
    requires v == x.(state := v.state, owner := x.owner[d := x.who[0]], who := [], loose := false)
    requires v.state.devices.Keys == x.state.devices.Keys + {d}
    requires v.state.devices[d].token == x.state.journal.value.subjects[0].token
    requires forall e <- x.state.devices :: e != d ==> v.state.devices[e] == x.state.devices[e]
    ensures OwnersOk(v) && SubjectsOk(v) && CountOk(v)
  {}

  /** All a finalizing world must satisfy apart from its phase. */
  ghost predicate Finishing(x: World) {
    && NumbersOk(x.state) && x.state.journal.Some? && x.state.journal.value.stage.Finalizing?
    && (forall id <- x.units :: UnitOk(x.units[id])) && (forall e <- x.plugged :: x.plugged[e] in x.units)
    && OwnersOk(x) && SubjectsOk(x)
    && (forall sub <- x.state.journal.value.subjects :: FullyStamped(sub))
  }

  /** The mouse a one-subject ceremony creates or rotates. */
  function Subjected(x: World): DeviceId
    requires 1 <= x.state.next && x.state.journal.Some? && x.state.journal.value.subjects != []
    requires x.state.journal.value.phase.Restore? ==> x.state.journal.value.subjects[0].device.Some?
  {
    var j := x.state.journal.value;
    if j.phase.Restore? then j.subjects[0].device.value else x.state.next
  }

  ghost predicate OneSubject(x: World) {
    && NumbersOk(x.state) && x.state.mode.Persistent? && x.state.journal.Some?
    && var j := x.state.journal.value;
    && j.phase in {AddMouse, ForeignAdoption, Restore} && |j.subjects| == 1 && |x.who| == 1
    && j.subjects[0].token.Some?
    && (j.phase.Restore? ==> j.subjects[0].device.Some? && j.subjects[0].device.value in x.state.devices)
  }

  /** The mouse keeps its number or takes the next one, and carries the
      subject's token; every other mouse is as it was. */
  lemma OneDevice(x: World)
    requires OneSubject(x)
    ensures var t, d := Finalize(x.state, false).state, Subjected(x);
            if t.journal.Some? then t == x.state
            else
              && t == x.state.(journal := None, next := t.next, devices := t.devices)
              && t.next == (if x.state.journal.value.phase.Restore? then x.state.next else x.state.next + 1)
              && t.devices.Keys == x.state.devices.Keys + {d}
              && t.devices[d].token == x.state.journal.value.subjects[0].token
              && forall e <- x.state.devices :: e != d ==> t.devices[e] == x.state.devices[e]
  {
    OneForm(x.state);
  }

  /** The one mouse the ceremony commits is on the one stamped unit. */
  lemma OneSettles(x: World, t: StateFile, v: World)
    requires OneSubject(x) && OwnersOk(x) && SubjectsMarked(x, x.state.journal.value)
    requires t.journal.None? && t.mode.Persistent? && t.devices.Keys == x.state.devices.Keys + {Subjected(x)}
    requires t.devices[Subjected(x)].token == x.state.journal.value.subjects[0].token
    requires forall e <- x.state.devices :: e != Subjected(x) ==> t.devices[e] == x.state.devices[e]
    requires v == Committed(x, t)
    ensures OwnersOk(v) && SubjectsOk(v) && CountOk(v)
  {
    SettleOne(x, v, Subjected(x));
  }

  /** Whenever a ceremony finalizes with every subject stamped, the mice it
      creates or rotates are exactly on the units that were stamped. */
  lemma FinalizeOneKeeps(x: World, v: World)
    requires Finishing(x) && OneSubject(x)
    requires v == Committed(x, Finalize(x.state, false).state)
    ensures Safe(v)
  {
    assert SubjectsMarked(x, x.state.journal.value) by { StampedSubjectsMarked(x); }
    var t := Finalize(x.state, false).state;
    OneDevice(x);
    if t.journal.Some? {
      OverflowKeeps(x, v);
    } else {
      OneSettles(x, t, v);
    }
  }

  lemma TwoDevicesTokens(s: StateFile, j: Journal, skip: bool)
    requires 1 <= s.next && |j.subjects| == 2
    ensures var t := TwoDevices(s, j, skip);
            && t.Keys == {s.next, s.next + 1}
            && t[s.next].token == j.subjects[0].token && t[s.next + 1].token == j.subjects[1].token
  {}

  /** The two mice the enrollment commits are on the two stamped units. */
  lemma EnrollmentSettles(x: World, t: StateFile, skip: bool, v: World)
    requires x.state.journal.Some? && 1 <= x.state.next && x.state.journal.value.phase.InitialEnrollment?
    requires |x.who| == 2 && SubjectsMarked(x, x.state.journal.value)
    requires t.journal.None? && t.mode.Persistent? && t.devices == TwoDevices(x.state, x.state.journal.value, skip)
    requires v == Committed(x, t)
    ensures OwnersOk(v) && SubjectsOk(v) && CountOk(v)
  {
    TwoDevicesTokens(x.state, x.state.journal.value, skip);
    SettleEnrollment(x, v);
  }

  lemma FinalizeEnrollmentKeeps(x: World, skip: bool, v: World)
    requires Finishing(x) && x.state.mode.Legacy? && x.state.journal.value.phase.InitialEnrollment?
    requires |x.state.journal.value.subjects| == 2
    requires v == Committed(x, Finalize(x.state, skip).state)
    ensures Safe(v)
  {
    assert SubjectsMarked(x, x.state.journal.value) && |x.who| == 2 by { StampedSubjectsMarked(x); }
    var t := Finalize(x.state, skip).state;
    EnrollmentForm(x.state, skip);
    if t.journal.Some? {
      OverflowKeeps(x, v);
    } else {
      EnrollmentSettles(x, t, skip, v);
    }
  }

  // ----- advancing, deciding, associating ------------------------------------

  /** The world right after the last stamp is journaled, at the next stage. */
  function Advanced(w: World, p: ProfileId, stage: Stage): World
    requires w.state.journal.Some? && w.state.journal.value.subjects != []
  {
    var marked := MarkCommit(w.state, p);
    w.(state := marked.(journal := Some(marked.journal.value.(stage := stage))), loose := false)
  }

  lemma AdvanceForm(w: World, p: ProfileId, v: World)
    requires AdvanceOk(w, p, v)
    ensures var j := w.state.journal.value;
            if AwaitSecond(j) then v == Advanced(w, p, AwaitingCapture)
            else if j.phase.InitialEnrollment? then v == Advanced(w, p, Finalizing)
            else
              var x := Advanced(w, p, Finalizing);
              v == Committed(x, Finalize(x.state, false).state)
  {
    var j := w.state.journal.value;
    if !AwaitSecond(j) && !j.phase.InitialEnrollment? {
      SettledIgnoresLast(w, Advanced(w, p, Finalizing));
    }
  }

  /** What a ceremony settles depends on nothing a stamp changes. */
  lemma SettledIgnoresLast(w: World, x: World)
    requires w.state.journal.Some? && x.state.journal.Some? && 1 <= w.state.next
    requires w.owner == x.owner && w.who == x.who && w.state.next == x.state.next
    requires var j, k := w.state.journal.value, x.state.journal.value;
             && j.phase == k.phase && |j.subjects| == |k.subjects|
             && forall i :: 0 <= i < |j.subjects| ==> j.subjects[i].device == k.subjects[i].device
    ensures Settled(w) == Settled(x)
  {}

  lemma AdvancedSafe(w: World, p: ProfileId, stage: Stage)
    requires Safe(w) && MarkSent(w, p) && !stage.Stamping?
    ensures Safe(Advanced(w, p, stage))
  {
    var marked := w.(state := MarkCommit(w.state, p), loose := false);
    var x := Advanced(w, p, stage);
    MarkCommitTracks(w, p, marked);
    Restaged(marked, x);
    assert OwnersOk(x) by { assert OwnersOk(w); }
  }

  lemma Restaged(w: World, x: World)
    requires SubjectsOk(w) && w.state.journal.Some? && x.state.journal.Some? && !w.loose
    requires x == w.(state := x.state) && !x.state.journal.value.stage.Stamping?
    requires x.state.journal.value == w.state.journal.value.(stage := x.state.journal.value.stage)
    ensures SubjectsOk(x) && CountOk(x)
  {}

  /** Marking the only pending profile completes the subject. */
  lemma LastMarkCompletes(sub: Subject, p: ProfileId)
    requires PendingSet(sub) == {p} && sub.captured.Some? && sub.progress.Keys == sub.captured.value.profiles.Keys
    ensures FullyStamped(sub.(progress := sub.progress[p := Stamped]))
  {
    assert p in PendingSet(sub);
    forall q | q in sub.progress && q != p ensures sub.progress[q] == Stamped {
      assert q !in PendingSet(sub);
    }
  }

  lemma AdvancedStamped(w: World, p: ProfileId, stage: Stage)
    requires SubjectsOk(w) && MarkSent(w, p) && PendingSet(LastSubject(w.state.journal.value)) == {p}
    ensures forall sub <- Advanced(w, p, stage).state.journal.value.subjects :: FullyStamped(sub)
  {
    var j, k := w.state.journal.value, Advanced(w, p, stage).state.journal.value;
    LastMarkCompletes(LastSubject(j), p);
    forall i | 0 <= i < |k.subjects| ensures FullyStamped(k.subjects[i]) {
      if i < |k.subjects| - 1 { assert k.subjects[i] == j.subjects[i]; }
    }
  }

  /** A validated restore is bound to an existing mouse. */
  ghost predicate RestoreBound(s: StateFile) {
    s.journal.Some? && s.journal.value.phase.Restore? ==>
      forall sub <- s.journal.value.subjects :: sub.device.Some? && sub.device.value in s.devices
  }

  lemma ValidRestoreBound(s: StateFile)
    requires s.journal.Some? ==> JournalOk(s, s.journal.value)
    ensures RestoreBound(s)
  {}

  /** What a one-subject stamping world must satisfy apart from its safety. */
  ghost predicate Single(w: World) {
    && NumbersOk(w.state) && RestoreBound(w.state) && w.state.mode.Persistent? && w.state.journal.Some?
    && var j := w.state.journal.value;
    && j.phase in {AddMouse, ForeignAdoption, Restore} && |j.subjects| == 1
  }

  lemma AdvancedSingle(w: World, p: ProfileId)
    requires Single(w) && Safe(w) && MarkSent(w, p)
    ensures OneSubject(Advanced(w, p, Finalizing))
  {
    var sub := w.state.journal.value.subjects[0];
    assert LastSubject(w.state.journal.value) == sub;
  }

  lemma AdvancedFinishes(w: World, p: ProfileId)
    requires Safe(w) && MarkSent(w, p) && PendingSet(LastSubject(w.state.journal.value)) == {p} && NumbersOk(w.state)
    ensures Finishing(Advanced(w, p, Finalizing))
  {
    AdvancedSafe(w, p, Finalizing);
    AdvancedStamped(w, p, Finalizing);
  }

  lemma KeepsAdvance(w: World, p: ProfileId, v: World)
    requires Safe(w) && AdvanceOk(w, p, v) && NumbersOk(w.state)
    requires w.state.journal.value.phase.InitialEnrollment? || Single(w)
    ensures Safe(v)
  {
    AdvanceForm(w, p, v);
    if AwaitSecond(w.state.journal.value) {
      AdvancedSafe(w, p, AwaitingCapture);
    } else if w.state.journal.value.phase.InitialEnrollment? {
      AdvancedSafe(w, p, Finalizing);
    } else {
      AdvancedFinishes(w, p);
      AdvancedSingle(w, p);
      FinalizeOneKeeps(Advanced(w, p, Finalizing), v);
    }
  }

  lemma KeepsDecide(w: World, skip: bool, v: World)
    requires Safe(w) && DecideOk(w, skip, v) && NumbersOk(w.state) && w.state.mode.Legacy?
    ensures Safe(v)
  {
    FinalizeEnrollmentKeeps(w, skip, v);
  }

  /** A completed association moves one endpoint and nothing else. */
  lemma AssociateForm(w: World, endpoint: Endpoint, target: DeviceId, v: World)
    requires AssociateOk(w, endpoint, target, v)
    ensures target in w.state.devices
    ensures var d := w.state.devices[target];
            v == w.(loose := false, who := [],
                    state := w.state.(journal := None, devices := w.state.devices[target :=
                        d.(endpoints := d.endpoints[endpoint.transport := endpoint])]))
  {}

  lemma KeepsAssociate(w: World, endpoint: Endpoint, target: DeviceId, v: World)
    requires Safe(w) && AssociateOk(w, endpoint, target, v)
    ensures Safe(v)
  {
    AssociateForm(w, endpoint, target, v);
    assert v.state.devices.Keys == w.state.devices.Keys;
    assert OwnersOk(v) by { assert OwnersOk(w); }
  }

  /** A refused association either changed nothing or binds a mouse that does
      not exist, which validation never lets through. */
  lemma RefusedAssociationNeverCommits(s: StateFile, endpoint: Endpoint, target: DeviceId)
    requires 1 <= s.next && AssociateCommit(s, endpoint, target).error.Some?
    ensures var t := AssociateCommit(s, endpoint, target).state; t == s || !Validate(t)
  {
    var t := AssociateCommit(s, endpoint, target).state;
    if t != s {
      var sub := t.journal.value.subjects[0];
      assert sub in t.journal.value.subjects && !SubjectOk(t, sub);
    }
  }

  // ----- every step, every run -------------------------------------------------

  lemma SingleWorld(w: World)
    requires Inv(w) && InStage(w, Stamping) && !w.state.journal.value.phase.InitialEnrollment?
    ensures Single(w)
  {
    ValidRestoreBound(w.state);
  }

  lemma JournalFacts(s: StateFile)
    requires Validate(s)
    ensures NumbersOk(s)
    ensures s.journal.Some? ==> JournalOk(s, s.journal.value)
    ensures s.journal.Some? ==> StageOk(s.journal.value)
    ensures s.journal.Some? ==> (s.journal.value.phase.InitialEnrollment? <==> s.mode.Legacy?)
    ensures s.journal.Some? && s.journal.value.stage.Stamping? ==> !s.journal.value.phase.BleAssociation?
  {}

  /** In a validated document every journaled stamp names its token, no reserved
      token is a mouse's yet, and exactly a restore takes a token away: that of
      the mouse it restores. */
  lemma ValidatedJournal(s: StateFile, sub: Subject)
    requires Validate(s) && s.journal.Some? && sub in s.journal.value.subjects
    ensures (exists p :: p in sub.progress && sub.progress[p] == Stamped) ==> sub.token.Some?
    ensures sub.token.Some? ==> forall d <- s.devices :: s.devices[d].token != sub.token
    ensures sub.oldToken.Some? <==> s.journal.value.phase.Restore?
    ensures sub.oldToken.Some? ==>
              && sub.device.Some? && sub.device.value in s.devices
              && s.devices[sub.device.value].token == sub.oldToken && sub.token != sub.oldToken
  {
    assert SubjectOk(s, sub) && ShapeOk(s, s.journal.value);
  }

  lemma AdvanceStepKeepsSafe(w: World, p: ProfileId, v: World)
    requires Inv(w) && AdvanceOk(w, p, v)
    ensures Safe(v)
  {
    if !w.state.journal.value.phase.InitialEnrollment? { SingleWorld(w); }
    KeepsAdvance(w, p, v);
  }

  predicate IsCeremonyStep(step: Step) {
    step.Enroll? || step.ReserveToken? || step.SendMark? || step.JournalMark? || step.Advance? || step.Decide?
        || step.Associate?
  }

  lemma CeremonyStepKeepsSafe(w: World, step: Step, v: World)
    requires Inv(w) && StepOk(w, step, v) && IsCeremonyStep(step)
    ensures Safe(v)
  {
    JournalFacts(w.state);
    if v.state != w.state { JournalFacts(v.state); }
    match step {
      case Enroll(uid, sub) => KeepsEnroll(w, uid, sub, v);
      case ReserveToken(token) => KeepsReserveToken(w, token, v);
      case SendMark(uid, p) => KeepsSendMark(w, uid, p, v);
      case JournalMark(p) => KeepsJournalMark(w, p, v);
      case Advance(p) => AdvanceStepKeepsSafe(w, p, v);
      case Decide(skip) => KeepsDecide(w, skip, v);
      case Associate(endpoint, target) => KeepsAssociate(w, endpoint, target, v);
    }
  }

  lemma OtherStepKeepsSafe(w: World, step: Step, v: World)
    requires Safe(w) && Effects(w, step, v) && !IsCeremonyStep(step)
    ensures Safe(v)
  {
    match step {
      case Begin(phase) => KeepsBegin(w, phase, v);
      case Handle(uid) => KeepsHandle(w, uid, v);
      case Break => KeepsBreak(w, v);
      case Cancel => KeepsCancel(w, v);
      case Forget(d) => KeepsForget(w, d, v);
      case AddLegacyMouse => KeepsAddLegacyMouse(w, v);
      case Bookkeep => KeepsBookkeep(w, v);
      case Use(uid) => KeepsUse(w, uid, v);
      case Replug => KeepsReplug(w, v);
    }
  }

  /** Every step keeps the invariant. */
  lemma StepKeepsInv(w: World, step: Step, v: World)
    requires Inv(w) && StepOk(w, step, v)
    ensures Inv(v)
  {
    if IsCeremonyStep(step) {
      CeremonyStepKeepsSafe(w, step, v);
    } else {
      OtherStepKeepsSafe(w, step, v);
    }
  }
}
