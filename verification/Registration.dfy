/** Registering a mouse directly, outside every ceremony: the one call that can
    bring a mouse number back. */
module Registration {
  import opened Hardware
  import opened State
  import opened Ceremony
  import opened CeremonyTheorems
  import opened CeremonyCommits

  /** The document a registration commits; none when no number would be left
      above the mouse's own. */
  function RegisterCommit(s: StateFile, id: DeviceId, d: Device): Option<StateFile> {
    if s.next <= id && id >= MAX_NUMBER then None
    else Some(s.(next := if s.next <= id then id + 1 else s.next,
                 selected := if s.selected.None? then Some(id) else s.selected,
                 devices := if id in s.devices then s.devices else s.devices[id := d]))
  }

  /** What a registration leaves: a mouse that exists already is not touched, no
      more than any other, and a selection stands. */
  lemma RegisteredDocument(s: StateFile, id: DeviceId, d: Device)
    ensures RegisterCommit(s, id, d).None? <==> id >= s.next && id >= MAX_NUMBER
    ensures RegisterCommit(s, id, d).Some? ==>
              var t := RegisterCommit(s, id, d).value;
              && t == s.(next := t.next, selected := t.selected, devices := t.devices)
              && (s.next <= t.next && id < t.next && (t.next == s.next || t.next == id + 1))
              && (if s.selected.Some? then t.selected == s.selected else t.selected == Some(id))
              && t.devices.Keys == s.devices.Keys + {id} && (forall e <- s.devices :: t.devices[e] == s.devices[e])
              && (id !in s.devices ==> t.devices[id] == d)
  {}

  /** A registration evolves the document as a ceremony would exactly when the
      mouse exists already or its number was never handed out; in between lie
      the numbers of forgotten mice. */
  lemma RegisterEvolvesIff(s: StateFile, id: DeviceId, d: Device)
    requires Validate(s) && RegisterCommit(s, id, d).Some?
    ensures Evolves(s, RegisterCommit(s, id, d).value) <==> id in s.devices || s.next <= id
  {
    var t := RegisterCommit(s, id, d).value;
    assert id in t.devices;
  }

  /** The new mouse collides with nothing the ceremony in progress reserves. */
  predicate FitsJournal(j: Journal, d: Device) {
    forall sub <- j.subjects ::
      && (sub.token.Some? ==> d.token != sub.token)
      && (j.phase.BleAssociation? ==> forall t <- d.endpoints :: d.endpoints[t].locator != sub.endpoint.locator)
  }

  lemma RegisterJournalIff(s: StateFile, t: StateFile, j: Journal, id: DeviceId, d: Device)
    requires JournalOk(s, j) && id !in s.devices && t.devices == s.devices[id := d] && t.mode == s.mode
    ensures JournalOk(t, j) <==> FitsJournal(j, d)
  {
    if FitsJournal(j, d) {
      forall sub | sub in j.subjects ensures SubjectOk(t, sub) { assert SubjectOk(s, sub); }
      assert ShapeOk(t, j) by { assert ShapeOk(s, j); }
    } else {
      var sub :| sub in j.subjects && ((sub.token.Some? && d.token == sub.token)
                 || (j.phase.BleAssociation? && exists t | t in d.endpoints ::
                    d.endpoints[t].locator == sub.endpoint.locator));
      assert SubjectOk(s, sub) && t.devices[id] == d;
    }
  }

  lemma DistinctTokensIff(before: map<DeviceId, Device>, now: map<DeviceId, Device>, id: DeviceId, d: Device)
    requires id !in before && now == before[id := d] && forall x <- before :: before[x].token.Some?
    requires forall x, y | x in before && y in before && x != y :: before[x].token != before[y].token
    ensures (forall x <- now :: now[x].token.Some?)
            && (forall x, y | x in now && y in now && x != y :: now[x].token != now[y].token)
            <==> d.token.Some? && !TokenKnown(before, d.token.value)
  {
    assert now[id] == d;
    if d.token.Some? && TokenKnown(before, d.token.value) {
      var x :| x in before && before[x].token == d.token;
      assert now[x].token == now[id].token;
    }
  }

  lemma RegisterModeIff(s: StateFile, t: StateFile, id: DeviceId, d: Device)
    requires ModeOk(s) && id !in s.devices && t.devices == s.devices[id := d] && t.mode == s.mode
    ensures ModeOk(t) <==>
              if s.mode.Legacy? then s.devices == map[] && d.token.None?
              else d.token.Some? && !TokenKnown(s.devices, d.token.value)
  {
    if s.mode.Legacy? {
      assert t.devices[id] == d;
      assert t.devices.Keys == s.devices.Keys + {id} && |t.devices| == |t.devices.Keys| == |s.devices| + 1;
    } else {
      DistinctTokensIff(s.devices, t.devices, id, d);
    }
  }

  /** Each endpoint is filed under its transport, a USB one with its path and the
      device's ids, a BLE one with its platform id. */
  predicate Storable(d: Device) {
    forall t <- d.endpoints ::
      var e := d.endpoints[t];
      && e.transport == t && (if t.Ble? then e.locator.BlePlatformId? else e.locator.UsbPath? && e.model.Some?)
  }

  /** What validation asks of a new mouse: storable endpoints, the one mouse a
      legacy document may hold or a token of its own, and no collision with the
      ceremony in progress. */
  lemma RegisterAcceptedIff(s: StateFile, id: DeviceId, d: Device)
    requires Validate(s) && id !in s.devices && RegisterCommit(s, id, d).Some?
    ensures Validate(RegisterCommit(s, id, d).value) <==>
              && Storable(d)
              && (if s.mode.Legacy? then s.devices == map[] && d.token.None?
                  else d.token.Some? && !TokenKnown(s.devices, d.token.value))
              && (s.journal.Some? ==> FitsJournal(s.journal.value, d))
  {
    var t := RegisterCommit(s, id, d).value;
    assert t.devices[id] == d;
    RegisterModeIff(s, t, id, d);
    if s.journal.Some? { RegisterJournalIff(s, t, s.journal.value, id, d); }
  }

  /** So the number of a forgotten legacy mouse comes back whenever it is
      registered again. */
  lemma ForgottenNumberReturns(s: StateFile, id: DeviceId, d: Device)
    requires Validate(s) && s.mode.Legacy? && s.journal.None? && id in s.devices && Unreferenced(s, id)
    requires EndpointsOk(d) && d.token.None?
    ensures var forgotten := ForgetCommit(s, id);
            && Validate(forgotten) && id !in forgotten.devices && RegisterCommit(forgotten, id, d).Some?
            && var t := RegisterCommit(forgotten, id, d).value;
            Validate(t) && id in t.devices && !Evolves(forgotten, t)
  {
    var forgotten := ForgetCommit(s, id);
    ForgetAcceptedIff(s, id);
    assert s.devices.Keys == {id} by { OnlyMouse(s.devices.Keys, id); }
    assert forgotten.devices == map[];
    RegisterAcceptedIff(forgotten, id, d);
    RegisterEvolvesIff(forgotten, id, d);
  }

  lemma OnlyMouse(ids: set<DeviceId>, id: DeviceId)
    requires |ids| <= 1 && id in ids
    ensures ids == {id}
  {
    assert |ids - {id}| == 0;
  }

  /** A document with one such mouse. */
  lemma SomeNumberReturns()
    ensures exists s: StateFile, id: DeviceId, d: Device ::
              && Validate(s) && s.mode.Legacy? && s.journal.None? && id in s.devices && Unreferenced(s, id)
              && EndpointsOk(d) && d.token.None?
  {
    var one: DeviceId := 1;
    var d := Device(None, map[], None, None, NO_EVIDENCE);
    var s := StateFile(2, Some(one), map[one := d], Legacy, None, map[]);
    assert s.devices.Keys == {one};
    assert Validate(s) && Unreferenced(s, one) && EndpointsOk(d);
  }

  lemma FirstRegistered(s: StateFile, d: Device)
    requires Validate(s) && s.mode.Legacy? && s.devices == map[] && s.next < MAX_NUMBER && s.journal.None?
    requires EndpointsOk(d) && d.token.None?
    ensures var r := RegisterCommit(s, s.next, d);
            && r.Some? && Validate(r.value) && r.value.selected == Some(s.next as DeviceId)
            && r.value.(selected := None) == s.(next := s.next + 1, devices := map[s.next as DeviceId := d])
  {
    RegisterAcceptedIff(s, s.next, d);
  }

  /** The first mouse of a legacy document, registered under the next number, is
      what the ceremony system knows: the world stays reachable. */
  lemma FirstRegistrationReachable(w: World, d: Device)
    requires Reachable(w) && w.state.mode.Legacy? && w.state.devices == map[] && 1 <= w.state.next < MAX_NUMBER
    requires EndpointsOk(d) && d.token.None? && w.state.journal.None?
    ensures var t := RegisterCommit(w.state, w.state.next, d);
            t.Some? && Reachable(w.(state := t.value))
  {
    assert Validate(w.state) && w.state.selected.None? by { ReachableInv(w); }
    FirstRegistered(w.state, d);
    var t := RegisterCommit(w.state, w.state.next, d).value;
    var x := w.(state := t.(selected := None));
    assert AddLegacyMouseOk(w, x);
    ReachableStep(w, AddLegacyMouse, x);
    assert BookkeepStepOk(x, w.(state := t));
    ReachableStep(x, Bookkeep, w.(state := t));
  }
}
