/** What the guard that a restore starts with protects: exactly when the mouse
    it later binds cannot be connected, and runs in which it is. */
module RestoreGuard {
  import opened Hardware
  import opened State
  import opened Ceremony
  import opened CeremonyTheorems
  import opened CeremonyExamples
  import opened ManagerSteps
  import opened EnrollmentRun

  // ----- the guarantee -------------------------------------------------------------------

  /** The places at which one of the mouse's USB connections would show. */
  function UsbPaths(d: Device): set<Locator> {
    set t | t in d.endpoints && d.endpoints[t].locator.UsbPath? :: d.endpoints[t].locator
  }

  /** The connections when the restore began for `begun`, as the transports
      list them. */
  ghost predicate GuardPassed(begun: Device, before: map<Endpoint, UnitId>) {
    (forall e <- before :: Coherent(e)) && !Attached(before, begun)
  }

  /** The connections when the unit is presented: whatever was not connected
      before has been plugged since. */
  ghost predicate Follows(before: map<Endpoint, UnitId>, now: map<Endpoint, UnitId>, since: set<Endpoint>) {
    (forall e <- now :: Coherent(e)) && now.Keys <= before.Keys + since
  }

  /** The mouse bound is not connected, whatever was connected before. */
  ghost predicate Protected(begun: Device, bound: Device, since: set<Endpoint>) {
    forall before, now :: GuardPassed(begun, before) && Follows(before, now, since) ==> !Attached(now, bound)
  }

  /** The guard still protects the mouse bound exactly when it has no stored
      path that the mouse the restore began for had not, as when it is the same
      one, and nothing was plugged at its stored paths since. */
  lemma ProtectedIff(begun: Device, bound: Device, since: set<Endpoint>)
    requires forall e <- since :: Coherent(e)
    ensures Protected(begun, bound, since) <==>
              && UsbPaths(bound) <= UsbPaths(begun)
              && forall e <- since :: IsUsb(e.transport) ==> e.locator !in UsbPaths(bound)
  {
    if path :| path in UsbPaths(bound) && path !in UsbPaths(begun) {
      PathEvades(begun, bound, path, since);
    } else if e :| e in since && IsUsb(e.transport) && e.locator in UsbPaths(bound) {
      PlugEvades(begun, bound, e, since);
    } else {
      forall before, now | GuardPassed(begun, before) && Follows(before, now, since) ensures !Attached(now, bound) {
        StaysProtected(begun, bound, since, before, now);
      }
    }
  }

  lemma AttachedAt(plugged: map<Endpoint, UnitId>, d: Device, e: Endpoint)
    requires e in plugged && IsUsb(e.transport) && e.locator in UsbPaths(d)
    ensures Attached(plugged, d)
  {}

  lemma PathEvades(begun: Device, bound: Device, path: Locator, since: set<Endpoint>)
    requires path in UsbPaths(bound) && path !in UsbPaths(begun)
    ensures !Protected(begun, bound, since)
  {
    var e := Endpoint(Wired, path, Some((0, 0)), "");
    var before: map<Endpoint, UnitId> := map[e := 0];
    assert e in before;
    assert GuardPassed(begun, before) && Follows(before, before, since);
    AttachedAt(before, bound, e);
  }

  lemma PlugEvades(begun: Device, bound: Device, e: Endpoint, since: set<Endpoint>)
    requires e in since && Coherent(e) && IsUsb(e.transport) && e.locator in UsbPaths(bound)
    ensures !Protected(begun, bound, since)
  {
    var before: map<Endpoint, UnitId> := map[];
    var now: map<Endpoint, UnitId> := map[e := 0];
    assert e in now;
    assert GuardPassed(begun, before) && Follows(before, now, since);
    AttachedAt(now, bound, e);
  }

  lemma StaysProtected(begun: Device, bound: Device, since: set<Endpoint>, before: map<Endpoint, UnitId>,
                       now: map<Endpoint, UnitId>)
    requires GuardPassed(begun, before) && Follows(before, now, since) && UsbPaths(bound) <= UsbPaths(begun)
    requires forall e <- since :: IsUsb(e.transport) ==> e.locator !in UsbPaths(bound)
    ensures !Attached(now, bound)
  {
    forall e, t | e in now && IsUsb(e.transport) && t in bound.endpoints
      ensures bound.endpoints[t].locator != e.locator
    {
      if bound.endpoints[t].locator == e.locator {
        assert e.locator in UsbPaths(bound);
        AttachedAt(before, begun, e);
      }
    }
  }

  // ----- runs through the calls -----------------------------------------------------------

  /** Restoring on a working system: begun for `a` with `before` connected, the
      blank unit presented for `b` with `now` connected.  Nothing is asked of
      `b` but that it exists, nor of `now` but the blank unit. */
  method RestoreRun(m: M.Manager, a: DeviceId, b: DeviceId, before: map<Endpoint, UnitId>,
                    now: map<Endpoint, UnitId>, blank: Endpoint)
    requires Quiet(m) && m.state.journal.None? && m.state.mode.Persistent?
    requires a in m.state.devices && b in m.state.devices && !Attached(before, m.state.devices[a])
    requires (forall e <- before :: before[e] in m.units) && (forall e <- now :: now[e] in m.units)
    requires blank in now && IsUsb(blank.transport) && Blank(m.units[now[blank]])
    modifies m
    ensures Quiet(m) && m.plugged == now && m.state.devices == old(m.state.devices) && m.w.owner == old(m.w.owner)
    ensures m.state.journal.Some? && m.state.journal.value.phase.Restore? && m.state.journal.value.stage.Stamping?
    ensures |m.state.journal.value.subjects| == 1 && m.state.journal.value.subjects[0].device == Some(b)
  {
    TokensIdentify(m.w);
    m.Replug(before);
    var begun := m.Begin(Restore, Some(a));
    m.Replug(now);
    ReachableInv(m.w);
    BlankEligible(m.state, m.state.journal.value, m.units[now[blank]], Some(b));
    var joined := m.Reconnected(blank, Some(b));
  }

  /** One way out: the restore is begun for mouse 1, and the unit is presented
      for mouse 2, which has been connected all along. */
  method OtherMouseIsBound() returns (m: M.Manager)
    ensures Quiet(m) && m.state.journal.Some? && |m.state.journal.value.subjects| == 1
    ensures m.state.journal.value.subjects[0].device == Some(2) && 2 in m.state.devices
    ensures Attached(m.plugged, m.state.devices[2]) && 2 in m.w.owner && m.w.owner[2] in m.plugged.Values
  {
    m := EnrollTwo();
    var b, c := UsbEndpoint("b"), UsbEndpoint("c");
    Distinct();
    NotAt(map[b := 1], m.state.devices[1], "a");
    RestoreRun(m, 1, 2, map[b := 1], map[b := 1, c := 2], c);
    Stores(m.state.devices[2], "b");
    AttachedAt(m.plugged, m.state.devices[2], b);
    assert m.plugged[b] == 1;
  }

  /** The other: the restore is begun for mouse 1 while it is unplugged, and its
      own unit is plugged in again before the blank one is presented for it. */
  method OwnUnitIsBack() returns (m: M.Manager)
    ensures Quiet(m) && m.state.journal.Some? && |m.state.journal.value.subjects| == 1
    ensures m.state.journal.value.subjects[0].device == Some(1) && 1 in m.state.devices
    ensures Attached(m.plugged, m.state.devices[1]) && 1 in m.w.owner && m.w.owner[1] in m.plugged.Values
  {
    m := EnrollTwo();
    var a, c := UsbEndpoint("a"), UsbEndpoint("c");
    Distinct();
    NotAt(map[], m.state.devices[1], "a");
    RestoreRun(m, 1, 1, map[], map[a := 0, c := 2], c);
    Stores(m.state.devices[1], "a");
    AttachedAt(m.plugged, m.state.devices[1], a);
    assert m.plugged[a] == 0;
  }

  lemma Stores(d: Device, path: string)
    requires d.endpoints == map[Wired := UsbEndpoint(path)]
    ensures UsbPath(path) in UsbPaths(d)
  {
    assert Wired in d.endpoints;
  }

  lemma NotAt(plugged: map<Endpoint, UnitId>, d: Device, path: string)
    requires d.endpoints == map[Wired := UsbEndpoint(path)] && forall e <- plugged :: e.locator != UsbPath(path)
    ensures !Attached(plugged, d)
  {}
}
