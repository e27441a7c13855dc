/** Scans and profile updates in the ceremony's world: a scan always keeps it
    reachable, and so does an update through the gate in front of every session
    as long as the attachment cache is truthful. */
module Gate {
  import opened Watermark
  import opened Hardware
  import opened Session
  import opened State
  import opened Ceremony
  import opened CeremonyTheorems
  import opened CeremonyProgress
  import opened CeremonyExamples
  import opened EnrollmentRun
  import A = Attachments
  import D = Discovery

  /** The gate's USB paths are those of the connected units, each showing the
      watermark of the unit's current profile. */
  ghost predicate Mirrors(attached: A.World, w: World) {
    forall k <- attached ::
      var e := attached[k].endpoint;
      && e in w.plugged && w.plugged[e] in w.units && UnitOk(w.units[w.plugged[e]])
      && attached[k].mark == CurrentMark(w.units[w.plugged[e]])
  }

  /** Opens mouse `d` and applies one update to whatever unit is at its path.
      The gate alone does not say which unit that is; that its current watermark
      is the mouse's token is enough for the world to stay reachable, under
      every fault script that leaves a rate update one of its defences, unless
      the unit is the one a ceremony is stamping. */
  method UpdateThroughGate(desk: A.AttachmentCache, w: World, d: DeviceId, openable: bool, readable: bool,
                           profile: ProfileId, update: Update, source: Baseline, desired: Option<Sections>,
                           how: Method, script: seq<Io>)
      returns (r: A.Opened, uid: UnitId, v: World)
    requires Reachable(w) && desk.Formed() && A.NoLies(desk.cache, desk.attached) && Mirrors(desk.attached, w)
    modifies desk
    ensures r.Refused? ==> v == w
    ensures r.Session? ==> d in w.state.devices
    ensures r.Session? && IsUsb(r.endpoint.transport) && w.state.devices[d].token.Some? ==>
              && uid in w.units && v == w.(units := v.units)
              && (&& profile <= |w.units[uid].slots| && (w.state.journal.None? || uid !in w.who)
                  && RateGuarded(update, script, w.units[uid].slots, profile, desired)
                  ==> Reachable(v))
  {
    uid, v := 0, w;
    r := desk.OpenLocked(w.state, d, openable, readable);
    if r.Refused? || !IsUsb(r.endpoint.transport) { return; }
    uid := w.plugged[desk.attached[A.KeyOf(r.endpoint)].endpoint];
    if profile > |w.units[uid].slots| { return; }
    var session := new UsbSession(w.units[uid], script);
    var written := session.ApplyUpdate(profile, update, source, desired, w.state.devices[d].token, how);
    v := w.(units := w.units[uid := session.unit]);
    if w.state.devices[d].token.Some? && (w.state.journal.None? || uid !in w.who)
       && RateGuarded(update, script, w.units[uid].slots, profile, desired) {
      NobodyPresented(w);
      AuthenticatedUpdateIsUse(w, d, uid, session.unit);
    }
  }

  /** A scan, whatever it attaches and however it fails, leaves a reachable
      world: endpoints and memories move, nothing else does. */
  method ScanInWorld(w: World, ids: seq<DeviceId>, fp: Endpoint -> Fingerprint, found: seq<D.Found>,
                     commits: seq<bool>)
      returns (rows: array<D.Row>, v: World, ok: bool)
    requires Reachable(w) && w.state.mode.Persistent? && D.Lists(ids, w.state.devices)
    ensures fresh(rows) && rows.Length == |found| && Reachable(v) && v == w.(state := v.state)
    ensures v.state == w.state.(devices := v.state.devices, mapping := v.state.mapping)
    ensures D.OwnersResolved(w.state, found, rows[..]) && (ok && w.state.journal.None? ==>
              D.SoleDecided(w.state, fp, found, v.state, rows[..]))
  {
    ReachableInv(w);
    var t: StateFile;
    rows, t, ok := D.Scan(w.state, ids, fp, found, commits);
    v := w.(state := t);
    ReachableStep(w, Bookkeep, v);
  }

  lemma NobodyPresented(w: World)
    requires Reachable(w)
    ensures w.state.journal.None? ==> w.who == []
  {
    ReachableInv(w);
  }

  // ----- without a truthful cache -----------------------------------------------------------

  /** One DPI byte changed, on profile 1. */
  const SMALL_UPDATE := Update(Some(map[0 := 1]), None, map[], None)

  /** Two enrolled mice; the unit of the first is unplugged, and before a scan
      completes the unit of the second is plugged in at the same path.  Opening
      the first mouse then succeeds, its update succeeds, and the second mouse's
      unit carries the first one's token: a state that no run reaches. */
  method FooledUpdate() returns (m: M.Manager, r: A.Opened, unit: Unit)
    ensures m.Idle() && m.w.owner == map[1 := 0, 2 := 1] && 1 in m.w.units
    ensures r == A.Opened.Session(UsbEndpoint("a"))
    ensures !Reachable(m.w.(units := m.w.units[1 := unit]))
  {
    m := EnrollTwo();
    TokensIdentify(m.w);
    OwnerShowsItsToken(m.w, 2);
    var a, b := m.state.devices[1].token.value, m.state.devices[2].token.value;
    var e := UsbEndpoint("a");
    var f := e.(serial := "other");
    assert f.serial != e.serial;
    SelectedAt(m.state, 1, "a");
    var mark: Decoded;
    r, mark := A.ReusedPathFoolsTheGate(m.state, 1, e, f, a, b, false);
    unit := UpdateFirst(m.units[1], a);
    ForeignTokenUnreachable(m.w, 1, 2, 0);
    assert unit.slots[0].dpi.tail != m.w.units[1].slots[0].dpi.tail;
    assert !SameTails(m.w.units[1], unit);
    MisdirectedUpdateUnreachable(m.w, 1, 2, unit);
  }

  method UpdateFirst(u: Unit, token: Token) returns (v: Unit)
    requires UnitOk(u)
    ensures UpdatedBy(token, u, v) && v.slots[0].dpi.tail == Marked(token)
  {
    var session := new UsbSession(u, []);
    assert 0 in SMALL_UPDATE.dpi.value;
    assert WellFormed(SMALL_UPDATE);
    var written := session.ApplyUpdate(1, SMALL_UPDATE, Live, None, Some(token), Readback);
    v := session.unit;
  }

  lemma SelectedAt(s: StateFile, d: DeviceId, path: string)
    requires s.journal.None? && d in s.devices && s.devices[d].endpoints == map[Wired := UsbEndpoint(path)]
    ensures A.Selects(s, d, UsbEndpoint(path))
  {
    assert Wired in s.devices[d].endpoints;
  }
}
