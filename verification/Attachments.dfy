/** The per-attachment identity cache: which watermark was read at which
    endpoint, and when that may be believed. */
module Attachments {
  import opened Watermark
  import opened Hardware
  import opened State

  /** Cache keys: transport and locator, as the operating system names it. */
  type Key = (Transport, Locator)

  function KeyOf(e: Endpoint): Key {
    (e.transport, e.locator)
  }

  datatype Entry = Entry(decode: Decoded, endpoint: Endpoint)

  type Cache = map<Key, Entry>

  /** An entry counts only while the very same endpoint object is presented. */
  predicate Hit(cache: Cache, e: Endpoint) {
    KeyOf(e) in cache && cache[KeyOf(e)].endpoint == e
  }

  predicate WellKeyed(cache: Cache) {
    forall k <- cache :: KeyOf(cache[k].endpoint) == k
  }

  function Stored(cache: Cache, e: Endpoint, decode: Decoded): Cache {
    cache[KeyOf(e) := Entry(decode, e)]
  }

  /** The unit at a path: what a scan lists it as, and its watermark. */
  datatype Presence = Presence(endpoint: Endpoint, mark: Decoded)

  type World = map<Key, Presence>

  /** No entry lies about the unit now at its path. */
  predicate NoLies(cache: Cache, attached: World) {
    forall k <- cache :: k in attached ==> cache[k].decode == attached[k].mark
  }

  /** The answer an authentication gets: the cached one if the presented object
      matches, the unit's own if it has to be read and can be. */
  function Answer(cache: Cache, attached: World, e: Endpoint, readable: bool): Option<Decoded>
    requires KeyOf(e) in attached
  {
    if Hit(cache, e) then Some(cache[KeyOf(e)].decode)
    else if readable then Some(attached[KeyOf(e)].mark)
    else None
  }

  /** The entries that survive a completed scan. */
  function Evicted(cache: Cache, connected: seq<Endpoint>): Cache {
    map k | k in cache && cache[k].endpoint in connected && k in KeysOf(connected) :: cache[k]
  }

  function KeysOf(connected: seq<Endpoint>): set<Key> {
    set e | e in connected :: KeyOf(e)
  }

  lemma NoEndpoints(d: Device)
    requires Wired !in d.endpoints && Receiver !in d.endpoints && Ble !in d.endpoints
    ensures d.endpoints == map[]
  {
    forall t: Transport ensures t !in d.endpoints {
      match t {
        case Wired =>
        case Receiver =>
        case Ble =>
      }
    }
  }

  /** The order in which transports are tried. */
  function Rank(t: Transport): nat {
    match t
    case Wired => 0
    case Receiver => 1
    case Ble => 2
  }

  /** The mouse's endpoint that operations use: the preferred transport's, or
      the first of wired, receiver and BLE. */
  function SelectedEndpoint(d: Device): (r: Option<Endpoint>)
    ensures r.None? <==> d.endpoints == map[]
    ensures r.Some? ==> r.value in d.endpoints.Values
    ensures forall t <- d.endpoints :: d.preferred == Some(t) ==> r == Some(d.endpoints[t])
    ensures d.preferred.None? || d.preferred.value !in d.endpoints ==>
              forall t <- d.endpoints :: (forall e <- d.endpoints :: Rank(t) <= Rank(e)) ==> r == Some(d.endpoints[t])
  {
    if d.preferred.Some? && d.preferred.value in d.endpoints then Some(d.endpoints[d.preferred.value])
    else if Wired in d.endpoints then Some(d.endpoints[Wired])
    else if Receiver in d.endpoints then Some(d.endpoints[Receiver])
    else if Ble in d.endpoints then Some(d.endpoints[Ble])
    else
      NoEndpoints(d);
      None
  }

  predicate JournalBlocks(j: Journal, d: DeviceId) {
    j.phase.InitialEnrollment? || exists sub :: sub in j.subjects && sub.device == Some(d)
  }

  datatype OpenError = InSetup | NotFound | NotConnected | ReadFailed | NotAuthenticated

  datatype Opened = Session(endpoint: Endpoint) | Refused(error: OpenError)

  /** The mouse may be operated and this is the endpoint to open. */
  predicate Selects(s: StateFile, d: DeviceId, e: Endpoint) {
    && (s.journal.Some? ==> !JournalBlocks(s.journal.value, d))
    && d in s.devices && SelectedEndpoint(s.devices[d]) == Some(e)
  }

  /** The cache beside the world it describes: the units at the USB paths.  A
      path is opened and read whatever endpoint object names it.  `stale` are
      the paths vacated since the last completed scan. */
  class AttachmentCache {
    var cache: Cache
    var attached: World
    ghost var stale: set<Key>

    /** The shape of the two tables, whatever happens. */
    ghost predicate Formed()
      reads this
    {
      WellKeyed(cache) && forall k <- attached :: KeyOf(attached[k].endpoint) == k
    }

    /** Every entry for an occupied path is truthful; any other entry is for a
        path vacated since the last completed scan. */
    ghost predicate Valid()
      reads this
    {
      && Formed() && NoLies(cache, attached)
      && (forall k <- cache :: k in attached || k in stale)
      && (forall k <- stale :: k !in attached)
    }

    constructor ()
      ensures Valid() && cache == map[] && attached == map[] && stale == {}
    {
      cache, attached, stale := map[], map[], {};
    }

    // ----- what happens outside the program ----------------------------------

    /** A unit arrives at a free path.  Truth survives exactly when the path has
        no entry, or one that happens to say what the unit carries; it always
        does when the path was not vacated since the last completed scan. */
    method Plug(e: Endpoint, mark: Decoded)
      requires Formed() && KeyOf(e) !in attached
      modifies this`attached
      ensures Formed() && attached == old(attached)[KeyOf(e) := Presence(e, mark)]
      ensures NoLies(cache, old(attached)) ==>
                (NoLies(cache, attached) <==> (KeyOf(e) in cache ==> cache[KeyOf(e)].decode == mark))
      ensures old(Valid()) && KeyOf(e) !in stale ==> Valid()
    {
      attached := attached[KeyOf(e) := Presence(e, mark)];
    }

    method Unplug(k: Key)
      requires Formed() && k in attached
      modifies this`attached, this`stale
      ensures Formed() && attached == old(attached) - {k} && stale == old(stale) + {k}
      ensures old(Valid()) ==> Valid()
    {
      attached := attached - {k};
      stale := stale + {k};
    }

    /** A watermark is written to an attached unit; the cache is not told.  Truth
        survives exactly when the path has no entry or one for this token. */
    method Stamp(k: Key, token: Token)
      requires Formed() && k in attached
      modifies this`attached
      ensures Formed() && attached == old(attached)[k := old(attached)[k].(mark := Decoded.Valid(token))]
      ensures NoLies(cache, old(attached)) ==>
                (NoLies(cache, attached) <==> (k in cache ==> cache[k].decode == Decoded.Valid(token)))
      ensures old(Valid()) && (k in cache ==> cache[k].decode == Decoded.Valid(token)) ==> Valid()
    {
      attached := attached[k := attached[k].(mark := Decoded.Valid(token))];
    }

    // ----- what the program does ----------------------------------------------

    /** The connected endpoints without a matching entry. */
    method CollectUnread(connected: seq<Endpoint>) returns (toRead: seq<Endpoint>)
      ensures forall e <- toRead :: e in connected
      ensures forall e <- connected :: Hit(cache, e) <==> e !in toRead
    {
      toRead := [];
      for i := 0 to |connected|
        invariant forall e <- toRead :: e in connected && !Hit(cache, e)
        invariant forall k :: 0 <= k < i ==> Hit(cache, connected[k]) || connected[k] in toRead
      {
        if !Hit(cache, connected[i]) { toRead := toRead + [connected[i]]; }
      }
    }

    /** Reads and stores the watermark of the unit at one endpoint's path. */
    method ReadInto(e: Endpoint)
      requires Formed() && KeyOf(e) in attached
      modifies this`cache
      ensures Formed() && cache == Stored(old(cache), e, attached[KeyOf(e)].mark)
      ensures old(Valid()) ==> Valid()
    {
      cache := Stored(cache, e, attached[KeyOf(e)].mark);
    }

    /** Reads the listed endpoints until one fails; `outcomes[k]` says whether
        the k-th read succeeds. */
    method ReadAll(toRead: seq<Endpoint>, outcomes: seq<bool>) returns (ok: bool)
      requires Formed() && forall e <- toRead :: Lists(attached, e)
      modifies this`cache
      ensures Formed() && (old(Valid()) ==> Valid())
      ensures ok <==> forall i :: 0 <= i < |toRead| && i < |outcomes| ==> outcomes[i]
      ensures ok ==> forall e <- toRead :: Hit(cache, e)
      ensures forall f :: Lists(attached, f) && Hit(old(cache), f) ==> Hit(cache, f)
      ensures forall k :: k in old(cache) && k !in attached ==> k in cache && cache[k] == old(cache)[k]
    {
      for i := 0 to |toRead|
        invariant Formed() && (old(Valid()) ==> Valid())
        invariant forall k :: 0 <= k < i ==> Hit(cache, toRead[k])
        invariant forall k :: 0 <= k < i && k < |outcomes| ==> outcomes[k]
        invariant forall f :: Lists(attached, f) && Hit(old(cache), f) ==> Hit(cache, f)
        invariant forall k :: k in old(cache) && k !in attached ==> k in cache && cache[k] == old(cache)[k]
      {
        if i < |outcomes| && !outcomes[i] { return false; }
        assert forall k :: 0 <= k <= i ==> toRead[k] in toRead;
        ReadInto(toRead[i]);
      }
      ok := true;
    }

    /** Reads what is listed as connected and not yet known, then forgets
        everything that is not listed.  A failing read abandons the scan before
        the forgetting, so what is vacated stays in the cache. */
    method Discover(connected: seq<Endpoint>, outcomes: seq<bool>) returns (ok: bool)
      requires Formed() && forall e <- connected :: Lists(attached, e)
      modifies this`cache, this`stale
      ensures Formed() && (old(Valid()) ==> Valid())
      ensures ok ==>
                && stale == {} && (forall e <- connected :: Hit(cache, e))
                && forall k <- cache :: cache[k].endpoint in connected
      ensures !ok ==> stale == old(stale)
      ensures !ok ==> forall k :: k in old(cache) && k !in attached ==> k in cache && cache[k] == old(cache)[k]
      ensures false !in outcomes ==> ok
      ensures (exists e :: e in connected && !Hit(old(cache), e)) && outcomes != [] && !outcomes[0] ==> !ok
    {
      var toRead := CollectUnread(connected);
      assert outcomes != [] ==> outcomes[0] in outcomes;
      ok := ReadAll(toRead, outcomes);
      assert ok || exists i :: 0 <= i < |outcomes| && !outcomes[i] && outcomes[i] in outcomes;
      if !ok { return; }
      cache := Evicted(cache, connected);
      stale := {};
    }

    /** The current watermark of one attachment, read only if unknown. */
    method Authenticate(e: Endpoint, readable: bool) returns (r: Option<Decoded>)
      requires Formed() && KeyOf(e) in attached
      modifies this`cache
      ensures Formed() && (old(Valid()) ==> Valid())
      ensures r == Answer(old(cache), attached, e, readable)
      ensures r.Some? ==> Hit(cache, e) && cache[KeyOf(e)].decode == r.value
      ensures Hit(old(cache), e) || r.None? ==> cache == old(cache)
      ensures NoLies(old(cache), attached) && r.Some? ==> r.value == attached[KeyOf(e)].mark
    {
      if Hit(cache, e) { return Some(cache[KeyOf(e)].decode); }
      if !readable { return None; }
      ReadInto(e);
      r := Some(attached[KeyOf(e)].mark);
    }

    /** Opens the path of a mouse's selected endpoint.  The session is with
        whatever unit is at that path; for a mouse with a token it is handed out
        exactly when the authentication answers that token, and so, as long as
        the cache is truthful, only on a unit that carries it. */
    method OpenLocked(s: StateFile, d: DeviceId, openable: bool, readable: bool) returns (r: Opened)
      requires Formed()
      modifies this`cache
      ensures Formed() && (old(Valid()) ==> Valid())
      ensures r.Session? ==>
                Selects(s, d, r.endpoint) && openable && (IsUsb(r.endpoint.transport) ==> KeyOf(r.endpoint) in attached)
      ensures forall e :: Selects(s, d, e) && IsUsb(e.transport) && s.devices[d].token.Some? ==>
                (r.Session? <==>
                   && openable && KeyOf(e) in attached
                   && Answer(old(cache), attached, e, readable) == Some(Decoded.Valid(s.devices[d].token.value)))
                && (openable && KeyOf(e) in attached && r.Refused? ==>
                      r == Refused(
                        if Answer(old(cache), attached, e, readable).Some? then NotAuthenticated else ReadFailed))
      ensures forall e :: Selects(s, d, e) && (IsUsb(e.transport) ==> s.devices[d].token.None?) ==>
                r == if openable && (IsUsb(e.transport) ==> KeyOf(e) in attached) then Session(e)
                     else Refused(NotConnected)
      ensures r == Refused(InSetup) <==>
                && s.journal.Some?
                && (s.journal.value.phase.InitialEnrollment?
                    || exists sub :: sub in s.journal.value.subjects && sub.device == Some(d))
      ensures r == Refused(NotFound) <==>
                r != Refused(InSetup) && (d !in s.devices || s.devices[d].endpoints == map[])
      ensures r.Session? && IsUsb(r.endpoint.transport) && s.devices[d].token.Some? && NoLies(old(cache), attached) ==>
                attached[KeyOf(r.endpoint)].mark == Decoded.Valid(s.devices[d].token.value)
    {
      if s.journal.Some? && JournalBlocks(s.journal.value, d) { return Refused(InSetup); }
      if d !in s.devices { return Refused(NotFound); }
      var selected := SelectedEndpoint(s.devices[d]);
      if selected.None? { return Refused(NotFound); }
      var e := selected.value;
      if !openable || (IsUsb(e.transport) && KeyOf(e) !in attached) { return Refused(NotConnected); }
      if s.devices[d].token.Some? && IsUsb(e.transport) {
        var decode := Authenticate(e, readable);
        if decode.None? { return Refused(ReadFailed); }
        if decode.value != Decoded.Valid(s.devices[d].token.value) { return Refused(NotAuthenticated); }
      }
      r := Session(e);
    }
  }

  /** A scan may list this endpoint: it is how the unit at its path appears. */
  predicate Lists(attached: World, e: Endpoint) {
    KeyOf(e) in attached && attached[KeyOf(e)].endpoint == e
  }

  // ----- what the assumptions are for -------------------------------------------------

  /** The watermark after a series of stamps. */
  function Stamped(mark: Decoded, tokens: seq<Token>): Decoded {
    if tokens == [] then mark else Decoded.Valid(tokens[|tokens| - 1])
  }

  /** An entry read from the unit itself stays truthful exactly as long as the
      last token stamped since, if any, is the one that was read. */
  lemma EntryTruthfulIff(cache: Cache, attached: World, k: Key, tokens: seq<Token>)
    requires NoLies(cache, attached) && k in attached && k in cache && cache[k].decode == attached[k].mark
    ensures var later := attached[k := attached[k].(mark := Stamped(attached[k].mark, tokens))];
            NoLies(cache, later) <==> tokens == [] || attached[k].mark == Decoded.Valid(tokens[|tokens| - 1])
  {
    var later := attached[k := attached[k].(mark := Stamped(attached[k].mark, tokens))];
    if tokens == [] { assert later == attached; }
    assert later[k].mark == Stamped(attached[k].mark, tokens);
  }

  /** A mouse of the document, selected at `e`, with this token. */
  predicate Owns(s: StateFile, d: DeviceId, e: Endpoint, token: Token) {
    Selects(s, d, e) && IsUsb(e.transport) && s.devices[d].token == Some(token)
  }

  /** The path is what must not be reused.  Endpoint `f` differs from `e` as an
      object, so nothing that was vacated is presented again; but it names the
      same path, and the gate opens the first mouse on the second one's unit.
      After a completed scan in between it does not. */
  method ReusedPathFoolsTheGate(s: StateFile, d: DeviceId, e: Endpoint, f: Endpoint, a: Token, b: Token, scanned: bool)
      returns (r: Opened, mark: Decoded)
    requires Owns(s, d, e, a) && a != b && e != f && KeyOf(e) == KeyOf(f)
    ensures mark == Decoded.Valid(b) && (r == Session(e) <==> !scanned)
  {
    var desk := new AttachmentCache();
    desk.Plug(e, Decoded.Valid(a));
    var _ := desk.Authenticate(e, true);
    desk.Unplug(KeyOf(e));
    if scanned { var _ := desk.Discover([], []); }
    desk.Plug(f, Decoded.Valid(b));
    mark := desk.attached[KeyOf(e)].mark;
    r := desk.OpenLocked(s, d, true, true);
  }

  /** A failing read abandons the scan, and the entry of the unit that left
      outlives it; the unit that then takes the path inherits it.  The cache
      lies exactly when the scan was abandoned. */
  method AbandonedScanKeepsStaleEntry(gone: Endpoint, other: Endpoint, a: Token, b: Token, readable: bool)
      returns (desk: AttachmentCache, ok: bool)
    requires KeyOf(gone) != KeyOf(other) && a != b
    ensures fresh(desk) && ok == readable && (NoLies(desk.cache, desk.attached) <==> ok)
    ensures KeyOf(gone) in desk.attached && desk.attached[KeyOf(gone)] == Presence(gone, Decoded.Valid(b))
  {
    desk := new AttachmentCache();
    desk.Plug(gone, Decoded.Valid(a));
    var _ := desk.Discover([gone], []);
    assert Hit(desk.cache, gone);
    desk.Unplug(KeyOf(gone));
    desk.Plug(other, Absent);
    assert other in [other] && !Hit(desk.cache, other);
    ok := desk.Discover([other], [readable]);
    desk.Plug(gone, Decoded.Valid(b));
  }

  /** A unit scanned before it was enrolled keeps its old entry, so the mouse it
      has become is refused for as long as it stays plugged in. */
  method EnrolledMouseIsRefused(s: StateFile, d: DeviceId, e: Endpoint, token: Token)
      returns (desk: AttachmentCache, r: Opened)
    requires Owns(s, d, e, token)
    ensures fresh(desk) && desk.Formed() && Lists(desk.attached, e) && r == Refused(NotAuthenticated)
  {
    desk := new AttachmentCache();
    desk.Plug(e, Absent);
    var _ := desk.Discover([e], []);
    assert e in [e] && Hit(desk.cache, e);
    desk.Stamp(KeyOf(e), token);
    r := desk.OpenLocked(s, d, true, true);
  }

  /** Whatever the cache holds, unplugging, a completed scan and plugging in
      again open it. */
  method ReplugAuthenticates(desk: AttachmentCache, s: StateFile, d: DeviceId, e: Endpoint, token: Token)
      returns (r: Opened)
    requires Owns(s, d, e, token) && desk.Formed() && Lists(desk.attached, e)
    modifies desk
    ensures r == Session(e)
  {
    desk.Unplug(KeyOf(e));
    var _ := desk.Discover([], []);
    desk.Plug(e, Decoded.Valid(token));
    r := desk.OpenLocked(s, d, true, true);
  }
}
