/** The durable state document: logical mice, the identity-setup journal, the
    endpoint mapping, and the validation every commit must pass. */
module State {
  import opened Watermark
  import opened Hardware
  import DeviceKey

  /** The number N of `mouse-N`. */
  type DeviceId = n: nat | 1 <= n witness 1

  /** The largest number a 64-bit counter holds. */
  const MAX_NUMBER := DeviceKey.MAX_U64

  datatype Transport = Wired | Receiver | Ble

  datatype Locator = UsbPath(path: string) | BlePlatformId(id: string)

  datatype Endpoint = Endpoint(transport: Transport, locator: Locator, model: Option<(nat, nat)>, serial: string)

  predicate IsUsb(t: Transport) {
    t != Ble
  }

  predicate Coherent(e: Endpoint) {
    if e.transport.Ble? then e.locator.BlePlatformId? else e.locator.UsbPath? && e.model.Some?
  }

  /** Stored evidence for one mouse; empty when nothing was ever captured. */
  datatype Evidence = Evidence(meta: Option<Metadata>, profiles: map<ProfileId, Image>)

  const NO_EVIDENCE := Evidence(None, map[])

  datatype Device = Device(token: Option<Token>, endpoints: map<Transport, Endpoint>,
                           preferred: Option<Transport>, name: Option<string>, evidence: Evidence)

  predicate HasEvidence(d: Device) {
    d.evidence != NO_EVIDENCE
  }

  datatype Mode = Legacy | Persistent
  datatype Phase = InitialEnrollment | AddMouse | Restore | ForeignAdoption | BleAssociation
  datatype Stage = AwaitingCapture | Stamping | Finalizing
  datatype Progress = Pending | Captured | Stamped

  datatype Subject = Subject(endpoint: Endpoint, device: Option<DeviceId>, token: Option<Token>,
                             oldToken: Option<Token>, captured: Option<Evidence>,
                             progress: map<ProfileId, Progress>)

  datatype Journal = Journal(phase: Phase, stage: Stage, subjects: seq<Subject>)

  type Fingerprint = string

  datatype StateFile = StateFile(next: nat, selected: Option<DeviceId>, devices: map<DeviceId, Device>,
                                 mode: Mode, journal: Option<Journal>, mapping: map<Fingerprint, DeviceId>)

  const FRESH := StateFile(1, None, map[], Legacy, None, map[])

  predicate FullyStamped(s: Subject) {
    && s.captured.Some?
    && s.progress.Keys == s.captured.value.profiles.Keys
    && forall p <- s.progress :: s.progress[p] == Stamped
  }

  predicate TokenKnown(devices: map<DeviceId, Device>, token: Token) {
    exists d :: d in devices && devices[d].token == Some(token)
  }

  predicate JournalReserves(j: Journal, token: Token) {
    exists s :: s in j.subjects && (s.token == Some(token) || s.oldToken == Some(token))
  }

  // ----- validation ---------------------------------------------------------

  predicate NumbersOk(s: StateFile) {
    && 1 <= s.next
    && (forall d <- s.devices :: d < s.next)
    && (s.selected.Some? ==> s.selected.value in s.devices)
  }

  predicate EndpointsOk(d: Device) {
    forall t <- d.endpoints :: d.endpoints[t].transport == t && Coherent(d.endpoints[t])
  }

  predicate ModeOk(s: StateFile) {
    match s.mode
    case Legacy => |s.devices| <= 1 && forall d <- s.devices :: s.devices[d].token.None?
    case Persistent =>
      && (forall d <- s.devices :: s.devices[d].token.Some?)
      && (forall d, e | d in s.devices && e in s.devices && d != e :: s.devices[d].token != s.devices[e].token)
  }

  predicate MappingOk(s: StateFile) {
    forall f <- s.mapping :: s.mapping[f] in s.devices
  }

  predicate StageOk(j: Journal) {
    match j.stage
    case AwaitingCapture =>
      if j.phase.InitialEnrollment? then
        |j.subjects| <= 1 && forall s <- j.subjects :: s.token.Some? && FullyStamped(s)
      else j.subjects == []
    case Stamping =>
      && !j.phase.BleAssociation? && j.subjects != []
      && var s := j.subjects[|j.subjects| - 1];
      s.captured.Some? && s.captured.value.profiles != map[] && !FullyStamped(s)
    case Finalizing =>
      && |j.subjects| == (if j.phase.InitialEnrollment? then 2 else 1)
      && (!j.phase.BleAssociation? ==> forall s <- j.subjects :: s.token.Some? && FullyStamped(s))
  }

  predicate SubjectOk(s: StateFile, sub: Subject) {
    && (sub.progress != map[] ==> sub.captured.Some? && sub.progress.Keys == sub.captured.value.profiles.Keys)
    && (sub.device.Some? ==> sub.device.value in s.devices)
    && ((exists p :: p in sub.progress && sub.progress[p] == Stamped) ==> sub.token.Some?)
    && (sub.token.Some? ==> !TokenKnown(s.devices, sub.token.value))
    && (sub.oldToken.Some? ==>
          && sub.device.Some? && sub.device.value in s.devices
          && s.devices[sub.device.value].token == sub.oldToken
          && sub.token != sub.oldToken)
  }

  /** No token is reserved twice, nor rotated away by a later subject. */
  predicate ReservationsOk(j: Journal) {
    forall i, k | 0 <= i < k < |j.subjects| && j.subjects[i].token.Some? ::
      j.subjects[k].token != j.subjects[i].token && j.subjects[k].oldToken != j.subjects[i].token
  }

  predicate ShapeOk(s: StateFile, j: Journal) {
    forall sub <- j.subjects ::
      match j.phase
      case BleAssociation =>
        && sub.token.None? && sub.oldToken.None? && sub.progress == map[] && sub.captured.None?
        && sub.endpoint.transport.Ble?
        && LocatorFree(s.devices, sub.endpoint.locator, sub.device)
      case Restore => sub.oldToken.Some?
      case _ => sub.oldToken.None?
  }

  /** No device other than `mine` has an endpoint at the locator. */
  predicate LocatorFree(devices: map<DeviceId, Device>, locator: Locator, mine: Option<DeviceId>) {
    forall d | d in devices && Some(d) != mine ::
      forall t | t in devices[d].endpoints :: devices[d].endpoints[t].locator != locator
  }

  predicate JournalOk(s: StateFile, j: Journal) {
    && (j.phase.InitialEnrollment? <==> s.mode.Legacy?)
    && |j.subjects| <= (if j.phase.InitialEnrollment? then 2 else 1)
    && StageOk(j)
    && (forall sub <- j.subjects :: SubjectOk(s, sub))
    && ReservationsOk(j)
    && ShapeOk(s, j)
  }

  /** The authoritative gate in front of every commit. */
  predicate Validate(s: StateFile) {
    && NumbersOk(s)
    && (forall d <- s.devices :: EndpointsOk(s.devices[d]))
    && ModeOk(s)
    && (s.journal.Some? ==> JournalOk(s, s.journal.value))
    && MappingOk(s)
  }

  // ----- allocation ---------------------------------------------------------

  /** The state after a closure ran, and the error it returned, if any.  The
      store commits the state either way. */
  datatype Mutation = Mutation(state: StateFile, error: Option<StateError>)

  datatype StateError =
    | NumberOverflow
    | DeviceNotFound
    | NoCeremony
    | NoSubject
    | NoToken
    | RequiresTarget
    | EndpointTaken
    | InvalidAction

  datatype Allocation = Allocated(state: StateFile, id: DeviceId) | Overflow(state: StateFile)

  /** Takes the next number not in use. */
  function Allocate(s: StateFile): Allocation
    requires 1 <= s.next
    decreases MAX_NUMBER - s.next
  {
    if s.next >= MAX_NUMBER then Overflow(s)
    else
      var bumped := s.(next := s.next + 1);
      if s.next in s.devices then Allocate(bumped) else Allocated(bumped, s.next)
  }

  /** On a validated state the very next number is free. */
  lemma AllocateTakesNext(s: StateFile)
    requires NumbersOk(s)
    ensures Allocate(s) == if s.next >= MAX_NUMBER then Overflow(s) else Allocated(s.(next := s.next + 1), s.next)
  {}

  // ----- finalization -------------------------------------------------------

  function ApplyCapture(d: Device, captured: Option<Evidence>): Device {
    if captured.Some? then d.(evidence := captured.value) else d
  }

  function FreshDevice(sub: Subject, name: Option<string>): Device {
    ApplyCapture(Device(sub.token, map[sub.endpoint.transport := sub.endpoint], None, name, NO_EVIDENCE), sub.captured)
  }

  /** Applies a completed ceremony to the durable mice. */
  function Finalize(s: StateFile, skip: bool): Mutation
    requires 1 <= s.next
  {
    if s.journal.None? then Mutation(s, Some(NoCeremony))
    else
      var j := s.journal.value;
      var done := if j.phase.InitialEnrollment? then FinalizeEnrollment(s, j, skip) else FinalizeOne(s, j);
      if done.error.Some? then done else Mutation(done.state.(journal := None), None)
  }

  function FinalizeOne(s: StateFile, j: Journal): Mutation
    requires 1 <= s.next
  {
    if j.subjects == [] then Mutation(s, Some(NoSubject))
    else
      var sub := j.subjects[0];
      match j.phase
      case Restore =>
        if sub.device.None? then Mutation(s, Some(RequiresTarget))
        else if sub.token.None? then Mutation(s, Some(NoToken))
        else if sub.device.value !in s.devices then Mutation(s, Some(DeviceNotFound))
        else
          var d := s.devices[sub.device.value].(token := sub.token, preferred := None,
                                                endpoints := map[sub.endpoint.transport := sub.endpoint]);
          Mutation(s.(devices := s.devices[sub.device.value := ApplyCapture(d, sub.captured)]), None)
      case BleAssociation =>
        if sub.device.None? then Mutation(s, Some(RequiresTarget))
        else if sub.device.value !in s.devices then Mutation(s, Some(DeviceNotFound))
        else
          var d := s.devices[sub.device.value];
          var e := d.endpoints[sub.endpoint.transport := sub.endpoint];
          Mutation(s.(devices := s.devices[sub.device.value := d.(endpoints := e)]), None)
      case _ =>
        if sub.token.None? then Mutation(s, Some(NoToken))
        else
          match Allocate(s)
          case Overflow(t) => Mutation(t, Some(NumberOverflow))
          case Allocated(t, id) => Mutation(t.(devices := t.devices[id := FreshDevice(sub, None)]), None)
  }

  /** The legacy name goes to a subject only on a unique exact match. */
  function NameFor(s: StateFile, j: Journal, skip: bool, index: nat): Option<string> {
    var legacy := LegacyDevice(s);
    if !skip && legacy.Some? && index < |j.subjects|
       && (forall i | 0 <= i < |j.subjects| :: (j.subjects[i].captured == Some(legacy.value.evidence)) <==> i == index)
    then legacy.value.name
    else Some(DefaultName(index))
  }

  function DefaultName(index: nat): string {
    if index == 0 then "Mouse 1" else "Mouse 2"
  }

  /** The single fuzzy mouse of legacy mode. */
  function LegacyDevice(s: StateFile): Option<Device> {
    if exists d :: d in s.devices && forall e <- s.devices :: e == d then
      var d :| d in s.devices && forall e <- s.devices :: e == d;
      Some(s.devices[d])
    else None
  }

  /** Removes the fuzzy mouse, creates one mouse per subject, and switches to
      persistent mode.  Both numbers are allocated before anything else. */
  function FinalizeEnrollment(s: StateFile, j: Journal, skip: bool): Mutation
    requires 1 <= s.next
  {
    match AllocateMany(s, |j.subjects|)
    case Short(t) => Mutation(t, Some(NumberOverflow))
    case Taken(t, ids) =>
      Mutation(t.(devices := NewDevices(s, j, skip, ids), mode := Persistent,
                  selected := if ids == [] then None else Some(ids[0])), None)
  }

  /** One fresh mouse per subject, in order. */
  function NewDevices(s: StateFile, j: Journal, skip: bool, ids: seq<DeviceId>): map<DeviceId, Device>
    requires |ids| <= |j.subjects|
    decreases |ids|
  {
    if ids == [] then map[]
    else
      var i := |ids| - 1;
      NewDevices(s, j, skip, ids[..i])[ids[i] := FreshDevice(j.subjects[i], NameFor(s, j, skip, i))]
  }

  datatype Allocations = Taken(state: StateFile, ids: seq<DeviceId>) | Short(state: StateFile)

  function AllocateMany(s: StateFile, n: nat): (r: Allocations)
    requires 1 <= s.next
    ensures r.Taken? ==> |r.ids| == n
    decreases n
  {
    if n == 0 then Taken(s, [])
    else
      match Allocate(s)
      case Overflow(t) => Short(t)
      case Allocated(t, id) =>
        assert 1 <= t.next by { AllocateNext(s); }
        match AllocateMany(t, n - 1)
        case Short(u) => Short(u)
        case Taken(u, ids) => Taken(u, [id] + ids)
  }

  lemma AllocateNext(s: StateFile)
    requires 1 <= s.next
    ensures Allocate(s).state.next >= s.next
    decreases MAX_NUMBER - s.next
  {}
}
