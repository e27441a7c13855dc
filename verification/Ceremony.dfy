/** The identity ceremony as a transition system over durable state and
    physical units.  Every step is one store commit, one burst of hardware
    traffic, or something the environment does; a crash is a run that simply
    stops between two steps. */
module Ceremony {
  import opened Watermark
  import opened Hardware
  import opened State

  type UnitId = nat

  /** `owner` and `who` are bookkeeping of the model, not of the program: the
      unit each mouse was enrolled from, and the unit behind each subject.
      `plan`, `sent`, `breaks` count for the last subject the profiles pending
      when it was captured, the watermark reports sent, and the interruptions;
      `loose` says a report was sent that the journal does not yet show. */
  datatype World = World(state: StateFile, units: map<UnitId, Unit>, plugged: map<Endpoint, UnitId>,
                         owner: map<DeviceId, UnitId>, who: seq<UnitId>,
                         plan: nat, sent: nat, breaks: nat, loose: bool)

  // ----- what the program decides -------------------------------------------

  datatype Reason =
    | ReservedId | AlreadyRegistered | ReservedByJournal | IntactMarker | AdoptInstead
    | NotApplicable | TokenDisagreement | AlreadyPersistent | RequiresPersistent
    | TargetRequired | UnknownDevice | RequiresPhysicalId | DeviceConnected | InProgress
    | RequiresUsb | RequiresBle | StampsIrreversible

  /** What the presented unit's current watermark allows.  `NotApplicable`
      stands for the branches the program never expects to take. */
  datatype Admission = Refused(reason: Reason) | Admitted(adopted: Option<Token>)

  function Admit(s: StateFile, j: Journal, mark: Decoded): Admission {
    match mark
    case Valid(token) =>
      if IsReserved(token) then Refused(ReservedId)
      else (match j.phase
            case ForeignAdoption =>
              if TokenKnown(s.devices, token) then Refused(AlreadyRegistered)
              else if JournalReserves(j, token) then Refused(ReservedByJournal)
              else Admitted(Some(token))
            case InitialEnrollment => Refused(IntactMarker)
            case BleAssociation => Refused(NotApplicable)
            case _ => Refused(if TokenKnown(s.devices, token) then AlreadyRegistered else AdoptInstead))
    case UnsupportedVersion(_) => Refused(IntactMarker)
    case _ => if j.phase.ForeignAdoption? then Refused(NotApplicable) else Admitted(None)
  }

  /** Restore re-validates its target; the other ceremonies bind nothing. */
  datatype Binding = Unbound(reason: Reason) | Bound(device: Option<DeviceId>, previous: Option<Token>)

  function Bind(s: StateFile, phase: Phase, target: Option<DeviceId>): Binding {
    if !phase.Restore? then Bound(None, None)
    else if target.None? then Unbound(TargetRequired)
    else if target.value !in s.devices then Unbound(UnknownDevice)
    else if s.devices[target.value].token.None? then Unbound(RequiresPhysicalId)
    else Bound(target, s.devices[target.value].token)
  }

  /** Adoption writes nothing over a profile that already carries the token;
      any other marker is a disagreement.  Elsewhere everything is pending. */
  function StampPlan(phase: Phase, adopted: Option<Token>, profiles: map<ProfileId, Image>):
      Option<map<ProfileId, Progress>> {
    if !phase.ForeignAdoption? || adopted.None? then Some(map p | p in profiles :: Captured)
    else if forall p <- profiles :: Status(profiles[p].dpi.tail) in {Decoded.Valid(adopted.value), Absent} then
      Some(map p | p in profiles :: if Status(profiles[p].dpi.tail) == Absent then Captured else Stamped)
    else None
  }

  function WithLast(j: Journal, sub: Subject): Journal
    requires j.subjects != []
  {
    j.(subjects := j.subjects[|j.subjects| - 1 := sub])
  }

  function LastSubject(j: Journal): Subject
    requires j.subjects != []
  {
    j.subjects[|j.subjects| - 1]
  }

  /** Pushes the captured subject; a fully marked adoption finishes at once. */
  function EnrollCommit(s: StateFile, sub: Subject): Mutation
    requires 1 <= s.next && s.journal.Some?
  {
    var j := s.journal.value;
    var pushed := j.(subjects := j.subjects + [sub]);
    if j.phase.ForeignAdoption? && FullyStamped(sub) then
      Finalize(s.(journal := Some(pushed.(stage := Finalizing))), false)
    else Mutation(s.(journal := Some(pushed.(stage := Stamping))), None)
  }

  function ReserveCommit(s: StateFile, token: Token): StateFile
    requires s.journal.Some? && s.journal.value.subjects != []
  {
    var j := s.journal.value;
    s.(journal := Some(WithLast(j, LastSubject(j).(token := Some(token)))))
  }

  function MarkCommit(s: StateFile, p: ProfileId): StateFile
    requires s.journal.Some? && s.journal.value.subjects != []
  {
    var j := s.journal.value;
    var sub := LastSubject(j);
    s.(journal := Some(WithLast(j, sub.(progress := sub.progress[p := Stamped]))))
  }

  /** The atomic transition after the last stamp: await the second mouse, park
      for the migration decision, or finalize. */
  function AdvanceCommit(s: StateFile, p: ProfileId, awaitSecond: bool): Mutation
    requires 1 <= s.next && s.journal.Some? && s.journal.value.subjects != []
  {
    var marked := MarkCommit(s, p);
    var j := marked.journal.value;
    if awaitSecond then Mutation(marked.(journal := Some(j.(stage := AwaitingCapture))), None)
    else
      var parked := marked.(journal := Some(j.(stage := Finalizing)));
      if j.phase.InitialEnrollment? then Mutation(parked, None) else Finalize(parked, false)
  }

  function AwaitSecond(j: Journal): bool {
    j.phase.InitialEnrollment? && |j.subjects| == 1
  }

  predicate ReadyToDecide(j: Journal) {
    && j.phase.InitialEnrollment? && j.stage.Finalizing? && |j.subjects| == 2
    && forall sub <- j.subjects :: FullyStamped(sub)
  }

  function AssociateCommit(s: StateFile, endpoint: Endpoint, target: DeviceId): Mutation
    requires 1 <= s.next
  {
    if s.journal.None? then Mutation(s, Some(NoCeremony))
    else
      var j := s.journal.value;
      if !j.phase.BleAssociation? || !j.stage.AwaitingCapture? || j.subjects != [] then Mutation(s, Some(InvalidAction))
      else if !LocatorFree(s.devices, endpoint.locator, Some(target)) then Mutation(s, Some(EndpointTaken))
      else
        var sub := Subject(endpoint, Some(target), None, None, None, map[]);
        Finalize(s.(journal := Some(Journal(j.phase, Finalizing, [sub]))), false)
  }

  predicate Cancellable(j: Journal) {
    forall sub <- j.subjects :: forall p <- sub.progress :: sub.progress[p] != Stamped
  }

  function ForgetCommit(s: StateFile, d: DeviceId): StateFile {
    s.(devices := s.devices - {d}, selected := if s.selected == Some(d) then None else s.selected)
  }

  // ----- the system ----------------------------------------------------------

  /** An image with the token's watermark over its tail, nothing else moved. */
  function Stamp(image: Image, token: Token): Image {
    image.(dpi := Overlay(image.dpi, token))
  }

  predicate IsPending(sub: Subject, p: ProfileId) {
    p in sub.progress && sub.progress[p] != Stamped
  }

  function PendingSet(sub: Subject): set<ProfileId> {
    set p | p in sub.progress && sub.progress[p] != Stamped
  }

  ghost predicate LeastPending(sub: Subject, p: ProfileId) {
    IsPending(sub, p) && forall q: ProfileId :: IsPending(sub, q) ==> p <= q
  }

  ghost predicate SameSlots(u: Unit, v: Unit) {
    UnitOk(v) && v.slots == u.slots
  }

  /** The mice that exist after a ceremony finalizes, and their units. */
  function Settled(w: World): map<DeviceId, UnitId>
    requires w.state.journal.Some? && 1 <= w.state.next
  {
    var j := w.state.journal.value;
    match j.phase
    case InitialEnrollment =>
      if |w.who| == 2 then map[w.state.next := w.who[0], w.state.next + 1 := w.who[1]] else w.owner
    case Restore =>
      if j.subjects != [] && j.subjects[0].device.Some? && w.who != []
      then w.owner[j.subjects[0].device.value := w.who[0]] else w.owner
    case BleAssociation => w.owner
    case _ => if w.who != [] then w.owner[w.state.next := w.who[0]] else w.owner
  }

  /** Adopts the committed state; when the journal is gone the ceremony's mice
      take over their units. */
  function Committed(w: World, s: StateFile): World
    requires w.state.journal.Some? && 1 <= w.state.next
  {
    if s.journal.Some? then w.(state := s, loose := false)
    else w.(state := s, owner := Settled(w), who := [], loose := false)
  }

  datatype Step =
    | Begin(phase: Phase)
    | Handle(uid: UnitId)
    | Enroll(uid: UnitId, subject: Subject)
    | ReserveToken(token: Token)
    | SendMark(uid: UnitId, profile: ProfileId)
    | JournalMark(profile: ProfileId)
    | Advance(profile: ProfileId)
    | Break
    | Decide(skip: bool)
    | Associate(endpoint: Endpoint, target: DeviceId)
    | Cancel
    | Forget(device: DeviceId)
    | AddLegacyMouse
    | Bookkeep
    | Use(uid: UnitId)
    | Replug

  ghost predicate InStage(w: World, stage: Stage) {
    && w.state.journal.Some? && w.state.journal.value.stage == stage
    && (!stage.AwaitingCapture? ==> w.state.journal.value.subjects != [])
  }

  /** The unit behind the last subject, in the stamping stage. */
  ghost predicate Presented(w: World, uid: UnitId) {
    InStage(w, Stamping) && w.who != [] && w.who[|w.who| - 1] == uid && uid in w.units
  }

  /** The subject the program builds for a unit it admitted and captured. */
  ghost predicate Enrollable(w: World, uid: UnitId, sub: Subject) {
    && InStage(w, AwaitingCapture)
    && var j := w.state.journal.value;
    && |j.subjects| <= (if j.phase.InitialEnrollment? then 1 else 0)
    && IsUsb(sub.endpoint.transport)
    && uid in w.units && UnitOk(w.units[uid])
    && sub.endpoint in w.plugged && w.plugged[sub.endpoint] == uid
    && Admit(w.state, j, CurrentMark(w.units[uid])) == Admitted(sub.token)
    && Bind(w.state, j.phase, sub.device) == Bound(sub.device, sub.oldToken)
    && sub.captured.Some? && sub.captured.value.meta == Some(w.units[uid].meta)
    && Captures(sub.captured.value.profiles, w.units[uid].slots)
    && StampPlan(j.phase, sub.token, sub.captured.value.profiles) == Some(sub.progress)
  }

  ghost predicate MarkSent(w: World, p: ProfileId) {
    && InStage(w, Stamping) && w.who != [] && w.who[|w.who| - 1] in w.units
    && var sub := LastSubject(w.state.journal.value);
    var u := w.units[w.who[|w.who| - 1]];
    && w.loose && sub.token.Some? && LeastPending(sub, p) && p <= |u.slots|
    && sub.captured.Some? && p in sub.captured.value.profiles
    && u.slots[p - 1].dpi == Overlay(sub.captured.value.profiles[p].dpi, sub.token.value)
  }

  /** Outside the ceremony's own traffic a ceremony's units keep their slots, an
      enrolled unit keeps its watermarks, and any other unit may change in any
      way.  So a profile update is such a use only if it does not reach another
      mouse's unit: `CeremonyProgress.UpdateReachableIff`. */
  ghost predicate UseOk(w: World, uid: UnitId, v: Unit) {
    && uid in w.units && UnitOk(v) && |v.slots| == |w.units[uid].slots|
    && (uid in w.who ==> v.slots == w.units[uid].slots)
    && (uid in w.owner.Values ==>
          forall i :: 0 <= i < |v.slots| ==> v.slots[i].dpi.tail == w.units[uid].slots[i].dpi.tail)
  }

  /** Renames, selection, endpoints, evidence, remembered mappings; what is
      remembered may be redirected but is never taken back. */
  ghost predicate BookkeepOk(s: StateFile, t: StateFile) {
    && t.next == s.next && t.mode == s.mode && t.journal == s.journal
    && t.devices.Keys == s.devices.Keys && s.mapping.Keys <= t.mapping.Keys
    && forall d <- s.devices :: t.devices[d].token == s.devices[d].token
  }

  ghost predicate BeginOk(w: World, phase: Phase, v: World) {
    && w.state.journal.None? && (phase.InitialEnrollment? <==> w.state.mode.Legacy?)
    && v == w.(state := w.state.(journal := Some(Journal(phase, AwaitingCapture, []))), loose := false)
  }

  ghost predicate HandleOk(w: World, uid: UnitId, v: World) {
    && uid in w.units && uid in v.units && SameSlots(w.units[uid], v.units[uid])
    && v == w.(units := w.units[uid := v.units[uid]])
  }

  ghost predicate EnrollOk(w: World, uid: UnitId, sub: Subject, v: World) {
    && Enrollable(w, uid, sub) && 1 <= w.state.next
    && var w' := w.(who := w.who + [uid], plan := |PendingSet(sub)|, sent := 0, breaks := 0);
    && v == Committed(w', EnrollCommit(w.state, sub).state)
  }

  ghost predicate ReserveTokenOk(w: World, token: Token, v: World) {
    && InStage(w, Stamping)
    && var sub := LastSubject(w.state.journal.value);
    && sub.token.None? && !IsReserved(token) && !TokenKnown(w.state.devices, token)
    && !JournalReserves(w.state.journal.value, token)
    && v == w.(state := ReserveCommit(w.state, token))
  }

  ghost predicate SendMarkOk(w: World, uid: UnitId, p: ProfileId, v: World) {
    && Presented(w, uid) && !w.loose
    && var sub := LastSubject(w.state.journal.value);
    && sub.token.Some? && LeastPending(sub, p) && p <= |w.units[uid].slots|
    && sub.captured.Some? && p in sub.captured.value.profiles
    && uid in v.units && UnitOk(v.units[uid])
    && var u := w.units[uid];
    && var stamped := u.slots[p - 1].(dpi := Overlay(sub.captured.value.profiles[p].dpi, sub.token.value));
    && (v.units[uid].slots == u.slots || v.units[uid].slots == u.slots[p - 1 := stamped])
    && v == w.(units := w.units[uid := v.units[uid]], sent := w.sent + 1, loose := true)
  }

  ghost predicate JournalMarkOk(w: World, p: ProfileId, v: World) {
    && MarkSent(w, p)
    && v == w.(state := MarkCommit(w.state, p), loose := false)
  }

  ghost predicate AdvanceOk(w: World, p: ProfileId, v: World) {
    && MarkSent(w, p) && 1 <= w.state.next
    && PendingSet(LastSubject(w.state.journal.value)) == {p}
    && Some(w.units[w.who[|w.who| - 1]].meta) == LastSubject(w.state.journal.value).captured.value.meta
    && v == Committed(w, AdvanceCommit(w.state, p, AwaitSecond(w.state.journal.value)).state)
  }

  ghost predicate BreakOk(w: World, v: World) {
    v == w.(breaks := w.breaks + 1, loose := false)
  }

  ghost predicate DecideOk(w: World, skip: bool, v: World) {
    && w.state.journal.Some? && ReadyToDecide(w.state.journal.value) && 1 <= w.state.next
    && v == Committed(w, Finalize(w.state, skip).state)
  }

  ghost predicate AssociateOk(w: World, endpoint: Endpoint, target: DeviceId, v: World) {
    && endpoint.transport.Ble? && w.state.journal.Some? && 1 <= w.state.next
    && AssociateCommit(w.state, endpoint, target).error.None?
    && v == Committed(w, AssociateCommit(w.state, endpoint, target).state)
  }

  ghost predicate CancelOk(w: World, v: World) {
    && w.state.journal.Some? && Cancellable(w.state.journal.value)
    && v == w.(state := w.state.(journal := None), who := [], loose := false)
  }

  ghost predicate ForgetOk(w: World, d: DeviceId, v: World) {
    && d in w.state.devices
    && v == w.(state := ForgetCommit(w.state, d), owner := w.owner - {d})
  }

  ghost predicate AddLegacyMouseOk(w: World, v: World) {
    && w.state.mode.Legacy? && w.state.devices == map[] && w.state.next < MAX_NUMBER
    && w.state.next in v.state.devices && v.state.devices[w.state.next].token.None?
    && v == w.(state := w.state.(next := w.state.next + 1,
                                 devices := map[w.state.next := v.state.devices[w.state.next]]))
  }

  ghost predicate BookkeepStepOk(w: World, v: World) {
    && BookkeepOk(w.state, v.state) && v == w.(state := v.state)
  }

  ghost predicate UseStepOk(w: World, uid: UnitId, v: World) {
    && uid in v.units && UseOk(w, uid, v.units[uid])
    && v == w.(units := w.units[uid := v.units[uid]])
  }

  ghost predicate ReplugOk(w: World, v: World) {
    && v == w.(plugged := v.plugged)
    && (forall e <- v.plugged :: v.plugged[e] in v.units)
    && (InStage(w, Stamping) ==>
          var e := LastSubject(w.state.journal.value).endpoint;
          e in v.plugged ==> w.who != [] && v.plugged[e] == w.who[|w.who| - 1])
  }

  ghost predicate Effects(w: World, step: Step, v: World) {
    match step
    case Begin(phase) => BeginOk(w, phase, v)
    case Handle(uid) => HandleOk(w, uid, v)
    case Enroll(uid, sub) => EnrollOk(w, uid, sub, v)
    case ReserveToken(token) => ReserveTokenOk(w, token, v)
    case SendMark(uid, p) => SendMarkOk(w, uid, p, v)
    case JournalMark(p) => JournalMarkOk(w, p, v)
    case Advance(p) => AdvanceOk(w, p, v)
    case Break => BreakOk(w, v)
    case Decide(skip) => DecideOk(w, skip, v)
    case Associate(endpoint, target) => AssociateOk(w, endpoint, target, v)
    case Cancel => CancelOk(w, v)
    case Forget(d) => ForgetOk(w, d, v)
    case AddLegacyMouse => AddLegacyMouseOk(w, v)
    case Bookkeep => BookkeepStepOk(w, v)
    case Use(uid) => UseStepOk(w, uid, v)
    case Replug => ReplugOk(w, v)
  }

  /** One step of the system.  A commit that fails validation never happens. */
  ghost predicate StepOk(w: World, step: Step, v: World) {
    Effects(w, step, v) && (v.state == w.state || Validate(v.state))
  }

  // ----- the invariant -------------------------------------------------------

  ghost predicate AllMarked(u: Unit, token: Token) {
    forall i :: 0 <= i < |u.slots| ==> u.slots[i].dpi.tail == Marked(token)
  }

  /** What slot `p` may hold: its captured image, the marked image once it is
      journaled, and either of the two for the least pending profile. */
  ghost predicate SlotTracks(sub: Subject, p: ProfileId, slot: Image)
    requires sub.captured.Some? && p in sub.captured.value.profiles && p in sub.progress
  {
    var image := sub.captured.value.profiles[p];
    if sub.progress[p] == Stamped then sub.token.Some? && slot == Stamp(image, sub.token.value)
    else slot == image || (sub.token.Some? && LeastPending(sub, p) && slot == Stamp(image, sub.token.value))
  }

  ghost predicate Tracks(sub: Subject, u: Unit) {
    && sub.captured.Some? && sub.captured.value.meta.Some?
    && MetadataOk(|u.slots|, sub.captured.value.meta.value)
    && (forall p: ProfileId :: p in sub.captured.value.profiles <==> p <= |u.slots|)
    && sub.progress.Keys == sub.captured.value.profiles.Keys
    && IsUsb(sub.endpoint.transport)
    && (sub.token.Some? ==> !IsReserved(sub.token.value))
    && forall p <- sub.progress :: SlotTracks(sub, p, u.slots[p - 1])
  }

  ghost predicate OwnersOk(w: World) {
    && w.owner.Keys == (if w.state.mode.Persistent? then w.state.devices.Keys else {})
    && forall d <- w.owner ::
         && w.state.devices[d].token.Some? && !IsReserved(w.state.devices[d].token.value)
         && w.owner[d] in w.units
         && AllMarked(w.units[w.owner[d]], w.state.devices[d].token.value)
  }

  ghost predicate SubjectsOk(w: World) {
    match w.state.journal
    case None => w.who == []
    case Some(j) =>
      && |w.who| == |j.subjects|
      && (j.phase.BleAssociation? ==> j.subjects == [])
      && (forall i :: 0 <= i < |w.who| ==> w.who[i] in w.units && w.who[i] !in w.owner.Values)
      && (forall i :: 0 <= i < |w.who| ==> Tracks(j.subjects[i], w.units[w.who[i]]))
      && (forall i, k :: 0 <= i < k < |w.who| ==> w.who[i] != w.who[k])
      && (forall i :: 0 <= i < |w.who| - 1 ==> FullyStamped(j.subjects[i]))
      && (j.stage.Stamping? && j.subjects != [] ==>
            var e := LastSubject(j).endpoint;
            e in w.plugged ==> w.plugged[e] == w.who[|w.who| - 1])
      && (w.loose ==> j.stage.Stamping?)
  }

  ghost predicate CountOk(w: World) {
    InStage(w, Stamping) ==>
      w.sent + |PendingSet(LastSubject(w.state.journal.value))| <= w.plan + w.breaks + (if w.loose then 1 else 0)
  }

  ghost predicate Safe(w: World) {
    && (forall id <- w.units :: UnitOk(w.units[id]))
    && (forall e <- w.plugged :: w.plugged[e] in w.units)
    && OwnersOk(w) && SubjectsOk(w) && CountOk(w)
  }

  ghost predicate Inv(w: World) {
    Validate(w.state) && Safe(w)
  }

  // ----- runs ------------------------------------------------------------------

  /** Nothing enrolled, no ceremony, arbitrary units. */
  ghost predicate Initial(w: World) {
    && w.state == FRESH && w.owner == map[] && w.who == [] && !w.loose
    && (forall id <- w.units :: UnitOk(w.units[id])) && (forall e <- w.plugged :: w.plugged[e] in w.units)
  }

  /** Some run of `n` steps ends in `w`.  A run may stop anywhere, in
      particular between any two hardware writes or commits. */
  ghost predicate ReachableIn(n: nat, w: World)
    decreases n, 1
  {
    Arrives(n, w)
  }

  /** Kept apart from `ReachableIn` so that proofs unfold the last step of a
      run only where they ask for it. */
  ghost predicate Arrives(n: nat, w: World)
    decreases n, 0
  {
    if n == 0 then Initial(w) else exists u, step :: ReachableIn(n - 1, u) && StepOk(u, step, w)
  }

  ghost predicate Reachable(w: World) {
    exists n: nat :: ReachableIn(n, w)
  }
}
