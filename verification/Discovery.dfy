/** One discovery scan: every connection is resolved on its own, duplicate
    tokens are folded, and a single unknown connection may be attached. */
module Discovery {
  import opened Watermark
  import opened Hardware
  import opened State

  datatype Reason =
    | NoMark
    | DamagedMark
    | FutureMark(version: Byte)
    | UnknownToken
    | DuplicateToken
    | ReservedToken
    | JournalToken

  datatype Resolution = Resolved(id: DeviceId) | Unassociated(reason: Reason, token: Option<Token>)

  datatype Row = Row(endpoint: Endpoint, connected: bool, resolution: Resolution)

  // ----- one connection ------------------------------------------------------

  /** `ids` lists the saved mice in the document's own order. */
  ghost predicate Lists(ids: seq<DeviceId>, devices: map<DeviceId, Device>) {
    (forall d :: d in ids <==> d in devices) && Distinct(ids)
  }

  ghost predicate Distinct(ids: seq<DeviceId>) {
    forall i, k :: 0 <= i < k < |ids| ==> ids[i] != ids[k]
  }

  function Owners(ids: seq<DeviceId>, devices: map<DeviceId, Device>, token: Token): seq<DeviceId> {
    if ids == [] then []
    else
      (if ids[0] in devices && devices[ids[0]].token == Some(token) then [ids[0]] else [])
      + Owners(ids[1..], devices, token)
  }

  function FirstWithBle(ids: seq<DeviceId>, devices: map<DeviceId, Device>, locator: Locator): Option<DeviceId> {
    if ids == [] then None
    else if ids[0] in devices && HasBle(devices[ids[0]], locator) then Some(ids[0])
    else FirstWithBle(ids[1..], devices, locator)
  }

  /** The `i`-th listed mouse has the BLE locator, and no earlier one. */
  ghost predicate FirstAt(ids: seq<DeviceId>, devices: map<DeviceId, Device>, locator: Locator, i: nat)
    requires i < |ids|
  {
    && ids[i] in devices && Ble in devices[ids[i]].endpoints && devices[ids[i]].endpoints[Ble].locator == locator
    && forall k :: 0 <= k < i && ids[k] in devices && Ble in devices[ids[k]].endpoints ==>
                     devices[ids[k]].endpoints[Ble].locator != locator
  }

  predicate HasBle(d: Device, locator: Locator) {
    Ble in d.endpoints && d.endpoints[Ble].locator == locator
  }

  function ResolveValidToken(ids: seq<DeviceId>, s: StateFile, token: Token): Resolution {
    if IsReserved(token) then Unassociated(ReservedToken, Some(token))
    else if s.journal.Some? && JournalReserves(s.journal.value, token) then Unassociated(JournalToken, Some(token))
    else
      var owners := Owners(ids, s.devices, token);
      if |owners| == 0 then Unassociated(UnknownToken, Some(token))
      else if |owners| == 1 then Resolved(owners[0])
      else Unassociated(DuplicateToken, Some(token))
  }

  function ResolveConnection(ids: seq<DeviceId>, s: StateFile, legacy: Option<DeviceId>, e: Endpoint,
                             decode: Option<Decoded>): Resolution {
    if legacy.Some? then Resolved(legacy.value)
    else if e.transport.Ble? then
      var matched := FirstWithBle(ids, s.devices, e.locator);
      if matched.Some? then Resolved(matched.value) else Unassociated(NoMark, None)
    else if decode.None? then Unassociated(NoMark, None)
    else
      match decode.value
      case Valid(token) => ResolveValidToken(ids, s, token)
      case Absent => Unassociated(NoMark, None)
      case Malformed => Unassociated(DamagedMark, None)
      case UnsupportedVersion(v) => Unassociated(FutureMark(v), None)
  }

  lemma {:induction false} OwnersAre(ids: seq<DeviceId>, devices: map<DeviceId, Device>, token: Token)
    requires Distinct(ids)
    ensures forall d :: d in Owners(ids, devices, token) <==>
              d in ids && d in devices && devices[d].token == Some(token)
    ensures Distinct(Owners(ids, devices, token))
    decreases |ids|
  {
    if ids != [] {
      var rest := Owners(ids[1..], devices, token);
      OwnersAre(ids[1..], devices, token);
      var o := Owners(ids, devices, token);
      assert forall d :: d in ids <==> d == ids[0] || d in ids[1..];
      if ids[0] in devices && devices[ids[0]].token == Some(token) {
        assert o == [ids[0]] + rest;
        assert ids[0] !in ids[1..];
        forall i, k | 0 <= i < k < |o| ensures o[i] != o[k] {
          assert o[k] == rest[k - 1] && rest[k - 1] in rest && o[k] in ids[1..];
          if i > 0 { assert o[i] == rest[i - 1]; }
        }
      } else {
        assert o == rest;
      }
    }
  }

  lemma NoOwnerIff(ids: seq<DeviceId>, s: StateFile, token: Token)
    requires Lists(ids, s.devices)
    ensures Owners(ids, s.devices, token) == [] <==> !TokenKnown(s.devices, token)
  {
    OwnersAre(ids, s.devices, token);
    var o := Owners(ids, s.devices, token);
    assert o != [] ==> o[0] in o;
  }

  lemma OneOwnerIff(ids: seq<DeviceId>, s: StateFile, token: Token, d: DeviceId)
    requires Lists(ids, s.devices)
    ensures Owners(ids, s.devices, token) == [d] <==>
              d in s.devices && s.devices[d].token == Some(token)
              && forall e | e in s.devices && s.devices[e].token == Some(token) :: e == d
  {
    OwnersAre(ids, s.devices, token);
    var o := Owners(ids, s.devices, token);
    if o != [] {
      assert o[0] in o;
      if |o| > 1 { assert o[1] in o && o[0] != o[1]; }
    }
  }

  /** A valid token resolves to a mouse exactly when it is usable, nothing in
      flight reserves it, and that mouse is its only owner; it stays unknown
      exactly when it is as free and no mouse owns it. */
  lemma ValidTokenResolvesIff(ids: seq<DeviceId>, s: StateFile, token: Token, d: DeviceId)
    requires Lists(ids, s.devices)
    ensures var free := !IsReserved(token) && (s.journal.Some? ==> !JournalReserves(s.journal.value, token));
            && (ResolveValidToken(ids, s, token) == Resolved(d) <==>
                  free && d in s.devices && s.devices[d].token == Some(token)
                  && forall e | e in s.devices && s.devices[e].token == Some(token) :: e == d)
            && (ResolveValidToken(ids, s, token) == Unassociated(UnknownToken, Some(token)) <==>
                  free && !TokenKnown(s.devices, token))
  {
    NoOwnerIff(ids, s, token);
    OneOwnerIff(ids, s, token, d);
    var o := Owners(ids, s.devices, token);
    assert o == [d] <==> |o| == 1 && o[0] == d;
  }

  lemma TwoOwnersShare(ids: seq<DeviceId>, devices: map<DeviceId, Device>, token: Token)
    requires Distinct(ids)
    ensures var o := Owners(ids, devices, token);
            |o| > 1 ==> o[0] != o[1] && o[0] in devices && o[1] in devices && devices[o[0]].token == devices[o[1]].token
  {
    OwnersAre(ids, devices, token);
    var o := Owners(ids, devices, token);
    if |o| > 1 { assert o[0] in o && o[1] in o; }
  }

  /** On a validated document in persistent mode tokens are distinct, so the
      duplicate-owner answer never happens. */
  lemma NeverTwoOwners(ids: seq<DeviceId>, s: StateFile, token: Token)
    requires Lists(ids, s.devices) && s.mode.Persistent? && ModeOk(s)
    ensures ResolveValidToken(ids, s, token) != Unassociated(DuplicateToken, Some(token))
  {
    TwoOwnersShare(ids, s.devices, token);
  }

  lemma {:induction false} FirstWithBleFinds(ids: seq<DeviceId>, devices: map<DeviceId, Device>, locator: Locator)
    ensures var r := FirstWithBle(ids, devices, locator);
            && (r.None? <==> forall d :: d in ids && d in devices ==> !HasBle(devices[d], locator))
            && (r.Some? ==> exists i :: 0 <= i < |ids| && ids[i] == r.value && FirstAt(ids, devices, locator, i))
    decreases |ids|
  {
    if ids != [] {
      FirstWithBleFinds(ids[1..], devices, locator);
      assert forall d :: d in ids <==> d == ids[0] || d in ids[1..];
      if ids[0] in devices && HasBle(devices[ids[0]], locator) {
        assert FirstAt(ids, devices, locator, 0);
      } else if i :| 0 <= i < |ids| - 1 && FirstAt(ids[1..], devices, locator, i) {
        assert ids[i + 1] == ids[1..][i];
        forall k | 0 <= k < i + 1 && ids[k] in devices ensures !HasBle(devices[ids[k]], locator) {
          if k > 0 { assert ids[k] == ids[1..][k - 1]; }
        }
        assert FirstAt(ids, devices, locator, i + 1);
      }
    }
  }

  /** In legacy mode everything is the one fuzzy mouse.  Otherwise, without a
      valid token, a USB connection resolves to nobody, and a BLE connection
      exactly to the first mouse explicitly associated with its platform id. */
  lemma WithoutTokenNoGuess(ids: seq<DeviceId>, s: StateFile, e: Endpoint, decode: Option<Decoded>)
    requires Lists(ids, s.devices)
    ensures var r := ResolveConnection(ids, s, None, e, decode);
            if e.transport.Ble? then
              && (r.Resolved? <==> exists d :: d in s.devices && HasBle(s.devices[d], e.locator))
              && (r.Resolved? ==> exists i :: 0 <= i < |ids| && ids[i] == r.id && FirstAt(ids, s.devices, e.locator, i))
              && (r.Unassociated? ==> r == Unassociated(NoMark, None))
            else if decode.Some? && decode.value.Valid? then true
            else r == Unassociated(if decode.Some? && decode.value.Malformed? then DamagedMark
                                   else if decode.Some? && decode.value.UnsupportedVersion?
                                       then FutureMark(decode.value.version)
                                   else NoMark, None)
    ensures forall d :: ResolveConnection(ids, s, Some(d), e, decode) == Resolved(d)
  {
    FirstWithBleFinds(ids, s.devices, e.locator);
  }

  // ----- duplicate tokens of one scan -------------------------------------------

  predicate IsUnknown(r: Row) {
    r.resolution.Unassociated? && r.resolution.reason.UnknownToken? && r.resolution.token.Some?
  }

  /** Same transport, same unknown token. */
  predicate Twins(a: Row, b: Row) {
    IsUnknown(a) && IsUnknown(b) && a.endpoint.transport == b.endpoint.transport
        && a.resolution.token == b.resolution.token
  }

  ghost predicate HasTwin(rows: seq<Row>, i: nat)
    requires i < |rows|
  {
    exists k :: 0 <= k < |rows| && k != i && Twins(rows[i], rows[k])
  }

  function Demoted(r: Row): Row
    requires IsUnknown(r)
  {
    r.(resolution := Unassociated(DuplicateToken, r.resolution.token))
  }

  /** What the fold must do: exactly the rows with a twin become duplicates. */
  ghost function Folded(rows: seq<Row>): (r: seq<Row>)
    ensures |r| == |rows|
  {
    seq(|rows|, i requires 0 <= i < |rows| => if HasTwin(rows, i) then Demoted(rows[i]) else rows[i])
  }

  type Key = (Transport, Token)

  function TwinKey(r: Row): Key
    requires IsUnknown(r)
  {
    (r.endpoint.transport, r.resolution.token.value)
  }

  /** How many of the first `n` rows are unknown with this key. */
  function Count(rows: seq<Row>, n: nat, key: Key): nat
    requires n <= |rows|
  {
    if n == 0 then 0
    else Count(rows, n - 1, key) + (if IsUnknown(rows[n - 1]) && TwinKey(rows[n - 1]) == key then 1 else 0)
  }

  lemma {:induction false} CountPositive(rows: seq<Row>, n: nat, key: Key)
    requires n <= |rows|
    ensures Count(rows, n, key) > 0 <==> exists k :: 0 <= k < n && IsUnknown(rows[k]) && TwinKey(rows[k]) == key
    decreases n
  {
    if n > 0 { CountPositive(rows, n - 1, key); }
  }

  lemma {:induction false} CountTwins(rows: seq<Row>, n: nat, i: nat)
    requires i < n <= |rows| && IsUnknown(rows[i])
    ensures Count(rows, n, TwinKey(rows[i])) > 1 <==> exists k :: 0 <= k < n && k != i && Twins(rows[i], rows[k])
    decreases n
  {
    var key := TwinKey(rows[i]);
    if i == n - 1 {
      CountPositive(rows, n - 1, key);
      if k :| 0 <= k < n - 1 && IsUnknown(rows[k]) && TwinKey(rows[k]) == key { assert Twins(rows[i], rows[k]); }
    } else {
      CountTwins(rows, n - 1, i);
      CountPositive(rows, n - 1, key);
      if IsUnknown(rows[n - 1]) && TwinKey(rows[n - 1]) == key { assert Twins(rows[i], rows[n - 1]); }
    }
  }

  /** The two passes of the scan: count, then demote in place. */
  method MarkScanDuplicates(rows: array<Row>)
    modifies rows
    ensures rows[..] == Folded(old(rows[..]))
    ensures forall i :: 0 <= i < rows.Length ==>
              rows[i] == if HasTwin(old(rows[..]), i)
                         then old(rows[i]).(resolution := Unassociated(DuplicateToken, old(rows[i]).resolution.token))
                         else old(rows[i])
  {
    ghost var was := rows[..];
    var counts: map<Key, nat> := map[];
    for i := 0 to rows.Length
      invariant rows[..] == was
      invariant forall key: Key :: (if key in counts then counts[key] else 0) == Count(was, i, key)
    {
      if IsUnknown(rows[i]) {
        var key := TwinKey(rows[i]);
        counts := counts[key := (if key in counts then counts[key] else 0) + 1];
      }
    }
    for i := 0 to rows.Length
      invariant forall k :: 0 <= k < i ==> rows[k] == Folded(was)[k]
      invariant forall k :: i <= k < rows.Length ==> rows[k] == was[k]
      invariant forall key: Key :: (if key in counts then counts[key] else 0) == Count(was, |was|, key)
    {
      if IsUnknown(rows[i]) {
        CountTwins(was, |was|, i);
        var key := TwinKey(rows[i]);
        if (if key in counts then counts[key] else 0) > 1 {
          rows[i] := Demoted(rows[i]);
        }
      }
    }
  }

  /** Folding twice changes nothing: a demoted row is no longer unknown, and a
      row left alone had no twin to lose. */
  lemma FoldIdempotent(rows: seq<Row>)
    ensures Folded(Folded(rows)) == Folded(rows)
  {}

  ghost predicate IsPermutation(perm: seq<nat>, n: nat) {
    && |perm| == n && (forall i :: 0 <= i < n ==> perm[i] < n)
    && (forall i, k :: 0 <= i < k < n ==> perm[i] != perm[k])
    && (forall j: nat :: j < n ==> j in perm)
  }

  ghost function Permuted(rows: seq<Row>, perm: seq<nat>): (r: seq<Row>)
    requires IsPermutation(perm, |rows|)
    ensures |r| == |rows|
  {
    seq(|rows|, i requires 0 <= i < |rows| => rows[perm[i]])
  }

  lemma TwinPermuted(rows: seq<Row>, perm: seq<nat>, i: nat)
    requires IsPermutation(perm, |rows|) && i < |rows|
    ensures HasTwin(Permuted(rows, perm), i) <==> HasTwin(rows, perm[i])
  {
    var moved := Permuted(rows, perm);
    if HasTwin(moved, i) {
      var k :| 0 <= k < |moved| && k != i && Twins(moved[i], moved[k]);
      assert Twins(rows[perm[i]], rows[perm[k]]) && perm[k] != perm[i];
    }
    if HasTwin(rows, perm[i]) {
      var j :| 0 <= j < |rows| && j != perm[i] && Twins(rows[perm[i]], rows[j]);
      var target: nat := j;
      assert target in perm;
      var k :| 0 <= k < |rows| && perm[k] == target;
      assert Twins(moved[i], moved[k]);
    }
  }

  /** The order in which the scan lists its connections does not matter. */
  lemma FoldCommutesWithReordering(rows: seq<Row>, perm: seq<nat>)
    requires IsPermutation(perm, |rows|)
    ensures Folded(Permuted(rows, perm)) == Permuted(Folded(rows), perm)
  {
    forall i | 0 <= i < |rows| ensures Folded(Permuted(rows, perm))[i] == Permuted(Folded(rows), perm)[i] {
      TwinPermuted(rows, perm, i);
    }
  }

  // ----- the connection-resolution decision ----------------------------------------

  datatype Candidate = Candidate(id: DeviceId, stored: bool)

  datatype Choice =
    | SilentAttach(to: DeviceId, keep: bool)
    | SetupFirst
    | AskWhich(candidates: seq<Candidate>)
    | AskNewOrMine(candidate: Candidate)

  function ResolveEndpoint(known: bool, simultaneous: nat, transport: Transport, candidates: seq<Candidate>,
                           stored: bool): Choice {
    if known then
      if candidates == [] then SetupFirst else SilentAttach(candidates[0].id, stored)
    else if simultaneous >= 2 then
      if transport.Ble? && |candidates| == 1 && !stored && !candidates[0].stored then AskNewOrMine(candidates[0])
      else if candidates == [] then SetupFirst
      else AskWhich(candidates)
    else if candidates == [] then SetupFirst
    else if |candidates| > 1 then AskWhich(candidates)
    else if IsUsb(transport) then SilentAttach(candidates[0].id, stored || candidates[0].stored)
    else if stored || candidates[0].stored then SilentAttach(candidates[0].id, true)
    else AskNewOrMine(candidates[0])
  }

  /** The decision tree read the other way round.  A remembered endpoint is
      attached without asking whenever any mouse is saved.  One nobody remembers
      is attached without asking exactly when it is the only unknown one, there
      is exactly one saved mouse, and the endpoint is USB or that mouse has
      stored settings; it asks new-or-mine exactly for a BLE endpoint and a
      single saved mouse without settings; it asks which exactly when several
      mice are saved, or several unknown endpoints vie for the only one and that
      is not the new-or-mine case; with no saved mouse it sets up. */
  lemma SilentIff(known: bool, n: nat, transport: Transport, candidates: seq<Candidate>, stored: bool)
    ensures var r := ResolveEndpoint(known, n, transport, candidates, stored);
            var one := |candidates| == 1;
            var kept := one && (stored || candidates[0].stored);
            && (r.SetupFirst? <==> candidates == [])
            && (r.SilentAttach? <==> if known then candidates != [] else n < 2 && one && (IsUsb(transport) || kept))
            && (r.SilentAttach? ==> r.to == candidates[0].id && r.keep == if known then stored else kept)
            && (r.AskNewOrMine? <==> !known && transport.Ble? && one && !kept)
            && (r.AskNewOrMine? ==> r.candidate == candidates[0])
            && (r.AskWhich? <==> !known && (|candidates| > 1 || (one && n >= 2 && (IsUsb(transport) || kept))))
            && (r.AskWhich? ==> r.candidates == candidates)
  {}

  function Candidates(ids: seq<DeviceId>, devices: map<DeviceId, Device>): seq<Candidate> {
    seq(|ids|, i requires 0 <= i < |ids| => Candidate(ids[i], ids[i] in devices && HasEvidence(devices[ids[i]])))
  }

  /** The saved mouse remembered for an endpoint, if it still exists. */
  function Remembered(s: StateFile, f: Fingerprint): Option<DeviceId> {
    if f in s.mapping && s.mapping[f] in s.devices then Some(s.mapping[f]) else None
  }

  /** A valid token the remembered mouse does not own disagrees; no token, no
      memory, or an untokened mouse never does. */
  predicate Agrees(s: StateFile, f: Fingerprint, presented: Option<Token>) {
    presented.None? || Remembered(s, f).None?
    || s.devices[Remembered(s, f).value].token in {None, presented}
  }

  function ShownToken(r: Row): Option<Token> {
    if IsUnknown(r) then r.resolution.token else None
  }

  predicate Undecided(r: Row) {
    r.resolution.Unassociated? && (r.resolution.reason.NoMark? || r.resolution.reason.UnknownToken?)
  }

  predicate Pending(r: Row) {
    r.connected && Undecided(r)
  }

  function PendingCount(rows: seq<Row>, n: nat): nat
    requires n <= |rows|
  {
    if n == 0 then 0 else PendingCount(rows, n - 1) + (if Pending(rows[n - 1]) then 1 else 0)
  }

  lemma {:induction false} PendingPositive(rows: seq<Row>, n: nat, i: nat)
    requires i < n <= |rows| && Pending(rows[i])
    ensures PendingCount(rows, n) >= 1
    decreases n
  {
    if i < n - 1 { PendingPositive(rows, n - 1, i); }
  }

  lemma {:induction false} TwoPending(rows: seq<Row>, n: nat, i: nat, k: nat)
    requires i < k < n <= |rows| && Pending(rows[i]) && Pending(rows[k])
    ensures PendingCount(rows, n) >= 2
    decreases n
  {
    if k < n - 1 { TwoPending(rows, n - 1, i, k); } else { PendingPositive(rows, n - 1, i); }
  }

  /** Stores the endpoint with the mouse and remembers it. */
  function Attach(s: StateFile, e: Endpoint, f: Fingerprint, d: DeviceId): StateFile {
    if d !in s.devices then s
    else
      var device := s.devices[d];
      s.(devices := s.devices[d := device.(endpoints := device.endpoints[e.transport := e])],
         mapping := s.mapping[f := d])
  }

  /** Only endpoints and memories moved. */
  ghost predicate SameIdentities(s: StateFile, t: StateFile) {
    && t == s.(devices := t.devices, mapping := t.mapping) && t.devices.Keys == s.devices.Keys
    && s.mapping.Keys <= t.mapping.Keys
    && forall d <- s.devices :: t.devices[d].token == s.devices[d].token
  }

  lemma AttachAccepted(s: StateFile, e: Endpoint, f: Fingerprint, d: DeviceId)
    requires Validate(s) && s.journal.None? && Coherent(e)
    ensures Validate(Attach(s, e, f, d))
  {}

  lemma AttachSame(s: StateFile, t: StateFile, e: Endpoint, f: Fingerprint, d: DeviceId)
    requires SameIdentities(s, t)
    ensures SameIdentities(s, Attach(t, e, f, d))
  {}

  /** One silent attachment decided by the scan. */
  datatype Silent = Silent(endpoint: Endpoint, to: DeviceId)

  /** Decides one pending connection. */
  function Decide(s: StateFile, ids: seq<DeviceId>, f: Fingerprint, r: Row, simultaneous: nat): Option<DeviceId> {
    if Remembered(s, f).Some? && Agrees(s, f, ShownToken(r)) then Remembered(s, f)
    else
      var candidates := Candidates(ids, s.devices);
      var stored := exists c <- candidates :: c.stored;
      var choice := ResolveEndpoint(false, simultaneous, r.endpoint.transport, candidates, stored);
      if choice.SilentAttach? then Some(choice.to) else None
  }

  /** The document remembers an existing mouse for the endpoint, and it has the
      token shown, or has none, or none is shown. */
  predicate RemembersFor(s: StateFile, f: Fingerprint, shown: Option<Token>) {
    && f in s.mapping && s.mapping[f] in s.devices
    && (shown.None? || s.devices[s.mapping[f]].token.None? || s.devices[s.mapping[f]].token == shown)
  }

  /** What a row may become: itself, or, while nobody is known to own it,
      resolved to the mouse remembered for its endpoint. */
  predicate SettledFrom(t: StateFile, f: Fingerprint, before: Row, after: Row) {
    if && before.resolution.Unassociated?
       && (before.resolution.reason.NoMark? || before.resolution.reason.UnknownToken?)
       && RemembersFor(t, f, if before.resolution.reason.UnknownToken? then before.resolution.token else None)
    then after == before.(resolution := Resolved(t.mapping[f]))
    else after == before
  }

  /** The attachments the first `n` rows ask for. */
  function SilentOf(s: StateFile, ids: seq<DeviceId>, fp: Endpoint -> Fingerprint, rows: seq<Row>, simultaneous: nat,
      n: nat): seq<Silent>
    requires n <= |rows|
  {
    if n == 0 then []
    else
      var before := SilentOf(s, ids, fp, rows, simultaneous, n - 1);
      var r := rows[n - 1];
      var to := Decide(s, ids, fp(r.endpoint), r, simultaneous);
      if Pending(r) && to.Some? then before + [Silent(r.endpoint, to.value)] else before
  }

  lemma {:induction false} SilentOfNone(s: StateFile, ids: seq<DeviceId>, fp: Endpoint -> Fingerprint,
      rows: seq<Row>, n: nat)
    requires n <= |rows| && PendingCount(rows, n) == 0
    ensures SilentOf(s, ids, fp, rows, 1, n) == []
    decreases n
  {
    if n > 0 { SilentOfNone(s, ids, fp, rows, n - 1); }
  }

  /** With a single pending row the list is that row's decision. */
  lemma {:induction false} SilentOfOne(s: StateFile, ids: seq<DeviceId>, fp: Endpoint -> Fingerprint, rows: seq<Row>,
      n: nat, i: nat)
    requires i < n <= |rows| && PendingCount(rows, n) == 1 && Pending(rows[i])
    ensures var to := Decide(s, ids, fp(rows[i].endpoint), rows[i], 1);
            SilentOf(s, ids, fp, rows, 1, n) == if to.Some? then [Silent(rows[i].endpoint, to.value)] else []
    decreases n
  {
    if i == n - 1 {
      SilentOfNone(s, ids, fp, rows, n - 1);
    } else {
      PendingPositive(rows, n - 1, i);
      SilentOfOne(s, ids, fp, rows, n - 1, i);
    }
  }

  /** Decides every pending connection of the scan. */
  method CollectSilent(s: StateFile, ids: seq<DeviceId>, fp: Endpoint -> Fingerprint, rows: array<Row>,
      simultaneous: nat)
      returns (silent: seq<Silent>)
    ensures silent == SilentOf(s, ids, fp, rows[..], simultaneous, rows.Length)
  {
    silent := [];
    for i := 0 to rows.Length
      invariant silent == SilentOf(s, ids, fp, rows[..], simultaneous, i)
    {
      if Pending(rows[i]) {
        var to := Decide(s, ids, fp(rows[i].endpoint), rows[i], simultaneous);
        if to.Some? { silent := silent + [Silent(rows[i].endpoint, to.value)]; }
      }
    }
  }

  function AttachAll(s: StateFile, fp: Endpoint -> Fingerprint, silent: seq<Silent>): StateFile {
    if silent == [] then s
    else
      var last := silent[|silent| - 1];
      Attach(AttachAll(s, fp, silent[..|silent| - 1]), last.endpoint, fp(last.endpoint), last.to)
  }

  /** Commits the attachments one by one; `commits[k]` says whether the k-th
      commit goes through. */
  method CommitSilent(s: StateFile, fp: Endpoint -> Fingerprint, silent: seq<Silent>, commits: seq<bool>)
      returns (t: StateFile, ok: bool)
    requires Validate(s)
    ensures SameIdentities(s, t) && Validate(t)
    ensures ok ==> t == AttachAll(s, fp, silent)
    ensures s.journal.None? && (forall x <- silent :: Coherent(x.endpoint)) && false !in commits ==> ok
  {
    t, ok := s, true;
    assert silent[..0] == [];
    for k := 0 to |silent|
      invariant SameIdentities(s, t) && Validate(t) && ok && t == AttachAll(s, fp, silent[..k])
    {
      var next := Attach(t, silent[k].endpoint, fp(silent[k].endpoint), silent[k].to);
      AttachSame(s, t, silent[k].endpoint, fp(silent[k].endpoint), silent[k].to);
      assert silent[..k + 1][..k] == silent[..k];
      assert silent[k] in silent && (k < |commits| ==> commits[k] in commits);
      if s.journal.None? && Coherent(silent[k].endpoint) {
        AttachAccepted(t, silent[k].endpoint, fp(silent[k].endpoint), silent[k].to);
      }
      if !Validate(next) || (k < |commits| && !commits[k]) { return t, false; }
      t := next;
    }
    assert silent[..|silent|] == silent;
  }

  /** Re-resolves the undecided rows against the document just written. */
  method Reresolve(t: StateFile, fp: Endpoint -> Fingerprint, rows: array<Row>)
    modifies rows
    ensures forall i :: 0 <= i < rows.Length ==> SettledFrom(t, fp(rows[i].endpoint), old(rows[..])[i], rows[i])
  {
    ghost var was := rows[..];
    for i := 0 to rows.Length
      invariant forall k :: 0 <= k < i ==> SettledFrom(t, fp(rows[k].endpoint), was[k], rows[k])
      invariant forall k :: i <= k < rows.Length ==> rows[k] == was[k]
    {
      var f := fp(rows[i].endpoint);
      if Undecided(rows[i]) && Remembered(t, f).Some? && Agrees(t, f, ShownToken(rows[i])) {
        rows[i] := rows[i].(resolution := Resolved(Remembered(t, f).value));
      }
    }
  }

  /** The mouse that the only connection nobody is known to own is attached to:
      the one remembered for it, if they do not disagree; otherwise the only
      saved mouse, if the connection is USB or the mouse has evidence. */
  ghost predicate Takes(s: StateFile, f: Fingerprint, transport: Transport, shown: Option<Token>, d: DeviceId) {
    if RemembersFor(s, f, shown) then d == s.mapping[f]
    else s.devices.Keys == {d} && (IsUsb(transport) || s.devices[d].evidence != NO_EVIDENCE)
  }

  /** That mouse gets the endpoint and is remembered for it, and the row is
      resolved to it unless it shows another token; if there is none, nothing
      happens. */
  ghost predicate Taken(s: StateFile, f: Fingerprint, e: Endpoint, shown: Option<Token>, before: Resolution,
                        t: StateFile, after: Resolution) {
    && (forall d | Takes(s, f, e.transport, shown, d) && d in s.devices ::
          && t == s.(devices := s.devices[d := s.devices[d].(endpoints := s.devices[d].endpoints[e.transport := e])],
                     mapping := s.mapping[f := d])
          && after == if shown.None? || s.devices[d].token.None? || s.devices[d].token == shown
                      then Resolved(d) else before)
    && ((forall d | d in s.devices :: !Takes(s, f, e.transport, shown, d)) ==> t == s && after == before)
  }

  lemma TwoListed(ids: seq<DeviceId>, devices: map<DeviceId, Device>)
    requires Lists(ids, devices) && |ids| > 1
    ensures ids[0] in devices && ids[1] in devices && ids[0] != ids[1]
  {
    assert ids[0] in ids && ids[1] in ids;
  }

  lemma DecideTakes(s: StateFile, ids: seq<DeviceId>, f: Fingerprint, r: Row, d: DeviceId)
    requires Lists(ids, s.devices)
    ensures Decide(s, ids, f, r, 1) == Some(d) <==>
              d in s.devices && Takes(s, f, r.endpoint.transport, ShownToken(r), d)
  {
    assert RemembersFor(s, f, ShownToken(r)) <==> Remembered(s, f).Some? && Agrees(s, f, ShownToken(r));
    var candidates := Candidates(ids, s.devices);
    if |ids| > 1 { TwoListed(ids, s.devices); }
    assert d in s.devices <==> d in ids;
    if |ids| == 1 {
      assert s.devices.Keys == {ids[0]};
      assert candidates[0] in candidates;
      assert forall c <- candidates :: c == candidates[0];
    }
  }

  lemma AttachedIsTaken(s: StateFile, ids: seq<DeviceId>, t: StateFile, f: Fingerprint, before: Row, after: Row)
    requires Lists(ids, s.devices) && AttachedAs(s, ids, t, f, before, after) && Pending(before)
    ensures Taken(s, f, before.endpoint, ShownToken(before), before.resolution, t, after.resolution)
    ensures after.endpoint == before.endpoint && after.connected == before.connected
  {
    var to := Decide(s, ids, f, before, 1);
    forall d | d in s.devices
      ensures Takes(s, f, before.endpoint.transport, ShownToken(before), d) <==> to == Some(d)
    {
      DecideTakes(s, ids, f, before, d);
    }
    if to.Some? { DecideTakes(s, ids, f, before, to.value); }
  }

  /** What becomes of the one pending row: the document attaches exactly the
      mouse decided on, if any, and the row settles by that document. */
  ghost predicate AttachedAs(s: StateFile, ids: seq<DeviceId>, t: StateFile, f: Fingerprint, before: Row, after: Row) {
    var to := Decide(s, ids, f, before, 1);
    if to.None? then t == s && after == before
    else t == Attach(s, before.endpoint, f, to.value) && SettledFrom(t, f, before, after)
  }

  /** A row attached to an existing mouse ends up resolved to it, unless it
      presents a token that mouse does not own. */
  lemma AttachedRowResolves(s: StateFile, ids: seq<DeviceId>, t: StateFile, f: Fingerprint, before: Row, after: Row,
      d: DeviceId)
    requires AttachedAs(s, ids, t, f, before, after) && Pending(before)
    requires Decide(s, ids, f, before, 1) == Some(d) && d in s.devices
    ensures after.resolution == Resolved(d) <==>
              ShownToken(before).None? || s.devices[d].token in {None, ShownToken(before)}
    ensures t.devices[d].endpoints == s.devices[d].endpoints[before.endpoint.transport := before.endpoint]
    ensures t.mapping == s.mapping[f := d]
  {}

  lemma {:induction false} OnePending(rows: seq<Row>, n: nat) returns (i: nat)
    requires n <= |rows| && PendingCount(rows, n) == 1
    ensures i < n && Pending(rows[i]) && forall k :: 0 <= k < n && Pending(rows[k]) ==> k == i
    decreases n
  {
    if Pending(rows[n - 1]) {
      i := n - 1;
      if k :| 0 <= k < n - 1 && Pending(rows[k]) { PendingPositive(rows, n - 1, k); }
    } else {
      i := OnePending(rows, n - 1);
    }
  }

  /** Attaches the one unknown connection of a scan, if the decision is clear. */
  method AutoResolve(s: StateFile, ids: seq<DeviceId>, fp: Endpoint -> Fingerprint, rows: array<Row>,
      commits: seq<bool>)
      returns (t: StateFile, ok: bool)
    requires Validate(s)
    modifies rows
    ensures SameIdentities(s, t) && Validate(t)
    ensures !ok ==> rows[..] == old(rows[..])
    ensures s.journal.Some? ==> t == s && rows[..] == old(rows[..])
    ensures PendingCount(old(rows[..]), rows.Length) != 1 ==> t == s && rows[..] == old(rows[..])
    ensures Settles(t, fp, old(rows[..]), rows[..])
    ensures ok && s.journal.None? && Lists(ids, s.devices) ==> PendingTaken(s, fp, old(rows[..]), t, rows[..])
    ensures (forall i :: 0 <= i < rows.Length ==> Coherent(old(rows[..])[i].endpoint)) && false !in commits ==> ok
  {
    t, ok := s, true;
    if s.journal.Some? { return; }
    ghost var was := rows[..];
    var count := 0;
    for i := 0 to rows.Length
      invariant rows[..] == was && count == PendingCount(was, i)
    {
      if Pending(rows[i]) { count := count + 1; }
    }
    if count == 0 || count >= 2 { return; }
    var silent := CollectSilent(s, ids, fp, rows, count);
    ghost var one := OnePending(was, |was|);
    SilentOfOne(s, ids, fp, was, |was|, one);
    t, ok := AttachSilent(s, ids, fp, rows, silent, commits, one);
    if ok && Lists(ids, s.devices) {
      AttachedIsTaken(s, ids, t, fp(was[one].endpoint), was[one], rows[one]);
    }
  }

  /** Commits what was decided for the row `one` and settles every row by it. */
  method AttachSilent(s: StateFile, ids: seq<DeviceId>, fp: Endpoint -> Fingerprint, rows: array<Row>,
      silent: seq<Silent>, commits: seq<bool>, ghost one: nat)
      returns (t: StateFile, ok: bool)
    requires Validate(s) && s.journal.None? && one < rows.Length
    requires var to := Decide(s, ids, fp(rows[one].endpoint), rows[one], 1);
             silent == if to.Some? then [Silent(rows[one].endpoint, to.value)] else []
    modifies rows
    ensures SameIdentities(s, t) && Validate(t)
    ensures !ok ==> rows[..] == old(rows[..])
    ensures Settles(t, fp, old(rows[..]), rows[..])
    ensures ok ==> AttachedAs(s, ids, t, fp(old(rows[one]).endpoint), old(rows[one]), rows[one])
    ensures Coherent(old(rows[one]).endpoint) && false !in commits ==> ok
  {
    t, ok := s, true;
    if silent == [] { return; }
    t, ok := CommitSilent(s, fp, silent, commits);
    if !ok { return; }
    Reresolve(t, fp, rows);
  }

  // ----- the whole scan -----------------------------------------------------------------

  datatype Found = Found(endpoint: Endpoint, connected: bool, decode: Option<Decoded>)

  function ResolvedRow(ids: seq<DeviceId>, s: StateFile, x: Found): Row {
    Row(x.endpoint, x.connected, ResolveConnection(ids, s, None, x.endpoint, x.decode))
  }

  function ResolvedRows(ids: seq<DeviceId>, s: StateFile, found: seq<Found>): (r: seq<Row>)
    ensures |r| == |found|
  {
    seq(|found|, i requires 0 <= i < |found| => ResolvedRow(ids, s, found[i]))
  }

  /** Assignable, and neither reserved nor taken away by a ceremony. */
  predicate Free(s: StateFile, token: Token) {
    && !IsReserved(token)
    && (s.journal.Some? ==>
          forall sub <- s.journal.value.subjects :: sub.token != Some(token) && sub.oldToken != Some(token))
  }

  /** The token a USB connection shows, if it shows a valid one. */
  function Showing(x: Found): Option<Token> {
    if IsUsb(x.endpoint.transport) && x.decode.Some? && x.decode.value.Valid? then Some(x.decode.value.token) else None
  }

  /** Another connection of the same transport shows the same token. */
  ghost predicate Shared(found: seq<Found>, i: nat)
    requires i < |found|
  {
    exists k :: 0 <= k < |found| && k != i
                && found[k].endpoint.transport == found[i].endpoint.transport && found[k].decode == found[i].decode
  }

  /** Nobody is known to own the connected thing and nothing speaks against
      attaching it: no association, no watermark, or a token of nobody's that
      only this connection shows. */
  ghost predicate NeedsDecision(s: StateFile, found: seq<Found>, i: nat)
    requires i < |found|
  {
    && found[i].connected
    && if found[i].endpoint.transport.Ble? then
         forall d <- s.devices ::
           Ble in s.devices[d].endpoints ==> s.devices[d].endpoints[Ble].locator != found[i].endpoint.locator
       else if found[i].decode.None? || found[i].decode.value.Absent? then true
       else
         && found[i].decode.value.Valid? && Free(s, found[i].decode.value.token)
         && !TokenKnown(s.devices, found[i].decode.value.token) && !Shared(found, i)
  }

  /** Why a USB connection that shows something is never attached. */
  ghost predicate Barred(s: StateFile, found: seq<Found>, i: nat, reason: Reason)
    requires i < |found|
  {
    && IsUsb(found[i].endpoint.transport) && found[i].decode.Some?
    && match found[i].decode.value
       case Malformed => reason == DamagedMark
       case UnsupportedVersion(v) => reason == FutureMark(v)
       case Valid(token) =>
         if IsReserved(token) then reason == ReservedToken
         else if !Free(s, token) then reason == JournalToken
         else !TokenKnown(s.devices, token) && Shared(found, i) && reason == DuplicateToken
       case Absent => false
  }

  lemma UnknownIff(ids: seq<DeviceId>, s: StateFile, x: Found)
    requires Lists(ids, s.devices)
    ensures IsUnknown(ResolvedRow(ids, s, x)) <==>
              Showing(x).Some? && Free(s, Showing(x).value) && !TokenKnown(s.devices, Showing(x).value)
    ensures IsUnknown(ResolvedRow(ids, s, x)) ==>
              ResolvedRow(ids, s, x).resolution == Unassociated(UnknownToken, Showing(x))
  {
    if Showing(x).Some? {
      NoOwnerIff(ids, s, Showing(x).value);
    }
  }

  lemma TwinIff(ids: seq<DeviceId>, s: StateFile, found: seq<Found>, i: nat)
    requires Lists(ids, s.devices) && i < |found| && IsUnknown(ResolvedRow(ids, s, found[i]))
    ensures HasTwin(ResolvedRows(ids, s, found), i) <==> Shared(found, i)
  {
    var rows := ResolvedRows(ids, s, found);
    UnknownIff(ids, s, found[i]);
    forall k | 0 <= k < |found|
      ensures Twins(rows[i], rows[k]) <==>
                found[k].endpoint.transport == found[i].endpoint.transport && found[k].decode == found[i].decode
    {
      UnknownIff(ids, s, found[k]);
    }
  }

  lemma BleIff(ids: seq<DeviceId>, s: StateFile, x: Found)
    requires Lists(ids, s.devices) && x.endpoint.transport.Ble?
    ensures var r := ResolvedRow(ids, s, x).resolution;
            && (r == Unassociated(NoMark, None) <==> forall d <- s.devices :: !HasBle(s.devices[d], x.endpoint.locator))
            && (r != Unassociated(NoMark, None) ==>
                  r.Resolved? && r.id in s.devices && HasBle(s.devices[r.id], x.endpoint.locator))
  {
    FirstWithBleFinds(ids, s.devices, x.endpoint.locator);
  }

  /** The scan's pending rows are exactly the connections that need a decision. */
  lemma PendingIff(ids: seq<DeviceId>, s: StateFile, found: seq<Found>, i: nat)
    requires Lists(ids, s.devices) && i < |found|
    ensures var row := Folded(ResolvedRows(ids, s, found))[i];
            && row.endpoint == found[i].endpoint && (Pending(row) <==> NeedsDecision(s, found, i))
            && (NeedsDecision(s, found, i) ==>
                  row.resolution == (if Showing(found[i]).Some? then Unassociated(UnknownToken, Showing(found[i]))
                                     else Unassociated(NoMark, None)))
  {
    var x := found[i];
    UnknownIff(ids, s, x);
    if IsUnknown(ResolvedRow(ids, s, x)) { TwinIff(ids, s, found, i); }
    if x.endpoint.transport.Ble? { BleIff(ids, s, x); }
    if Showing(x).Some? { NoOwnerIff(ids, s, Showing(x).value); }
  }

  /** A barred connection's row says why, and the fold leaves it decided. */
  lemma BarredRow(ids: seq<DeviceId>, s: StateFile, found: seq<Found>, i: nat, reason: Reason)
    requires Lists(ids, s.devices) && i < |found| && Barred(s, found, i, reason)
    ensures var r := Folded(ResolvedRows(ids, s, found))[i].resolution;
            r.Unassociated? && r.reason == reason && !reason.NoMark? && !reason.UnknownToken?
  {
    UnknownIff(ids, s, found[i]);
    if IsUnknown(ResolvedRow(ids, s, found[i])) { TwinIff(ids, s, found, i); }
  }

  lemma {:induction false} OnlyOnePending(rows: seq<Row>, n: nat, i: nat)
    requires n <= |rows| && forall k :: 0 <= k < n ==> (Pending(rows[k]) <==> k == i)
    ensures PendingCount(rows, n) == if i < n then 1 else 0
    decreases n
  {
    if n > 0 { OnlyOnePending(rows, n - 1, i); }
  }

  /** A scan in persistent mode.  Whatever is remembered, attached or shared, a
      connection presenting a valid token never ends up on a mouse that owns
      another one; of the connected connections at most one is newly attached,
      and none when two are unknown. */
  method Scan(s: StateFile, ids: seq<DeviceId>, fp: Endpoint -> Fingerprint, found: seq<Found>, commits: seq<bool>)
      returns (rows: array<Row>, t: StateFile, ok: bool)
    requires Validate(s) && s.mode.Persistent? && Lists(ids, s.devices)
    ensures fresh(rows) && rows.Length == |found| && SameIdentities(s, t) && Validate(t)
    ensures HonestTokens(found, t, rows[..]) && OwnersResolved(s, found, rows[..]) && BarredStay(s, found, rows[..])
    ensures AssociatedResolved(s, found, rows[..]) && FewNew(ids, s, found, t, rows[..])
    ensures ok && s.journal.None? ==> SoleDecided(s, fp, found, t, rows[..])
    ensures (forall x <- found :: Coherent(x.endpoint)) && false !in commits ==> ok
  {
    rows := new Row[|found|](i requires 0 <= i < |found| => ResolvedRow(ids, s, found[i]));
    ghost var resolved := ResolvedRows(ids, s, found);
    assert rows[..] == resolved;
    MarkScanDuplicates(rows);
    ghost var folded := rows[..];
    t, ok := AutoResolve(s, ids, fp, rows, commits);
    assert forall i :: 0 <= i < |found| ==> folded[i].endpoint == found[i].endpoint;
    ScanOutcome(ids, s, t, fp, found, rows[..]);
    if ok && s.journal.None? { ScanDecides(ids, s, t, fp, found, rows[..]); }
  }

  /** A connection presenting a valid token is on no mouse that owns another. */
  ghost predicate HonestTokens(found: seq<Found>, t: StateFile, after: seq<Row>)
    requires |after| == |found|
  {
    forall i :: 0 <= i < |found| && Showing(found[i]).Some? && after[i].resolution.Resolved? ==>
      after[i].resolution.id in t.devices && t.devices[after[i].resolution.id].token == Showing(found[i])
  }

  /** At most one connected row is newly attached, and none when two need a
      decision. */
  ghost predicate FewNew(ids: seq<DeviceId>, s: StateFile, found: seq<Found>, t: StateFile, after: seq<Row>)
    requires |after| == |found|
  {
    && (!exists i, k :: 0 <= i < k < |found| && NewlyAttached(ids, s, found[i], after[i])
                        && NewlyAttached(ids, s, found[k], after[k]))
    && ((exists i, k :: 0 <= i < k < |found| && NeedsDecision(s, found, i) && NeedsDecision(s, found, k)) ==>
          t == s && forall i :: 0 <= i < |found| ==> !NewlyAttached(ids, s, found[i], after[i]))
  }

  lemma ScanOutcome(ids: seq<DeviceId>, s: StateFile, t: StateFile, fp: Endpoint -> Fingerprint, found: seq<Found>,
                    after: seq<Row>)
    requires Lists(ids, s.devices) && ModeOk(s) && s.mode.Persistent? && SameIdentities(s, t)
    requires |after| == |found| && Settles(t, fp, Folded(ResolvedRows(ids, s, found)), after)
    requires var folded := Folded(ResolvedRows(ids, s, found));
             PendingCount(folded, |folded|) != 1 ==> t == s && after == folded
    ensures HonestTokens(found, t, after) && OwnersResolved(s, found, after) && BarredStay(s, found, after)
    ensures AssociatedResolved(s, found, after) && FewNew(ids, s, found, t, after)
  {
    var folded := Folded(ResolvedRows(ids, s, found));
    ScanStaysHonest(ids, s, t, fp, found, folded, after);
    NewRowsPending(ids, s, t, fp, found, folded, after);
    ScanResolves(ids, s, t, fp, found, after);
    ScanBars(ids, s, t, fp, found, after);
    ScanAssociates(ids, s, t, fp, found, after);
    if i, k :| 0 <= i < k < |found| && NeedsDecision(s, found, i) && NeedsDecision(s, found, k) {
      PendingIff(ids, s, found, i);
      PendingIff(ids, s, found, k);
      TwoPending(folded, |folded|, i, k);
    }
  }

  /** What the scan answers as long as nothing is decided. */
  function Unsettled(x: Found): Resolution {
    if Showing(x).Some? then Unassociated(UnknownToken, Showing(x)) else Unassociated(NoMark, None)
  }

  /** A usable token of a saved mouse that no ceremony reserves is resolved to
      that mouse. */
  ghost predicate OwnersResolved(s: StateFile, found: seq<Found>, after: seq<Row>)
    requires |after| == |found|
  {
    forall i, d :: && 0 <= i < |found| && d in s.devices && Showing(found[i]).Some?
                   && Free(s, Showing(found[i]).value) && s.devices[d].token == Showing(found[i]) ==>
      after[i].resolution == Resolved(d)
  }

  /** What is barred is never attached, and says why. */
  ghost predicate BarredStay(s: StateFile, found: seq<Found>, after: seq<Row>)
    requires |after| == |found|
  {
    forall i, reason :: 0 <= i < |found| && Barred(s, found, i, reason) ==>
      after[i].resolution.Unassociated? && after[i].resolution.reason == reason
  }

  /** The only connection that needs a decision gets it. */
  ghost predicate SoleDecided(s: StateFile, fp: Endpoint -> Fingerprint, found: seq<Found>, t: StateFile,
                              after: seq<Row>)
    requires |after| == |found|
  {
    forall i :: 0 <= i < |found| && OnlyDecision(s, found, i) ==>
      Taken(s, fp(found[i].endpoint), found[i].endpoint, Showing(found[i]), Unsettled(found[i]),
            t, after[i].resolution)
  }

  ghost predicate OnlyDecision(s: StateFile, found: seq<Found>, i: nat)
    requires i < |found|
  {
    NeedsDecision(s, found, i) && forall k :: 0 <= k < |found| && NeedsDecision(s, found, k) ==> k == i
  }

  ghost predicate Settles(t: StateFile, fp: Endpoint -> Fingerprint, folded: seq<Row>, after: seq<Row>) {
    && |after| == |folded|
    && (after == folded || forall i :: 0 <= i < |folded| ==> SettledFrom(t, fp(after[i].endpoint), folded[i], after[i]))
  }

  lemma ScanResolves(ids: seq<DeviceId>, s: StateFile, t: StateFile, fp: Endpoint -> Fingerprint, found: seq<Found>,
                     after: seq<Row>)
    requires Lists(ids, s.devices) && s.mode.Persistent? && ModeOk(s)
    requires |after| == |found| && Settles(t, fp, Folded(ResolvedRows(ids, s, found)), after)
    ensures OwnersResolved(s, found, after)
  {
    forall i, d | 0 <= i < |found| && d in s.devices && Showing(found[i]).Some? && Free(s, Showing(found[i]).value)
                  && s.devices[d].token == Showing(found[i])
      ensures after[i].resolution == Resolved(d)
    {
      ValidTokenResolvesIff(ids, s, Showing(found[i]).value, d);
      assert ResolvedRow(ids, s, found[i]).resolution == Resolved(d);
    }
  }

  /** A BLE connection associated with a saved mouse is resolved to such a one. */
  ghost predicate AssociatedResolved(s: StateFile, found: seq<Found>, after: seq<Row>)
    requires |after| == |found|
  {
    forall i, d :: && 0 <= i < |found| && d in s.devices && found[i].endpoint.transport.Ble?
                   && HasBle(s.devices[d], found[i].endpoint.locator) ==>
      && after[i].resolution.Resolved? && after[i].resolution.id in s.devices
      && HasBle(s.devices[after[i].resolution.id], found[i].endpoint.locator)
  }

  lemma ScanAssociates(ids: seq<DeviceId>, s: StateFile, t: StateFile, fp: Endpoint -> Fingerprint, found: seq<Found>,
                       after: seq<Row>)
    requires Lists(ids, s.devices)
    requires |after| == |found| && Settles(t, fp, Folded(ResolvedRows(ids, s, found)), after)
    ensures AssociatedResolved(s, found, after)
  {
    forall i, d | && 0 <= i < |found| && d in s.devices && found[i].endpoint.transport.Ble?
                  && HasBle(s.devices[d], found[i].endpoint.locator)
      ensures && after[i].resolution.Resolved? && after[i].resolution.id in s.devices
              && HasBle(s.devices[after[i].resolution.id], found[i].endpoint.locator)
    {
      BleIff(ids, s, found[i]);
    }
  }

  lemma ScanBars(ids: seq<DeviceId>, s: StateFile, t: StateFile, fp: Endpoint -> Fingerprint, found: seq<Found>,
                 after: seq<Row>)
    requires Lists(ids, s.devices)
    requires |after| == |found| && Settles(t, fp, Folded(ResolvedRows(ids, s, found)), after)
    ensures BarredStay(s, found, after)
  {
    forall i, reason | 0 <= i < |found| && Barred(s, found, i, reason)
      ensures after[i].resolution.Unassociated? && after[i].resolution.reason == reason
    {
      BarredRow(ids, s, found, i, reason);
    }
  }

  /** What the attachment does with the one pending row. */
  ghost predicate PendingTaken(s: StateFile, fp: Endpoint -> Fingerprint, folded: seq<Row>, t: StateFile,
                               after: seq<Row>)
    requires |after| == |folded|
  {
    PendingCount(folded, |folded|) == 1 ==>
      forall i :: 0 <= i < |folded| && Pending(folded[i]) ==>
        Taken(s, fp(folded[i].endpoint), folded[i].endpoint, ShownToken(folded[i]), folded[i].resolution,
              t, after[i].resolution)
  }

  lemma ScanDecides(ids: seq<DeviceId>, s: StateFile, t: StateFile, fp: Endpoint -> Fingerprint, found: seq<Found>,
                    after: seq<Row>)
    requires Lists(ids, s.devices) && |after| == |found|
    requires PendingTaken(s, fp, Folded(ResolvedRows(ids, s, found)), t, after)
    ensures SoleDecided(s, fp, found, t, after)
  {
    var folded := Folded(ResolvedRows(ids, s, found));
    forall i | 0 <= i < |found| && OnlyDecision(s, found, i)
      ensures Taken(s, fp(found[i].endpoint), found[i].endpoint, Showing(found[i]), Unsettled(found[i]),
                    t, after[i].resolution)
    {
      forall k | 0 <= k < |found| ensures Pending(folded[k]) <==> k == i { PendingIff(ids, s, found, k); }
      OnlyOnePending(folded, |folded|, i);
      PendingIff(ids, s, found, i);
    }
  }

  /** A connected row that was not resolved by itself and is now. */
  predicate NewlyAttached(ids: seq<DeviceId>, s: StateFile, x: Found, after: Row) {
    x.connected && !ResolvedRow(ids, s, x).resolution.Resolved? && after.resolution.Resolved?
  }

  lemma TokenRowsStayHonest(ids: seq<DeviceId>, s: StateFile, t: StateFile, f: Fingerprint, x: Found, folded: Row,
      after: Row)
    requires Lists(ids, s.devices) && ModeOk(s) && s.mode.Persistent? && SameIdentities(s, t)
    requires IsUsb(x.endpoint.transport) && x.decode.Some? && x.decode.value.Valid? && after.resolution.Resolved?
    requires folded == ResolvedRow(ids, s, x)
             || (IsUnknown(ResolvedRow(ids, s, x)) && folded == Demoted(ResolvedRow(ids, s, x)))
    requires after == folded || SettledFrom(t, f, folded, after)
    ensures after.resolution.id in t.devices && t.devices[after.resolution.id].token == Some(x.decode.value.token)
  {
    var token := x.decode.value.token;
    var row := ResolvedRow(ids, s, x);
    if row.resolution.Resolved? {
      ValidTokenResolvesIff(ids, s, token, row.resolution.id);
    }
  }

  lemma ScanStaysHonest(ids: seq<DeviceId>, s: StateFile, t: StateFile, fp: Endpoint -> Fingerprint, found: seq<Found>,
                        folded: seq<Row>, after: seq<Row>)
    requires Lists(ids, s.devices) && ModeOk(s) && s.mode.Persistent? && SameIdentities(s, t)
    requires folded == Folded(ResolvedRows(ids, s, found)) && |after| == |found|
    requires after == folded || forall i :: 0 <= i < |found| ==>
               SettledFrom(t, fp(after[i].endpoint), folded[i], after[i])
    ensures forall i :: 0 <= i < |found| && IsUsb(found[i].endpoint.transport) && found[i].decode.Some?
                        && found[i].decode.value.Valid? && after[i].resolution.Resolved? ==>
              && after[i].resolution.id in t.devices
              && t.devices[after[i].resolution.id].token == Some(found[i].decode.value.token)
  {
    forall i | 0 <= i < |found| && IsUsb(found[i].endpoint.transport) && found[i].decode.Some?
               && found[i].decode.value.Valid? && after[i].resolution.Resolved?
      ensures after[i].resolution.id in t.devices
      ensures t.devices[after[i].resolution.id].token == Some(found[i].decode.value.token)
    {
      TokenRowsStayHonest(ids, s, t, fp(after[i].endpoint), found[i], folded[i], after[i]);
    }
  }

  lemma NewRowsPending(ids: seq<DeviceId>, s: StateFile, t: StateFile, fp: Endpoint -> Fingerprint, found: seq<Found>,
                       folded: seq<Row>, after: seq<Row>)
    requires folded == Folded(ResolvedRows(ids, s, found)) && |after| == |found|
    requires after == folded || forall i :: 0 <= i < |found| ==>
               SettledFrom(t, fp(after[i].endpoint), folded[i], after[i])
    requires PendingCount(folded, |folded|) != 1 ==> after == folded
    ensures forall i :: 0 <= i < |found| && NewlyAttached(ids, s, found[i], after[i]) ==>
              Pending(folded[i]) && after != folded
    ensures !exists i, k :: 0 <= i < k < |found| && NewlyAttached(ids, s, found[i], after[i])
                            && NewlyAttached(ids, s, found[k], after[k])
  {
    forall i | 0 <= i < |found| && NewlyAttached(ids, s, found[i], after[i])
      ensures Pending(folded[i]) && after != folded
    {
      assert folded[i].connected && !folded[i].resolution.Resolved?;
      assert after[i] != folded[i];
    }
    forall i, k | 0 <= i < k < |found| && NewlyAttached(ids, s, found[i], after[i])
                  && NewlyAttached(ids, s, found[k], after[k])
      ensures false
    {
      TwoPending(folded, |folded|, i, k);
    }
  }

  /** What a scan stores is weaker than what it resolves: an endpoint showing a
      token nobody owns replaces the stored endpoint of the only saved mouse,
      although its row stays unassociated. */
  lemma StoredEndpointCanBeForeign(s: StateFile, d: DeviceId, e: Endpoint, f: Fingerprint, token: Token)
    requires s.devices.Keys == {d} && s.devices[d].token.Some? && s.devices[d].token != Some(token)
    requires IsUsb(e.transport) && (f !in s.mapping || s.mapping[f] == d)
    ensures var r := Row(e, true, Unassociated(UnknownToken, Some(token)));
            && Decide(s, [d], f, r, 1) == Some(d)
            && var t := Attach(s, e, f, d);
            && t.devices[d].endpoints[e.transport] == e
            && SettledFrom(t, f, r, r)
  {
    var candidates := Candidates([d], s.devices);
    assert |candidates| == 1 && candidates[0].id == d;
  }
}
