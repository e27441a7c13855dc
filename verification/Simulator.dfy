/** The simulated mouse: its stored images, the host's own copies for
    transports that cannot read, and the battery. */
module Simulator {
  import opened Watermark
  import opened Hardware
  import opened State

  const PROFILES: nat := 5
  const NUMBERS: set<nat> := {1, 2, 3, 4, 5}

  /** One resource of a profile, naming the profile it is for. */
  datatype Section = Section(profile: nat, bytes: seq<Byte>)

  datatype Kind = DpiKind | PreferencesKind | ButtonsKind

  datatype ProfileImage = ProfileImage(dpi: Section, preferences: Section, buttons: Section)

  function Get(image: ProfileImage, kind: Kind): Section {
    match kind
    case DpiKind => image.dpi
    case PreferencesKind => image.preferences
    case ButtonsKind => image.buttons
  }

  function Put(image: ProfileImage, kind: Kind, section: Section): ProfileImage {
    match kind
    case DpiKind => image.(dpi := section)
    case PreferencesKind => image.(preferences := section)
    case ButtonsKind => image.(buttons := section)
  }

  /** Whether the driver's encoders take an image on a transport. */
  type Encoder = (ProfileImage, Transport) -> bool

  predicate Accepts(encodes: Encoder, target: nat, image: ProfileImage, t: Transport) {
    && image.dpi.profile == target && image.preferences.profile == target && image.buttons.profile == target
    && encodes(image, t)
  }

  // ----- battery ---------------------------------------------------------------------

  function Drain(level: nat): nat {
    if level == 0 then 0 else level - 1
  }

  /** The level after `n` accepted writes, one at a time. */
  function Drained(start: nat, perPercent: nat, n: nat): nat {
    if n == 0 then start
    else
      var before := Drained(start, perPercent, n - 1);
      if perPercent != 0 && n % perPercent == 0 then Drain(before) else before
  }

  /** One percent for every full `perPercent` writes, never below zero; a rate
      of zero never drains. */
  lemma {:induction false} DrainedClosedForm(start: nat, perPercent: nat, n: nat)
    ensures Drained(start, perPercent, n) ==
              if perPercent == 0 then start
              else if n / perPercent >= start then 0 else start - n / perPercent
    decreases n
  {
    if n > 0 {
      DrainedClosedForm(start, perPercent, n - 1);
      if perPercent != 0 { QuotientSteps(n, perPercent); }
    } else if perPercent != 0 {
      assert 0 / perPercent == 0;
    }
  }

  lemma QuotientSteps(n: nat, d: nat)
    requires n > 0 && d > 0
    ensures n / d == (n - 1) / d + (if n % d == 0 then 1 else 0)
  {
    var q, r := n / d, n % d;
    assert n == q * d + r;
    if r == 0 {
      assert n - 1 == (q - 1) * d + (d - 1);
      Quotient(n - 1, d, q - 1, d - 1);
    } else {
      Quotient(n - 1, d, q, r - 1);
    }
  }

  lemma {:induction false} AtLeastOnce(a: nat, d: nat)
    requires a >= 1
    ensures a * d >= d
    decreases a
  {
    if a > 1 {
      AtLeastOnce(a - 1, d);
      assert a * d == (a - 1) * d + d;
    }
  }

  lemma Quotient(n: nat, d: nat, q: int, r: nat)
    requires d > 0 && r < d && n == q * d + r
    ensures n / d == q
  {
    var q', r' := n / d, n % d;
    assert n == q' * d + r';
    assert (q - q') * d == q * d - q' * d == r' - r;
    if q > q' { AtLeastOnce(q - q', d); }
    if q < q' {
      assert (q' - q) * d == q' * d - q * d;
      AtLeastOnce(q' - q, d);
    }
  }

  // ----- stores ------------------------------------------------------------------------

  /** The document of one simulated mouse. */
  datatype Sim = Sim(images: seq<ProfileImage>, host: map<nat, ProfileImage>, battery: Option<nat>, writes: nat)

  predicate InRange(profile: nat) {
    1 <= profile <= PROFILES
  }

  /** The host never believes anything the model does not hold. */
  ghost predicate HostAgrees(s: Sim) {
    |s.images| == PROFILES && forall p <- s.host :: InRange(p) && s.host[p] == s.images[p - 1]
  }

  /** One resource write as a session makes it. */
  datatype Write = Write(kind: Kind, section: Section)

  /** The image a write merges onto: the host's copy, or the model's where the
      transport can read it. */
  function BaseImage(s: Sim, profile: nat, t: Transport): Option<ProfileImage>
    requires |s.images| == PROFILES
  {
    if profile in s.host then Some(s.host[profile])
    else if InRange(profile) && !t.Ble? then Some(s.images[profile - 1])
    else None
  }

  predicate Accepted(s: Sim, encodes: Encoder, t: Transport, w: Write)
    requires |s.images| == PROFILES
  {
    var profile := w.section.profile;
    && InRange(profile) && BaseImage(s, profile, t).Some?
    && Accepts(encodes, profile, Put(BaseImage(s, profile, t).value, w.kind, w.section), t)
  }

  function Store(s: Sim, encodes: Encoder, t: Transport, perPercent: nat, w: Write): (r: Sim)
    requires |s.images| == PROFILES
    ensures |r.images| == PROFILES
  {
    if !Accepted(s, encodes, t, w) then s
    else
      var p := w.section.profile;
      var image := Put(BaseImage(s, p, t).value, w.kind, w.section);
      var n := s.writes + 1;
      Sim(s.images[p - 1 := image], s.host[p := image],
          if s.battery.Some? && perPercent != 0 && n % perPercent == 0 then Some(Drain(s.battery.value))
          else s.battery, n)
  }

  lemma StoreKeepsAgreement(s: Sim, encodes: Encoder, t: Transport, perPercent: nat, w: Write)
    requires HostAgrees(s)
    ensures HostAgrees(Store(s, encodes, t, perPercent, w))
  {}

  function StoreAll(s: Sim, encodes: Encoder, t: Transport, perPercent: nat, ws: seq<Write>): (r: Sim)
    requires |s.images| == PROFILES
    ensures |r.images| == PROFILES
  {
    if ws == [] then s
    else Store(StoreAll(s, encodes, t, perPercent, ws[..|ws| - 1]), encodes, t, perPercent, ws[|ws| - 1])
  }

  /** The last accepted write to a resource of a profile, if any. */
  function LastWrite(s: Sim, encodes: Encoder, t: Transport, perPercent: nat, ws: seq<Write>, p: nat,
      kind: Kind): Option<Section>
    requires |s.images| == PROFILES
  {
    if ws == [] then None
    else
      var n := |ws| - 1;
      if ws[n].section.profile == p && ws[n].kind == kind
          && Accepted(StoreAll(s, encodes, t, perPercent, ws[..n]), encodes, t, ws[n])
      then Some(ws[n].section)
      else LastWrite(s, encodes, t, perPercent, ws[..n], p, kind)
  }

  /** After any sequence of writes, accepted and rejected, on any transport, the
      host still agrees with the model, and every resource of every profile is
      what was last accepted for it: no write disturbs another resource. */
  lemma {:induction false} LastWriteWins(s: Sim, encodes: Encoder, t: Transport, perPercent: nat, ws: seq<Write>,
      p: nat, kind: Kind)
    requires HostAgrees(s) && InRange(p)
    ensures var r, last := StoreAll(s, encodes, t, perPercent, ws), LastWrite(s, encodes, t, perPercent, ws, p, kind);
            && HostAgrees(r)
            && Get(r.images[p - 1], kind) == if last.Some? then last.value else Get(s.images[p - 1], kind)
    decreases |ws|
  {
    if ws != [] {
      var n := |ws| - 1;
      LastWriteWins(s, encodes, t, perPercent, ws[..n], p, kind);
      var before := StoreAll(s, encodes, t, perPercent, ws[..n]);
      StoreKeepsAgreement(before, encodes, t, perPercent, ws[n]);
      StoreOne(before, encodes, t, perPercent, ws[n], p, kind);
    }
  }

  lemma StoreOne(s: Sim, encodes: Encoder, t: Transport, perPercent: nat, w: Write, p: nat, kind: Kind)
    requires HostAgrees(s) && InRange(p)
    ensures Get(Store(s, encodes, t, perPercent, w).images[p - 1], kind) ==
              if Accepted(s, encodes, t, w) && w.section.profile == p && w.kind == kind then w.section
              else Get(s.images[p - 1], kind)
  {}

  /** All three resources name the profile. */
  predicate IsFor(image: ProfileImage, profile: nat) {
    image.dpi.profile == profile && image.preferences.profile == profile && image.buttons.profile == profile
  }

  /** Every resource of every profile names that profile. */
  ghost predicate NamesItself(s: Sim) {
    |s.images| == PROFILES && forall i :: 0 <= i < PROFILES ==> IsFor(s.images[i], i + 1)
  }

  /** No write ever files a resource under another profile's number. */
  lemma {:induction false} ResourcesNameTheirProfile(s: Sim, encodes: Encoder, t: Transport, perPercent: nat,
      ws: seq<Write>)
    requires HostAgrees(s) && NamesItself(s)
    ensures NamesItself(StoreAll(s, encodes, t, perPercent, ws))
    decreases |ws|
  {
    if ws != [] {
      ResourcesNameTheirProfile(s, encodes, t, perPercent, ws[..|ws| - 1]);
    }
  }

  /** The battery counts exactly the accepted writes. */
  lemma {:induction false} BatteryCountsWrites(s: Sim, encodes: Encoder, t: Transport, perPercent: nat,
      ws: seq<Write>, start: nat)
    requires |s.images| == PROFILES && s.battery == Some(start) && s.writes == 0
    ensures var r := StoreAll(s, encodes, t, perPercent, ws);
            r.battery == Some(Drained(start, perPercent, r.writes)) && r.writes <= |ws|
    decreases |ws|
  {
    if ws != [] { BatteryCountsWrites(s, encodes, t, perPercent, ws[..|ws| - 1], start); }
  }

  /** A fresh slot: the preset's images, which the host knows unless the
      reference instance cannot be read. */
  function Fresh(preset: seq<ProfileImage>, reference: Transport, battery: Option<nat>): Sim
    requires |preset| == PROFILES
  {
    Sim(preset, if reference.Ble? then map[] else map p | p in NUMBERS :: preset[p - 1], battery, 0)
  }

  /** A preset known over USB can be written over BLE, which reads nothing. */
  lemma FreshAgrees(preset: seq<ProfileImage>, reference: Transport, battery: Option<nat>, t: Transport, p: nat)
    requires |preset| == PROFILES && InRange(p)
    ensures HostAgrees(Fresh(preset, reference, battery))
    ensures BaseImage(Fresh(preset, reference, battery), p, t).Some? <==> !reference.Ble? || !t.Ble?
  {}

  // ----- the objects -----------------------------------------------------------------------

  /** The model behind a session: five profiles in an array, updated in place. */
  class SimModel {
    const profiles: array<ProfileImage>
    const transport: Transport
    const perPercent: nat
    const encodes: Encoder
    var battery: Option<nat>
    var writes: nat

    ghost predicate Valid()
      reads this
    {
      profiles.Length == PROFILES
    }

    constructor (preset: seq<ProfileImage>, transport: Transport, battery: Option<nat>, perPercent: nat,
        encodes: Encoder)
      requires |preset| == PROFILES
      ensures Valid() && fresh(profiles) && profiles[..] == preset && this.transport == transport
      ensures this.battery == battery && writes == 0 && this.perPercent == perPercent && this.encodes == encodes
    {
      profiles := new ProfileImage[PROFILES](i requires 0 <= i < PROFILES => preset[i]);
      this.transport, this.battery, this.perPercent, this.encodes, writes := transport, battery, perPercent, encodes, 0;
    }

    method RecordWrite()
      modifies this
      ensures writes == old(writes) + 1
      ensures battery == if old(battery).Some? && perPercent != 0 && writes % perPercent == 0
                         then Some(Drain(old(battery).value)) else old(battery)
    {
      writes := writes + 1;
      if perPercent == 0 { return; }
      if writes % perPercent == 0 && battery.Some? { battery := Some(Drain(battery.value)); }
    }

    method ReadProfile(profile: nat) returns (r: Option<ProfileImage>)
      requires Valid()
      ensures r == if InRange(profile) && !transport.Ble? then Some(profiles[profile - 1]) else None
    {
      if !InRange(profile) || transport.Ble? { return None; }
      r := Some(profiles[profile - 1]);
    }

    method WriteProfile(profile: nat, image: ProfileImage) returns (ok: bool)
      requires Valid()
      modifies this, profiles
      ensures Valid()
      ensures ok <==> 1 <= profile <= 5 && IsFor(image, profile) && encodes(image, transport)
      ensures !ok ==> profiles[..] == old(profiles[..]) && battery == old(battery) && writes == old(writes)
      ensures ok ==> profiles[..] == old(profiles[..])[profile - 1 := image] && writes == old(writes) + 1
      ensures ok ==> battery == if old(battery).Some? && perPercent != 0 && writes % perPercent == 0
                                then Some(Drain(old(battery).value)) else old(battery)
    {
      if !InRange(profile) || !Accepts(encodes, profile, image, transport) { return false; }
      profiles[profile - 1] := image;
      RecordWrite();
      ok := true;
    }
  }

  class SimSession {
    const model: SimModel
    var host: map<nat, ProfileImage>

    ghost function Contents(): Sim
      reads this, model, model.profiles
    {
      Sim(model.profiles[..], host, model.battery, model.writes)
    }

    ghost predicate Valid()
      reads this, model, model.profiles
    {
      model.Valid() && HostAgrees(Contents())
    }

    /** The model of a preset on one transport, with the host images of the
        preset's reference instance. */
    constructor (preset: seq<ProfileImage>, reference: Transport, transport: Transport, battery: Option<nat>,
                 perPercent: nat, encodes: Encoder)
      requires |preset| == PROFILES
      ensures Valid() && fresh(model) && fresh(model.profiles) && Contents() == Fresh(preset, reference, battery)
      ensures model.transport == transport && model.perPercent == perPercent && model.encodes == encodes
    {
      model := new SimModel(preset, transport, battery, perPercent, encodes);
      host := if reference.Ble? then map[] else map p | p in NUMBERS :: preset[p - 1];
    }

    /** Merges one resource and stores the image, or changes nothing. */
    method StoreSection(w: Write) returns (r: Option<ProfileImage>)
      requires Valid()
      modifies this, model, model.profiles
      ensures Valid() && Contents() == Store(old(Contents()), model.encodes, model.transport, model.perPercent, w)
      ensures r.Some? <==> Accepted(old(Contents()), model.encodes, model.transport, w)
      ensures r.Some? ==>
                && Get(r.value, w.kind) == w.section && IsFor(r.value, w.section.profile)
                && 1 <= w.section.profile <= 5 && (w.section.profile in old(host) || !model.transport.Ble?)
                && (forall kind: Kind :: kind != w.kind ==>
                      Get(r.value, kind) == Get(old(model.profiles[..])[w.section.profile - 1], kind))
                && host == old(host)[w.section.profile := r.value]
                && model.profiles[..] == old(model.profiles[..])[w.section.profile - 1 := r.value]
      ensures r.None? ==> Contents() == old(Contents())
    {
      var p := w.section.profile;
      var base := None;
      if p in host { base := Some(host[p]); } else { base := model.ReadProfile(p); }
      if base.None? { return None; }
      var image := Put(base.value, w.kind, w.section);
      var ok := model.WriteProfile(p, image);
      if !ok { return None; }
      host := host[p := image];
      r := Some(image);
    }
  }
}
