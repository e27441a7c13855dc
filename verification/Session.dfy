/** The USB session over one unit: the driver's verified control writes, the
    ordered metadata write, the all-profile capture and its restoration. */
module Session {
  import opened Watermark
  import opened Hardware

  /** The control writes that take `from` to `to`: raise the maximum first,
      then activate, and lower only once the target profile is active. */
  function MetadataPlan(from: Metadata, to: Metadata): seq<Metadata> {
    var raised := if to.maximum > from.maximum then Metadata(from.current, to.maximum) else from;
    var active := Metadata(to.current, raised.maximum);
    (if raised != from then [raised] else [])
    + (if active != raised then [active] else [])
    + (if to != active then [to] else [])
  }

  /** The plan is as short as it can be, and no step names a disabled profile. */
  lemma MetadataPlanSafe(n: nat, from: Metadata, to: Metadata)
    requires MetadataOk(n, from) && MetadataOk(n, to)
    ensures forall m <- MetadataPlan(from, to) :: MetadataOk(n, m)
    ensures |MetadataPlan(from, to)| ==
            (if from.maximum != to.maximum then 1 else 0) + (if from.current != to.current then 1 else 0)
  {}

  /** A profile other than `target` to switch to, if one is enabled. */
  function AlternateProfile(original: Metadata, target: ProfileId): Option<ProfileId> {
    if original.current != target then Some(original.current)
    else FirstOther(1, original.maximum, target)
  }

  function FirstOther(p: ProfileId, maximum: ProfileId, target: ProfileId): Option<ProfileId>
    decreases maximum + 1 - p
  {
    if p > maximum then None
    else if p != target then Some(p)
    else FirstOther(p + 1, maximum, target)
  }

  lemma {:induction false} FirstOtherFinds(p: ProfileId, maximum: ProfileId, target: ProfileId)
    ensures var r := FirstOther(p, maximum, target);
            && (r.None? <==> p > maximum || p == maximum == target)
            && (r.Some? ==> r.value <= maximum && r.value == if p == target then p + 1 else p)
    decreases maximum + 1 - p
  {
    if p <= maximum {
      if p == target { FirstOtherFinds(p + 1, maximum, target); }
    }
  }

  /** For an enabled target, an alternate exists exactly when at least two
      profiles are enabled: the current one, or the lowest other one. */
  lemma AlternateExistsIff(n: nat, original: Metadata, target: ProfileId)
    requires MetadataOk(n, original) && target <= original.maximum
    ensures var r := AlternateProfile(original, target);
            && (r.Some? <==> original.maximum > 1)
            && (r.Some? ==>
                  && r.value != target && r.value <= original.maximum
                  && r.value == if original.current != target then original.current else if target == 1 then 2 else 1)
  {
    FirstOtherFinds(1, original.maximum, target);
  }

  /** The walk of a capture: the current profile first, then the others. */
  function CaptureOrder(current: ProfileId, n: nat): seq<ProfileId> {
    [current] + Others(current, 1, n)
  }

  function Others(current: ProfileId, p: ProfileId, n: nat): seq<ProfileId>
    decreases n + 1 - p
  {
    if p > n then []
    else (if p == current then [] else [p]) + Others(current, p + 1, n)
  }

  lemma {:induction false} OthersCover(current: ProfileId, p: ProfileId, n: nat)
    ensures var s := Others(current, p, n);
            && (forall q: ProfileId :: q in s <==> p <= q <= n && q != current)
            && (forall i, j :: 0 <= i < j < |s| ==> s[i] < s[j])
            && |s| == (if p > n then 0 else n + 1 - p) - (if p <= current <= n then 1 else 0)
    decreases n + 1 - p
  {
    if p <= n {
      OthersCover(current, p + 1, n);
      var s, rest := Others(current, p, n), Others(current, p + 1, n);
      assert s == (if p == current then [] else [p]) + rest;
      forall q: ProfileId ensures q in s <==> p <= q <= n && q != current {
        assert q in s <==> (q == p && p != current) || q in rest;
      }
      forall i, j | 0 <= i < j < |s| ensures s[i] < s[j] {
        if p != current && i == 0 { assert s[j] == rest[j - 1] && rest[j - 1] in rest; }
      }
    }
  }

  /** The capture walk visits every slot exactly once: the current profile, then
      the others in ascending order. */
  lemma CaptureOrderCovers(current: ProfileId, n: nat)
    requires current <= n
    ensures var s := CaptureOrder(current, n);
            && |s| == n && s[0] == current
            && (forall q: ProfileId :: q in s <==> q <= n)
            && (forall i, j :: 0 <= i < j < |s| ==> s[i] != s[j])
            && (forall i, j :: 1 <= i < j < |s| ==> s[i] < s[j])
  {
    OthersCover(current, 1, n);
    var s, rest := CaptureOrder(current, n), Others(current, 1, n);
    forall i, j | 0 <= i < j < |s| ensures s[i] != s[j] {
      assert s[j] == rest[j - 1] && rest[j - 1] in rest;
      if i > 0 { assert s[i] == rest[i - 1]; }
    }
    forall i, j | 1 <= i < j < |s| ensures s[i] < s[j] { assert s[i] == rest[i - 1] && s[j] == rest[j - 1]; }
  }

  datatype Capture = Capture(original: Metadata, restored: Metadata, expanded: bool,
                             profiles: map<ProfileId, Image>)

  datatype Snapshot = Snapshot(meta: Metadata, sections: Sections)

  class UsbSession {
    var unit: Unit
    var script: seq<Io>
    /** Every control write sent, in order. */
    var controls: seq<Metadata>
    /** Every resource write sent, in order. */
    var writes: seq<Write>

    ghost predicate Valid()
      reads this
    {
      UnitOk(unit) && forall m <- controls :: MetadataOk(|unit.slots|, m)
    }

    /** What every exchange keeps: the number of slots, the history of
        commands, and the absence of faults still to come. */
    twostate predicate Kept()
      reads this
    {
      && Valid()
      && |unit.slots| == |old(unit.slots)|
      && old(controls) <= controls && old(writes) <= writes
      && (old(NoNoise(script)) ==> NoNoise(script)) && (old(Loads(script)) ==> Loads(script))
      && (old(script) == [] ==> script == [])
    }

    constructor (u: Unit, script: seq<Io>)
      requires UnitOk(u)
      ensures Valid() && unit == u && this.script == script && controls == [] && writes == []
    {
      unit, this.script, controls, writes := u, script, [], [];
    }

    /** Takes the next scripted outcome; an exhausted script is fault free. */
    method Exchange() returns (io: Io)
      requires Valid()
      modifies this`script
      ensures Kept()
      ensures old(script) == [] ==> io == CLEAN
      ensures old(script) != [] ==> io == old(script)[0] && script == old(script)[1..]
      ensures (old(NoNoise(script)) ==> io.noise.None?) && (old(Loads(script)) ==> io.loads)
    {
      if script == [] {
        io := CLEAN;
      } else {
        io := script[0];
        script := script[1..];
      }
    }

    method ReadMetadata() returns (r: Result<Metadata>)
      requires Valid()
      modifies this`script
      ensures Kept()
      ensures r.Ok? ==> r.value == unit.meta
      ensures r.Err? ==> r == Err(TransportFailed)
      ensures old(script) == [] ==> r.Ok?
      ensures old(script) != [] ==> script == old(script)[1..] && (r.Ok? <==> old(script)[0].reported)
    {
      var io := Exchange();
      r := if io.reported then Ok(unit.meta) else Err(TransportFailed);
    }

    /** Submits one control report.  The write may be lost silently, applied
        with an error, and may or may not reload the working image. */
    method SendControl(meta: Metadata) returns (r: Result<()>)
      requires Valid() && MetadataOk(|unit.slots|, meta)
      modifies this`script, this`unit, this`controls
      ensures Kept()
      ensures unit.slots == old(unit.slots) && controls == old(controls) + [meta]
      ensures unit.meta == old(unit.meta) || unit.meta == meta
      ensures r.Err? ==> r == Err(TransportFailed)
      ensures old(script) == [] ==> r.Ok? && unit.meta == meta
    {
      var io := Exchange();
      controls := controls + [meta];
      if io.applied {
        unit := unit.(meta := meta);
        if io.reload {
          unit := unit.(work := unit.slots[meta.current - 1]);
        }
      }
      r := if io.reported then Ok(()) else Err(TransportFailed);
    }

    method SetMaximum(maximum: ProfileId) returns (r: Result<Metadata>)
      requires Valid() && maximum <= |unit.slots|
      modifies this`script, this`unit, this`controls
      ensures Kept() && unit.slots == old(unit.slots)
      ensures r.Ok? ==> r.value == unit.meta == Metadata(old(unit.meta).current, maximum)
      ensures r.Ok? ==> controls == old(controls) + (if maximum == old(unit.meta).maximum then [] else [unit.meta])
      ensures maximum < old(unit.meta).current ==> r.Err? && controls == old(controls) && unit == old(unit)
      ensures r.Err? ==> !IsRestoration(r.error)
      ensures old(script) == [] && old(unit.meta).current <= maximum ==> r.Ok?
    {
      r := ReadMetadata();
      if r.Err? { return; }
      var current := r.value;
      if maximum < current.current { return Err(MaximumBelowCurrent); }
      if maximum == current.maximum { return Ok(current); }
      var expected := Metadata(current.current, maximum);
      var sent := SendControl(expected);
      if sent.Err? { return Err(sent.error); }
      r := ReadMetadata();
      if r.Ok? && r.value != expected { return Err(WriteVerificationMismatch); }
    }

    method Activate(profile: ProfileId) returns (r: Result<Metadata>)
      requires Valid()
      modifies this`script, this`unit, this`controls
      ensures Kept() && unit.slots == old(unit.slots)
      ensures r.Ok? ==> r.value == unit.meta == Metadata(profile, old(unit.meta).maximum)
      ensures r.Ok? ==> controls == old(controls) + [unit.meta]
      ensures old(unit.meta).current == profile || profile > old(unit.meta).maximum ==>
                r.Err? && controls == old(controls) && unit == old(unit)
      ensures r.Err? ==> !IsRestoration(r.error)
      ensures old(script) == [] && old(unit.meta).current != profile <= old(unit.meta).maximum ==> r.Ok?
    {
      r := ReadMetadata();
      if r.Err? { return; }
      var current := r.value;
      if current.current == profile { return Err(ProfileAlreadyActive); }
      if profile > current.maximum { return Err(ProfileNotEnabled); }
      var expected := Metadata(profile, current.maximum);
      var sent := SendControl(expected);
      if sent.Err? { return Err(sent.error); }
      r := ReadMetadata();
      if r.Ok? && r.value != expected { return Err(WriteVerificationMismatch); }
    }

    /** Whatever faults occur, success means the device holds exactly `target`
        and the commands sent are exactly the plan. */
    method WriteProfileMetadata(target: Metadata) returns (r: Result<Metadata>)
      requires Valid() && MetadataOk(|unit.slots|, target)
      modifies this`script, this`unit, this`controls
      ensures Kept() && unit.slots == old(unit.slots)
      ensures r.Ok? ==> r.value == unit.meta == target
      ensures r.Ok? ==> controls == old(controls) + MetadataPlan(old(unit.meta), target)
      ensures r.Err? ==> !IsRestoration(r.error)
      ensures old(script) == [] ==> r.Ok?
    {
      r := ReadMetadata();
      if r.Err? { return; }
      var actual := r.value;
      r := RaiseAndActivate(actual, target);
      if r.Err? { return; }
      actual := r.value;
      if target.maximum != actual.maximum {
        r := SetMaximum(target.maximum);
        if r.Err? { return; }
        actual := r.value;
      }
      r := Ok(actual);
    }

    /** The first two thirds of the ordered write, which never lower. */
    method RaiseAndActivate(from: Metadata, target: Metadata) returns (r: Result<Metadata>)
      requires Valid() && unit.meta == from && MetadataOk(|unit.slots|, target)
      modifies this`script, this`unit, this`controls
      ensures Kept() && unit.slots == old(unit.slots)
      ensures r.Ok? ==>
                && r.value == unit.meta
                && unit.meta == Metadata(target.current, if target.maximum > from.maximum then target.maximum
                                                         else from.maximum)
                && controls == old(controls) + MetadataPlan(from, unit.meta)
      ensures r.Err? ==> !IsRestoration(r.error)
      ensures old(script) == [] ==> r.Ok?
    {
      var actual := from;
      if target.maximum > actual.maximum {
        r := SetMaximum(target.maximum);
        if r.Err? { return; }
        actual := r.value;
      }
      if target.current != actual.current {
        r := Activate(target.current);
        if r.Err? { return; }
        actual := r.value;
      }
      r := Ok(actual);
    }

    /** The exact write: anything but a verified readback of `expected` is an
        error. */
    method WriteExactMetadata(expected: Metadata) returns (r: Result<Metadata>)
      requires Valid() && MetadataOk(|unit.slots|, expected)
      modifies this`script, this`unit, this`controls
      ensures Kept() && unit.slots == old(unit.slots)
      ensures r.Ok? ==> r.value == unit.meta == expected
      ensures r.Ok? ==> controls == old(controls) + MetadataPlan(old(unit.meta), expected)
      ensures r.Err? ==> !IsRestoration(r.error)
      ensures old(script) == [] ==> r.Ok?
    {
      r := WriteProfileMetadata(expected);
      if r.Ok? && r.value != expected { r := Err(VerificationMismatch); }
    }

    /** One targeted section read: it loads the target's working buffers, if the
        load takes effect, and answers from the working image.  Callers use the
        one section they asked for. */
    method ReadSections(profile: ProfileId) returns (r: Result<Sections>)
      requires Valid() && profile <= |unit.slots|
      modifies this`script, this`unit
      ensures Kept() && unit.slots == old(unit.slots) && unit.meta == old(unit.meta)
      ensures unit == old(unit) || unit == old(unit).(work := old(unit).slots[profile - 1])
      ensures old(Loads(script)) ==> unit.work == unit.slots[profile - 1]
      ensures r.Ok? && old(NoNoise(script)) ==> r.value == SectionsOf(unit.work)
      ensures r.Err? ==> r == Err(TransportFailed)
      ensures old(script) == [] ==> r.Ok?
      ensures old(script) != [] ==>
                && script == old(script)[1..] && (r.Ok? <==> old(script)[0].reported)
                && (!old(script)[0].loads ==> unit == old(unit))
    {
      var io := Exchange();
      if io.loads {
        unit := unit.(work := unit.slots[profile - 1]);
      }
      r := if !io.reported then Err(TransportFailed)
           else Ok(SectionsOf(if io.noise.Some? then io.noise.value else unit.work));
    }

    method ReadDpi(profile: ProfileId) returns (r: Result<Dpi>)
      requires Valid() && profile <= |unit.slots|
      modifies this`script, this`unit
      ensures Kept() && unit.slots == old(unit.slots) && unit.meta == old(unit.meta)
      ensures r.Ok? && old(Truthful(script)) ==> r.value == unit.slots[profile - 1].dpi
      ensures r.Err? ==> !IsRestoration(r.error)
      ensures old(script) == [] ==> r.Ok?
    {
      var sections := ReadSections(profile);
      r := if sections.Ok? then Ok(sections.value.dpi) else Err(sections.error);
    }

    /** The complete read: metadata, then the target's three sections one by
        one.  The rate is not part of it.  Some of the three reads may load and
        others not: without noise the sections belong together if nothing was
        loaded, and otherwise the target's stored image is left behind. */
    method ReadProfile(profile: ProfileId) returns (r: Result<Snapshot>)
      requires Valid() && profile <= |unit.slots|
      modifies this`script, this`unit
      ensures Kept() && unit.slots == old(unit.slots) && unit.meta == old(unit.meta)
      ensures r.Ok? ==> r.value.meta == unit.meta
      ensures unit == old(unit) || unit == old(unit).(work := old(unit).slots[profile - 1])
      ensures r.Ok? && old(Loads(script)) ==> unit.work == unit.slots[profile - 1]
      ensures r.Ok? && old(NoNoise(script)) && unit == old(unit) ==> r.value.sections == SectionsOf(unit.work)
      ensures r.Ok? && old(Truthful(script)) ==> r.value.sections == SectionsOf(unit.slots[profile - 1])
      ensures r.Err? ==> !IsRestoration(r.error)
      ensures old(script) == [] ==> r.Ok?
      ensures Answered(old(script)) ==>
                && r.Ok? && script == old(script)[4..]
                && ((forall i :: 1 <= i < 4 ==> !old(script)[i].loads) ==> unit == old(unit))
    {
      var meta := ReadMetadata();
      if meta.Err? { return Err(meta.error); }
      var dpi := ReadSections(profile);
      if dpi.Err? { return Err(dpi.error); }
      var preferences := ReadSections(profile);
      if preferences.Err? { return Err(preferences.error); }
      var buttons := ReadSections(profile);
      if buttons.Err? { return Err(buttons.error); }
      r := Ok(Snapshot(meta.value, Sections(dpi.value.dpi, preferences.value.preferences, buttons.value.buttons)));
    }

    /** Report 0x06 skips the loader: the alias selects nothing and the rate
        is that of the working image. */
    method ReadLivePollingRate(alias: ProfileId) returns (r: Result<nat>)
      requires Valid()
      modifies this`script
      ensures Kept()
      ensures r.Ok? && old(NoNoise(script)) ==> r.value == unit.work.rate
      ensures r.Err? ==> !IsRestoration(r.error)
      ensures old(script) == [] ==> r.Ok?
    {
      var io := Exchange();
      r := if !io.reported then Err(TransportFailed)
           else if io.noise.Some? then Ok(io.noise.value.rate) else Ok(unit.work.rate);
    }

    /** Activates one slot, unless it is current, and reads it whole. */
    method CaptureSlot(target: ProfileId) returns (r: Result<Image>)
      requires Valid() && unit.meta.maximum == |unit.slots| && target <= |unit.slots|
      modifies this`script, this`unit, this`controls
      ensures Kept() && unit.slots == old(unit.slots)
      ensures r.Ok? ==> unit.meta == Metadata(target, |unit.slots|)
      ensures r.Ok? ==> |controls| == |old(controls)| + (if old(unit.meta).current == target then 0 else 1)
      ensures r.Ok? && old(Truthful(script)) ==> r.value == unit.slots[target - 1]
      ensures r.Err? ==> !IsRestoration(r.error)
      ensures old(script) == [] ==> r.Ok?
    {
      var maximum := |unit.slots|;
      if unit.meta.current != target {
        MetadataPlanSafe(maximum, unit.meta, Metadata(target, maximum));
        var written := WriteExactMetadata(Metadata(target, maximum));
        if written.Err? { return Err(written.error); }
      }
      var snapshot := ReadProfile(target);
      if snapshot.Err? { return Err(snapshot.error); }
      if snapshot.value.meta.current != target || snapshot.value.meta.maximum != maximum {
        return Err(VerificationMismatch);
      }
      var rate := ReadLivePollingRate(target);
      r := if rate.Ok? then Ok(WithRate(snapshot.value.sections, rate.value)) else Err(rate.error);
    }

    /** Walks every slot. */
    method CaptureImages(original: ProfileId) returns (r: Result<map<ProfileId, Image>>)
      requires Valid() && unit.meta == Metadata(original, |unit.slots|)
      modifies this`script, this`unit, this`controls
      ensures Kept() && unit.slots == old(unit.slots)
      ensures r.Ok? && old(Truthful(script)) ==> Captures(r.value, unit.slots)
      ensures r.Ok? ==> unit.meta.maximum == |unit.slots| && unit.meta.current != original
                        && |controls| == |old(controls)| + |unit.slots| - 1
      ensures r.Err? ==> !IsRestoration(r.error)
      ensures old(script) == [] ==> r.Ok?
    {
      ghost var quiet := Truthful(script);
      var maximum := |unit.slots|;
      var order := CaptureOrder(original, maximum);
      CaptureOrderCovers(original, maximum);
      var profiles: map<ProfileId, Image> := map[];
      for k := 0 to |order|
        invariant Kept() && unit.slots == old(unit.slots)
        invariant quiet ==> Truthful(script)
        invariant unit.meta == Metadata(if k == 0 then original else order[k - 1], maximum)
        invariant |controls| == |old(controls)| + (if k == 0 then 0 else k - 1)
        invariant forall p: ProfileId :: p in profiles <==> p in order[..k]
        invariant quiet ==> forall p <- profiles :: p <= maximum && profiles[p] == unit.slots[p - 1]
      {
        assert order[k] in order && order[..k + 1] == order[..k] + [order[k]];
        var image := CaptureSlot(order[k]);
        if image.Err? { return Err(image.error); }
        profiles := profiles[order[k] := image.value];
      }
      assert order[..|order|] == order;
      if quiet {
        assert Captures(profiles, unit.slots);
      }
      assert order[0] == original;
      r := Ok(profiles);
    }

    /** The complete capture.  Slots never change; the original metadata is
        back on every exit except one whose error says restoring failed. */
    method CaptureAll() returns (r: Result<Capture>)
      requires Valid()
      modifies this`script, this`unit, this`controls
      ensures Kept() && unit.slots == old(unit.slots)
      ensures r.Ok? ==> r.value.original == r.value.restored == old(unit.meta)
                        && r.value.expanded == (old(unit.meta).maximum != |unit.slots|)
      ensures r.Ok? && old(Truthful(script)) ==> Captures(r.value.profiles, unit.slots)
      ensures r.Ok? || !IsRestoration(r.error) ==> unit.meta == old(unit.meta)
      ensures r.Ok? ==> |controls| == |old(controls)| + |unit.slots|
                                 + (if old(unit.meta).maximum == |unit.slots| then 0 else 2)
      ensures old(script) == [] ==> r.Ok?
    {
      var read := ReadMetadata();
      if read.Err? { return Err(read.error); }
      var original := read.value;
      var maximum := |unit.slots|;
      var expandedMetadata := Metadata(original.current, maximum);
      var expanded := original.maximum != maximum;
      var captured: Result<map<ProfileId, Image>> := Ok(map[]);
      if expanded {
        MetadataPlanSafe(maximum, unit.meta, expandedMetadata);
        var raised := WriteExactMetadata(expandedMetadata);
        if raised.Err? { captured := Err(raised.error); }
      }
      if captured.Ok? {
        captured := CaptureImages(original.current);
      }
      MetadataPlanSafe(maximum, unit.meta, original);
      var restored := WriteExactMetadata(original);
      if restored.Err? {
        return Err(if captured.Ok? then RefreshRestorationFailed else RefreshRestoreFailed);
      }
      if captured.Err? { return Err(captured.error); }
      r := Ok(Capture(original, restored.value, expanded, captured.value));
    }

    /** Submits one resource report; it may be lost silently or take effect
        with an error. */
    method Send(w: Write) returns (r: Result<()>)
      requires Valid() && w.profile <= |unit.slots|
      modifies this`script, this`unit, this`writes
      ensures Kept() && unit.meta == old(unit.meta)
      ensures writes == old(writes) + [w]
      ensures unit.slots == old(unit.slots) || unit.slots == Effect(old(unit), w).slots
      ensures w.WriteRate? ==> unit == old(unit) || unit == Effect(old(unit), w)
      ensures w.WriteRate? && old(script) == [] ==> unit == Effect(old(unit), w)
      ensures r.Err? ==> r == Err(TransportFailed)
      ensures old(script) == [] ==> r.Ok? && unit.slots == Effect(old(unit), w).slots
    {
      var io := Exchange();
      writes := writes + [w];
      if io.applied {
        unit := Effect(unit, w);
        if io.reload && !w.WriteRate? {
          unit := unit.(work := unit.slots[w.profile - 1]);
        }
      }
      r := if io.reported then Ok(()) else Err(TransportFailed);
    }

    method WriteDpi(profile: ProfileId, dpi: Dpi, how: Method) returns (r: Result<SessionWrite<Dpi>>)
      requires Valid() && profile <= |unit.slots|
      modifies this`script, this`unit, this`writes
      ensures Kept() && unit.meta == old(unit.meta)
      ensures writes == old(writes) + [Write.WriteDpi(profile, dpi)]
      ensures unit.slots == old(unit.slots) || unit.slots == Effect(old(unit), Write.WriteDpi(profile, dpi)).slots
      ensures r.Ok? ==> r.value == if how.Readback? then ReadbackVerified(dpi) else Acknowledged
      ensures r.Ok? && how.Readback? && old(Truthful(script)) ==> unit.slots[profile - 1].dpi == dpi
      ensures r.Err? ==> !IsRestoration(r.error)
      ensures old(script) == [] ==> r.Ok?
    {
      var sent := Send(Write.WriteDpi(profile, dpi));
      if sent.Err? { return Err(sent.error); }
      if how.Transport? { return Ok(Acknowledged); }
      var actual := ReadSections(profile);
      if actual.Err? { return Err(actual.error); }
      if actual.value.dpi != dpi { return Err(WriteVerificationMismatch); }
      r := Ok(ReadbackVerified(actual.value.dpi));
    }

    method WritePreferences(profile: ProfileId, value: seq<Byte>, how: Method)
        returns (r: Result<SessionWrite<seq<Byte>>>)
      requires Valid() && profile <= |unit.slots|
      modifies this`script, this`unit, this`writes
      ensures Kept() && unit.meta == old(unit.meta)
      ensures writes == old(writes) + [Write.WritePreferences(profile, value)]
      ensures unit.slots == old(unit.slots)
              || unit.slots == Effect(old(unit), Write.WritePreferences(profile, value)).slots
      ensures r.Ok? ==> r.value == if how.Readback? then ReadbackVerified(value) else Acknowledged
      ensures r.Ok? && how.Readback? && old(Truthful(script)) ==> unit.slots[profile - 1].preferences == value
      ensures old(script) == [] ==> r.Ok?
    {
      var sent := Send(Write.WritePreferences(profile, value));
      if sent.Err? { return Err(sent.error); }
      if how.Transport? { return Ok(Acknowledged); }
      var actual := ReadSections(profile);
      if actual.Err? { return Err(actual.error); }
      if actual.value.preferences != value { return Err(WriteVerificationMismatch); }
      r := Ok(ReadbackVerified(actual.value.preferences));
    }

    method WriteButtons(profile: ProfileId, value: seq<Byte>, how: Method)
        returns (r: Result<SessionWrite<seq<Byte>>>)
      requires Valid() && profile <= |unit.slots|
      modifies this`script, this`unit, this`writes
      ensures Kept() && unit.meta == old(unit.meta)
      ensures writes == old(writes) + [Write.WriteButtons(profile, value)]
      ensures unit.slots == old(unit.slots)
              || unit.slots == Effect(old(unit), Write.WriteButtons(profile, value)).slots
      ensures r.Ok? ==> r.value == if how.Readback? then ReadbackVerified(value) else Acknowledged
      ensures r.Ok? && how.Readback? && old(Truthful(script)) ==> unit.slots[profile - 1].buttons == value
      ensures old(script) == [] ==> r.Ok?
    {
      var sent := Send(Write.WriteButtons(profile, value));
      if sent.Err? { return Err(sent.error); }
      if how.Transport? { return Ok(Acknowledged); }
      var actual := ReadSections(profile);
      if actual.Err? { return Err(actual.error); }
      if actual.value.buttons != value { return Err(WriteVerificationMismatch); }
      r := Ok(ReadbackVerified(actual.value.buttons));
    }

    /** The unchecked save-alias write: what lands in the slot is the working
        image, whatever that is.  Its readback only shows the live rate. */
    method WriteRateUnchecked(profile: ProfileId, rate: nat, how: Method) returns (r: Result<SessionWrite<nat>>)
      requires Valid() && profile <= |unit.slots|
      modifies this`script, this`unit, this`writes
      ensures Kept() && unit.meta == old(unit.meta)
      ensures writes == old(writes) + [Write.WriteRate(profile, rate)]
      ensures unit == old(unit) || unit == Effect(old(unit), Write.WriteRate(profile, rate))
      ensures r.Ok? ==> r.value == if how.Readback? then ReadbackVerified(rate) else Acknowledged
      ensures r.Ok? && how.Readback? && old(NoNoise(script)) ==> unit.work.rate == rate
      ensures old(script) == [] ==> r.Ok?
    {
      var sent := Send(Write.WriteRate(profile, rate));
      if sent.Err? { return Err(sent.error); }
      if how.Transport? { return Ok(Acknowledged); }
      var actual := ReadLivePollingRate(profile);
      if actual.Err? { return Err(actual.error); }
      if actual.value != rate { return Err(WriteVerificationMismatch); }
      r := Ok(ReadbackVerified(actual.value));
    }

    /** The only safe rate path: the target is loaded and compared with its
        complete desired image before the save-alias write.  Either defence is
        enough on its own.  Whatever the reads return, loads that take effect
        leave only the rate to change; and whatever was loaded, a comparison
        with noise-free data leaves nothing but the stored or the desired image
        to save. */
    method UpdateRate(profile: ProfileId, desired: Option<Sections>, rate: nat, how: Method)
        returns (r: Result<SessionWrite<nat>>)
      requires Valid() && profile <= |unit.slots|
      modifies this`script, this`unit, this`writes
      ensures Kept() && unit.meta == old(unit.meta)
      ensures OtherSlotsKept(profile, old(unit.slots), unit.slots)
      ensures old(Loads(script)) ==>
                unit.slots == old(unit.slots)
                || unit.slots == old(unit.slots)[profile - 1 := old(unit.slots)[profile - 1].(rate := rate)]
      ensures old(NoNoise(script)) ==>
                || unit.slots == old(unit.slots)
                || unit.slots == old(unit.slots)[profile - 1 := old(unit.slots)[profile - 1].(rate := rate)]
                || (desired.Some? && unit.slots == old(unit.slots)[profile - 1 := WithRate(desired.value, rate)])
      ensures writes == old(writes) || writes == old(writes) + [Write.WriteRate(profile, rate)]
      ensures r.Ok? ==> desired.Some? && old(unit.meta).current == profile
      ensures r.Ok? && how.Readback? && old(NoNoise(script)) ==>
                r.value == ReadbackVerified(rate)
                && (writes != old(writes) ==>
                      || unit.slots == old(unit.slots)[profile - 1 := old(unit.slots)[profile - 1].(rate := rate)]
                      || unit.slots == old(unit.slots)[profile - 1 := WithRate(desired.value, rate)])
      ensures r.Ok? && old(Truthful(script)) ==>
                && desired == Some(SectionsOf(old(unit.slots)[profile - 1]))
                && (r.value.ReadbackVerified? ==> unit.slots[profile - 1].rate == rate)
      ensures Answered(old(script)) && |old(script)| == 4 && NoNoise(old(script))
              && (forall i :: 1 <= i < 4 ==> !old(script)[i].loads)
              && old(unit.meta).current == profile && desired == Some(SectionsOf(old(unit.work)))
              && old(unit.work).rate != rate && how.Readback?
              ==> r.Ok? && unit.slots == old(unit.slots)[profile - 1 := WithRate(desired.value, rate)]
      ensures old(script) == [] ==>
                (r.Ok? <==>
                   old(unit.meta).current == profile && desired == Some(SectionsOf(old(unit.slots)[profile - 1])))
    {
      if desired.None? { return Err(MissingBaseline); }
      var snapshot := ReadProfile(profile);
      if snapshot.Err? { return Err(snapshot.error); }
      if snapshot.value.meta.current != profile { return Err(VerificationMismatch); }
      if snapshot.value.sections.dpi != desired.value.dpi
         || snapshot.value.sections.preferences != desired.value.preferences
         || snapshot.value.sections.buttons != desired.value.buttons {
        return Err(MissingBaseline);
      }
      var current := ReadLivePollingRate(profile);
      if current.Err? { return Err(current.error); }
      if current.value == rate { return Ok(ReadbackVerified(current.value)); }
      r := WriteRateUnchecked(profile, rate, how);
    }

    /** The baseline one section is merged onto. */
    method LoadBaseline(profile: ProfileId, source: Baseline) returns (r: Result<Sections>)
      requires Valid() && profile <= |unit.slots|
      modifies this`script, this`unit
      ensures Kept() && unit.slots == old(unit.slots) && unit.meta == old(unit.meta)
      ensures r.Ok? && source.Live? && old(Truthful(script)) ==> r.value == SectionsOf(unit.slots[profile - 1])
      ensures r.Ok? && !source.Live? ==> source.sections == Some(r.value)
      ensures old(script) == [] ==> (r.Ok? <==> HasBaseline(source))
    {
      match source {
        case Live => r := ReadSections(profile);
        case Given(sections) => r := if sections.Some? then Ok(sections.value) else Err(MissingBaseline);
      }
    }

    /** Merges onto the baseline and writes, stamped with `token` if any. */
    method UpdateDpi(profile: ProfileId, patch: Patch, source: Baseline, token: Option<Token>, how: Method)
        returns (r: Result<()>)
      requires Valid() && profile <= |unit.slots|
      modifies this`script, this`unit, this`writes
      ensures Kept() && unit.meta == old(unit.meta)
      ensures unit.slots == old(unit.slots)[profile - 1 :=
                old(unit.slots)[profile - 1].(dpi := unit.slots[profile - 1].dpi)]
      ensures token.Some? ==> StampedWrites(token.value, |old(writes)|, writes)
      ensures token.Some? ==> TailsKept(token.value, old(unit.slots), unit.slots)
      ensures r.Ok? ==> HasBaseline(source)
      ensures r.Ok? && how.Readback? && old(Truthful(script)) ==>
                && var base, now := BaseOf(source, old(unit.slots)[profile - 1]).dpi, unit.slots[profile - 1].dpi;
                && Changed(base.settings, patch, now.settings)
                && now.tail == (if token.Some? then Marked(token.value) else base.tail)
      ensures old(script) == [] ==> (r.Ok? <==> HasBaseline(source))
    {
      var base := LoadBaseline(profile, source);
      if base.Err? { return Err(base.error); }
      var written := WriteDpi(profile, MergedDpi(base.value.dpi, patch, token), how);
      r := if written.Ok? then Ok(()) else Err(written.error);
    }

    method UpdatePreferences(profile: ProfileId, patch: Patch, source: Baseline, how: Method) returns (r: Result<()>)
      requires Valid() && profile <= |unit.slots|
      modifies this`script, this`unit, this`writes
      ensures Kept() && unit.meta == old(unit.meta)
      ensures unit.slots == old(unit.slots)[profile - 1 :=
                old(unit.slots)[profile - 1].(preferences := unit.slots[profile - 1].preferences)]
      ensures writes == old(writes) || (|writes| == |old(writes)| + 1 && !writes[|old(writes)|].WriteDpi?)
      ensures r.Ok? ==> HasBaseline(source)
      ensures r.Ok? && how.Readback? && old(Truthful(script)) ==>
                Changed(BaseOf(source, old(unit.slots)[profile - 1]).preferences, patch,
                        unit.slots[profile - 1].preferences)
      ensures old(script) == [] ==> (r.Ok? <==> HasBaseline(source))
    {
      var base := LoadBaseline(profile, source);
      if base.Err? { return Err(base.error); }
      var written := WritePreferences(profile, Patched(base.value.preferences, patch), how);
      r := if written.Ok? then Ok(()) else Err(written.error);
    }

    method UpdateButtons(profile: ProfileId, patch: Patch, source: Baseline, how: Method) returns (r: Result<()>)
      requires Valid() && profile <= |unit.slots|
      modifies this`script, this`unit, this`writes
      ensures Kept() && unit.meta == old(unit.meta)
      ensures unit.slots == old(unit.slots)[profile - 1 :=
                old(unit.slots)[profile - 1].(buttons := unit.slots[profile - 1].buttons)]
      ensures writes == old(writes) || (|writes| == |old(writes)| + 1 && !writes[|old(writes)|].WriteDpi?)
      ensures r.Ok? ==> HasBaseline(source)
      ensures r.Ok? && how.Readback? && old(Truthful(script)) ==>
                Changed(BaseOf(source, old(unit.slots)[profile - 1]).buttons, patch,
                        unit.slots[profile - 1].buttons)
      ensures old(script) == [] ==> (r.Ok? <==> HasBaseline(source))
    {
      var base := LoadBaseline(profile, source);
      if base.Err? { return Err(base.error); }
      var written := WriteButtons(profile, Patched(base.value.buttons, patch), how);
      r := if written.Ok? then Ok(()) else Err(written.error);
    }

    /** Applies one profile update.  No other profile changes; and, for a rate
        update given one of its two defences, only the named sections of the
        named profile can change, on success and on every failure.  No DPI
        report leaves without this mouse's own watermark. */
    method ApplyUpdate(profile: ProfileId, update: Update, source: Baseline, desired: Option<Sections>,
                       token: Option<Token>, how: Method) returns (r: Result<()>)
      requires Valid() && profile <= |unit.slots|
      modifies this`script, this`unit, this`writes
      ensures Kept() && unit.meta == old(unit.meta)
      ensures OtherSlotsKept(profile, old(unit.slots), unit.slots)
      ensures RateGuarded(update, old(script), old(unit.slots), profile, desired) ==>
                && OnlyNamed(update, profile, old(unit.slots), unit.slots)
                && (token.Some? ==> TailsKept(token.value, old(unit.slots), unit.slots))
      ensures !OneKind(update) ==> r == Err(InvalidUpdate) && unit == old(unit) && writes == old(writes)
      ensures token.Some? ==> StampedWrites(token.value, |old(writes)|, writes)
      ensures r.Ok? && update.rate.None? ==> HasBaseline(source)
      ensures r.Ok? && how.Readback? && old(Truthful(script)) ==>
                var before := old(unit.slots)[profile - 1];
                UpdatedTo(before, if update.rate.Some? then SectionsOf(before) else BaseOf(source, before),
                          update, token, unit.slots[profile - 1])
      ensures old(script) == [] ==>
                (r.Ok? <==>
                   && OneKind(update)
                   && if update.rate.Some?
                      then && old(unit.meta).current == profile
                           && desired == Some(SectionsOf(old(unit.slots)[profile - 1]))
                      else HasBaseline(source))
    {
      if !WellFormed(update) { return Err(InvalidUpdate); }
      if update.rate.Some? {
        var written := UpdateRate(profile, desired, update.rate.value, how);
        return if written.Ok? then Ok(()) else Err(written.error);
      }
      r := ApplySections(profile, update, source, token, how);
    }

    /** The section updates, in order, stopping at the first failure. */
    method ApplySections(profile: ProfileId, update: Update, source: Baseline, token: Option<Token>, how: Method)
        returns (r: Result<()>)
      requires Valid() && profile <= |unit.slots| && update.rate.None?
      modifies this`script, this`unit, this`writes
      ensures Kept() && unit.meta == old(unit.meta)
      ensures OnlyNamed(update, profile, old(unit.slots), unit.slots)
      ensures token.Some? ==> StampedWrites(token.value, |old(writes)|, writes)
      ensures token.Some? ==> TailsKept(token.value, old(unit.slots), unit.slots)
      ensures r.Ok? && WellFormed(update) ==> HasBaseline(source)
      ensures r.Ok? && how.Readback? && old(Truthful(script)) && HasBaseline(source) ==>
                var before := old(unit.slots)[profile - 1];
                UpdatedTo(before, BaseOf(source, before), update, token, unit.slots[profile - 1])
      ensures old(script) == [] && WellFormed(update) ==> (r.Ok? <==> HasBaseline(source))
    {
      if update.dpi.Some? {
        var done := UpdateDpi(profile, update.dpi.value, source, token, how);
        if done.Err? { return done; }
      }
      r := ApplyOthers(profile, update, source, how);
    }

    /** Preferences, then buttons; no DPI report. */
    method ApplyOthers(profile: ProfileId, update: Update, source: Baseline, how: Method) returns (r: Result<()>)
      requires Valid() && profile <= |unit.slots|
      modifies this`script, this`unit, this`writes
      ensures Kept() && unit.meta == old(unit.meta)
      ensures unit.slots == old(unit.slots)[profile - 1 :=
                old(unit.slots)[profile - 1].(preferences := unit.slots[profile - 1].preferences,
                                              buttons := unit.slots[profile - 1].buttons)]
      ensures update.preferences.None? ==>
                unit.slots[profile - 1].preferences == old(unit.slots)[profile - 1].preferences
      ensures update.buttons == map[] ==> unit.slots[profile - 1].buttons == old(unit.slots)[profile - 1].buttons
      ensures forall i :: |old(writes)| <= i < |writes| ==> !writes[i].WriteDpi?
      ensures r.Ok? && (update.preferences.Some? || update.buttons != map[]) ==> HasBaseline(source)
      ensures r.Ok? && how.Readback? && old(Truthful(script)) && HasBaseline(source) ==>
                var before, base := old(unit.slots)[profile - 1], BaseOf(source, old(unit.slots)[profile - 1]);
                && (update.preferences.Some? ==>
                      Changed(base.preferences, update.preferences.value, unit.slots[profile - 1].preferences))
                && (update.buttons != map[] ==>
                      Changed(base.buttons, update.buttons, unit.slots[profile - 1].buttons))
      ensures old(script) == [] ==>
                (r.Ok? <==> HasBaseline(source) || (update.preferences.None? && update.buttons == map[]))
    {
      if update.preferences.Some? {
        var done := UpdatePreferences(profile, update.preferences.value, source, how);
        if done.Err? { return done; }
      }
      if update.buttons != map[] {
        var done := UpdateButtons(profile, update.buttons, source, how);
        if done.Err? { return done; }
      }
      r := Ok(());
    }

    /** Writes one profile's captured DPI state with the token overlaid and
        confirms it by readback.  At most one DPI report is sent, and no other
        slot or section can change. */
    method StampOne(profile: ProfileId, token: Token, dpi: Dpi) returns (r: Result<()>)
      requires Valid() && profile <= |unit.slots|
      modifies this`script, this`unit, this`controls, this`writes
      ensures Kept()
      ensures writes == old(writes)
              || writes == old(writes) + [Write.WriteDpi(profile, Dpi(dpi.settings, Marked(token)))]
      ensures unit.slots == old(unit.slots)
              || unit.slots == old(unit.slots)[profile - 1 :=
                   old(unit.slots)[profile - 1].(dpi := Dpi(dpi.settings, Marked(token)))]
      ensures writes == old(writes) ==> unit.slots == old(unit.slots)
      ensures r.Ok? && old(Truthful(script)) ==>
                && unit.slots[profile - 1].dpi.settings == dpi.settings
                && unit.slots[profile - 1].dpi.tail == Marked(token)
      ensures r.Ok? ==> writes != old(writes)
      ensures r.Err? ==> !IsRestoration(r.error)
      ensures old(script) == [] ==> r.Ok?
    {
      var meta := ReadMetadata();
      if meta.Err? { return Err(meta.error); }
      var maximum := if profile > meta.value.maximum then profile else meta.value.maximum;
      var exact := WriteExactMetadata(Metadata(profile, maximum));
      if exact.Err? { return Err(exact.error); }
      var write := WriteDpi(profile, Overlay(dpi, token), Readback);
      if write.Err? { return Err(write.error); }
      // A USB readback write is never merely acknowledged.
      var actual := write.value.value;
      if Status(actual.tail) != Decoded.Valid(token) { return Err(VerificationMismatch); }
      r := Ok(());
    }

    /** Complete read used on both sides of a reload: sections, then the live
        rate, with nothing in between. */
    method ReadComplete(target: ProfileId) returns (r: Result<Complete>)
      requires Valid() && target <= |unit.slots|
      modifies this`script, this`unit
      ensures Kept() && unit.slots == old(unit.slots) && unit.meta == old(unit.meta)
      ensures r.Ok? ==> r.value.snapshot.meta == unit.meta
      ensures r.Ok? && old(Truthful(script)) ==>
                WithRate(r.value.snapshot.sections, r.value.rate) == unit.slots[target - 1]
      ensures r.Err? ==> !IsRestoration(r.error)
      ensures old(script) == [] ==> r.Ok?
    {
      var snapshot := ReadProfile(target);
      if snapshot.Err? { return Err(snapshot.error); }
      var rate := ReadLivePollingRate(target);
      r := if rate.Ok? then Ok(Complete(snapshot.value, rate.value)) else Err(rate.error);
    }

    /** Switches away from `target` and back, and reads it again. */
    method Reread(original: Metadata, away: ProfileId, target: ProfileId) returns (r: Result<Complete>)
      requires Valid() && unit.meta == original && away <= original.maximum && target <= original.maximum
      modifies this`script, this`unit, this`controls
      ensures Kept() && unit.slots == old(unit.slots)
      ensures r.Ok? ==> unit.meta == Metadata(target, original.maximum)
      ensures r.Ok? ==>
                controls == old(controls) + MetadataPlan(original, Metadata(away, original.maximum))
                                          + MetadataPlan(Metadata(away, original.maximum),
                                              Metadata(target, original.maximum))
      ensures r.Ok? && old(Truthful(script)) ==>
                WithRate(r.value.snapshot.sections, r.value.rate) == unit.slots[target - 1]
                && r.value.snapshot.meta.maximum == original.maximum
      ensures old(script) == [] ==> r.Ok?
    {
      var left := WriteExactMetadata(Metadata(away, original.maximum));
      if left.Err? { return Err(left.error); }
      var back := WriteExactMetadata(Metadata(target, original.maximum));
      if back.Err? { return Err(back.error); }
      r := ReadComplete(target);
    }

    /** The re-reading, and then the metadata as it was whatever came of it. */
    method RereadAndRestore(original: Metadata, away: ProfileId, target: ProfileId)
        returns (r: Result<Complete>, restored: Result<Metadata>)
      requires Valid() && unit.meta == original && away <= original.maximum && target <= original.maximum
      modifies this`script, this`unit, this`controls
      ensures Kept() && unit.slots == old(unit.slots)
      ensures restored.Ok? ==> unit.meta == original
      ensures r.Ok? && restored.Ok? ==> controls == old(controls) + ReloadPlan(original, away, target)
      ensures r.Ok? && old(Truthful(script)) ==>
                WithRate(r.value.snapshot.sections, r.value.rate) == unit.slots[target - 1]
                && r.value.snapshot.meta.maximum == original.maximum
      ensures old(script) == [] ==> r.Ok? && restored.Ok?
    {
      r := Reread(original, away, target);
      restored := WriteExactMetadata(original);
    }

    /** Switches away from `target` and back and compares the two complete
        reads.  No slot changes, and every exit leaves the metadata as found
        unless the restoring write is what failed.  A comparison reports no
        mismatch exactly when image, rate and maximum are the same twice. */
    method VerifyReload(target: ProfileId) returns (r: Reload)
      requires Valid()
      modifies this`script, this`unit, this`controls
      ensures Kept() && unit.slots == old(unit.slots)
      ensures !r.RestoreFailed? ==> unit.meta == old(unit.meta)
      ensures target > old(unit.meta).maximum || old(unit.meta).maximum == 1 ==> r.Failed? && controls == old(controls)
      ensures r.Compared? ==>
                (r.mismatch.None? <==>
                   && r.initial.snapshot.sections == r.reloaded.snapshot.sections && r.initial.rate == r.reloaded.rate
                   && r.initial.snapshot.meta.maximum == r.reloaded.snapshot.meta.maximum)
      ensures r.Compared? && r.mismatch.Some? ==> FirstToDiffer(r.initial, r.reloaded, r.mismatch.value)
      ensures r.Compared? ==>
                var away := if old(unit.meta).current != target then old(unit.meta).current
                            else if target == 1 then 2 else 1;
                controls == old(controls) + ReloadPlan(old(unit.meta), away, target)
      ensures r.Compared? && old(Truthful(script)) ==>
                r.mismatch.None? && WithRate(r.reloaded.snapshot.sections, r.reloaded.rate) == unit.slots[target - 1]
      ensures old(script) == [] && target <= old(unit.meta).maximum && old(unit.meta).maximum > 1 ==> r.Compared?
    {
      var read := ReadMetadata();
      if read.Err? { return Failed(read.error); }
      var original := read.value;
      if target > original.maximum { return Failed(NoAlternateProfile); }
      AlternateExistsIff(|unit.slots|, original, target);
      var away := AlternateProfile(original, target);
      if away.None? { return Failed(NoAlternateProfile); }
      var initial := ReadComplete(target);
      if initial.Err? { return Failed(initial.error); }
      var reloaded, restored := RereadAndRestore(original, away.value, target);
      if restored.Err? { return RestoreFailed(restored.error); }
      if reloaded.Err? { return Failed(reloaded.error); }
      r := Compared(initial.value, reloaded.value, FirstMismatch(initial.value, reloaded.value));
    }
  }

  /** New bytes for some positions of a section. */
  type Patch = map<nat, Byte>

  function Patched(base: seq<Byte>, patch: Patch): seq<Byte> {
    seq(|base|, i requires 0 <= i < |base| => if i in patch then patch[i] else base[i])
  }

  datatype Update = Update(dpi: Option<Patch>, preferences: Option<Patch>, buttons: Patch, rate: Option<nat>)

  predicate WellFormed(u: Update) {
    && (u.dpi.Some? || u.preferences.Some? || u.buttons != map[] || u.rate.Some?)
    && (u.rate.Some? ==> u.dpi.None? && u.preferences.None? && u.buttons == map[])
    && u.dpi != Some(map[]) && u.preferences != Some(map[])
  }

  /** An update names bytes, in no empty section, or it is one rate alone. */
  ghost predicate OneKind(u: Update) {
    && (u.rate.Some? <==> u == Update(None, None, map[], u.rate))
    && u.dpi != Some(map[]) && u.preferences != Some(map[])
  }

  /** Live hardware, or a stored or supplied copy that may be missing. */
  datatype Baseline = Live | Given(sections: Option<Sections>)

  predicate HasBaseline(source: Baseline) {
    source.Live? || source.sections.Some?
  }

  /** The delta merged onto a baseline, re-stamped when the mouse has a token. */
  function MergedDpi(base: Dpi, patch: Patch, token: Option<Token>): Dpi {
    var merged := Dpi(Patched(base.settings, patch), base.tail);
    if token.Some? then Overlay(merged, token.value) else merged
  }

  /** From index `start` on, every DPI report carries `token`'s watermark. */
  ghost predicate StampedWrites(token: Token, start: nat, writes: seq<Write>) {
    forall i :: start <= i < |writes| && writes[i].WriteDpi? ==> writes[i].dpi.tail == Marked(token)
  }

  /** No slot's tail differs except by carrying `token`'s watermark. */
  ghost predicate TailsKept(token: Token, before: seq<Image>, after: seq<Image>) {
    && |after| == |before|
    && forall i :: 0 <= i < |after| ==> after[i].dpi.tail == before[i].dpi.tail || after[i].dpi.tail == Marked(token)
  }

  /** The sections an update is merged onto. */
  function BaseOf(source: Baseline, stored: Image): Sections
    requires HasBaseline(source)
  {
    if source.Live? then SectionsOf(stored) else source.sections.value
  }

  /** Every position the patch names holds its byte, every other one the old. */
  ghost predicate Changed(base: seq<Byte>, patch: Patch, now: seq<Byte>) {
    && |now| == |base|
    && forall i :: 0 <= i < |base| ==> now[i] == if i in patch then patch[i] else base[i]
  }

  /** The named sections are the baseline's with the named bytes exchanged, the
      tail kept or exchanged for the mouse's own watermark; the rest of the slot
      is as it was. */
  ghost predicate UpdatedTo(before: Image, base: Sections, u: Update, token: Option<Token>, after: Image) {
    && (if u.dpi.None? then after.dpi == before.dpi
        else && Changed(base.dpi.settings, u.dpi.value, after.dpi.settings)
             && after.dpi.tail == if token.Some? then Marked(token.value) else base.dpi.tail)
    && (if u.preferences.None? then after.preferences == before.preferences
        else Changed(base.preferences, u.preferences.value, after.preferences))
    && (if u.buttons == map[] then after.buttons == before.buttons
        else Changed(base.buttons, u.buttons, after.buttons))
    && after.rate == if u.rate.Some? then u.rate.value else before.rate
  }

  ghost predicate OtherSlotsKept(profile: ProfileId, before: seq<Image>, after: seq<Image>) {
    |after| == |before| && forall i :: 0 <= i < |before| && i != profile - 1 ==> after[i] == before[i]
  }

  /** The four exchanges of a complete read are answered. */
  predicate Answered(script: seq<Io>) {
    |script| >= 4 && forall i :: 0 <= i < 4 ==> script[i].reported
  }

  /** What a rate update needs to touch nothing but the rate: every read loads
      its target, or no read is noisy and the desired image is the stored one. */
  ghost predicate RateGuarded(u: Update, script: seq<Io>, slots: seq<Image>, profile: ProfileId,
      desired: Option<Sections>)
    requires profile <= |slots|
  {
    u.rate.None? || Loads(script) || (NoNoise(script) && desired == Some(SectionsOf(slots[profile - 1])))
  }

  /** Nothing but the named sections of the named profile differs. */
  ghost predicate OnlyNamed(u: Update, profile: ProfileId, before: seq<Image>, after: seq<Image>) {
    && |before| == |after|
    && (forall i :: 0 <= i < |before| && i != profile - 1 ==> after[i] == before[i])
    && (profile <= |before| ==>
          var b, a := before[profile - 1], after[profile - 1];
          && (u.dpi.None? ==> a.dpi == b.dpi)
          && (u.preferences.None? ==> a.preferences == b.preferences)
          && (u.buttons == map[] ==> a.buttons == b.buttons)
          && (u.rate.None? ==> a.rate == b.rate))
  }

  datatype Method = Transport | Readback

  datatype SessionWrite<+T> = ReadbackVerified(value: T) | Acknowledged

  datatype Complete = Complete(snapshot: Snapshot, rate: nat)

  datatype Resource = ProfileMetadata | DpiSection | PreferencesSection | ButtonsSection | PollingRate

  /** `Compared` without a mismatch is the only outcome that carries
      profile-reload evidence. */
  datatype Reload =
    | Failed(error: Error)
    | RestoreFailed(error: Error)
    | Compared(initial: Complete, reloaded: Complete, mismatch: Option<Resource>)

  /** The control writes of a reload check: away, back, and as it was. */
  function ReloadPlan(original: Metadata, away: ProfileId, target: ProfileId): seq<Metadata> {
    var there, here := Metadata(away, original.maximum), Metadata(target, original.maximum);
    MetadataPlan(original, there) + MetadataPlan(there, here) + MetadataPlan(here, original)
  }

  function FirstMismatch(a: Complete, b: Complete): Option<Resource> {
    if a.snapshot.meta.maximum != b.snapshot.meta.maximum then Some(ProfileMetadata)
    else if a.snapshot.sections.dpi != b.snapshot.sections.dpi then Some(DpiSection)
    else if a.snapshot.sections.preferences != b.snapshot.sections.preferences then Some(PreferencesSection)
    else if a.snapshot.sections.buttons != b.snapshot.sections.buttons then Some(ButtonsSection)
    else if a.rate != b.rate then Some(PollingRate)
    else None
  }

  /** The resource differs, and no earlier one does. */
  ghost predicate FirstToDiffer(a: Complete, b: Complete, first: Resource) {
    var x, y := a.snapshot, b.snapshot;
    match first
    case ProfileMetadata => x.meta.maximum != y.meta.maximum
    case DpiSection => x.meta.maximum == y.meta.maximum && x.sections.dpi != y.sections.dpi
    case PreferencesSection =>
      && x.meta.maximum == y.meta.maximum && x.sections.dpi == y.sections.dpi
      && x.sections.preferences != y.sections.preferences
    case ButtonsSection =>
      && x.meta.maximum == y.meta.maximum && x.sections.dpi == y.sections.dpi
      && x.sections.preferences == y.sections.preferences && x.sections.buttons != y.sections.buttons
    case PollingRate => x.meta.maximum == y.meta.maximum && x.sections == y.sections && a.rate != b.rate
  }
}
