/** Whole runs of profile operations on a device whose rate report saves the
    entire working image: nothing changes except what some update named. */
module ProfileSafety {
  import opened Watermark
  import opened Hardware
  import opened Session

  /** One manager operation on an open session, with all its arguments. */
  datatype Op =
    | Modify(profile: ProfileId, update: Update, source: Baseline, desired: Option<Sections>,
             token: Option<Token>, how: Method)
    | Refresh
    | Reload(target: ProfileId)
    | SetMetadata(meta: Metadata)

  /** What one operation may do to the slots, whether or not it succeeds. */
  ghost predicate OpStep(op: Op, before: seq<Image>, after: seq<Image>) {
    if op.Modify? then OnlyNamed(op.update, op.profile, before, after) else after == before
  }

  ghost predicate OpOk(n: nat, op: Op) {
    match op
    case Modify(profile, _, _, _, _, _) => profile <= n
    case SetMetadata(meta) => MetadataOk(n, meta)
    case _ => true
  }

  /** A rate update has one of its two defences; nothing else needs any. */
  ghost predicate Guarded(op: Op, script: seq<Io>, slots: seq<Image>) {
    op.Modify? && op.profile <= |slots| ==> RateGuarded(op.update, script, slots, op.profile, op.desired)
  }

  /** Every operation, under every fault script that leaves it guarded, is such
      a step. */
  method Perform(session: UsbSession, op: Op)
    requires session.Valid() && OpOk(|session.unit.slots|, op)
    modifies session
    ensures session.Valid() && |session.unit.slots| == |old(session.unit.slots)|
    ensures old(Loads(session.script)) ==> Loads(session.script)
    ensures Guarded(op, old(session.script), old(session.unit.slots)) ==>
              OpStep(op, old(session.unit.slots), session.unit.slots)
  {
    match op {
      case Modify(profile, update, source, desired, token, how) =>
        var _ := session.ApplyUpdate(profile, update, source, desired, token, how);
      case Refresh =>
        var _ := session.CaptureAll();
      case Reload(target) =>
        var _ := session.VerifyReload(target);
      case SetMetadata(meta) =>
        var _ := session.WriteProfileMetadata(meta);
    }
  }

  /** `states[k]` are the slots before operation `k`. */
  ghost predicate IsRun(ops: seq<Op>, states: seq<seq<Image>>) {
    |states| == |ops| + 1 && forall k :: 0 <= k < |ops| ==> OpStep(ops[k], states[k], states[k + 1])
  }

  ghost predicate NamesDpi(op: Op, slot: nat) {
    op.Modify? && op.profile - 1 == slot && op.update.dpi.Some?
  }

  ghost predicate NamesPreferences(op: Op, slot: nat) {
    op.Modify? && op.profile - 1 == slot && op.update.preferences.Some?
  }

  ghost predicate NamesButtons(op: Op, slot: nat) {
    op.Modify? && op.profile - 1 == slot && op.update.buttons != map[]
  }

  ghost predicate NamesRate(op: Op, slot: nat) {
    op.Modify? && op.profile - 1 == slot && op.update.rate.Some?
  }

  /** Every section of the slot that no operation names is the same. */
  ghost predicate UnnamedKept(ops: seq<Op>, slot: nat, before: Image, after: Image) {
    && ((forall op <- ops :: !NamesDpi(op, slot)) ==> before.dpi == after.dpi)
    && ((forall op <- ops :: !NamesPreferences(op, slot)) ==> before.preferences == after.preferences)
    && ((forall op <- ops :: !NamesButtons(op, slot)) ==> before.buttons == after.buttons)
    && ((forall op <- ops :: !NamesRate(op, slot)) ==> before.rate == after.rate)
  }

  /** Over any run, a section of a slot differs at the end only if some
      operation named that very section of that very slot. */
  lemma {:induction false} UnnamedSectionsSurvive(ops: seq<Op>, states: seq<seq<Image>>, slot: nat)
    requires IsRun(ops, states) && slot < |states[0]|
    ensures |states[|ops|]| == |states[0]|
    ensures UnnamedKept(ops, slot, states[0][slot], states[|ops|][slot])
    decreases |ops|
  {
    if |ops| > 0 {
      var n := |ops| - 1;
      UnnamedSectionsSurvive(ops[..n], states[..n + 1], slot);
      assert OpStep(ops[n], states[n], states[n + 1]);
      StepKeepsUnnamed(ops[n], slot, states[n], states[n + 1]);
      UnnamedGoesOn(ops, slot, states[0][slot], states[n][slot], states[n + 1][slot]);
    }
  }

  lemma StepKeepsUnnamed(op: Op, slot: nat, before: seq<Image>, after: seq<Image>)
    requires OpStep(op, before, after) && slot < |before|
    ensures |after| == |before| && UnnamedKept([op], slot, before[slot], after[slot])
  {
    assert op in [op];
  }

  lemma UnnamedGoesOn(ops: seq<Op>, slot: nat, a: Image, b: Image, c: Image)
    requires ops != []
    requires UnnamedKept(ops[..|ops| - 1], slot, a, b) && UnnamedKept([ops[|ops| - 1]], slot, b, c)
    ensures UnnamedKept(ops, slot, a, c)
  {
    assert ops == ops[..|ops| - 1] + [ops[|ops| - 1]];
    assert forall op <- ops[..|ops| - 1] :: op in ops;
    assert forall op <- [ops[|ops| - 1]] :: op in ops;
  }

  /** The run itself, on the device.  `guarded` says that every rate update had
      one of its two defences when its turn came, which it has whenever reads
      load their target. */
  method PerformAll(session: UsbSession, ops: seq<Op>) returns (ghost guarded: bool)
    requires session.Valid() && forall op <- ops :: OpOk(|session.unit.slots|, op)
    modifies session
    ensures session.Valid() && |session.unit.slots| == |old(session.unit.slots)|
    ensures old(Loads(session.script)) ==> guarded
    ensures guarded ==>
              forall slot :: 0 <= slot < |session.unit.slots| ==>
                UnnamedKept(ops, slot, old(session.unit.slots)[slot], session.unit.slots[slot])
  {
    guarded := true;
    ghost var states := [session.unit.slots];
    for k := 0 to |ops|
      invariant session.Valid() && |session.unit.slots| == |old(session.unit.slots)|
      invariant |states| == k + 1 && states[0] == old(session.unit.slots) && states[k] == session.unit.slots
      invariant old(Loads(session.script)) ==> Loads(session.script) && guarded
      invariant guarded ==> forall i :: 0 <= i < k ==> OpStep(ops[i], states[i], states[i + 1])
    {
      assert ops[k] in ops;
      guarded := guarded && Guarded(ops[k], session.script, session.unit.slots);
      Perform(session, ops[k]);
      states := states + [session.unit.slots];
    }
    if guarded {
      forall slot | 0 <= slot < |session.unit.slots|
        ensures UnnamedKept(ops, slot, old(session.unit.slots)[slot], session.unit.slots[slot])
      {
        UnnamedSectionsSurvive(ops, states, slot);
      }
    }
  }

  /** A save-alias write touches only the target's rate exactly when the
      working image already agrees with the target slot: the load before it is
      what makes it safe. */
  lemma SaveHarmlessIff(u: Unit, p: ProfileId, rate: nat)
    requires p <= |u.slots|
    ensures Effect(u, Write.WriteRate(p, rate)).slots == u.slots[p - 1 := u.slots[p - 1].(rate := rate)]
            <==> SectionsOf(u.work) == SectionsOf(u.slots[p - 1])
  {
    var saved := Effect(u, Write.WriteRate(p, rate)).slots;
    assert saved[p - 1] == u.work.(rate := rate);
  }

  /** What the comparison alone lets through: a working image that is the
      desired one, loaded or not.  Saving it is harmless exactly when the
      desired image is the stored one. */
  lemma ComparedSaveHarmlessIff(u: Unit, p: ProfileId, desired: Sections, rate: nat)
    requires p <= |u.slots| && SectionsOf(u.work) == desired
    ensures Effect(u, Write.WriteRate(p, rate)).slots == u.slots[p - 1 := u.slots[p - 1].(rate := rate)]
            <==> desired == SectionsOf(u.slots[p - 1])
  {
    SaveHarmlessIff(u, p, rate);
  }

  /** Neither defence can be dropped: a noise-free read that did not load, and
      a desired image that is not the stored one but is what was left in the
      working image, pass the comparison and overwrite the stored buttons. */
  method UnloadedReadClobbers() returns (before: seq<Image>, after: seq<Image>)
    ensures |before| == |after| == 2 && after[1].buttons != before[1].buttons
  {
    var one := Image(Dpi([], Unmarked([])), [], [1], 1000);
    var two := Image(Dpi([], Unmarked([])), [], [2], 1000);
    before := [one, two];
    var unloaded := CLEAN.(loads := false);
    var session := new UsbSession(Unit(before, Metadata(2, 2), one), [CLEAN, unloaded, unloaded, unloaded]);
    var _ := session.UpdateRate(2, Some(SectionsOf(one)), 125, Readback);
    after := session.unit.slots;
    assert after[1] == WithRate(SectionsOf(one), 125);
  }

  /** Without the load, setting profile 2's rate while profile 1 is live
      overwrites profile 2's buttons with profile 1's. */
  lemma SkippingLoadClobbers()
    ensures exists u: Unit :: UnitOk(u) && u.work == u.slots[0]
              && Effect(u, Write.WriteRate(2, 125)).slots[1].buttons != u.slots[1].buttons
  {
    var one := Image(Dpi([], Unmarked([])), [], [1], 1000);
    var two := Image(Dpi([], Unmarked([])), [], [2], 1000);
    var u := Unit([one, two], Metadata(1, 2), one);
    assert UnitOk(u) && u.work == u.slots[0];
    assert Effect(u, Write.WriteRate(2, 125)).slots[1].buttons == [1];
  }
}
