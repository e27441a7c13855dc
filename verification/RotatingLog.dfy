/** The size-capped log with two older generations, with file I/O succeeding. */
module RotatingLog {

  type Bytes = seq<bv8>

  const NEWLINE: bv8 := 10

  /** The three files as they are on disk. */
  datatype Files = Files(base: Bytes, first: Bytes, second: Bytes)

  /** Everything still on disk, oldest byte first. */
  function Retained(f: Files): Bytes {
    f.second + f.first + f.base
  }

  /** One appended line: rotate when the base file has grown past the cap.
      `banner` is what a rotation writes to the fresh base file. */
  function Append(f: Files, cap: nat, line: Bytes, banner: Bytes): Files {
    var grown := f.base + line + [NEWLINE];
    if |grown| > cap then Files(banner + [NEWLINE], grown, f.first) else f.(base := grown)
  }

  /** What one append sends to the log. */
  function Sent(f: Files, cap: nat, line: Bytes, banner: Bytes): Bytes {
    line + [NEWLINE] + (if |f.base| + |line| + 1 > cap then banner + [NEWLINE] else [])
  }

  /** One call: the line, and the banner in case it rotates. */
  datatype Call = Call(line: Bytes, banner: Bytes)

  function AppendAll(f: Files, cap: nat, calls: seq<Call>): Files {
    if calls == [] then f
    else
      var n := |calls| - 1;
      Append(AppendAll(f, cap, calls[..n]), cap, calls[n].line, calls[n].banner)
  }

  /** Everything the calls ever logged, after what was there before. */
  function Logged(f: Files, cap: nat, calls: seq<Call>): Bytes {
    if calls == [] then Retained(f)
    else
      var n := |calls| - 1;
      Logged(f, cap, calls[..n]) + Sent(AppendAll(f, cap, calls[..n]), cap, calls[n].line, calls[n].banner)
  }

  ghost predicate IsSuffix(s: Bytes, all: Bytes) {
    |s| <= |all| && all[|all| - |s|..] == s
  }

  /** Rotating drops the oldest generation whole and nothing else. */
  lemma AppendDropsOldest(f: Files, cap: nat, line: Bytes, banner: Bytes)
    ensures var g := Append(f, cap, line, banner);
            Retained(f) + Sent(f, cap, line, banner) ==
                (if |f.base| + |line| + 1 > cap then f.second else []) + Retained(g)
  {}

  lemma AppendKeepsSuffix(f: Files, cap: nat, line: Bytes, banner: Bytes, all: Bytes)
    requires IsSuffix(Retained(f), all)
    ensures IsSuffix(Retained(Append(f, cap, line, banner)), all + Sent(f, cap, line, banner))
  {
    AppendDropsOldest(f, cap, line, banner);
    SuffixGrows(Retained(f), all, Sent(f, cap, line, banner));
    SuffixShrinks(if |f.base| + |line| + 1 > cap then f.second else [],
                  Retained(Append(f, cap, line, banner)), all + Sent(f, cap, line, banner));
  }

  /** What is on disk is always the tail of everything ever logged: nothing is
      lost in the middle, reordered or repeated. */
  lemma {:induction false} RetainedIsSuffix(f: Files, cap: nat, calls: seq<Call>)
    ensures IsSuffix(Retained(AppendAll(f, cap, calls)), Logged(f, cap, calls))
    decreases |calls|
  {
    if calls != [] {
      var n := |calls| - 1;
      RetainedIsSuffix(f, cap, calls[..n]);
      AppendKeepsSuffix(AppendAll(f, cap, calls[..n]), cap, calls[n].line, calls[n].banner, Logged(f, cap, calls[..n]));
    }
  }

  lemma SuffixGrows(s: Bytes, all: Bytes, more: Bytes)
    requires IsSuffix(s, all)
    ensures IsSuffix(s + more, all + more)
  {
    assert all + more == all[..|all| - |s|] + (s + more);
  }

  lemma SuffixShrinks(dropped: Bytes, s: Bytes, all: Bytes)
    requires IsSuffix(dropped + s, all)
    ensures IsSuffix(s, all)
  {
    assert all[|all| - |s|..] == all[|all| - |dropped + s|..][|dropped|..];
  }

  /** How often the calls rotate. */
  function Rotations(f: Files, cap: nat, calls: seq<Call>): nat {
    if calls == [] then 0
    else
      var n := |calls| - 1;
      Rotations(f, cap, calls[..n])
      + (if |AppendAll(f, cap, calls[..n]).base| + |calls[n].line| + 1 > cap then 1 else 0)
  }

  /** Once rotated, more than the last `cap` bytes are on disk, in the newest
      older generation alone; and after every append the base file is no longer
      than the cap or than its own banner. */
  lemma {:induction false} SizesBounded(f: Files, cap: nat, calls: seq<Call>, longest: nat)
    requires forall c <- calls :: |c.banner| + 1 <= longest
    ensures var g := AppendAll(f, cap, calls);
            && (Rotations(f, cap, calls) > 0 ==> |g.first| > cap && |Retained(g)| > cap)
            && (calls != [] ==> |g.base| <= cap || |g.base| <= longest)
    decreases |calls|
  {
    if calls != [] {
      var n := |calls| - 1;
      assert forall c <- calls[..n] :: c in calls;
      SizesBounded(f, cap, calls[..n], longest);
      assert calls[n] in calls;
    }
  }

  // ----- the file object ---------------------------------------------------------------

  class RotatingFile {
    var base: Bytes
    var first: Bytes
    var second: Bytes
    const maxBytes: nat
    var currentSize: nat
    /** Everything appended since the file was opened, after what it held. */
    ghost var logged: Bytes

    ghost function Contents(): Files
      reads this
    {
      Files(base, first, second)
    }

    ghost predicate Valid()
      reads this
    {
      currentSize == |base| && IsSuffix(Retained(Contents()), logged)
    }

    /** Opens over whatever the three paths hold. */
    constructor (base: Bytes, first: Bytes, second: Bytes, maxBytes: nat)
      ensures Valid() && Contents() == Files(base, first, second) && this.maxBytes == maxBytes
    {
      this.base, this.first, this.second, this.maxBytes := base, first, second, maxBytes;
      currentSize := |base|;
      logged := second + first + base;
    }

    method AppendLine(line: Bytes, banner: Bytes)
      requires Valid()
      modifies this
      ensures Valid() && Contents() == Append(old(Contents()), maxBytes, line, banner)
      ensures logged == old(logged) + Sent(old(Contents()), maxBytes, line, banner)
      ensures currentSize <= maxBytes || currentSize == |banner| + 1
    {
      ghost var before := Contents();
      var bytes := line + [NEWLINE];
      base := base + bytes;
      currentSize := currentSize + |bytes|;
      if currentSize > maxBytes { Rotate(banner); }
      logged := logged + Sent(before, maxBytes, line, banner);
      assert before.base + bytes == before.base + line + [NEWLINE];
      AppendKeepsSuffix(before, maxBytes, line, banner, old(logged));
    }

    /** Shifts the generations and starts a fresh base file with the banner. */
    method Rotate(banner: Bytes)
      modifies this`base, this`first, this`second, this`currentSize
      ensures Contents() == Files(banner + [NEWLINE], old(base), old(first)) && currentSize == |base|
    {
      second := first;
      first := base;
      base := [];
      base := base + banner + [NEWLINE];
      currentSize := |banner| + 1;
    }
  }
}
