/** Values shared by the driver and the identity ceremony: profile images, the
    physical unit that holds them, and the outcome of one report exchange. */
module Hardware {
  import opened Watermark

  /** One-based profile number. */
  type ProfileId = p: nat | 1 <= p witness 1

  datatype Dpi = Dpi(settings: seq<Byte>, tail: Tail)

  datatype Image = Image(dpi: Dpi, preferences: seq<Byte>, buttons: seq<Byte>, rate: nat)

  /** What a targeted profile read returns; the rate is not part of it. */
  datatype Sections = Sections(dpi: Dpi, preferences: seq<Byte>, buttons: seq<Byte>)

  function WithRate(s: Sections, rate: nat): Image {
    Image(s.dpi, s.preferences, s.buttons, rate)
  }

  function SectionsOf(image: Image): Sections {
    Sections(image.dpi, image.preferences, image.buttons)
  }

  /** Persistent current/maximum profile metadata of report 0x0c. */
  datatype Metadata = Metadata(current: ProfileId, maximum: ProfileId)

  /** A physical mouse: its stored slots, its metadata, and the working image
      that report 0x06 reads and saves.  Nothing ties `work` to any slot: it
      may be left over from whichever profile was loaded last. */
  datatype Unit = Unit(slots: seq<Image>, meta: Metadata, work: Image)

  predicate MetadataOk(n: nat, m: Metadata) {
    m.current <= m.maximum <= n
  }

  predicate UnitOk(u: Unit) {
    2 <= |u.slots| && MetadataOk(|u.slots|, u.meta)
  }

  /** Overlays a token's watermark; nothing else of the DPI state moves. */
  function Overlay(dpi: Dpi, token: Token): Dpi {
    dpi.(tail := Marked(token))
  }

  /** `now` is the image with the token's watermark and nothing else changed. */
  predicate Remarked(image: Image, token: Token, now: Image) {
    && now.dpi.settings == image.dpi.settings && now.dpi.tail == Marked(token)
    && now.preferences == image.preferences && now.buttons == image.buttons && now.rate == image.rate
  }

  /** Merely reading the current profile's tail is how a unit is identified. */
  function CurrentMark(u: Unit): Decoded
    requires UnitOk(u)
  {
    Status(u.slots[u.meta.current - 1].dpi.tail)
  }

  /** `m` holds every slot's image under its own number, and nothing else. */
  ghost predicate Captures(m: map<ProfileId, Image>, slots: seq<Image>) {
    forall p: ProfileId :: (p in m <==> p <= |slots|) && (p in m ==> m[p] == slots[p - 1])
  }

  datatype Option<+T> = None | Some(value: T)

  /** What becomes of one report exchange.  `applied`: a write takes effect;
      `reported`: the host sees success; `reload`: a write also reloads the
      working image; `loads`: a section read really loads its target; `noise`:
      the data a section or rate read returns instead of the working image's.
      The five are independent: a write may be lost silently, an error may be
      reported for a write that took effect, and a read may be answered from
      whatever was loaded before.  A metadata read tells the truth or fails. */
  datatype Io = Io(applied: bool, reported: bool, reload: bool, loads: bool, noise: Option<Image>)

  const CLEAN := Io(true, true, true, true, None)

  predicate NoNoise(script: seq<Io>) {
    forall io <- script :: io.noise.None?
  }

  predicate Loads(script: seq<Io>) {
    forall io <- script :: io.loads
  }

  /** Every section read loads its target and returns what it loaded. */
  predicate Truthful(script: seq<Io>) {
    Loads(script) && NoNoise(script)
  }

  /** Resource writes, as opposed to metadata control writes. */
  datatype Write =
    | WriteDpi(profile: ProfileId, dpi: Dpi)
    | WritePreferences(profile: ProfileId, preferences: seq<Byte>)
    | WriteButtons(profile: ProfileId, buttons: seq<Byte>)
    | WriteRate(profile: ProfileId, rate: nat)

  /** What a resource write does to the unit when it takes effect.  A section
      write loads its target; report 0x06 saves the whole working image. */
  function Effect(u: Unit, w: Write): Unit
    requires w.profile <= |u.slots|
  {
    var i := w.profile - 1;
    match w
    case WriteDpi(_, dpi) => u.(slots := u.slots[i := u.slots[i].(dpi := dpi)])
    case WritePreferences(_, preferences) => u.(slots := u.slots[i := u.slots[i].(preferences := preferences)])
    case WriteButtons(_, buttons) => u.(slots := u.slots[i := u.slots[i].(buttons := buttons)])
    case WriteRate(_, rate) =>
      var saved := u.work.(rate := rate);
      u.(work := saved, slots := u.slots[i := saved])
  }

  datatype Error =
    | TransportFailed
    | Unsupported
    | WriteVerificationMismatch
    | VerificationMismatch
    | ProfileAlreadyActive
    | ProfileNotEnabled
    | MaximumBelowCurrent
    | NoAlternateProfile
    | MissingBaseline
    | RefreshRestorationFailed
    | RefreshRestoreFailed
    | InvalidUpdate

  /** Errors that say the final restoring write itself failed. */
  predicate IsRestoration(e: Error) {
    e == RefreshRestorationFailed || e == RefreshRestoreFailed
  }

  datatype Result<+T> = Ok(value: T) | Err(error: Error)
}
