/**
  The emoji clock: a time of day is rounded to a half-hour slot with one of
  three strategies, the slot selects one of the 24 clock-face glyphs of the
  Unicode block Miscellaneous Symbols and Pictographs (U+1F550..U+1F567), and a
  clock may append a sun or moon glyph as a day-half indicator.
 */
module EmojiClock {

  import opened Wrappers

  /** An unsigned 8-bit integer, the type of hours and minutes. */
  type Byte = x: int | 0 <= x < 256

  /** The two readings every time type offers: an hour (0..23) and a minute (0..59). */
  datatype Time = Time(hour: Byte, minute: Byte)

  /** Strategies for collapsing a time onto a 30-minute grid. */
  datatype TimeRounding =
    | Round  // to the nearest slot, ties upward: 01:45..02:14 -> 02:00, 02:15..02:44 -> 02:30
    | Floor  // down:                              02:00..02:29 -> 02:00, 02:30..02:59 -> 02:30
    | Ceil   // up:                                01:31..02:00 -> 02:00, 02:01..02:30 -> 02:30

  /** A clock to render: the dial alone, or the dial followed by a day-half glyph. */
  datatype Clock =
    | Dial(time: Time, rounding: TimeRounding)
    | DialMeridiem(time: Time, rounding: TimeRounding)

  /** U+1F550 CLOCK FACE ONE OCLOCK, the first of the 24 clock faces. */
  const ClockFaceBase: int := 128336

  /** U+1F31E SUN WITH FACE, written for hours 1..12. */
  const Sun: char := '🌞'

  /** U+1F31D FULL MOON WITH FACE, written for hour 0 and hours 13..23. */
  const Moon: char := '🌝'

  predicate IsClockFace(c: char) {
    ClockFaceBase <= c as int < ClockFaceBase + 24
  }

  /** Minutes since midnight. */
  function Minutes(t: Time): int {
    t.hour * 60 + t.minute
  }

  /** The minute since midnight at which a half-hour slot (hour, half) begins. */
  function SlotStart(slot: (int, bool)): int {
    slot.0 * 60 + if slot.1 then 30 else 0
  }

  /**
    What each strategy promises about the slot it picks for a time `minutes`
    after midnight: Floor picks the slot that contains it, Ceil the first slot
    starting at or after it, Round the slot starting closest to it, where a
    time exactly 15 minutes between two slots goes to the later one.
   */
  predicate InWindow(rounding: TimeRounding, minutes: int, slot: (int, bool)) {
    var start := SlotStart(slot);
    match rounding
    case Floor => start <= minutes < start + 30
    case Ceil => minutes <= start < minutes + 30
    case Round => minutes - 15 < start <= minutes + 15
  }

  /** Rust's char::from_u32: None for a surrogate or a value above U+10FFFF. */
  function CharFromU32(code: int): Option<char>
    requires 0 <= code < 0x1_0000_0000
  {
    if code < 0xD800 || (0xDFFF < code && code <= 0x10FFFF) then Some(code as char) else None
  }

  /**
    The clock face for an hour hand at `hour` (any byte, read modulo 12) and a
    minute hand at the full or half hour. The u32 sum is at most 128336 + 11 + 12,
    so it neither wraps nor leaves the valid code points: the unwrap cannot fail.
   */
  function ClockEmoji(hour: Byte, halfHour: bool): (c: char)
    ensures IsClockFace(c)
    ensures halfHour <==> c as int >= ClockFaceBase + 12
  {
    CharFromU32(ClockFaceBase + (hour + 11) % 12 + if halfHour then 12 else 0).value
  }

  /**
    Rounds a time to a half-hour slot (hour, half). The source asserts hour <= 23
    and panics on a minute above 59; both are preconditions here. A carry into
    the next hour adds 1 without reducing modulo 24, so 23:45 under Round and
    23:31..23:59 under Ceil yield hour 24.
   */
  function RoundTime(rounding: TimeRounding, t: Time): (slot: (Byte, bool))
    requires t.hour <= 23 && t.minute <= 59
    ensures slot.0 == t.hour || slot.0 == t.hour + 1
    ensures rounding == Floor ==> slot.0 == t.hour
    ensures slot.0 <= 24 && (slot.0 == 24 ==> t.hour == 23)
    ensures InWindow(rounding, Minutes(t), slot)
  {
    match rounding
    case Floor =>
      if t.minute <= 29 then (t.hour, false) else (t.hour, true)
    case Ceil =>
      if t.minute == 0 then (t.hour, false)
      else if t.minute <= 30 then (t.hour, true)
      else (t.hour + 1, false)
    case Round =>
      if t.minute <= 14 then (t.hour, false)
      else if t.minute <= 44 then (t.hour, true)
      else (t.hour + 1, false)
  }

  /** The day-half glyph for a rounded hour; None (fmt::Error) for any hour past 23. */
  function MeridiemGlyph(hour: Byte): Option<char> {
    if 1 <= hour <= 12 then Some(Sun)
    else if 13 <= hour <= 23 || hour == 0 then Some(Moon)
    else None
  }

  /** True when rounding carries 23:xx over into hour 24. */
  predicate CarriesPastMidnight(rounding: TimeRounding, t: Time) {
    t.hour == 23 &&
    match rounding
    case Floor => false
    case Ceil => t.minute >= 31
    case Round => t.minute >= 45
  }

  /**
    The Display rendering of a clock: the clock face of the rounded time,
    followed, for DialMeridiem, by the day-half glyph. None stands for
    fmt::Error, which only DialMeridiem can return.
   */
  function Fmt(clock: Clock): (r: Option<string>)
    requires clock.time.hour <= 23 && clock.time.minute <= 59
    ensures r.None? <==> clock.DialMeridiem? && CarriesPastMidnight(clock.rounding, clock.time)
    ensures r.Some? ==> |r.value| == (if clock.Dial? then 1 else 2) && IsClockFace(r.value[0])
    ensures r.Some? && clock.DialMeridiem? ==> r.value[1] in {Sun, Moon}
  {
    var (hour, halfHour) := RoundTime(clock.rounding, clock.time);
    var face := ClockEmoji(hour, halfHour);
    var meridiem := if clock.Dial? then Some("") else
      match MeridiemGlyph(hour)
      case Some(m) => Some([m])
      case None => None;
    match meridiem
    case Some(m) => Some([face] + m)
    case None => None
  }
}
