/**
  Properties of the emoji clock: the clock-face mapping against the table of
  the 24 faces, the three rounding strategies against what each promises
  about the slot it picks, and the rendering of both clock kinds, including
  the places where the rendering departs from a wrap-around at midnight and
  from an AM/PM split at noon.
 */
module EmojiClockProperties {

  import opened Wrappers
  import opened EmojiClock

  /**
    The 24 clock faces in dial order: for each position of the hour hand,
    twelve first and then one to eleven, the full-hour face followed by the
    half-hour face.
   */
  const DialFaces: seq<char> := [
    '🕛', '🕧', '🕐', '🕜', '🕑', '🕝', '🕒', '🕞', '🕓', '🕟', '🕔', '🕠',
    '🕕', '🕡', '🕖', '🕢', '🕗', '🕣', '🕘', '🕤', '🕙', '🕥', '🕚', '🕦'
  ]

  /** The index in DialFaces of the face for an hour hand at `hour` and a minute hand at `halfHour`. */
  function DialIndex(hour: int, halfHour: bool): (i: int)
    requires 0 <= hour
    ensures 0 <= i < |DialFaces|
  {
    2 * (hour % 12) + if halfHour then 1 else 0
  }

  /** The time at which a slot begins. */
  function SlotTime(slot: (Byte, bool)): (t: Time)
    ensures Minutes(t) == SlotStart(slot)
  {
    Time(slot.0, if slot.1 then 30 else 0)
  }

  // ---------------------------------------------------------------------------
  // Clock faces

  /** Every face of the table is the code point its position in the dial order gives. */
  lemma DialFacesCodePoints(i: int)
    requires 0 <= i < 24
    ensures DialFaces[i] as int == ClockFaceBase + (i / 2 + 11) % 12 + (if i % 2 == 1 then 12 else 0)
  {
    assert i == 0 || i == 1 || i == 2 || i == 3 || i == 4 || i == 5 || i == 6 || i == 7
      || i == 8 || i == 9 || i == 10 || i == 11 || i == 12 || i == 13 || i == 14 || i == 15
      || i == 16 || i == 17 || i == 18 || i == 19 || i == 20 || i == 21 || i == 22 || i == 23;
  }

  /** The face for any byte hour is the table's face for that hour modulo 12. */
  lemma ClockEmojiMatchesDialFaces(hour: Byte, halfHour: bool)
    ensures ClockEmoji(hour, halfHour) == DialFaces[DialIndex(hour, halfHour)]
  {
    var i := DialIndex(hour, halfHour);
    DialFacesCodePoints(i);
    assert i / 2 == hour % 12 && (i % 2 == 1 <==> halfHour);
    assert (hour + 11) % 12 == (hour % 12 + 11) % 12;
  }

  /** The face depends on the hour only modulo 12. */
  lemma ClockEmojiPeriodic(hour: Byte, halfHour: bool)
    requires hour + 12 < 256
    ensures ClockEmoji(hour, halfHour) == ClockEmoji(hour + 12, halfHour)
  {
  }

  /** Midnight and noon both show U+1F55B CLOCK FACE TWELVE OCLOCK. */
  lemma MidnightAndNoonShowTwelve()
    ensures ClockEmoji(0, false) == ClockEmoji(12, false) == '🕛'
    ensures ClockEmoji(0, true) == ClockEmoji(12, true) == '🕧'
  {
  }

  /** The 24 positions (hour 0..11, half) give pairwise distinct faces. */
  lemma ClockEmojiInjective(h1: Byte, b1: bool, h2: Byte, b2: bool)
    requires h1 < 12 && h2 < 12
    ensures ClockEmoji(h1, b1) == ClockEmoji(h2, b2) <==> h1 == h2 && b1 == b2
  {
  }

  /** Every clock face of the block is the face of some position: the 24 positions cover it. */
  lemma ClockEmojiOnto(c: char)
    requires IsClockFace(c)
    ensures exists h: Byte, b: bool :: h < 12 && ClockEmoji(h, b) == c
  {
    var offset := c as int - ClockFaceBase;
    var b := offset >= 12;
    var h: Byte := (offset % 12 + 1) % 12;
    assert ClockEmoji(h, b) as int == c as int;
  }

  // ---------------------------------------------------------------------------
  // Rounding

  /** Distinct slot starts are at least 30 minutes apart. */
  lemma SlotStartsAreThirtyApart(a: (Byte, bool), b: (Byte, bool))
    ensures SlotStart(a) < SlotStart(b) ==> SlotStart(a) + 30 <= SlotStart(b)
  {
  }

  /** The slot each strategy picks is the only slot meeting that strategy's promise. */
  lemma RoundTimeUnique(rounding: TimeRounding, t: Time, slot: (Byte, bool))
    requires t.hour <= 23 && t.minute <= 59
    ensures InWindow(rounding, Minutes(t), slot) <==> slot == RoundTime(rounding, t)
  {
    var r := RoundTime(rounding, t);
    if InWindow(rounding, Minutes(t), slot) {
      // Both starts lie in one half-open window of 30 minutes and are multiples of 30.
      assert -30 < SlotStart(slot) - SlotStart(r) < 30;
    }
  }

  /** Floor is at or before the time and within 30 minutes of it. */
  lemma FloorBounds(t: Time)
    requires t.hour <= 23 && t.minute <= 59
    ensures RoundTime(Floor, t).0 == t.hour
    ensures Minutes(t) - 30 < SlotStart(RoundTime(Floor, t)) <= Minutes(t)
  {
  }

  /** Ceil is at or after the time and less than 30 minutes after it. */
  lemma CeilBounds(t: Time)
    requires t.hour <= 23 && t.minute <= 59
    ensures Minutes(t) <= SlotStart(RoundTime(Ceil, t)) < Minutes(t) + 30
  {
  }

  /** Round is within 15 minutes, and the two ties, :15 and :45, go upward. */
  lemma RoundBounds(t: Time)
    requires t.hour <= 23 && t.minute <= 59
    ensures -15 < SlotStart(RoundTime(Round, t)) - Minutes(t) <= 15
    ensures t.minute == 15 ==> RoundTime(Round, t) == (t.hour, true)
    ensures t.minute == 45 ==> RoundTime(Round, t) == (t.hour + 1, false)
  {
  }

  /** The three strategies are ordered, and Floor and Ceil are never more than one slot apart. */
  lemma RoundingOrder(t: Time)
    requires t.hour <= 23 && t.minute <= 59
    ensures SlotStart(RoundTime(Floor, t)) <= SlotStart(RoundTime(Round, t))
    ensures SlotStart(RoundTime(Round, t)) <= SlotStart(RoundTime(Ceil, t))
    ensures SlotStart(RoundTime(Ceil, t)) <= SlotStart(RoundTime(Floor, t)) + 30
  {
  }

  /** A later time never rounds to an earlier slot. */
  lemma RoundTimeMonotonic(rounding: TimeRounding, t1: Time, t2: Time)
    requires t1.hour <= 23 && t1.minute <= 59 && t2.hour <= 23 && t2.minute <= 59
    requires Minutes(t1) <= Minutes(t2)
    ensures SlotStart(RoundTime(rounding, t1)) <= SlotStart(RoundTime(rounding, t2))
  {
    var s1, s2 := RoundTime(rounding, t1), RoundTime(rounding, t2);
    SlotStartsAreThirtyApart(s2, s1);
  }

  /** Rounding leaves a time that already starts a slot where it is, under every strategy. */
  lemma RoundTimeFixesSlotStarts(rounding: TimeRounding, slot: (Byte, bool))
    requires slot.0 <= 23
    ensures RoundTime(rounding, SlotTime(slot)) == slot
  {
    RoundTimeUnique(rounding, SlotTime(slot), slot);
  }

  /** Rounding an already rounded time, with any strategy, changes nothing. */
  lemma RoundTimeIdempotent(first: TimeRounding, second: TimeRounding, t: Time)
    requires t.hour <= 23 && t.minute <= 59
    requires RoundTime(first, t).0 <= 23
    ensures RoundTime(second, SlotTime(RoundTime(first, t))) == RoundTime(first, t)
  {
    RoundTimeFixesSlotStarts(second, RoundTime(first, t));
  }

  /** The rounded hour is 24 exactly when a 23:xx time carries into the next hour. */
  lemma HourTwentyFour(rounding: TimeRounding, t: Time)
    requires t.hour <= 23 && t.minute <= 59
    ensures RoundTime(rounding, t).0 == 24 <==> CarriesPastMidnight(rounding, t)
  {
  }

  /** The example times of the rounding tests, each of them agreeing with the model. */
  lemma RoundingExamples()
    ensures RoundTime(Floor, Time(1, 0)) == (1, false) && RoundTime(Floor, Time(2, 29)) == (2, false)
    ensures RoundTime(Floor, Time(3, 30)) == (3, true) && RoundTime(Floor, Time(3, 59)) == (3, true)
    ensures RoundTime(Ceil, Time(1, 0)) == (1, false) && RoundTime(Ceil, Time(2, 29)) == (2, true)
    ensures RoundTime(Ceil, Time(3, 30)) == (3, true) && RoundTime(Ceil, Time(3, 59)) == (4, false)
    ensures RoundTime(Round, Time(1, 0)) == (1, false) && RoundTime(Round, Time(2, 14)) == (2, false)
    ensures RoundTime(Round, Time(3, 15)) == (3, true) && RoundTime(Round, Time(4, 44)) == (4, true)
    ensures RoundTime(Round, Time(5, 45)) == (6, false)
  {
  }

  /** 23:45 rounds to hour 24 under Round and Ceil; it does not wrap to hour 0. */
  lemma NoWrapAtMidnight()
    ensures RoundTime(Round, Time(23, 45)) == (24, false) != (0, false)
    ensures RoundTime(Ceil, Time(23, 45)) == (24, false) != (0, false)
    ensures RoundTime(Ceil, Time(23, 31)) == (24, false)
  {
  }

  // ---------------------------------------------------------------------------
  // Rendering

  /** A Dial renders exactly the one face of the rounded time, and never fails. */
  lemma FmtDial(t: Time, rounding: TimeRounding)
    requires t.hour <= 23 && t.minute <= 59
    ensures Fmt(Dial(t, rounding)) == Some([ClockEmoji(RoundTime(rounding, t).0, RoundTime(rounding, t).1)])
  {
    var (hour, halfHour) := RoundTime(rounding, t);
    var face := ClockEmoji(hour, halfHour);
    assert [face] + "" == [face];
  }

  /**
    A DialMeridiem renders the face of the rounded time followed by the sun
    exactly for rounded hours 1..12, by the moon exactly for rounded hours 0
    and 13..23, and fails exactly for rounded hour 24.
   */
  lemma FmtDialMeridiem(t: Time, rounding: TimeRounding)
    requires t.hour <= 23 && t.minute <= 59
    ensures var (hour, halfHour) := RoundTime(rounding, t);
      && (Fmt(DialMeridiem(t, rounding)) == Some([ClockEmoji(hour, halfHour), Sun]) <==> 1 <= hour <= 12)
      && (Fmt(DialMeridiem(t, rounding)) == Some([ClockEmoji(hour, halfHour), Moon]) <==> hour == 0 || 13 <= hour <= 23)
      && (Fmt(DialMeridiem(t, rounding)).None? <==> hour == 24)
  {
    var (hour, halfHour) := RoundTime(rounding, t);
    var face := ClockEmoji(hour, halfHour);
    assert [face] + [Sun] == [face, Sun];
    assert [face] + [Moon] == [face, Moon];
  }

  /**
    The stretch of the day, in minutes since midnight, over which a
    DialMeridiem shows the sun: it follows the rounded hour, not the time.
   */
  lemma SunWindow(t: Time, rounding: TimeRounding)
    requires t.hour <= 23 && t.minute <= 59
    ensures var r := Fmt(DialMeridiem(t, rounding));
      r.Some? && r.value[1] == Sun <==>
        match rounding
        case Floor => 60 <= Minutes(t) < 780  // 01:00..12:59
        case Ceil => 31 <= Minutes(t) <= 750  // 00:31..12:30
        case Round => 45 <= Minutes(t) < 765  // 00:45..12:44
  {
    FmtDialMeridiem(t, rounding);
  }

  /** The rendered examples of the crate documentation. */
  lemma FmtExamples()
    ensures Fmt(Dial(Time(0, 0), Round)) == Some("🕛")
    ensures Fmt(DialMeridiem(Time(9, 25), Round)) == Some("🕤🌞")
    ensures Fmt(DialMeridiem(Time(21, 25), Round)) == Some("🕤🌝")
  {
    FmtDial(Time(0, 0), Round);
    assert ClockEmoji(0, false) == '🕛';
    FmtDialMeridiem(Time(9, 25), Round);
    FmtDialMeridiem(Time(21, 25), Round);
    assert RoundTime(Round, Time(9, 25)) == (9, true) && RoundTime(Round, Time(21, 25)) == (21, true);
    assert ClockEmoji(9, true) == ClockEmoji(21, true) == '🕤';
  }

  /** The adapter tests' 12:30 renders as 🕧 whatever the strategy. */
  lemma FmtHalfPastTwelve(rounding: TimeRounding)
    ensures Fmt(Dial(Time(12, 30), rounding)) == Some("🕧")
  {
    FmtDial(Time(12, 30), rounding);
    assert RoundTime(rounding, Time(12, 30)) == (12, true);
    assert ClockEmoji(12, true) == '🕧';
  }

  /** Every full and half hour of the day renders as its face in the dial table, under every strategy. */
  lemma FmtDialOnSlotStarts(rounding: TimeRounding, hour: Byte, halfHour: bool)
    requires hour <= 23
    ensures Fmt(Dial(SlotTime((hour, halfHour)), rounding)) == Some([DialFaces[DialIndex(hour, halfHour)]])
  {
    RoundTimeFixesSlotStarts(rounding, (hour, halfHour));
    ClockEmojiMatchesDialFaces(hour, halfHour);
    FmtDial(SlotTime((hour, halfHour)), rounding);
  }

  /**
    On the full and half hours, the day-half glyph agrees with the usual
    split (sun for hours 0..11, moon for hours 12..23) at every hour except
    0 and 12, where it is the other way round.
   */
  lemma MeridiemVersusHalfDaySplit(rounding: TimeRounding, hour: Byte, halfHour: bool)
    requires hour <= 23
    ensures Fmt(DialMeridiem(SlotTime((hour, halfHour)), rounding))
      == Some([DialFaces[DialIndex(hour, halfHour)], if hour < 12 then Sun else Moon])
      <==> hour != 0 && hour != 12
  {
    RoundTimeFixesSlotStarts(rounding, (hour, halfHour));
    ClockEmojiMatchesDialFaces(hour, halfHour);
    FmtDialMeridiem(SlotTime((hour, halfHour)), rounding);
  }

  /** Midnight shows the moon and noon the sun; 23:45 under Round cannot be rendered with a day-half glyph. */
  lemma MeridiemEdgeCases()
    ensures Fmt(DialMeridiem(Time(0, 0), Round)) == Some("🕛🌝")
    ensures Fmt(DialMeridiem(Time(12, 0), Round)) == Some("🕛🌞")
    ensures Fmt(DialMeridiem(Time(23, 45), Round)) == None
    ensures Fmt(Dial(Time(23, 45), Round)) == Some("🕛")
  {
    FmtDialMeridiem(Time(0, 0), Round);
    FmtDialMeridiem(Time(12, 0), Round);
    FmtDial(Time(23, 45), Round);
  }
}
