# emoji-clock-2, modelled in Dafny

The crate renders a time of day as a Unicode clock-face emoji. A time offers
an hour and a minute (the `TimeLike` readings). One of three strategies (`Round`, `Floor`,
`Ceil`) collapses the time onto a half-hour slot `(hour, half)`, and `clock_emoji`
turns the slot into one of the 24 clock faces U+1F550..U+1F567. A `Clock` is
either a `Dial` (the face alone) or a `DialMeridiem` (the face followed by 🌞
or 🌝). Everything is pure, so the model is made of datatypes, functions and lemmas:

- `wrappers.dfy`: module `Wrappers`, the `Option` datatype. `None` stands for `fmt::Error`.
- `emoji_clock.dfy`: module `EmojiClock`, the model of `src/lib.rs`. It has `Time` (the
  `TimeLike` record, with `u8` fields), `TimeRounding`, `Clock`, `ClockEmoji`
  (with `char::from_u32` as a partial function), `RoundTime` and `Fmt` (the `Display` impl).
  `InWindow` states what each strategy promises about the slot it picks, in minutes since midnight.
- `emoji_clock_properties.dfy`: module `EmojiClockProperties`, the lemmas. They relate
  the faces to the dial table, the rounding to `InWindow`, and the rendering to the
  rounded hour and to the time of day.

The model follows `src/lib.rs` in two places where the crate's own tests expect
something else:

- A carry into the next hour is `hour + 1` with no reduction modulo 24. So 23:45 under
  `Round`, and 23:31..23:59 under `Ceil`, round to hour 24. `Dial` still shows
  🕛 for that slot, but `DialMeridiem` returns `fmt::Error`. The test at
  `src/tests.rs:138-140` expects hour 0 instead; `NoWrapAtMidnight` and
  `MeridiemEdgeCases` record what the code does.
- The sun is shown for rounded hours 1..12 and the moon for 0 and 13..23. It is not
  an AM/PM split at noon, as `src/tests.rs:84-90` and `src/tests.rs:145-158` expect.
  `MeridiemVersusHalfDaySplit` proves that the two rules agree at every full and
  half hour except those of hours 0 and 12.

## Model

| member | source | states |
|---|---|---|
| `EmojiClock.ClockEmoji` | src/lib.rs:116-119 | For every `u8` hour, the code point is a valid character, so the `unwrap` cannot panic. It lies in the 24 clock faces U+1F550..U+1F567, and in the upper (half-hour) twelve exactly when `half_hour` is set |
| `EmojiClock.RoundTime` | src/lib.rs:121-150 | Requires hour <= 23 and minute <= 59 (the assert and the panics). The rounded hour is the input hour or the one after it. `Floor` keeps the hour. The hour is at most 24, and 24 only for input hour 23. The slot meets its strategy's promise (`InWindow`) |
| `EmojiClock.Fmt` | src/lib.rs:87-109 | Fails exactly for a `DialMeridiem` whose 23:xx time carries into hour 24. Otherwise the text is 1 character for `Dial` and 2 for `DialMeridiem`. The first character is a clock face, and the second is 🌞 or 🌝 |
| `EmojiClockProperties.DialFacesCodePoints` | src/tests.rs:42-45 | Each face in the tests' dial table is the code point its position gives: twelve first, then one to eleven, full-hour face before half-hour face |
| `EmojiClockProperties.ClockEmojiMatchesDialFaces` | src/tests.rs:46-56 | For every `u8` hour, not just 0..47, the face is the table's entry for hour mod 12 and the half flag |
| `EmojiClockProperties.ClockEmojiPeriodic` | src/lib.rs:118 | The face depends on the hour only modulo 12: hours h and h+12 give the same face |
| `EmojiClockProperties.MidnightAndNoonShowTwelve` | src/lib.rs:118 | Hours 0 and 12 both give U+1F55B (🕛), or 🕧 at the half hour |
| `EmojiClockProperties.ClockEmojiInjective` | src/lib.rs:118 | On hours 0..11, two positions give the same face if and only if they are the same position: the 24 faces are pairwise distinct |
| `EmojiClockProperties.ClockEmojiOnto` | src/lib.rs:118 | Every face in U+1F550..U+1F567 is the face of some position with hour 0..11 |
| `EmojiClockProperties.RoundTimeUnique` | src/lib.rs:36-50 | A slot meets the strategy's documented promise if and only if it is the slot `round` returns |
| `EmojiClockProperties.FloorBounds` | src/lib.rs:42-45 | `Floor` keeps the hour. The slot starts at or before the time and less than 30 minutes before it |
| `EmojiClockProperties.CeilBounds` | src/lib.rs:46-49 | `Ceil` starts the slot at or after the time and less than 30 minutes after it |
| `EmojiClockProperties.RoundBounds` | src/lib.rs:38-41 | `Round` starts the slot within 15 minutes of the time. The ties at :15 and :45 go to the later slot |
| `EmojiClockProperties.RoundingOrder` | src/lib.rs:36-50 | Slot starts are ordered Floor <= Round <= Ceil, and Ceil is at most one slot after Floor |
| `EmojiClockProperties.RoundTimeMonotonic` | src/lib.rs:121-150 | A later time never rounds to an earlier slot, under any strategy |
| `EmojiClockProperties.RoundTimeFixesSlotStarts` | src/lib.rs:130-148 | A time on a full or half hour (hour <= 23) rounds to its own slot under every strategy |
| `EmojiClockProperties.RoundTimeIdempotent` | src/lib.rs:121-150 | Rounding the start of a rounded slot again, with any strategy, gives the same slot |
| `EmojiClockProperties.HourTwentyFour` | src/lib.rs:136-147 | The rounded hour is 24 if and only if the time is 23:31..23:59 under `Ceil` or 23:45..23:59 under `Round` |
| `EmojiClockProperties.RoundingExamples` | src/tests.rs:108-134 | The example times of the rounding tests round as those tests expect |
| `EmojiClockProperties.NoWrapAtMidnight` | src/lib.rs:139-145 | 23:45 under `Round` and `Ceil`, and 23:31 under `Ceil`, give (24, false), not (0, false) |
| `EmojiClockProperties.FmtDial` | src/lib.rs:91-107 | A `Dial` renders exactly the one face of the rounded slot and never fails |
| `EmojiClockProperties.FmtDialMeridiem` | src/lib.rs:96-107 | A `DialMeridiem` renders the face followed by 🌞 if and only if the rounded hour is 1..12, or by 🌝 if and only if it is 0 or 13..23. It fails if and only if the rounded hour is 24 |
| `EmojiClockProperties.SunWindow` | src/lib.rs:99-105 | In time-of-day terms, the sun is shown for 01:00..12:59 (`Floor`), 00:31..12:30 (`Ceil`) and 00:45..12:44 (`Round`) |
| `EmojiClockProperties.FmtExamples` | src/lib.rs:4-25 | The documented renderings: 00:00 `Dial` gives 🕛, 09:25 `DialMeridiem` gives 🕤🌞 and 21:25 gives 🕤🌝 (all under `Round`) |
| `EmojiClockProperties.FmtHalfPastTwelve` | src/tests.rs:161-183 | The adapter tests' 12:30 renders as 🕧 under every strategy, so it does not depend on which strategy those tests' default is |
| `EmojiClockProperties.FmtDialOnSlotStarts` | src/tests.rs:59-79 | Every full and half hour of the day renders, under every strategy, as its face in the dial table |
| `EmojiClockProperties.MeridiemVersusHalfDaySplit` | src/tests.rs:81-106 | At full and half hours, the day-half glyph equals the noon-split one (🌞 for hours 0..11, 🌝 for 12..23) if and only if the hour is neither 0 nor 12 |
| `EmojiClockProperties.MeridiemEdgeCases` | src/lib.rs:99-105 | Midnight renders 🕛🌝 and noon 🕛🌞. 23:45 under `Round` fails for `DialMeridiem` and renders 🕛 for `Dial` |

## Left out

- `src/chrono.rs` and `src/time.rs` adapt third-party time types to `TimeLike`. They are not
  part of this model: a time is the record `Time(hour, minute)` of two `u8` values.
- The panics of `round` (the assert that hour <= 23, and the panic for minute > 59) are
  preconditions of `RoundTime` and `Fmt`. They are not modelled as aborts.
- `core::fmt::Formatter` and `write!` are not modelled. `Fmt` returns the text the
  formatter receives, or `None` for the `fmt::Error` that `fmt` itself returns. An error
  raised by the formatter's sink is not modelled.
- The test suite's `Buf` capture buffer is not modelled. Neither is the API its tests
  use but `src/lib.rs` does not define: `Clock::new`, `with_meridiem`, a default rounding,
  and custom `Meridiem { am, pm }` glyphs. Those tests appear only as lemmas, and only
  where they agree with `src/lib.rs` or to show where they do not.
- `#[non_exhaustive]`, feature flags and the doc-test harness have no behaviour to model.
