# A verified model of the dhvaniman booking and browsing logic

dhvaniman is a small React site for guided listening journeys. Behind its
markup sit four pieces of logic, and this project models them in Dafny and
proves what they promise:

- **The booking modal** (`components/MoodSelector.tsx`). This is a state
  machine over:
  - the picked date and time slot;
  - the contact form;
  - the error map;
  - the dropdown and calendar flags;
  - a month cursor.

  It includes three field validators and Gregorian calendar-grid arithmetic.
  Time slots are derived from the weekday. The reset runs when the modal
  closes.
- **The journey container** (`context/JourneyContext.tsx`). It holds whether
  the modal is open and which mood it shows, with the default-mood rule of
  `openModal`.
- **The player container** (`context/PlayerContext.tsx`) and the sound clock
  that drives it (`components/SoundClock.tsx`). The clock decides which of
  its four items counts as active.
- **The collections page** (`components/CombinedJourney.tsx`). It flattens,
  then filters, the static catalog of `constants.ts`, and it has a total
  id-to-label map.

Files and modules:

| file | module | what it holds |
|---|---|---|
| `wrappers.dfy` | `Wrappers` | `Option` and `Result` |
| `catalog.dfy` | `Catalog` | the record types of `types.ts`; the mood table and the six sections; distinctness facts |
| `calendar.dfy` | `Calendar` | proleptic Gregorian dates; JavaScript `Date` normalisation; the picker's calendar functions; the month cursor; time slots |
| `validation.dfy` | `Validation` | whitespace and `trim`; UTF-16 length; the three field rules; the error map |
| `validation_examples.dfy` | `ValidationExamples` | a worked form that passes, and one that fails on its e-mail |
| `journey.dfy` | `Journey` | the `JourneyContext` class and `useJourney` |
| `player.dfy` | `Player` | the `PlayerContext` class, `DEFAULT_TRACK` and `usePlayer` |
| `sound_clock.dfy` | `SoundClock` | the clock table, `handlePlay` and the active-item rule |
| `booking.dfy` | `Booking` | the `MoodSelector` class: every handler of the modal and the calendar grid |
| `collections.dfy` | `Collections` | `allItems`, `filteredItems`, `getSectionLabel` and the `activeFilter` cell |

Modelling choices:

- **Dates.**
  - A date is `Date(year, month, day)` with a 0-based month, as JavaScript
    numbers months.
  - Weekdays come from a day number counted from 1 January of year 1. 0 is
    Sunday, as `getDay()` numbers them.
  - `new Date(y, m, d)` is modelled by `Calendar.Normalize`:
    - the month carries into the year;
    - day 0 is the last day of the previous month;
    - a day past the month's end spills into the next month.
  - The constructor reads years 0 to 99 as 1900 to 1999 (`ConstructorYear`).
    `setMonth` does not do this.
  - `getDaysInMonth`, `getFirstDayOfMonth` and the date a day button picks
    are defined directly on the cursor's year and month. Three lemmas prove
    each equal to the `new Date(...)` expression the component writes
    (`GetDaysInMonthIsDayZero`, `GetFirstDayOfMonthIsJsDate`,
    `DateForDayIsJsDate`).
- **The month arrows.** `changeMonth` calls `setMonth` on a cursor that
  keeps its day of month. The arrows are sometimes described as an exact
  forward/back round trip. The code is not: 31 January 2025 plus one month
  is 3 March 2025, and one month back from there is 3 February. The model
  follows the code. The round trip is proved only for days up to 28
  (`Calendar.ChangeMonthSkipsShortMonth`, `Calendar.ChangeMonthRoundTrip`).
- **Whitespace.** `trim()` and the regex class `\s` use the same set, the
  ECMAScript WhiteSpace and LineTerminator code points (`Validation.IsSpace`).
  A name's length is counted in UTF-16 code units, as `.length` counts it.
- **Patterns.** Each regex is written as a predicate shaped like the
  pattern. It is proved equivalent to a hand-coded character check: for the
  e-mail, `MatchesEmailPattern` against `IsValidEmail`; for the phone,
  `MatchesPhonePattern` against `IsValidPhone`.
- **One class for the modal.** `Booking.MoodSelector` holds a reference to
  the `JourneyContext` it is connected to. Its `CloseModal` performs both
  `closeModal()` and the reset effect, so the invariant `Valid()` can tie the
  two together. `Valid()` says:
  - a picked time is one of the picked date's slots;
  - every error message belongs to its field;
  - a closed modal holds no date, time, input or errors.

  The component renders its controls only while the modal is open. Five
  handlers require that: `InputChange`, `SelectDate`, `SelectTime`,
  `ValidateForm` and `HandleSubmit`. The mood dropdown, the calendar toggle
  and the month arrows require only `Valid()`, so the model also covers them
  on a closed modal.
- **`label`** is a Dafny keyword, so the mood's `label` field is called
  `labelText` and a filter pill's label is `text`.
- **The hooks.** `useJourney`/`usePlayer` outside their providers throw.
  They are modelled as functions that return `Failure` with the thrown
  message.

## Model

| member | source | states |
|---|---|---|
| Calendar.DaysInMonth | components/MoodSelector.tsx:136-138 | a month has 28 to 31 days, and 29 exactly for February of a Gregorian leap year |
| Calendar.Weekday | components/MoodSelector.tsx:191-193 | the weekday is in 0..6 (0 = Sunday) |
| Calendar.NextDayAdvances | components/MoodSelector.tsx:140-142 | the day after a valid date is valid, one day number later, and one weekday later mod 7, across month and year ends |
| Calendar.MonthBoundary | components/MoodSelector.tsx:136-138 | the 1st of the next month (or of January next year) follows the last day of the month |
| Calendar.WeekdayAnchors | components/MoodSelector.tsx:191-193 | 1 January 1970 is a Thursday (4) and 15 June 2024 a Saturday (6), matching `getDay()` |
| Calendar.Normalize | components/MoodSelector.tsx:150-152 | `new Date(y, m, d)` for day 0..31 always yields a valid calendar date |
| Calendar.NormalizeIsMakeDay | components/MoodSelector.tsx:136-138 | the normalised date is `d - 1` days after the 1st of month `m` (month carried into the year), as ECMAScript's MakeDay defines it |
| Calendar.GetDaysInMonth | components/MoodSelector.tsx:136-138 | `getDaysInMonth` is in 28..31 |
| Calendar.GetDaysInMonthIsDayZero | components/MoodSelector.tsx:136-138 | `new Date(year, month + 1, 0)` is the last day of the cursor's month, and its day of month is the `getDaysInMonth` value |
| Calendar.GetDaysInMonthIsLastDay | components/MoodSelector.tsx:136-138 | day `getDaysInMonth` of the month exists, the next day does not, and the next month's 1st follows it |
| Calendar.GetFirstDayOfMonth | components/MoodSelector.tsx:140-142 | `getFirstDayOfMonth` is in 0..6 |
| Calendar.GetFirstDayOfMonthIsJsDate | components/MoodSelector.tsx:140-142 | `new Date(year, month, 1)` is the 1st of the cursor's month, and `getFirstDayOfMonth` is its `getDay()` |
| Calendar.DateForDay | components/MoodSelector.tsx:150-151 | the picked day of the cursor's month is a valid date |
| Calendar.DateForDayIsJsDate | components/MoodSelector.tsx:150-151 | the date picked for a day is `new Date(year, month, day)` of the cursor's year and month |
| Calendar.GridColumnIsWeekday | components/MoodSelector.tsx:157-188 | after `firstDay` blanks, day `d` sits at index `firstDay + d - 1`, whose column mod 7 is that day's weekday |
| Calendar.ChangeMonth | components/MoodSelector.tsx:144-148 | the moved cursor is a valid date |
| Calendar.ChangeMonthMoves | components/MoodSelector.tsx:144-148 | the cursor moves by `offset` months, and one more when its day does not exist in the target month, where the day overflows |
| Calendar.ChangeMonthRoundTrip | components/MoodSelector.tsx:144-148 | for a day of month up to 28, `k` months forward then `k` back returns the cursor |
| Calendar.ChangeMonthSkipsShortMonth | components/MoodSelector.tsx:144-148 | from 31 January 2025 one month forward is 3 March, and back again is 3 February: no round trip |
| Calendar.TimeSlotsByWeekday | components/MoodSelector.tsx:191-207 | Saturday and Sunday give exactly the three morning slots, other days exactly the morning and the evening slot; the first slot is always 7:15 AM and the slots are distinct |
| Calendar.SaturdaySlots | components/MoodSelector.tsx:191-207 | 15 June 2024 (a Saturday) gets the weekend slots |
| Validation.TrimStartStrips | components/MoodSelector.tsx:86-88 | the result is a suffix of the input, everything cut is whitespace, and it does not start with whitespace |
| Validation.TrimEndStrips | components/MoodSelector.tsx:86-88 | the result is a prefix of the input, everything cut is whitespace, and it does not end with whitespace |
| Validation.TrimIsSlice | components/MoodSelector.tsx:86-88 | `trim()` is a slice with only whitespace around it, whose ends are not whitespace |
| Validation.TrimEmptyIffAllSpace | components/MoodSelector.tsx:86-86 | a trimmed value is empty exactly when the input is all whitespace |
| Validation.Utf16Length | components/MoodSelector.tsx:88-88 | the UTF-16 length is at least the number of code points |
| Validation.Utf16ShorterThanTwo | components/MoodSelector.tsx:88-88 | fewer than 2 code units means empty, or a single code point of the Basic Multilingual Plane |
| Validation.NameRule | components/MoodSelector.tsx:85-90 | the name passes exactly when its trim has at least 2 code units; "required" exactly when it is all whitespace; "at least 2 characters" exactly when its trim is one BMP character |
| Validation.IndexOf | components/MoodSelector.tsx:93-93 | the first position of the character |
| Validation.EmailSplitSound | components/MoodSelector.tsx:93-96 | any split into local part, '@', name, '.', suffix, all non-empty and free of whitespace and '@', passes the hand-coded check |
| Validation.EmailPatternIff | components/MoodSelector.tsx:93-96 | the e-mail pattern matches exactly when the string has no whitespace, exactly one '@' with a non-empty part before it, and a '.' after the '@' that is neither the first nor the last character of the domain |
| Validation.EmailRule | components/MoodSelector.tsx:93-98 | the e-mail passes exactly when it matches the pattern (a match is never blank) |
| Validation.RemoveSpaces | components/MoodSelector.tsx:104-104 | deleting whitespace leaves no whitespace, never lengthens, and leaves nothing exactly for an all-whitespace input |
| Validation.RemoveSpacesAppend | components/MoodSelector.tsx:104-104 | deleting whitespace distributes over concatenation |
| Validation.RemoveSpacesNoSpace | components/MoodSelector.tsx:104-104 | a string without whitespace is unchanged |
| Validation.PhonePatternIff | components/MoodSelector.tsx:101-104 | the phone pattern matches the whitespace-free string exactly when it is an optional '+' followed by at least ten ASCII digits or '-' |
| Validation.PhoneRule | components/MoodSelector.tsx:101-106 | the phone passes exactly when, with whitespace deleted, it matches the pattern |
| Validation.ContactForm.With | components/MoodSelector.tsx:124-124 | `{ ...prev, [field]: value }` sets that field and keeps the other two |
| Validation.ErrorsForEntries | components/MoodSelector.tsx:82-108 | the rebuilt map has an entry for a field exactly when that field fails, holding that field's message |
| Validation.FieldErrorMessage | components/MoodSelector.tsx:85-106 | each rule yields one of its own two messages |
| Validation.ErrorMessages | components/MoodSelector.tsx:82-108 | a map entry is one of its field's messages; a blank field always gets "required", which takes precedence over the format message |
| Validation.ErrorsForMessages | components/MoodSelector.tsx:82-108 | every entry of the rebuilt map is one of its own field's messages |
| Validation.ErrorsForEmpty | components/MoodSelector.tsx:82-110 | the rebuilt map is empty exactly when none of the three rules reports an error |
| Validation.ValidationPassesIff | components/MoodSelector.tsx:82-110 | the map is empty exactly when the name's trim has 2 or more code units, the e-mail matches its pattern and the phone without whitespace matches its pattern |
| ValidationExamples.ExampleNamePasses | components/MoodSelector.tsx:85-90 | "Alex Rao" passes the name rule |
| ValidationExamples.ExampleEmailPasses | components/MoodSelector.tsx:93-98 | "alex@example.com" passes the e-mail rule |
| ValidationExamples.ExampleDoubleAtFails | components/MoodSelector.tsx:93-98 | "alex@@" gets the e-mail format message |
| ValidationExamples.ExamplePhonePasses | components/MoodSelector.tsx:101-106 | "+1 555 123 4567" passes the phone rule |
| ValidationExamples.ExampleForms | components/MoodSelector.tsx:82-110 | the complete form yields no errors; the same form with "alex@@" yields exactly the e-mail format error |
| Catalog.MoodTable | constants.ts:3-10 | six moods with distinct ids, the first being calm / "Calm Down" / heart-space |
| Catalog.MoodTargetsExist | constants.ts:4-9 | every mood's target is the id of one of the six sections |
| Catalog.MoodTargetsNotInjective | constants.ts:4-7 | 'calm' and 'heart' both lead to 'heart-space' |
| Catalog.SectionIdsDistinct | constants.ts:12-178 | the six section ids, in file order, are pairwise distinct |
| Catalog.SectionsNonEmpty | constants.ts:12-178 | every section has at least one item |
| Catalog.ItemIdsDistinct | constants.ts:12-178 | the fifteen item ids are pairwise distinct across all sections |
| Journey.OpenedMood | context/JourneyContext.tsx:19-27 | after `openModal(mood?)` a mood is always selected: the explicit one, else the current one, else the first of the table |
| Journey.OpenedMoodIdempotent | context/JourneyContext.tsx:19-27 | opening twice with the same argument selects the same mood as opening once |
| Journey.JourneyContext.constructor | context/JourneyContext.tsx:16-17 | the provider starts closed with no mood |
| Journey.JourneyContext.OpenModal | context/JourneyContext.tsx:19-27 | the modal is open and the mood is `OpenedMood` of the old mood and the argument |
| Journey.JourneyContext.CloseModal | context/JourneyContext.tsx:29-32 | closed with no mood, whatever the prior state (hence idempotent) |
| Journey.JourneyContext.SetSelectedMood | context/JourneyContext.tsx:17-17 | the mood is replaced and the open flag is untouched |
| Journey.UseJourney | context/JourneyContext.tsx:41-45 | the hook succeeds exactly inside a provider, returning it, and otherwise fails with its message |
| Player.PlayerContext.constructor | context/PlayerContext.tsx:20-28 | the provider starts on the default track "Strings of Stillness", paused |
| Player.PlayerContext.PlayTrack | context/PlayerContext.tsx:30-33 | the track is replaced and playing is on; the new state depends only on the track, so playing it twice equals once |
| Player.PlayerContext.TogglePlay | context/PlayerContext.tsx:35-37 | the playing flag is negated and the track kept, so two toggles restore the state |
| Player.UsePlayer | context/PlayerContext.tsx:46-50 | the hook succeeds exactly inside a provider, returning it, and otherwise fails with its message |
| SoundClock.TrackFor | components/SoundClock.tsx:63-69 | the played track has the item's track title, subtitle and image plus the item's icon and colour |
| SoundClock.HandlePlay | components/SoundClock.tsx:63-69 | the player holds the item's track and is playing |
| SoundClock.ClockTitlesDistinct | components/SoundClock.tsx:8-61 | the four track titles are pairwise distinct |
| SoundClock.AtMostOneActive | components/SoundClock.tsx:98-99 | whatever the current track, at most one clock item is active |
| SoundClock.PlayedItemIsTheActiveOne | components/SoundClock.tsx:98-99 | after playing an item, that item and no other is active, and it is the playing item |
| SoundClock.DefaultTrackActivatesTwilight | components/SoundClock.tsx:35-47 | on the default track only the twilight item is active, and nothing is playing |
| Collections.Tag | components/CombinedJourney.tsx:36-40 | each item of a section, in order, tagged with the section's id and title |
| Collections.AllItemsLength | components/CombinedJourney.tsx:35-41 | the flattened list is as long as all sections together |
| Collections.AllItemsTagged | components/CombinedJourney.tsx:35-41 | every flattened entry is an item of some section, tagged with that section's id and title |
| Collections.AllItemsCount | components/CombinedJourney.tsx:35-41 | the page holds fifteen items |
| Collections.FilterMembership | components/CombinedJourney.tsx:43-43 | an entry survives the filter exactly when it was in the list and carries the active id |
| Collections.FilterAppend | components/CombinedJourney.tsx:43-43 | filtering commutes with concatenation, so relative order is kept |
| Collections.FilterSelectsSection | components/CombinedJourney.tsx:43-43 | with distinct section ids, filtering on a section's id gives back exactly its tagged items |
| Collections.FilterSelectsHead | components/CombinedJourney.tsx:43-43 | when no later section shares the first one's id, filtering on it keeps exactly the first section's items |
| Collections.FilterSkipsHead | components/CombinedJourney.tsx:43-43 | filtering on another id drops the first section's items entirely |
| Collections.FilterAbsent | components/CombinedJourney.tsx:43-43 | an id no section carries selects nothing |
| Collections.PillsMatchSections | components/CombinedJourney.tsx:12-28 | the page lists the six catalog sections in file order and the k-th pill selects the k-th section |
| Collections.PillShowsItsSection | components/CombinedJourney.tsx:21-43 | each pill shows exactly its section's items, and never an empty grid |
| Collections.LabelOfListedId | components/CombinedJourney.tsx:45-55 | an id gets a label other than JOURNEY exactly when it is one of the six section ids |
| Collections.SectionLabels | components/CombinedJourney.tsx:45-55 | the six ids get STRINGS, VOICES, ECHOES, LANDSCAPES, HEART RESONANCE, ANCIENT CODES; any other id gets JOURNEY |
| Collections.CollectionsBrowser.constructor | components/CombinedJourney.tsx:32-32 | the active filter starts as 'string-theory', a pill's id |
| Collections.CollectionsBrowser.SelectFilter | components/CombinedJourney.tsx:77-77 | a pill click makes its id the active filter |
| Collections.CollectionsBrowser.FilteredItems | components/CombinedJourney.tsx:43-43 | the shown items are exactly the flattened entries of the active section, and never empty |
| Booking.MoodSelector.constructor | components/MoodSelector.tsx:24-34 | nothing picked or typed, no errors, both dropdowns closed, cursor at today |
| Booking.MoodSelector.OpenModal | components/MoodSelector.tsx:230-230 | a mood button opens the modal with the default-mood rule and keeps the invariant |
| Booking.MoodSelector.CloseModal | components/MoodSelector.tsx:66-73 | closing clears the mood, date, time, form and errors, keeps the cursor and the dropdown flags, and keeps the invariant |
| Booking.MoodSelector.SelectMood | components/MoodSelector.tsx:296-299 | the mood is replaced, the dropdown closes, the open flag and the booking data are untouched |
| Booking.MoodSelector.ToggleMoodDropdown | components/MoodSelector.tsx:275-275 | only the dropdown flag flips |
| Booking.MoodSelector.ToggleCalendar | components/MoodSelector.tsx:424-424 | only the calendar flag flips |
| Booking.MoodSelector.InputChange | components/MoodSelector.tsx:123-133 | only that form field changes; only that field's error is removed, every other entry is kept and none is added; the date, time, cursor and both flags are kept |
| Booking.MoodSelector.ChangeMonth | components/MoodSelector.tsx:144-148 | the cursor becomes `setMonth(getMonth() + offset)` of itself; the booking data, the errors and both flags (so the calendar stays open) are untouched |
| Booking.MoodSelector.SelectDate | components/MoodSelector.tsx:150-155 | the date becomes that day of the cursor's month, the time is cleared and the calendar closes; the form, errors, cursor and dropdown flag are kept; the invariant (a time is always one of its date's slots) is kept |
| Booking.MoodSelector.SelectTime | components/MoodSelector.tsx:482-499 | a slot of the picked date becomes the time; the date, form, errors, cursor and both flags are kept |
| Booking.MoodSelector.ValidateForm | components/MoodSelector.tsx:82-110 | the error map is rebuilt from the form and nothing else changes; the result is true exactly when the map is empty (by `Validation.ValidationPassesIff`, when all three rules pass) |
| Booking.MoodSelector.HandleSubmit | components/MoodSelector.tsx:112-121 | validation always runs first; a booking goes out exactly when validation passes and date and time are set, and then it carries the form, mood, date and a slot of that date, and the modal is closed with no mood and reset; otherwise only the errors change; the cursor and both flags are kept either way |
| Booking.DayCellFlags | components/MoodSelector.tsx:168-170 | a day's button is flagged selected exactly when the picked date is that day of the cursor's month, and today exactly when today is |
| Booking.CalendarCells | components/MoodSelector.tsx:162-185 | `first` blanks numbered from 0, then one button for each day 1 to `daysInMonth` in ascending order |
| Booking.MoodSelector.RenderCalendarDays | components/MoodSelector.tsx:157-188 | `firstDay` blanks, then the days 1 to the month's last day in ascending order, each flagged as the picked date and as today |

## Left out

- Presentational markup, styling, icons and animations are left out. They
  carry no logic to state. The same goes for the components that only
  render: Hero, JourneySection, Workshops, PlayerBar, App and most of
  Navigation. Navigation's "Begin Journey" button is `openModal()` with no
  argument, which `Journey.JourneyContext.OpenModal` covers.
- Browser effects need a DOM, not logic, so they are left out:
  - the outside-click listener (components/MoodSelector.tsx:40-51);
  - the body-overflow lock (components/MoodSelector.tsx:54-63);
  - `scrollIntoView` after a submission (components/MoodSelector.tsx:75-80, 118).
- Locale formatting (`formatDate`, `toLocaleString`) is left out; it changes
  no state.
- The clock is not read. "Today" is a parameter of the constructor, which
  starts the month cursor at it, and of `RenderCalendarDays`.
- Dates carry no time of day, time zone or daylight-saving shift. Years are
  unbounded; JavaScript's `Date` range limit and invalid dates are not
  modelled.
- Calendar.Normalize: only day arguments 0 to 31 are modelled. These are the
  only ones the component passes.
- `console.log` of the booking is the only "send". `HandleSubmit` returns
  the booking record instead.
- React scheduling is not modelled: batching, effects running after render,
  stale closures. Each handler is one sequential update. The reset effect is
  performed inside `CloseModal`. Its run at mount changes nothing, because
  the initial state is already reset.
- Strings are sequences of Unicode scalar values. Lone surrogates cannot
  occur in the model; `Utf16Length` counts a supplementary character as two
  code units.
- The regex engine is replaced by character predicates proved equivalent to
  the patterns.
- A track's `icon` is a React element. It is reduced to the identity of the
  icon (`Player.Icon`).
- The unused `PlayerState` enum of `types.ts` is left out.
- Booking.MoodSelector.HandleSubmit: it does not require a mood, date and
  time to be set, although the disabled submit button
  (components/MoodSelector.tsx:506) keeps it from running otherwise. The
  model keeps the handler's own guard as written, so it also describes a
  submission that refreshes the errors and books nothing.
