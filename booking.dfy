/** The booking modal: picking a date and a time slot, filling in the
    contact form, validating it and submitting the booking. The modal's
    open flag and mood live in the journey container it is connected to. */
module Booking {
  import opened Wrappers
  import opened Catalog
  import opened Calendar
  import opened Validation
  import opened Journey

  /** What a successful submission sends: the form, the mood, the date and
      the time slot. */
  datatype BookingRequest = BookingRequest(form: ContactForm, mood: MoodOption, date: Date, time: string)

  /** One cell of the calendar grid: a blank before the 1st, or a day button
      flagged as the selected date and as today. */
  datatype Cell = Blank(index: nat) | DayButton(day: int, isSelected: bool, isToday: bool)

  /** The button for day `day` of month `month` of year `year`: flagged as
      the picked date and as `today` when it is that date. */
  function DayCell(year: int, month: int, selected: Option<Date>, today: Date, day: int): Cell
  {
    DayButton(day, selected == Some(Date(year, month, day)), today == Date(year, month, day))
  }

  /** The button `renderCalendarDays()` draws for `day` is flagged exactly
      when `new Date(year, month, day)` of the cursor is the picked date, or
      today. */
  lemma DayCellFlags(c: Date, selected: Option<Date>, today: Date, day: int)
    requires ValidDate(c) && 1 <= day <= GetDaysInMonth(c)
    ensures DayCell(ConstructorYear(c.year), c.month, selected, today, day) ==
      DayButton(day, selected == Some(DateForDay(c, day)), today == DateForDay(c, day))
  {
  }

  /** The grid: `first` blanks numbered from 0, then the buttons for days 1
      to `daysInMonth` of the month, in ascending order. */
  method CalendarCells(first: nat, daysInMonth: nat, year: int, month: int, selected: Option<Date>, today: Date)
    returns (cells: seq<Cell>)
    ensures |cells| == first + daysInMonth
    ensures forall i :: 0 <= i < first ==> cells[i] == Blank(i)
    ensures forall i :: first <= i < |cells| ==> cells[i] == DayCell(year, month, selected, today, i - first + 1)
  {
    cells := [];
    var i := 0;
    while i < first
      invariant 0 <= i <= first
      invariant |cells| == i
      invariant forall k :: 0 <= k < i ==> cells[k] == Blank(k)
    {
      cells := cells + [Blank(i)];
      i := i + 1;
    }
    var day := 1;
    while day <= daysInMonth
      invariant 1 <= day <= daysInMonth + 1
      invariant |cells| == first + day - 1
      invariant forall k :: 0 <= k < first ==> cells[k] == Blank(k)
      invariant forall k :: first <= k < |cells| ==> cells[k] == DayCell(year, month, selected, today, k - first + 1)
    {
      var date := Date(year, month, day);
      cells := cells + [DayButton(day, selected == Some(date), today == date)];
      day := day + 1;
    }
  }

  class MoodSelector {
    const journey: JourneyContext
    var selectedDate: Option<Date>
    var selectedTime: Option<string>
    var form: ContactForm
    var errors: map<Field, string>
    var isCalendarOpen: bool
    var isMoodDropdownOpen: bool
    var currentMonth: Date

    /** The state the reset leaves: nothing picked, nothing typed, no errors. */
    ghost predicate Pristine()
      reads this
    {
      selectedDate == None && selectedTime == None && form == EMPTY_FORM && errors == map[]
    }

    /** A picked time is one of the picked date's slots; every error message
        belongs to its field; a closed modal holds no booking data. */
    ghost predicate Valid()
      reads this, journey
    {
      && journey.Valid()
      && ValidDate(currentMonth)
      && (selectedDate.Some? ==> ValidDate(selectedDate.value))
      && (selectedTime.Some? ==> selectedDate.Some? && selectedTime.value in GetTimeSlots(selectedDate.value))
      && (forall f :: f in errors ==> IsMessageFor(f, errors[f]))
      && (!journey.isModalOpen ==> Pristine())
    }

    /** The submit button is enabled once mood, date and time are all set. */
    predicate SubmitEnabled()
      reads this, journey
    {
      journey.selectedMood.Some? && selectedDate.Some? && selectedTime.Some?
    }

    /** Mounting the component: the month cursor starts at `today`. */
    constructor(journey: JourneyContext, today: Date)
      requires journey.Valid() && ValidDate(today)
      ensures this.journey == journey && currentMonth == today
      ensures Pristine() && !isCalendarOpen && !isMoodDropdownOpen
      ensures Valid()
    {
      this.journey := journey;
      selectedDate := None;
      selectedTime := None;
      form := EMPTY_FORM;
      errors := map[];
      isCalendarOpen := false;
      isMoodDropdownOpen := false;
      currentMonth := today;
    }

    /** A mood button on the page: `openModal(mood)`. */
    method OpenModal(mood: Option<MoodOption>)
      requires Valid()
      modifies journey
      ensures journey.isModalOpen
      ensures journey.selectedMood == OpenedMood(old(journey.selectedMood), mood)
      ensures Valid()
    {
      journey.OpenModal(mood);
    }

    /** `closeModal()` followed by the reset the component runs whenever the
        modal becomes closed. The calendar, the dropdown and the month cursor
        are not reset. */
    method CloseModal()
      requires Valid()
      modifies this, journey
      ensures !journey.isModalOpen && journey.selectedMood == None
      ensures Pristine()
      ensures currentMonth == old(currentMonth)
      ensures isCalendarOpen == old(isCalendarOpen) && isMoodDropdownOpen == old(isMoodDropdownOpen)
      ensures Valid()
    {
      journey.CloseModal();
      selectedDate := None;
      selectedTime := None;
      form := EMPTY_FORM;
      errors := map[];
    }

    /** A pick in the mood dropdown: `setSelectedMood(mood)` and the dropdown
        closes. */
    method SelectMood(mood: MoodOption)
      requires Valid()
      modifies this, journey
      ensures journey.selectedMood == Some(mood) && journey.isModalOpen == old(journey.isModalOpen)
      ensures !isMoodDropdownOpen
      ensures selectedDate == old(selectedDate) && selectedTime == old(selectedTime)
      ensures form == old(form) && errors == old(errors)
      ensures isCalendarOpen == old(isCalendarOpen) && currentMonth == old(currentMonth)
      ensures Valid()
    {
      journey.SetSelectedMood(mood);
      isMoodDropdownOpen := false;
    }

    method ToggleMoodDropdown()
      requires Valid()
      modifies this
      ensures isMoodDropdownOpen == !old(isMoodDropdownOpen)
      ensures selectedDate == old(selectedDate) && selectedTime == old(selectedTime)
      ensures form == old(form) && errors == old(errors)
      ensures isCalendarOpen == old(isCalendarOpen) && currentMonth == old(currentMonth)
      ensures Valid()
    {
      isMoodDropdownOpen := !isMoodDropdownOpen;
    }

    method ToggleCalendar()
      requires Valid()
      modifies this
      ensures isCalendarOpen == !old(isCalendarOpen)
      ensures selectedDate == old(selectedDate) && selectedTime == old(selectedTime)
      ensures form == old(form) && errors == old(errors)
      ensures isMoodDropdownOpen == old(isMoodDropdownOpen) && currentMonth == old(currentMonth)
      ensures Valid()
    {
      isCalendarOpen := !isCalendarOpen;
    }

    /** `handleInputChange(field, value)`: only that field of the form
        changes, and only that field's error, if any, is cleared. */
    method InputChange(field: Field, value: string)
      requires Valid() && journey.isModalOpen
      modifies this
      ensures form == old(form).With(field, value)
      ensures errors == old(errors) - {field}
      ensures forall g :: g != field ==> form.Get(g) == old(form).Get(g)
      ensures forall g :: g in errors ==> g in old(errors) && errors[g] == old(errors)[g]
      ensures selectedDate == old(selectedDate) && selectedTime == old(selectedTime)
      ensures currentMonth == old(currentMonth)
      ensures isCalendarOpen == old(isCalendarOpen) && isMoodDropdownOpen == old(isMoodDropdownOpen)
      ensures Valid()
    {
      form := form.With(field, value);
      if field in errors {
        errors := errors - {field};
      }
    }

    /** The month arrows: `changeMonth(offset)` moves the cursor with
        `setMonth`, keeping its day of month. */
    method ChangeMonth(offset: int)
      requires Valid()
      modifies this
      ensures currentMonth == Calendar.ChangeMonth(old(currentMonth), offset)
      ensures selectedDate == old(selectedDate) && selectedTime == old(selectedTime)
      ensures form == old(form) && errors == old(errors)
      ensures isCalendarOpen == old(isCalendarOpen) && isMoodDropdownOpen == old(isMoodDropdownOpen)
      ensures Valid()
    {
      currentMonth := Calendar.ChangeMonth(currentMonth, offset);
    }

    /** `handleDateSelect(day)`: the date becomes that day of the cursor's
        month, the time is cleared (the slots may differ) and the calendar
        closes. */
    method SelectDate(day: int)
      requires Valid() && journey.isModalOpen
      requires 1 <= day <= GetDaysInMonth(currentMonth)
      modifies this
      ensures selectedDate == Some(DateForDay(old(currentMonth), day))
      ensures selectedTime == None && !isCalendarOpen
      ensures form == old(form) && errors == old(errors) && currentMonth == old(currentMonth)
      ensures isMoodDropdownOpen == old(isMoodDropdownOpen)
      ensures Valid()
    {
      selectedDate := Some(DateForDay(currentMonth, day));
      selectedTime := None;
      isCalendarOpen := false;
    }

    /** A time-slot button: the slots offered are those of the picked date. */
    method SelectTime(time: string)
      requires Valid() && journey.isModalOpen
      requires selectedDate.Some? && time in GetTimeSlots(selectedDate.value)
      modifies this
      ensures selectedTime == Some(time)
      ensures selectedDate == old(selectedDate) && form == old(form) && errors == old(errors)
      ensures currentMonth == old(currentMonth)
      ensures isCalendarOpen == old(isCalendarOpen) && isMoodDropdownOpen == old(isMoodDropdownOpen)
      ensures Valid()
    {
      selectedTime := Some(time);
    }

    /** `validateForm()`: the error map is rebuilt from the form, and the
        result says whether it is empty, which `ValidationPassesIff` shows is
        exactly when all three rules pass. */
    method ValidateForm() returns (ok: bool)
      requires Valid() && journey.isModalOpen
      modifies this
      ensures errors == ErrorsFor(form)
      ensures ok <==> errors == map[]
      ensures form == old(form) && selectedDate == old(selectedDate) && selectedTime == old(selectedTime)
      ensures currentMonth == old(currentMonth)
      ensures isCalendarOpen == old(isCalendarOpen) && isMoodDropdownOpen == old(isMoodDropdownOpen)
      ensures Valid()
    {
      errors := ErrorsFor(form);
      ok := errors == map[];
      ErrorsForMessages(form);
    }

    /** `handleSubmit()`: validation always runs first; the booking goes out,
        and the modal closes with a reset, exactly when validation passes and
        a date and a time are picked (the open modal always has a mood). */
    method HandleSubmit() returns (booking: Option<BookingRequest>)
      requires Valid() && journey.isModalOpen
      modifies this, journey
      ensures booking.Some? <==> ErrorsFor(old(form)) == map[] && old(selectedDate).Some? && old(selectedTime).Some?
      ensures booking.Some? ==> old(SubmitEnabled())
      ensures booking.Some? ==>
        && booking.value == BookingRequest(old(form), old(journey.selectedMood).value, old(selectedDate).value, old(selectedTime).value)
        && booking.value.time in GetTimeSlots(booking.value.date)
        && !journey.isModalOpen && journey.selectedMood == None && Pristine()
      ensures booking.None? ==>
        && errors == ErrorsFor(old(form))
        && journey.isModalOpen && journey.selectedMood == old(journey.selectedMood)
        && form == old(form) && selectedDate == old(selectedDate) && selectedTime == old(selectedTime)
      ensures currentMonth == old(currentMonth)
      ensures isCalendarOpen == old(isCalendarOpen) && isMoodDropdownOpen == old(isMoodDropdownOpen)
      ensures Valid()
    {
      var ok := ValidateForm();
      if ok && journey.selectedMood.Some? && selectedDate.Some? && selectedTime.Some? {
        booking := Some(BookingRequest(form, journey.selectedMood.value, selectedDate.value, selectedTime.value));
        CloseModal();
      } else {
        booking := None;
      }
    }

    /** `renderCalendarDays()`: one blank per weekday before the 1st, then
        the days 1 to the month's last day in ascending order, each flagged
        as the picked date and as `today` (`GridColumnIsWeekday` puts each
        day in its weekday's column of the seven-column grid). */
    method RenderCalendarDays(today: Date) returns (cells: seq<Cell>)
      requires ValidDate(currentMonth)
      ensures |cells| == GetFirstDayOfMonth(currentMonth) + GetDaysInMonth(currentMonth)
      ensures forall i :: 0 <= i < GetFirstDayOfMonth(currentMonth) ==> cells[i] == Blank(i)
      ensures forall i :: GetFirstDayOfMonth(currentMonth) <= i < |cells| ==>
        cells[i] == DayCell(ConstructorYear(currentMonth.year), currentMonth.month, selectedDate, today,
          i - GetFirstDayOfMonth(currentMonth) + 1)
    {
      cells := CalendarCells(GetFirstDayOfMonth(currentMonth), GetDaysInMonth(currentMonth),
        ConstructorYear(currentMonth.year), currentMonth.month, selectedDate, today);
    }
  }
}
