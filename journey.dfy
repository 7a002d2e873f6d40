/** The journey container: whether the booking modal is open and which mood
    it is open for. */
module Journey {
  import opened Wrappers
  import opened Catalog

  const NO_JOURNEY_PROVIDER := "useJourney must be used within a JourneyProvider"

  /** The mood `openModal(mood?)` leaves selected: an explicit mood wins,
      otherwise the current selection stays, and with no selection the first
      mood of the table is the default. */
  function OpenedMood(current: Option<MoodOption>, requested: Option<MoodOption>): (r: Option<MoodOption>)
    ensures r.Some?
    ensures requested.Some? ==> r == requested
    ensures requested.None? && current.Some? ==> r == current
    ensures requested.None? && current.None? ==> r == Some(MoodOption("calm", "Calm Down", "heart-space"))
  {
    if requested.Some? then requested
    else if current.None? then Some(MOODS[0])
    else current
  }

  /** Opening again with the same argument changes nothing. */
  lemma OpenedMoodIdempotent(current: Option<MoodOption>, requested: Option<MoodOption>)
    ensures OpenedMood(OpenedMood(current, requested), requested) == OpenedMood(current, requested)
  {
  }

  class JourneyContext {
    var isModalOpen: bool
    var selectedMood: Option<MoodOption>

    /** An open modal always has a mood to show. */
    ghost predicate Valid()
      reads this
    {
      isModalOpen ==> selectedMood.Some?
    }

    /** The provider starts closed with no mood. */
    constructor()
      ensures !isModalOpen && selectedMood == None
      ensures Valid()
    {
      isModalOpen := false;
      selectedMood := None;
    }

    /** `openModal(mood?)`. */
    method OpenModal(mood: Option<MoodOption>)
      modifies this
      ensures isModalOpen
      ensures selectedMood == OpenedMood(old(selectedMood), mood)
      ensures Valid()
    {
      if mood.Some? {
        selectedMood := mood;
      } else if selectedMood.None? {
        selectedMood := Some(MOODS[0]);
      }
      isModalOpen := true;
    }

    /** `closeModal()`: the result does not depend on the prior state, so a
        second call changes nothing. */
    method CloseModal()
      modifies this
      ensures !isModalOpen && selectedMood == None
      ensures Valid()
    {
      isModalOpen := false;
      selectedMood := None;
    }

    /** `setSelectedMood(mood)` leaves the modal flag alone. */
    method SetSelectedMood(mood: MoodOption)
      modifies this
      ensures selectedMood == Some(mood)
      ensures isModalOpen == old(isModalOpen)
      ensures Valid()
    {
      selectedMood := Some(mood);
    }
  }

  /** `useJourney()`: outside a provider there is no container and the hook
      fails with its message. */
  function UseJourney(provided: Option<JourneyContext>): (r: Result<JourneyContext, string>)
    ensures r.Success? <==> provided.Some?
    ensures r.Success? ==> r.value == provided.value
    ensures r.Failure? ==> r.error == NO_JOURNEY_PROVIDER
  {
    match provided
    case Some(ctx) => Success(ctx)
    case None => Failure(NO_JOURNEY_PROVIDER)
  }
}
