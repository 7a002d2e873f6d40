/** The record types of the site and its static catalog: the mood table and
    the six collection sections. */
module Catalog {
  import opened Wrappers

  /** One card of a collection; `subtitle` and `description` are optional. */
  datatype JourneyItem = JourneyItem(
    id: string,
    title: string,
    subtitle: Option<string>,
    description: Option<string>,
    image: string,
    tagline: string)

  /** The colour scheme a section is drawn in. */
  datatype Variant = Light | Dark | Image

  datatype SectionData = SectionData(
    id: string,
    title: string,
    description: string,
    tagline: string,
    items: seq<JourneyItem>,
    variant: Variant)

  /** A mood the visitor can pick, and the section it leads to. */
  datatype MoodOption = MoodOption(id: string, labelText: string, targetSection: string)

  const MOODS: seq<MoodOption> := [
    MoodOption("calm", "Calm Down", "heart-space"),
    MoodOption("held", "Feel Held", "voice-of-devotion"),
    MoodOption("focus", "Focus", "string-theory"),
    MoodOption("heart", "Open Heart", "heart-space"),
    MoodOption("let-go", "Let Go", "timeless-echoes"),
    MoodOption("listen", "Just Listen", "raag-field")
  ]

  const STRING_THEORY := SectionData(
    "string-theory", "String Theory", "Instrumental Classical as Sound Archetypes",
    "Where strings dissolve thought.",
    [ JourneyItem("strings-stillness", "Strings of Stillness", Some("Twilight & Night"),
        Some("Sitar, Sarod, Sarangi"), "https://picsum.photos/seed/sitar/800/600", "Deep Listening"),
      JourneyItem("resonant-lines", "Resonant Lines", Some("Morning Clarity"),
        Some("Violin, Saraswati Veena"), "https://picsum.photos/seed/veena/800/600", "Focus & Awakening"),
      JourneyItem("eternal-drone", "The Eternal Drone", Some("Anytime"),
        Some("Tanpura, Sustained Drones"), "https://picsum.photos/seed/drone/800/600", "Grounding") ],
    Light)

  const VOICE_OF_DEVOTION := SectionData(
    "voice-of-devotion", "Voice of Devotion", "Human Emotions Transcending",
    "When devotion becomes direction.",
    [ JourneyItem("fire-within", "Fire Within", Some("Courage & Surrender"), None,
        "https://picsum.photos/seed/fire/800/600", "Ram & Nirgun Bhajans"),
      JourneyItem("the-beloved", "The Beloved", Some("Love & Longing"), None,
        "https://picsum.photos/seed/krishna/800/600", "Songs to the unseen"),
      JourneyItem("the-unbound", "The Unbound", Some("Truth & Awakening"), None,
        "https://picsum.photos/seed/kabir/800/600", "No temple. No rules.") ],
    Dark)

  const TIMELESS_ECHOES := SectionData(
    "timeless-echoes", "Timeless Echoes", "Evergreen Songs", "Songs that remember you.",
    [ JourneyItem("golden-hours", "Golden Hours", Some("Nostalgia"), None,
        "https://picsum.photos/seed/retro/800/600", "Old Hindi Classics"),
      JourneyItem("midnight-letters", "Midnight Letters", Some("Intimacy"), None,
        "https://picsum.photos/seed/letter/800/600", "Ghazals"),
      JourneyItem("sacred-fervour", "Sacred Fervour", Some("Ecstasy"), None,
        "https://picsum.photos/seed/sufi/800/600", "Qawwalis") ],
    Light)

  const RAAG_FIELD := SectionData(
    "raag-field", "The Raag Field", "Sound Mandalas", "Raag as an inner landscape.",
    [ JourneyItem("stillness-sunrise", "Stillness Before Sunrise", Some("Bhairav"), None,
        "https://picsum.photos/seed/sunrise/800/600", "A state of being"),
      JourneyItem("slow-blooming", "Slow Blooming Afternoon", Some("Bhimpalasi"), None,
        "https://picsum.photos/seed/afternoon/800/600", "Deep unfolding"),
      JourneyItem("twilight-fire", "Twilight Fire", Some("Yaman"), None,
        "https://picsum.photos/seed/twilight/800/600", "Evening grace") ],
    Image)

  const HEART_SPACE := SectionData(
    "heart-space", "Heart Space", "Wellness & Sound Healing", "Sound that listens back.",
    [ JourneyItem("open-soften", "Open | Soften | Receive", Some("Heart-opening"), None,
        "https://picsum.photos/seed/heart/800/600", "Vocal toning flows"),
      JourneyItem("sound-to-silence", "Sound to Silence", Some("Deep Meditative"), None,
        "https://picsum.photos/seed/silence/800/600", "Just dissolve") ],
    Light)

  const SANSKRIT_CODES := SectionData(
    "sanskrit-codes", "Primordial Codes", "Vibrational Architecture",
    "Before language, there was sound.",
    [ JourneyItem("phonetic-science", "Phonetic Science", Some("Mantra"), None,
        "https://picsum.photos/seed/sanskrit/800/600", "Vibration as structure") ],
    Dark)

  /** The six sections in the order the file defines them. */
  const SECTIONS: seq<SectionData> :=
    [STRING_THEORY, VOICE_OF_DEVOTION, TIMELESS_ECHOES, RAAG_FIELD, HEART_SPACE, SANSKRIT_CODES]

  /** No two entries of `ids` are equal. */
  predicate Distinct(ids: seq<string>)
  {
    forall i, j :: 0 <= i < j < |ids| ==> ids[i] != ids[j]
  }

  function MoodIds(moods: seq<MoodOption>): (r: seq<string>)
    ensures |r| == |moods| && forall i :: 0 <= i < |moods| ==> r[i] == moods[i].id
  {
    if moods == [] then [] else [moods[0].id] + MoodIds(moods[1..])
  }

  function SectionIds(sections: seq<SectionData>): (r: seq<string>)
    ensures |r| == |sections| && forall i :: 0 <= i < |sections| ==> r[i] == sections[i].id
  {
    if sections == [] then [] else [sections[0].id] + SectionIds(sections[1..])
  }

  /** The ids of all items of all sections, section by section. */
  function ItemIds(sections: seq<SectionData>): seq<string>
  {
    if sections == [] then [] else ItemIdsOf(sections[0].items) + ItemIds(sections[1..])
  }

  function ItemIdsOf(items: seq<JourneyItem>): (r: seq<string>)
    ensures |r| == |items| && forall i :: 0 <= i < |items| ==> r[i] == items[i].id
  {
    if items == [] then [] else [items[0].id] + ItemIdsOf(items[1..])
  }

  /** The section with the given id, if the catalog has one. */
  function SectionById(sections: seq<SectionData>, id: string): (r: Option<SectionData>)
    ensures r.Some? ==> r.value in sections && r.value.id == id
    ensures r.None? ==> forall s :: s in sections ==> s.id != id
  {
    if sections == [] then None
    else if sections[0].id == id then Some(sections[0])
    else SectionById(sections[1..], id)
  }

  /** Six moods with distinct ids; the first is "Calm Down", leading to the
      heart-space section. */
  lemma MoodTable()
    ensures |MOODS| == 6
    ensures MOODS[0] == MoodOption("calm", "Calm Down", "heart-space")
    ensures Distinct(MoodIds(MOODS))
  {
    MoodIdsListed();
    MoodIdsListedDistinct();
  }

  const MOOD_IDS: seq<string> := ["calm", "held", "focus", "heart", "let-go", "listen"]

  lemma MoodIdsListed()
    ensures MoodIds(MOODS) == MOOD_IDS
  {
  }

  lemma MoodIdsListedDistinct()
    ensures Distinct(MOOD_IDS)
  {
  }

  /** Every mood leads to one of the six sections. */
  lemma MoodTargetsExist()
    ensures forall i :: 0 <= i < |MOODS| ==> SectionById(SECTIONS, MOODS[i].targetSection).Some?
  {
    assert SECTIONS[0].id == "string-theory";
    assert SECTIONS[1].id == "voice-of-devotion";
    assert SECTIONS[2].id == "timeless-echoes";
    assert SECTIONS[3].id == "raag-field";
    assert SECTIONS[4].id == "heart-space";
  }

  /** Two different moods lead to the same section. */
  lemma MoodTargetsNotInjective()
    ensures MOODS[0].id != MOODS[3].id
    ensures MOODS[0].targetSection == MOODS[3].targetSection == "heart-space"
  {
  }

  const SECTION_IDS: seq<string> :=
    ["string-theory", "voice-of-devotion", "timeless-echoes", "raag-field", "heart-space", "sanskrit-codes"]

  lemma SectionIdsListed()
    ensures SectionIds(SECTIONS) == SECTION_IDS
  {
  }

  lemma SectionIdsListedDistinct()
    ensures Distinct(SECTION_IDS)
  {
  }

  /** A lookup by id succeeds exactly when some section carries that id. */
  lemma {:induction false} SectionByIdFound(sections: seq<SectionData>, id: string)
    ensures SectionById(sections, id).Some? <==> id in SectionIds(sections)
  {
    if sections != [] {
      SectionByIdFound(sections[1..], id);
      assert SectionIds(sections) == [sections[0].id] + SectionIds(sections[1..]);
    }
  }

  /** Every section of the catalog has at least one item. */
  lemma SectionsNonEmpty()
    ensures forall k :: 0 <= k < |SECTIONS| ==> |SECTIONS[k].items| > 0
  {
  }

  /** The six section ids, in file order, are pairwise distinct. */
  lemma SectionIdsDistinct()
    ensures SectionIds(SECTIONS) == SECTION_IDS
    ensures Distinct(SectionIds(SECTIONS))
  {
    SectionIdsListed();
    SectionIdsListedDistinct();
  }

  const ITEM_IDS: seq<string> := [
    "strings-stillness", "resonant-lines", "eternal-drone",
    "fire-within", "the-beloved", "the-unbound",
    "golden-hours", "midnight-letters", "sacred-fervour",
    "stillness-sunrise", "slow-blooming", "twilight-fire",
    "open-soften", "sound-to-silence",
    "phonetic-science"]

  /** The item ids of each section, in the order of its items. */
  lemma SectionItemIds()
    ensures ItemIdsOf(STRING_THEORY.items) == ["strings-stillness", "resonant-lines", "eternal-drone"]
    ensures ItemIdsOf(VOICE_OF_DEVOTION.items) == ["fire-within", "the-beloved", "the-unbound"]
    ensures ItemIdsOf(TIMELESS_ECHOES.items) == ["golden-hours", "midnight-letters", "sacred-fervour"]
    ensures ItemIdsOf(RAAG_FIELD.items) == ["stillness-sunrise", "slow-blooming", "twilight-fire"]
    ensures ItemIdsOf(HEART_SPACE.items) == ["open-soften", "sound-to-silence"]
    ensures ItemIdsOf(SANSKRIT_CODES.items) == ["phonetic-science"]
  {
    ItemIdsOfStringTheory();
    ItemIdsOfVoiceOfDevotion();
    ItemIdsOfTimelessEchoes();
    ItemIdsOfRaagField();
    ItemIdsOfHeartSpace();
    ItemIdsOfSanskritCodes();
  }

  lemma ItemIdsOfStringTheory()
    ensures ItemIdsOf(STRING_THEORY.items) == ["strings-stillness", "resonant-lines", "eternal-drone"]
  {
  }

  lemma ItemIdsOfVoiceOfDevotion()
    ensures ItemIdsOf(VOICE_OF_DEVOTION.items) == ["fire-within", "the-beloved", "the-unbound"]
  {
  }

  lemma ItemIdsOfTimelessEchoes()
    ensures ItemIdsOf(TIMELESS_ECHOES.items) == ["golden-hours", "midnight-letters", "sacred-fervour"]
  {
  }

  lemma ItemIdsOfRaagField()
    ensures ItemIdsOf(RAAG_FIELD.items) == ["stillness-sunrise", "slow-blooming", "twilight-fire"]
  {
  }

  lemma ItemIdsOfHeartSpace()
    ensures ItemIdsOf(HEART_SPACE.items) == ["open-soften", "sound-to-silence"]
  {
  }

  lemma ItemIdsOfSanskritCodes()
    ensures ItemIdsOf(SANSKRIT_CODES.items) == ["phonetic-science"]
  {
  }

  /** The item ids of the catalog, section by section. */
  lemma {:induction false} ItemIdsOfSix(s: seq<SectionData>)
    requires |s| == 6
    ensures ItemIds(s) == ItemIdsOf(s[0].items) + (ItemIdsOf(s[1].items) + (ItemIdsOf(s[2].items)
      + (ItemIdsOf(s[3].items) + (ItemIdsOf(s[4].items) + ItemIdsOf(s[5].items)))))
  {
    assert ItemIds(s[6..]) == [];
    assert ItemIds(s[5..]) == ItemIdsOf(s[5].items) + ItemIds(s[6..]);
    assert ItemIds(s[4..]) == ItemIdsOf(s[4].items) + ItemIds(s[5..]);
    assert ItemIds(s[3..]) == ItemIdsOf(s[3].items) + ItemIds(s[4..]);
    assert ItemIds(s[2..]) == ItemIdsOf(s[2].items) + ItemIds(s[3..]);
    assert ItemIds(s[1..]) == ItemIdsOf(s[1].items) + ItemIds(s[2..]);
  }

  lemma ItemIdsListed()
    ensures ItemIds(SECTIONS) == ITEM_IDS
  {
    SectionItemIds();
    ItemIdsOfSix(SECTIONS);
    ItemIdsJoined();
  }

  /** The per-section id lists, joined, are the fifteen ids. */
  lemma ItemIdsJoined()
    ensures ["strings-stillness", "resonant-lines", "eternal-drone"] +
      (["fire-within", "the-beloved", "the-unbound"] +
      (["golden-hours", "midnight-letters", "sacred-fervour"] +
      (["stillness-sunrise", "slow-blooming", "twilight-fire"] +
      (["open-soften", "sound-to-silence"] + ["phonetic-science"])))) == ITEM_IDS
  {
  }

  lemma ItemIdsListedDistinct()
    ensures Distinct(ITEM_IDS)
  {
  }

  /** The fifteen item ids are pairwise distinct across all sections. */
  lemma ItemIdsDistinct()
    ensures |ItemIds(SECTIONS)| == 15
    ensures Distinct(ItemIds(SECTIONS))
  {
    ItemIdsListed();
    ItemIdsListedDistinct();
  }
}
