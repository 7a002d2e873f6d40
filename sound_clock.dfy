/** The sound clock: four times of day, each bound to a track, and which of
    them the player is currently on. */
module SoundClock {
  import opened Wrappers
  import opened Player

  /** The track fields of a clock item, without icon or colour. */
  datatype ClockTrack = ClockTrack(title: string, subtitle: string, image: string)

  datatype ClockItem = ClockItem(
    id: string,
    title: string,
    subtitle: string,
    icon: Icon,
    colorClass: string,
    borderColor: string,
    track: ClockTrack)

  const CLOCK_ITEMS: seq<ClockItem> := [
    ClockItem("morning", "Morning", "Resonant Lines", Sunrise, "text-clay-400", "border-clay-500",
      ClockTrack("Resonant Lines", "Morning Clarity • Focus", "https://picsum.photos/seed/veena/100/100")),
    ClockItem("day", "Day", "Raag Field", Sun, "text-sage-400", "border-sage-500",
      ClockTrack("Slow Blooming", "Afternoon • Bhimpalasi", "https://picsum.photos/seed/afternoon/100/100")),
    ClockItem("twilight", "Twilight", "String Theory", Sunset, "text-clay-500", "border-clay-600",
      ClockTrack("Strings of Stillness", "Twilight • Deep Listening", "https://picsum.photos/seed/sitar/100/100")),
    ClockItem("night", "Night", "Midnight Letters", Moon, "text-earth-400", "border-earth-600",
      ClockTrack("Midnight Letters", "Night • Ghazal", "https://picsum.photos/seed/letter/100/100"))
  ]

  /** The track `handlePlay(item)` hands to the player: the item's track
      fields plus the item's icon and colour. */
  function TrackFor(item: ClockItem): (t: Track)
    ensures t.title == item.track.title && t.subtitle == item.track.subtitle && t.image == item.track.image
    ensures t.icon == Some(item.icon) && t.colorClass == Some(item.colorClass)
  {
    Track(item.track.title, item.track.subtitle, item.track.image, Some(item.icon), Some(item.colorClass))
  }

  /** `handlePlay(item)`. */
  method HandlePlay(player: PlayerContext, item: ClockItem)
    modifies player
    ensures player.currentTrack == TrackFor(item) && player.isPlaying
  {
    player.PlayTrack(TrackFor(item));
  }

  /** An item is active when the player's track carries its title. */
  predicate IsActive(item: ClockItem, current: Track)
  {
    current.title == item.track.title
  }

  /** An item is playing when it is active and the player is playing. */
  predicate IsPlayingItem(item: ClockItem, current: Track, isPlaying: bool)
  {
    IsActive(item, current) && isPlaying
  }

  /** The four track titles are pairwise distinct. */
  lemma ClockTitlesDistinct()
    ensures forall i, j :: 0 <= i < j < |CLOCK_ITEMS| ==> CLOCK_ITEMS[i].track.title != CLOCK_ITEMS[j].track.title
  {
    assert CLOCK_ITEMS[0].track.title == "Resonant Lines";
    assert CLOCK_ITEMS[1].track.title == "Slow Blooming";
    assert CLOCK_ITEMS[2].track.title == "Strings of Stillness";
    assert CLOCK_ITEMS[3].track.title == "Midnight Letters";
  }

  /** Whatever the player holds, at most one clock item is active. */
  lemma AtMostOneActive(current: Track)
    ensures forall i, j ::
      (0 <= i < |CLOCK_ITEMS| && 0 <= j < |CLOCK_ITEMS| &&
       IsActive(CLOCK_ITEMS[i], current) && IsActive(CLOCK_ITEMS[j], current)) ==> i == j
  {
    ClockTitlesDistinct();
  }

  /** Right after `handlePlay(CLOCK_ITEMS[i])`, that item and no other is
      active, and it is the playing item. */
  lemma PlayedItemIsTheActiveOne(i: nat, j: nat)
    requires i < |CLOCK_ITEMS| && j < |CLOCK_ITEMS|
    ensures IsActive(CLOCK_ITEMS[j], TrackFor(CLOCK_ITEMS[i])) <==> i == j
    ensures IsPlayingItem(CLOCK_ITEMS[j], TrackFor(CLOCK_ITEMS[i]), true) <==> i == j
  {
    if IsActive(CLOCK_ITEMS[j], TrackFor(CLOCK_ITEMS[i])) {
      assert IsActive(CLOCK_ITEMS[i], TrackFor(CLOCK_ITEMS[i]));
      AtMostOneActive(TrackFor(CLOCK_ITEMS[i]));
    }
  }

  /** On the default track the twilight item, and only it, is active, and
      nothing is playing. */
  lemma DefaultTrackActivatesTwilight(j: nat)
    requires j < |CLOCK_ITEMS|
    ensures CLOCK_ITEMS[2].id == "twilight"
    ensures IsActive(CLOCK_ITEMS[j], DEFAULT_TRACK) <==> j == 2
    ensures !IsPlayingItem(CLOCK_ITEMS[j], DEFAULT_TRACK, false)
  {
    assert IsActive(CLOCK_ITEMS[2], DEFAULT_TRACK);
    if IsActive(CLOCK_ITEMS[j], DEFAULT_TRACK) {
      AtMostOneActive(DEFAULT_TRACK);
    }
  }
}
