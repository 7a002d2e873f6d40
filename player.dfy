/** The player container: the current track and whether it is playing. */
module Player {
  import opened Wrappers

  /** The icon element a track may carry; only its identity matters here. */
  datatype Icon = Sunrise | Sun | Sunset | Moon

  datatype Track = Track(
    title: string,
    subtitle: string,
    image: string,
    icon: Option<Icon>,
    colorClass: Option<string>)

  const DEFAULT_TRACK := Track(
    "Strings of Stillness", "Nikhil Banerjee Inspired", "https://picsum.photos/seed/sitar/100/100", None, None)

  const NO_PLAYER_PROVIDER := "usePlayer must be used within a PlayerProvider"

  class PlayerContext {
    var currentTrack: Track
    var isPlaying: bool

    /** The provider starts on the default track, paused. */
    constructor()
      ensures currentTrack == DEFAULT_TRACK && currentTrack.title == "Strings of Stillness"
      ensures !isPlaying
    {
      currentTrack := DEFAULT_TRACK;
      isPlaying := false;
    }

    /** `playTrack(track)`: the new state depends only on `track`, so playing
        the same track twice is the same as playing it once. */
    method PlayTrack(track: Track)
      modifies this
      ensures currentTrack == track && isPlaying
    {
      currentTrack := track;
      isPlaying := true;
    }

    /** `togglePlay()`: flips the flag and keeps the track, so two calls
        restore the state. */
    method TogglePlay()
      modifies this
      ensures isPlaying == !old(isPlaying)
      ensures currentTrack == old(currentTrack)
    {
      isPlaying := !isPlaying;
    }
  }

  /** `usePlayer()`: outside a provider there is no container and the hook
      fails with its message. */
  function UsePlayer(provided: Option<PlayerContext>): (r: Result<PlayerContext, string>)
    ensures r.Success? <==> provided.Some?
    ensures r.Success? ==> r.value == provided.value
    ensures r.Failure? ==> r.error == NO_PLAYER_PROVIDER
  {
    match provided
    case Some(ctx) => Success(ctx)
    case None => Failure(NO_PLAYER_PROVIDER)
  }
}
