/** The audio player of the conversation page: the page's state fields
    (`isPlaying`, `currentTime`, `duration`, `volume`, `showSubtitles`), the
    media element they mirror, the transport handlers and the two media
    event listeners. */
module Player {

  /** The rewind and fast-forward buttons move by this many seconds. */
  const SkipSeconds: real := 10.0

  /** The `<audio>` element, as far as the page uses it. */
  class MediaElement {
    var paused: bool
    /** The element's own `currentTime`. */
    var position: real
    var volume: real
    var duration: real
    /** What the host makes of a position assigned to `currentTime`; the
        model does not fix it. */
    const clamp: real -> real

    /** A fresh element: paused at the start, at full volume. */
    constructor (duration: real, clamp: real -> real)
      ensures paused && position == 0.0 && volume == 1.0
      ensures this.duration == duration && this.clamp == clamp
    {
      paused := true;
      position := 0.0;
      volume := 1.0;
      this.duration := duration;
      this.clamp := clamp;
    }
  }

  datatype VolumeIcon = Muted | Speaker

  class AudioPlayer {
    var isPlaying: bool
    var currentTime: real
    var duration: real
    var volume: real
    var showSubtitles: bool
    /** `audioRef.current`: null when no element is bound. */
    const audio: MediaElement?

    /** The volume stays in the slider's range and matches the element's;
        playback is never on while captions are hidden. */
    ghost predicate Valid()
      reads this, audio
    {
      && 0.0 <= volume <= 1.0
      && (audio != null ==> audio.volume == volume)
      && (isPlaying ==> showSubtitles)
    }

    /** The page's initial state: not playing, at time 0 of an unknown
        (zero) duration, at full volume, captions hidden. */
    constructor (audio: MediaElement?)
      requires audio != null ==> audio.volume == 1.0
      ensures Valid() && this.audio == audio
      ensures !isPlaying && currentTime == 0.0 && duration == 0.0
      ensures volume == 1.0 && !showSubtitles
    {
      isPlaying := false;
      currentTime := 0.0;
      duration := 0.0;
      volume := 1.0;
      showSubtitles := false;
      this.audio := audio;
    }

    /** `togglePlay`: a paused element is started, playback is marked on and
        captions are shown; otherwise the element (if any) is paused and
        playback is marked off, captions left as they were. */
    method TogglePlay()
      requires Valid()
      modifies this, audio
      ensures Valid()
      ensures old(audio != null && audio.paused) ==>
        && !audio.paused && isPlaying && showSubtitles
      ensures !old(audio != null && audio.paused) ==>
        && (audio != null ==> audio.paused)
        && !isPlaying && showSubtitles == old(showSubtitles)
      ensures currentTime == old(currentTime) && duration == old(duration) && volume == old(volume)
      ensures audio != null ==> (audio.position == old(audio.position) && audio.volume == old(audio.volume)
        && audio.duration == old(audio.duration))
    {
      if audio != null && audio.paused {
        audio.paused := false;
        isPlaying := true;
        showSubtitles := true;
      } else {
        if audio != null {
          audio.paused := true;
        }
        isPlaying := false;
      }
    }

    /** `handleProgressChange`: with an element bound, the element is moved
        to `value` (as the host adjusts it) and `currentTime` becomes exactly
        `value`; with none, nothing changes. */
    method Seek(value: real)
      requires Valid()
      modifies this, audio
      ensures Valid()
      ensures audio != null ==> audio.position == audio.clamp(value) && currentTime == value
      ensures audio == null ==> currentTime == old(currentTime)
      ensures isPlaying == old(isPlaying) && duration == old(duration) && volume == old(volume)
        && showSubtitles == old(showSubtitles)
      ensures audio != null ==> (audio.paused == old(audio.paused) && audio.volume == old(audio.volume)
        && audio.duration == old(audio.duration))
    {
      if audio != null {
        audio.position := audio.clamp(value);
        currentTime := value;
      }
    }

    /** `skipTime`: with an element bound, its position is moved by
        `seconds` (as the host adjusts it) and `currentTime` copies the
        element's resulting position; with none, nothing changes. */
    method Skip(seconds: real)
      requires Valid()
      modifies this, audio
      ensures Valid()
      ensures audio != null ==> (audio.position == audio.clamp(old(audio.position) + seconds)
        && currentTime == audio.position)
      ensures audio == null ==> currentTime == old(currentTime)
      ensures isPlaying == old(isPlaying) && duration == old(duration) && volume == old(volume)
        && showSubtitles == old(showSubtitles)
      ensures audio != null ==> (audio.paused == old(audio.paused) && audio.volume == old(audio.volume)
        && audio.duration == old(audio.duration))
    {
      if audio != null {
        audio.position := audio.clamp(audio.position + seconds);
        currentTime := audio.position;
      }
    }

    /** The rewind button: skip back ten seconds. */
    method Rewind()
      requires Valid()
      modifies this, audio
      ensures Valid()
      ensures audio != null ==> (audio.position == audio.clamp(old(audio.position) - SkipSeconds)
        && currentTime == audio.position)
      ensures audio == null ==> currentTime == old(currentTime)
      ensures isPlaying == old(isPlaying) && duration == old(duration) && volume == old(volume)
        && showSubtitles == old(showSubtitles)
      ensures audio != null ==> (audio.paused == old(audio.paused) && audio.volume == old(audio.volume)
        && audio.duration == old(audio.duration))
    {
      Skip(-SkipSeconds);
    }

    /** The fast-forward button: skip ahead ten seconds. */
    method FastForward()
      requires Valid()
      modifies this, audio
      ensures Valid()
      ensures audio != null ==> (audio.position == audio.clamp(old(audio.position) + SkipSeconds)
        && currentTime == audio.position)
      ensures audio == null ==> currentTime == old(currentTime)
      ensures isPlaying == old(isPlaying) && duration == old(duration) && volume == old(volume)
        && showSubtitles == old(showSubtitles)
      ensures audio != null ==> (audio.paused == old(audio.paused) && audio.volume == old(audio.volume)
        && audio.duration == old(audio.duration))
    {
      Skip(SkipSeconds);
    }

    /** `handleVolumeChange`: the slider value (in `[0, 1]`) always becomes
        the page's volume, and the element's when one is bound. */
    method ChangeVolume(value: real)
      requires Valid()
      requires 0.0 <= value <= 1.0
      modifies this, audio
      ensures Valid()
      ensures volume == value
      ensures audio != null ==> audio.volume == value
      ensures isPlaying == old(isPlaying) && currentTime == old(currentTime) && duration == old(duration)
        && showSubtitles == old(showSubtitles)
      ensures audio != null ==> (audio.paused == old(audio.paused) && audio.position == old(audio.position)
        && audio.duration == old(audio.duration))
    {
      volume := value;
      if audio != null {
        audio.volume := value;
      }
    }

    /** The `loadeddata` listener: duration and current time are taken from
        the element; nothing else changes. */
    method OnLoadedData()
      requires Valid() && audio != null
      modifies this
      ensures Valid()
      ensures duration == audio.duration && currentTime == audio.position
      ensures isPlaying == old(isPlaying) && volume == old(volume) && showSubtitles == old(showSubtitles)
    {
      duration := audio.duration;
      currentTime := audio.position;
    }

    /** The `timeupdate` listener: only the current time is taken from the element. */
    method OnTimeUpdate()
      requires Valid() && audio != null
      modifies this
      ensures Valid()
      ensures currentTime == audio.position
      ensures isPlaying == old(isPlaying) && duration == old(duration) && volume == old(volume)
        && showSubtitles == old(showSubtitles)
    {
      currentTime := audio.position;
    }

    /** The volume icon: the muted one exactly at volume zero. */
    function Icon(): (icon: VolumeIcon)
      reads this
      ensures icon == Muted <==> volume == 0.0
    {
      if volume == 0.0 then Muted else Speaker
    }
  }
}
