/** The video player's seeking and its state (components/VideoPlayer.tsx).
    Times are integer milliseconds; the clamp only compares and adds them. */
module Player {

  /** `Math.max(0, Math.min(duration, current + amount))`: the target is kept
      within [0, duration], and is exactly `current + amount` when that is
      already inside. */
  function ClampSeek(current: int, amount: int, duration: nat): (r: int)
    ensures 0 <= r <= duration
    ensures 0 <= current + amount <= duration ==> r == current + amount
    ensures current + amount < 0 ==> r == 0
    ensures current + amount > duration ==> r == duration
  {
    var wanted := current + amount;
    var upper := if duration < wanted then duration else wanted;
    if 0 < upper then upper else 0
  }

  /** Before the metadata arrives the duration is 0, and every relative seek
      lands on 0. */
  lemma SeekBeforeMetadata(current: int, amount: int)
    ensures ClampSeek(current, amount, 0) == 0
  {
  }

  /** A relative seek by a larger amount never lands earlier. */
  lemma ClampMonotone(current: int, a: int, b: int, duration: nat)
    requires a <= b
    ensures ClampSeek(current, a, duration) <= ClampSeek(current, b, duration)
  {
  }

  class VideoPlayer {
    /** Whether the `<video>` element is attached (`videoRef.current`). */
    var hasElement: bool
    /** The element's own `currentTime`. */
    var elementTime: int
    /** The `currentTime` state shown by the progress bar. */
    var currentTime: int
    var duration: nat
    var isPlaying: bool
    var playbackRate: real
    /** The element's own `playbackRate`. */
    var elementRate: real
    /** The times handed to `onTimeUpdate`, oldest first. */
    var reported: seq<int>

    constructor (attached: bool)
      ensures hasElement == attached && elementTime == 0 && currentTime == 0 && duration == 0
      ensures !isPlaying && playbackRate == 1.0 && elementRate == 1.0 && reported == []
    {
      hasElement := attached;
      elementTime, currentTime := 0, 0;
      duration := 0;
      isPlaying := false;
      playbackRate, elementRate := 1.0, 1.0;
      reported := [];
    }

    /** The imperative `seek` handle: sets the element's time as given, not
        clamped; without an element it does nothing. */
    method Seek(time: int)
      modifies this`elementTime
      ensures elementTime == (if hasElement then time else old(elementTime))
    {
      if hasElement {
        elementTime := time;
      }
    }

    /** `seekBy`: the clamped target is written to the element and to the
        state and is reported, all three the same; without an element it does
        nothing. */
    method SeekBy(amount: int)
      modifies this`elementTime, this`currentTime, this`reported
      ensures hasElement ==> var t := ClampSeek(old(elementTime), amount, duration);
        elementTime == t && currentTime == t && reported == old(reported) + [t]
      ensures !hasElement ==> elementTime == old(elementTime)
      ensures !hasElement ==> currentTime == old(currentTime) && reported == old(reported)
    {
      if hasElement {
        var newTime := ClampSeek(elementTime, amount, duration);
        elementTime := newTime;
        currentTime := newTime;
        reported := reported + [newTime];
      }
    }

    /** `handleProgressChange`: dragging the progress bar sets the element's
        time and the state to the bar's value. */
    method ScrubTo(time: int)
      modifies this`elementTime, this`currentTime
      ensures hasElement ==> elementTime == time && currentTime == time
      ensures !hasElement ==> elementTime == old(elementTime) && currentTime == old(currentTime)
    {
      if hasElement {
        elementTime := time;
        currentTime := time;
      }
    }

    /** The `timeupdate` listener: the state follows the element's time, which
        is also reported. */
    method OnTimeUpdate()
      modifies this`currentTime, this`reported
      ensures currentTime == elementTime && reported == old(reported) + [elementTime]
    {
      currentTime := elementTime;
      reported := reported + [elementTime];
    }

    /** The `loadedmetadata` listener: the duration becomes the element's. */
    method OnLoadedMetadata(elementDuration: nat)
      modifies this`duration
      ensures duration == elementDuration
    {
      duration := elementDuration;
    }

    method OnPlay()
      modifies this`isPlaying
      ensures isPlaying
    {
      isPlaying := true;
    }

    method OnPause()
      modifies this`isPlaying
      ensures !isPlaying
    {
      isPlaying := false;
    }

    /** Choosing a speed: the state changes, and the effect on
        `playbackRate` copies it to the element when there is one. */
    method SetPlaybackRate(rate: real)
      modifies this`playbackRate, this`elementRate
      ensures playbackRate == rate
      ensures elementRate == (if hasElement then rate else old(elementRate))
    {
      playbackRate := rate;
      if hasElement {
        elementRate := rate;
      }
    }
  }
}
