/**
 * The webcam side: the gate that runs the landmark detectors at most once per
 * video frame (`lastVideoTime`), and the "contain" fit that sizes the live
 * video view to the window in `makeVideoFullScreen`.
 */
module Tracking {

  /** `lastVideoTime` before the first poll; video times are never negative. */
  const InitialVideoTime: real := -1.0

  datatype PollResult = PollResult(detect: bool, lastVideoTime: real)

  /**
   * One poll of `detectLandmarksInWebcam` on the video's current time: the
   * detectors run exactly when the time differs from the last one seen, and
   * afterwards the last time seen is always the current time.
   */
  function Poll(lastVideoTime: real, currentTime: real): (r: PollResult)
    ensures r.detect <==> currentTime != lastVideoTime
    ensures r.lastVideoTime == currentTime
  {
    if currentTime != lastVideoTime then PollResult(true, currentTime)
    else PollResult(false, lastVideoTime)
  }

  /** The module-level gate state of the tracking script. */
  class Tracker {
    var lastVideoTime: real

    constructor ()
      ensures lastVideoTime == InitialVideoTime
    {
      lastVideoTime := InitialVideoTime;
    }

    /**
     * A poll: reports whether the (abstracted) hand and face detectors were
     * run on this video time, and records the time.
     */
    method DetectLandmarksInWebcam(currentTime: real) returns (detected: bool)
      modifies this
      ensures detected == Poll(old(lastVideoTime), currentTime).detect
      ensures lastVideoTime == Poll(old(lastVideoTime), currentTime).lastVideoTime
    {
      if currentTime != lastVideoTime {
        lastVideoTime := currentTime;
        detected := true;
      } else {
        detected := false;
      }
    }
  }

  /** The first poll on any real video time (>= 0) runs the detectors. */
  lemma FirstPollDetects(currentTime: real)
    requires currentTime >= 0.0
    ensures Poll(InitialVideoTime, currentTime).detect
  {
  }

  /** A second poll on the same video time does nothing. */
  lemma SecondPollIdle(lastVideoTime: real, currentTime: real)
    ensures !Poll(Poll(lastVideoTime, currentTime).lastVideoTime, currentTime).detect
  {
  }

  /** The video times the detectors run on, over a run of polls. */
  function ProcessedTimes(lastVideoTime: real, times: seq<real>): seq<real>
    decreases |times|
  {
    if times == [] then []
    else
      var r := Poll(lastVideoTime, times[0]);
      (if r.detect then [times[0]] else []) + ProcessedTimes(r.lastVideoTime, times[1..])
  }

  predicate NonDecreasing(s: seq<real>)
  {
    forall i, j :: 0 <= i < j < |s| ==> s[i] <= s[j]
  }

  predicate StrictlyIncreasing(s: seq<real>)
  {
    forall i, j :: 0 <= i < j < |s| ==> s[i] < s[j]
  }

  /**
   * While the video plays forward from after the last time seen, the
   * detectors run on every distinct video time, once each and in order: the
   * processed times are strictly increasing, all after the last time seen,
   * and are exactly the polled times.
   */
  lemma {:induction false} EachFrameProcessedOnce(lastVideoTime: real, times: seq<real>)
    requires NonDecreasing(times)
    requires forall i :: 0 <= i < |times| ==> lastVideoTime <= times[i]
    ensures StrictlyIncreasing(ProcessedTimes(lastVideoTime, times))
    ensures forall i :: 0 <= i < |ProcessedTimes(lastVideoTime, times)| ==>
      lastVideoTime < ProcessedTimes(lastVideoTime, times)[i]
    ensures forall t :: t in ProcessedTimes(lastVideoTime, times) <==> t in times && t != lastVideoTime
    decreases |times|
  {
    if times != [] {
      var r := Poll(lastVideoTime, times[0]);
      var rest := times[1..];
      assert NonDecreasing(rest);
      EachFrameProcessedOnce(r.lastVideoTime, rest);
      var tail := ProcessedTimes(r.lastVideoTime, rest);
      assert ProcessedTimes(lastVideoTime, times) == (if r.detect then [times[0]] else []) + tail;
      forall t
        ensures t in times <==> t == times[0] || t in rest
      {
        if t in times {
          var i :| 0 <= i < |times| && times[i] == t;
          if i > 0 { assert rest[i - 1] == t; }
        }
      }
    }
  }

  /** A window or video size in pixels. */
  datatype Size = Size(width: real, height: real)

  /**
   * `makeVideoFullScreen`: the largest box with the video's aspect ratio that
   * fits in the window. When the window is relatively wider than the video the
   * height fills the window, otherwise the width does.
   */
  function ContainSize(window: Size, video: Size): (box: Size)
    requires window.width > 0.0 && window.height > 0.0
    requires video.width > 0.0 && video.height > 0.0
    ensures box.width * video.height == box.height * video.width
    ensures 0.0 < box.width <= window.width && 0.0 < box.height <= window.height
    ensures box.width == window.width || box.height == window.height
  {
    var windowAspectRatio := window.width / window.height;
    var videoAspectRatio := video.width / video.height;
    if windowAspectRatio >= videoAspectRatio then
      Size(window.height * videoAspectRatio, window.height)
    else
      Size(window.width, window.width / videoAspectRatio)
  }

  /** A box with the video's aspect ratio has width = height * (video aspect ratio). */
  lemma SameAspect(box: Size, video: Size)
    requires video.width > 0.0 && video.height > 0.0
    requires box.width * video.height == box.height * video.width
    ensures box.width == box.height * (video.width / video.height)
  {
    var a := video.width / video.height;
    assert video.width == a * video.height;
    assert box.width * video.height == (box.height * a) * video.height;
  }

  /** Scaling both sides of an inequality by a positive factor keeps it. */
  lemma ScaleLe(x: real, y: real, c: real)
    requires x <= y && c > 0.0
    ensures x * c <= y * c && x / c <= y / c
  {
  }

  /**
   * The fitted box is the largest: any box with the video's aspect ratio that
   * fits in the window is no larger on either side.
   */
  lemma ContainIsLargest(window: Size, video: Size, other: Size)
    requires window.width > 0.0 && window.height > 0.0
    requires video.width > 0.0 && video.height > 0.0
    requires 0.0 < other.width <= window.width && 0.0 < other.height <= window.height
    requires other.width * video.height == other.height * video.width
    ensures other.width <= ContainSize(window, video).width
    ensures other.height <= ContainSize(window, video).height
  {
    var a := video.width / video.height;
    SameAspect(other, video);
    if window.width / window.height >= a {
      ScaleLe(other.height, window.height, a);
    } else {
      assert other.height == other.width / a;
      ScaleLe(other.width, window.width, a);
    }
  }
}
