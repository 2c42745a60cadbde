/**
 * The page background (src/components/VideoBackground.tsx): which video source
 * and MIME type are rendered, whether the background image is shown instead,
 * the poster, and the effect that keeps the muted video playing in a loop. The
 * URL the bundler gives the bundled video asset is the parameter `bundled`.
 * The video element is a class whose fields the handlers change; `ops` records
 * the order of the calls made on it.
 */
module VideoBackground {
  import opened Wrappers
  import opened JsString
  import opened StoreContext

  // ---------------------------------------------------------------- source selection

  /** The memoised `videoUrl`: the bundled asset when no custom video is set or the stored
      path names the bundled video, otherwise the stored value. */
  function VideoUrl(backgroundVideo: string, bundled: string): (url: string)
    ensures backgroundVideo == "" || backgroundVideo == BundledVideoPath ==> url == bundled
    ensures backgroundVideo != "" && backgroundVideo != BundledVideoPath ==> url == backgroundVideo
  {
    if backgroundVideo == "" || backgroundVideo == BundledVideoPath then bundled else backgroundVideo
  }

  /** `Boolean(videoUrl)`: only the empty string is falsy. */
  function HasVideo(url: string): (b: bool)
    ensures !b <==> |url| == 0
  {
    url != ""
  }

  /** The `type` of the `<source>`: WebM exactly when the lower-cased URL ends in `.webm`. */
  function VideoType(url: string): (t: string)
    ensures t == "video/webm" <==> EndsWith(ToLowerCase(url), ".webm")
    ensures t != "video/webm" ==> t == "video/mp4"
  {
    if EndsWith(ToLowerCase(url), ".webm") then "video/webm" else "video/mp4"
  }

  /** `data.backgroundImage || undefined` */
  function Poster(backgroundImage: string): (p: Option<string>)
    ensures p.Some? <==> backgroundImage != ""
    ensures p.Some? ==> p.value == backgroundImage
  {
    if backgroundImage != "" then Some(backgroundImage) else None
  }

  /** `!hasVideo && data.backgroundImage`: the image is shown exactly when there is no video
      and the same image is also the poster. */
  function ShowBackgroundImage(url: string, backgroundImage: string): (b: bool)
    ensures b <==> !HasVideo(url) && Poster(backgroundImage) == Some(backgroundImage)
  {
    !HasVideo(url) && backgroundImage != ""
  }

  /** With a non-empty bundled asset there is always a video, so the background image is
      never shown, whatever the stored content. */
  lemma BundledVideoHidesImage(d: StoreData, bundled: string)
    requires bundled != ""
    ensures HasVideo(VideoUrl(d.backgroundVideo, bundled))
    ensures !ShowBackgroundImage(VideoUrl(d.backgroundVideo, bundled), d.backgroundImage)
  {
  }

  /** A row saved with an empty `background_video` plays the bundled video once loaded, and
      so does the default content. */
  lemma EmptyStoredVideoPlaysBundled(c: Columns, bundled: string)
    ensures c.background_video == "" ==> VideoUrl(FromColumns(c).backgroundVideo, bundled) == bundled
    ensures VideoUrl(DefaultData().backgroundVideo, bundled) == bundled
  {
  }

  /** The MIME type does not depend on the case of the URL. */
  lemma {:induction false} VideoTypeIgnoresCase(url: string)
    ensures VideoType(ToLowerCase(url)) == VideoType(url)
  {
    LowerCaseIdempotent(url);
  }

  /** Any URL ending in `.webm`, in any case, is served as WebM. */
  lemma {:induction false} WebmSuffix(stem: string, suffix: string)
    requires ToLowerCase(suffix) == ".webm"
    ensures VideoType(stem + suffix) == "video/webm"
  {
    var s := stem + suffix;
    var low := ToLowerCase(s);
    assert low[|low| - 5..] == ToLowerCase(suffix) by {
      forall i | 0 <= i < 5 ensures low[|low| - 5 + i] == ToLowerCase(suffix)[i] {
        assert s[|stem| + i] == suffix[i];
      }
    }
  }

  // ---------------------------------------------------------------- the video element

  datatype VideoOp = SeekToStart | Mute | PlayRequest

  class VideoElement {
    var currentTime: real
    var muted: bool
    var playing: bool
    /** The handlers registered for `ended`, by identity. */
    var endedListeners: set<nat>
    var ops: seq<VideoOp>

    constructor (currentTime: real, muted: bool, playing: bool)
      ensures this.currentTime == currentTime && this.muted == muted && this.playing == playing
      ensures endedListeners == {} && ops == []
    {
      this.currentTime := currentTime;
      this.muted := muted;
      this.playing := playing;
      endedListeners := {};
      ops := [];
    }

    /** `video.play()`: plays when the browser allows it; a refusal is only logged. */
    method Play(allowed: bool)
      modifies this
      ensures playing == (allowed || old(playing))
      ensures ops == old(ops) + [PlayRequest]
      ensures currentTime == old(currentTime) && muted == old(muted) && endedListeners == old(endedListeners)
    {
      ops := ops + [PlayRequest];
      if allowed {
        playing := true;
      }
    }

    /** `handleVideoEnd`: back to the start, then a request to play. */
    method HandleVideoEnd(allowed: bool)
      modifies this
      ensures currentTime == 0.0
      ensures ops == old(ops) + [SeekToStart, PlayRequest]
      ensures playing == (allowed || old(playing))
      ensures muted == old(muted) && endedListeners == old(endedListeners)
    {
      currentTime := 0.0;
      ops := ops + [SeekToStart];
      Play(allowed);
    }

    /** `forcePlay`: muted first, then a request to play. */
    method ForcePlay(allowed: bool)
      modifies this
      ensures muted
      ensures ops == old(ops) + [Mute, PlayRequest]
      ensures playing == (allowed || old(playing))
      ensures currentTime == old(currentTime) && endedListeners == old(endedListeners)
    {
      muted := true;
      ops := ops + [Mute];
      Play(allowed);
    }

    /** The effect's body: register the `ended` handler, then force play. */
    method Setup(handler: nat, allowed: bool)
      modifies this
      ensures endedListeners == old(endedListeners) + {handler}
      ensures muted && playing == (allowed || old(playing))
      ensures ops == old(ops) + [Mute, PlayRequest]
      ensures currentTime == old(currentTime)
    {
      endedListeners := endedListeners + {handler};
      ForcePlay(allowed);
    }

    /** The effect's cleanup: unregister the handler it registered. */
    method Cleanup(handler: nat)
      modifies this
      ensures endedListeners == old(endedListeners) - {handler}
      ensures currentTime == old(currentTime) && muted == old(muted) && playing == old(playing)
      ensures ops == old(ops)
    {
      endedListeners := endedListeners - {handler};
    }
  }

  /** The effect runs only when the element is rendered (`videoRef.current`); its cleanup
      removes exactly the listener it added, so a run followed by its cleanup leaves the
      element's listeners as they were, and the element muted. */
  method EffectRun(video: VideoElement?, handler: nat, allowed: bool)
    requires video != null ==> handler !in video.endedListeners
    modifies video
    ensures video != null ==> video.endedListeners == old(video.endedListeners)
    ensures video != null ==> video.muted && video.ops == old(video.ops) + [Mute, PlayRequest]
  {
    if video != null {
      video.Setup(handler, allowed);
      video.Cleanup(handler);
    }
  }
}
