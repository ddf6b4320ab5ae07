/**
 * The label makers. Each operation walks the list of videos; for each one it
 * checks its parameters against that video's probed metadata and, when they
 * pass, appends simple flags, filter fragments and output-name fragments.
 * A failure on one video (a rejected check, a missing field, a failed probe,
 * a division by zero) is caught for that video alone: only the probe cache
 * may have changed, and the walk goes on with the next video.
 *
 * For every operation the model has
 *   - a decision over the (cached) metadata: the fragments to append, or the
 *     exception that aborts that video's block;
 *   - a step over one video's state;
 *   - a method that updates the Video objects in place, proved to perform the
 *     step on each of them.
 */
module Labeler {
  import opened Wrappers
  import opened Text
  import opened PyInt
  import opened Directives
  import opened Videos

  /** What one accepted video block appends, per kind. */
  datatype Effect = Effect(flags: seq<Flag>, filters: seq<Filter>, parts: seq<TitlePart>)

  /**
   * What a labelling step may do to a video: identity, output and path stay,
   * the three accumulators only grow, and a filled cache is never replaced.
   */
  predicate Extends(a: VideoState, b: VideoState)
  {
    && b.file == a.file && b.bucket == a.bucket && b.key == a.key && b.title == a.title
    && b.out == a.out && b.path == a.path
    && a.labels <= b.labels && a.filters <= b.filters && a.titleParts <= b.titleParts
    && (a.metaData.Some? ==> b.metaData == a.metaData)
  }

  function Apply(s: VideoState, e: Effect): (t: VideoState)
    ensures Extends(s, t)
  {
    s.(labels := s.labels + e.flags, filters := s.filters + e.filters, titleParts := s.titleParts + e.parts)
  }

  /** The state after one video's block: the cache it ended with, plus the fragments when accepted. */
  function Outcome(s: VideoState, cache: Option<Meta>, d: Result<Effect, Error>): (t: VideoState)
    requires s.metaData.Some? ==> cache == s.metaData
    ensures Extends(s, t)
  {
    var s1 := s.(metaData := cache);
    if d.Success? then Apply(s1, d.value) else s1
  }

  /** The cache a video has once its block called a filling getter. */
  function Filled(s: VideoState, probe: Probe): Option<Meta>
  {
    Cached(s.metaData, probe, s.file)
  }

  // ---------------------------------------------------------------- resize_by_ratio

  /** `scale=W:H,setsar=1:1` with each side truncated, then rounded up to even. */
  function ResizeFilter(w: int, h: int, xr: real, yr: real): (f: Filter)
    ensures f.Scale?
    ensures f.width % 2 == 0 && Trunc(w as real * xr) <= f.width <= Trunc(w as real * xr) + 1
    ensures f.height % 2 == 0 && Trunc(h as real * yr) <= f.height <= Trunc(h as real * yr) + 1
  {
    Scale(EvenUp(Trunc(w as real * xr)), EvenUp(Trunc(h as real * yr)))
  }

  function ResizeDecision(m: Option<Meta>, xr: real, yr: real): (d: Result<Effect, Error>)
    ensures d.Success? <==> m.Some? && Width(m.value).Success? && Height(m.value).Success?
    ensures d.Success? ==>
      d.value == Effect([], [ResizeFilter(Width(m.value).value, Height(m.value).value, xr, yr)], [ResizedRatio(xr, yr)])
  {
    if m.None? then Failure(ProbeFailed)
    else match Width(m.value)
      case Failure(e) => Failure(e)
      case Success(w) =>
        match Height(m.value)
        case Failure(e) => Failure(e)
        case Success(h) => Success(Effect([], [ResizeFilter(w, h, xr, yr)], [ResizedRatio(xr, yr)]))
  }

  function ResizeStep(s: VideoState, probe: Probe, xr: real, yr: real): (t: VideoState)
    ensures Extends(s, t)
  {
    var c := Filled(s, probe);
    Outcome(s, c, ResizeDecision(c, xr, yr))
  }

  /**
   * The scale fragment only reaches the label when the filters are folded
   * into it; from then on the output title is marked "resized_".
   */
  lemma ResizeMarksFoldedTitle(s: VideoState, probe: Probe, xr: real, yr: real)
    requires ResizeDecision(Filled(s, probe), xr, yr).Success?
    ensures var t := ResizeStep(s, probe, xr, yr);
      "resized_" <= OutputTitle(t.labels + [FilterGraph(t.filters)], t.title)
  {
    var t := ResizeStep(s, probe, xr, yr);
    var flags := t.labels + [FilterGraph(t.filters)];
    assert IsScale(t.filters[|t.filters| - 1]);
    assert Scales(flags[|flags| - 1]);
    ScaleMarksResized(flags, t.title, |flags| - 1);
  }

  /** One video's try block of `resize_by_ratio`. */
  method ResizeOne(video: Video, probe: Probe, xr: real, yr: real)
    modifies video
    ensures video.State() == ResizeStep(old(video.State()), probe, xr, yr)
  {
    var x := video.ExtractMetadata(probe);
    if x.Success? {
      var w := video.GetWidth(probe);
      if w.Success? {
        var h := video.GetHeight(probe);
        if h.Success? {
          video.AddFilter(ResizeFilter(w.value, h.value, xr, yr));
          video.AddOutputTitle(ResizedRatio(xr, yr));
        }
      }
    }
  }

  method ResizeByRatio(videos: seq<Video>, probe: Probe, xr: real, yr: real) returns (r: seq<Video>)
    requires Distinct(videos)
    modifies set v | v in videos
    ensures r == videos
    ensures forall k :: 0 <= k < |videos| ==> videos[k].State() == ResizeStep(old(videos[k].State()), probe, xr, yr)
  {
    var i := 0;
    while i < |videos|
      invariant 0 <= i <= |videos|
      invariant forall k :: 0 <= k < i ==> videos[k].State() == ResizeStep(old(videos[k].State()), probe, xr, yr)
      invariant forall k :: i <= k < |videos| ==> videos[k].State() == old(videos[k].State())
    {
      ResizeOne(videos[i], probe, xr, yr);
      i := i + 1;
    }
    return videos;
  }


  // ---------------------------------------------------------------- trim_video_start_end

  /**
   * Reads the duration with `get_duration`, which fails on an empty cache; the
   * end time is not checked at all.
   */
  function TrimSpanDecision(m: Option<Meta>, start: real, end: real): (d: Result<Effect, Error>)
    ensures m.None? ==> d == Failure(UndefinedMethod("get_metadata"))
    ensures m.Some? && Duration(m.value).Success? ==>
      (d.Success? <==> 0.0 <= start < Duration(m.value).value)
    ensures m.Some? && Duration(m.value).Failure? ==> d == Failure(Duration(m.value).error)
    ensures d.Success? ==> d.value == Effect([SeekFor(start, end - start)], [], [TrimmedSpan(start, end)])
  {
    if m.None? then Failure(UndefinedMethod("get_metadata"))
    else match Duration(m.value)
      case Failure(e) => Failure(e)
      case Success(dur) =>
        if start < dur && start >= 0.0 then
          Success(Effect([SeekFor(start, end - start)], [], [TrimmedSpan(start, end)]))
        else Failure(Rejected)
  }

  function TrimSpanStep(s: VideoState, start: real, end: real): (t: VideoState)
    ensures Extends(s, t)
    ensures s.metaData.None? ==> t == s
  {
    Outcome(s, s.metaData, TrimSpanDecision(s.metaData, start, end))
  }

  /** An accepted trim marks the output title "trimmed_". */
  lemma TrimSpanMarksTitle(s: VideoState, start: real, end: real)
    requires TrimSpanDecision(s.metaData, start, end).Success?
    ensures var t := TrimSpanStep(s, start, end); var o := OutputTitle(t.labels, t.title);
      |o| >= |t.title| + 8 && o[|o| - |t.title| - 8..] == "trimmed_" + t.title
  {
    var t := TrimSpanStep(s, start, end);
    assert Seeks(t.labels[|t.labels| - 1]);
    SeekMarksTrimmed(t.labels, t.title, |t.labels| - 1);
  }

  /** One video's try block of `trim_video_start_end`. */
  method TrimSpanOne(video: Video, start: real, end: real)
    modifies video
    ensures video.State() == TrimSpanStep(old(video.State()), start, end)
  {
    var d := video.GetDuration();
    if d.Success? && start < d.value && start >= 0.0 {
      video.AddLabel(SeekFor(start, end - start));
      video.AddOutputTitle(TrimmedSpan(start, end));
    }
  }

  method TrimVideoStartEnd(videos: seq<Video>, start: real, end: real) returns (r: seq<Video>)
    requires Distinct(videos)
    modifies set v | v in videos
    ensures r == videos
    ensures forall k :: 0 <= k < |videos| ==> videos[k].State() == TrimSpanStep(old(videos[k].State()), start, end)
  {
    var i := 0;
    while i < |videos|
      invariant 0 <= i <= |videos|
      invariant forall k :: 0 <= k < i ==> videos[k].State() == TrimSpanStep(old(videos[k].State()), start, end)
      invariant forall k :: i <= k < |videos| ==> videos[k].State() == old(videos[k].State())
    {
      TrimSpanOne(videos[i], start, end);
      i := i + 1;
    }
    return videos;
  }

  // ---------------------------------------------------------------- change_resolution

  /** The table of popular resolutions, keyed by name. */
  function Resolution(name: string): (r: Option<(int, int)>)
    ensures r.Some? <==> name in {"1080p", "720p", "480p", "360p", "240p"}
  {
    if name == "1080p" then Some((1920, 1080))
    else if name == "720p" then Some((1280, 720))
    else if name == "480p" then Some((640, 480))
    else if name == "360p" then Some((480, 360))
    else if name == "240p" then Some((426, 240))
    else None
  }

  /** Each name is its height followed by "p", and every entry is a landscape size. */
  lemma ResolutionNamesHeight(name: string)
    requires Resolution(name).Some?
    ensures name == NatText(Resolution(name).value.1) + "p"
    ensures Resolution(name).value.0 > Resolution(name).value.1 > 0
  {
    var h := Resolution(name).value.1;
    assert NatText(h) == NatText(h / 10) + [Digit(h % 10)];
    assert NatText(h / 10) == NatText(h / 100) + [Digit(h / 10 % 10)];
    assert NatText(h / 100) == if h / 100 < 10 then [Digit(h / 100)] else NatText(h / 1000) + [Digit(h / 100 % 10)];
  }

  function ResolutionEffect(w: int, h: int): Effect
  {
    Effect([SlowPreset], [ScaleLanczos(w, h)], [ResizedTo(w, h)])
  }

  /** The lookup happens once, before the walk: an unknown name changes no video. */
  function ResolutionStep(s: VideoState, name: string): (t: VideoState)
    ensures Extends(s, t)
    ensures Resolution(name).None? ==> t == s
    ensures Resolution(name).Some? ==>
      var (w, h) := Resolution(name).value;
      t.labels == s.labels + [SlowPreset] && t.filters == s.filters + [ScaleLanczos(w, h)]
        && t.titleParts == s.titleParts + [ResizedTo(w, h)] && t.metaData == s.metaData
  {
    match Resolution(name)
    case None => s
    case Some((w, h)) => Apply(s, ResolutionEffect(w, h))
  }

  /** One video's share of `change_resolution`, once the size is known. */
  method ResolutionOne(video: Video, w: int, h: int)
    modifies video
    ensures video.State() == Apply(old(video.State()), ResolutionEffect(w, h))
  {
    video.AddLabel(SlowPreset);
    video.AddFilter(ScaleLanczos(w, h));
    video.AddOutputTitle(ResizedTo(w, h));
  }

  method ChangeResolution(videos: seq<Video>, name: string) returns (r: seq<Video>)
    requires Distinct(videos)
    modifies set v | v in videos
    ensures r == videos
    ensures forall k :: 0 <= k < |videos| ==> videos[k].State() == ResolutionStep(old(videos[k].State()), name)
  {
    var size := Resolution(name);
    if size.None? {
      return videos;
    }
    var (w, h) := size.value;
    var i := 0;
    while i < |videos|
      invariant 0 <= i <= |videos|
      invariant forall k :: 0 <= k < i ==> videos[k].State() == ResolutionStep(old(videos[k].State()), name)
      invariant forall k :: i <= k < |videos| ==> videos[k].State() == old(videos[k].State())
    {
      ResolutionOne(videos[i], w, h);
      i := i + 1;
    }
    return videos;
  }


  // ---------------------------------------------------------------- trim_into_clips

  function ClipsDecision(interval: real): (d: Result<Effect, Error>)
    ensures d.Success? <==> interval > 0.0
    ensures d.Success? ==> d.value.flags == [Segment(interval)] && d.value.parts == [TrimmedClips(interval)]
  {
    if interval > 0.0 then Success(Effect([Segment(interval)], [], [TrimmedClips(interval)]))
    else Failure(Rejected)
  }

  function ClipsStep(s: VideoState, interval: real): (t: VideoState)
    ensures Extends(s, t)
  {
    Outcome(s, s.metaData, ClipsDecision(interval))
  }

  /** One video's try block of `trim_into_clips`. */
  method ClipsOne(video: Video, interval: real)
    modifies video
    ensures video.State() == ClipsStep(old(video.State()), interval)
  {
    if interval > 0.0 {
      video.AddLabel(Segment(interval));
      video.AddOutputTitle(TrimmedClips(interval));
    }
  }

  method TrimIntoClips(videos: seq<Video>, interval: real) returns (r: seq<Video>)
    requires Distinct(videos)
    modifies set v | v in videos
    ensures r == videos
    ensures forall k :: 0 <= k < |videos| ==> videos[k].State() == ClipsStep(old(videos[k].State()), interval)
  {
    var i := 0;
    while i < |videos|
      invariant 0 <= i <= |videos|
      invariant forall k :: 0 <= k < i ==> videos[k].State() == ClipsStep(old(videos[k].State()), interval)
      invariant forall k :: i <= k < |videos| ==> videos[k].State() == old(videos[k].State())
    {
      ClipsOne(videos[i], interval);
      i := i + 1;
    }
    return videos;
  }

  // ---------------------------------------------------------------- trim_on_frame

  /**
   * Past the `0 <= frame` test: `frame <= nb_frames`, then the frame rate
   * `nb_frames / duration` and the seek time `frame / rate`, either of which
   * may divide by zero.
   */
  function OnFrameDecision(m: Option<Meta>, frame: int): (d: Result<Effect, Error>)
    ensures d.Success? ==> m.Some? && NbFrames(m.value).Success? && Duration(m.value).Success?
    ensures d.Success? ==>
      var nb := NbFrames(m.value).value; var dur := Duration(m.value).value;
      frame <= nb && nb != 0 && dur != 0.0
      && d.value == Effect([SeekTo(frame as real / (nb as real / dur))], [], [TrimmedOnFrame(frame)])
  {
    if m.None? then Failure(ProbeFailed)
    else match NbFrames(m.value)
      case Failure(e) => Failure(e)
      case Success(nb) =>
        if !(frame <= nb) then Failure(Rejected)
        else match Duration(m.value)
          case Failure(e) => Failure(e)
          case Success(dur) =>
            if dur == 0.0 || nb == 0 then Failure(ZeroDivision)
            else Success(Effect([SeekTo(frame as real / (nb as real / dur))], [], [TrimmedOnFrame(frame)]))
  }

  /** A negative frame ends the chained comparison before any probe: nothing at all changes. */
  function OnFrameStep(s: VideoState, probe: Probe, frame: int): (t: VideoState)
    ensures Extends(s, t)
    ensures frame < 0 ==> t == s
  {
    if frame < 0 then s
    else
      var c := Filled(s, probe);
      Outcome(s, c, OnFrameDecision(c, frame))
  }

  /** Given both fields, the frame is accepted exactly inside [0, nb_frames]. */
  lemma OnFrameAccepted(m: Meta, frame: int)
    requires NbFrames(m).Success? && Duration(m).Success?
    requires NbFrames(m).value != 0 && Duration(m).value != 0.0
    ensures OnFrameDecision(Some(m), frame).Success? <==> frame <= NbFrames(m).value
  {
  }

  /**
   * The seek time is the frame's time, `frame * duration / nb_frames`; for a
   * positive duration it lies within the video.
   */
  lemma OnFrameSeekInside(m: Meta, frame: int)
    requires 0 <= frame
    requires OnFrameDecision(Some(m), frame).Success?
    requires Duration(m).value > 0.0
    ensures var t := OnFrameDecision(Some(m), frame).value.flags[0].time;
      var nb := NbFrames(m).value as real; var dur := Duration(m).value;
      t == frame as real * dur / nb && 0.0 <= t <= dur
  {
    var nb := NbFrames(m).value as real;
    var dur := Duration(m).value;
    var f := frame as real;
    assert nb > 0.0;
    assert f / (nb / dur) == f * dur / nb;
    assert f * dur <= nb * dur;
  }

  /** One video's try block of `trim_on_frame`. */
  method OnFrameOne(video: Video, probe: Probe, frame: int)
    modifies video
    ensures video.State() == OnFrameStep(old(video.State()), probe, frame)
  {
    if 0 <= frame {
      var nb := video.GetNumFrames(probe);
      if nb.Success? && frame <= nb.value {
        var dur := video.GetDuration();
        if dur.Success? && dur.value != 0.0 && nb.value != 0 {
          var fps := nb.value as real / dur.value;
          video.AddLabel(SeekTo(frame as real / fps));
          video.AddOutputTitle(TrimmedOnFrame(frame));
        }
      }
    }
  }

  method TrimOnFrame(videos: seq<Video>, probe: Probe, frame: int) returns (r: seq<Video>)
    requires Distinct(videos)
    modifies set v | v in videos
    ensures r == videos
    ensures forall k :: 0 <= k < |videos| ==> videos[k].State() == OnFrameStep(old(videos[k].State()), probe, frame)
  {
    var i := 0;
    while i < |videos|
      invariant 0 <= i <= |videos|
      invariant forall k :: 0 <= k < i ==> videos[k].State() == OnFrameStep(old(videos[k].State()), probe, frame)
      invariant forall k :: i <= k < |videos| ==> videos[k].State() == old(videos[k].State())
    {
      OnFrameOne(videos[i], probe, frame);
      i := i + 1;
    }
    return videos;
  }

  // ---------------------------------------------------------------- trim_num_frames

  /**
   * Past the `start_frame > 0` test: `start_frame + num_frames < nb_frames`,
   * then the seek time `start_frame / (nb_frames / duration)`.
   */
  function NumFramesDecision(m: Option<Meta>, first: int, count: int): (d: Result<Effect, Error>)
    ensures d.Success? ==> m.Some? && NbFrames(m.value).Success? && Duration(m.value).Success?
    ensures d.Success? ==>
      var nb := NbFrames(m.value).value; var dur := Duration(m.value).value;
      first + count < nb && nb != 0 && dur != 0.0
      && d.value == Effect([SeekFrames(first as real / (nb as real / dur), count)], [], [TrimFrames(first, first + count)])
  {
    if m.None? then Failure(ProbeFailed)
    else match NbFrames(m.value)
      case Failure(e) => Failure(e)
      case Success(nb) =>
        if !(first + count < nb) then Failure(Rejected)
        else match Duration(m.value)
          case Failure(e) => Failure(e)
          case Success(dur) =>
            if dur == 0.0 || nb == 0 then Failure(ZeroDivision)
            else Success(Effect([SeekFrames(first as real / (nb as real / dur), count)], [], [TrimFrames(first, first + count)]))
  }

  /** A start frame that is not positive ends the test before any probe. */
  function NumFramesStep(s: VideoState, probe: Probe, first: int, count: int): (t: VideoState)
    ensures Extends(s, t)
    ensures first <= 0 ==> t == s
  {
    if first <= 0 then s
    else
      var c := Filled(s, probe);
      Outcome(s, c, NumFramesDecision(c, first, count))
  }

  /**
   * Given both fields, the window is accepted exactly when it ends before the
   * last frame; the seek time is `start_frame * duration / nb_frames`.
   */
  lemma NumFramesAccepted(m: Meta, first: int, count: int)
    requires NbFrames(m).Success? && Duration(m).Success?
    requires NbFrames(m).value != 0 && Duration(m).value != 0.0
    ensures NumFramesDecision(Some(m), first, count).Success? <==> first + count < NbFrames(m).value
    ensures NumFramesDecision(Some(m), first, count).Success? ==>
      NumFramesDecision(Some(m), first, count).value.flags[0].time
        == first as real * Duration(m).value / NbFrames(m).value as real
  {
    var nb := NbFrames(m).value as real;
    var dur := Duration(m).value;
    assert first as real / (nb / dur) == first as real * dur / nb;
  }

  /** One video's try block of `trim_num_frames`. */
  method NumFramesOne(video: Video, probe: Probe, first: int, count: int)
    modifies video
    ensures video.State() == NumFramesStep(old(video.State()), probe, first, count)
  {
    if first > 0 {
      var nb := video.GetNumFrames(probe);
      if nb.Success? && first + count < nb.value {
        var dur := video.GetDuration();
        if dur.Success? && dur.value != 0.0 && nb.value != 0 {
          var fps := nb.value as real / dur.value;
          video.AddOutputTitle(TrimFrames(first, first + count));
          video.AddLabel(SeekFrames(first as real / fps, count));
        }
      }
    }
  }

  method TrimNumFrames(videos: seq<Video>, probe: Probe, first: int, count: int) returns (r: seq<Video>)
    requires Distinct(videos)
    modifies set v | v in videos
    ensures r == videos
    ensures forall k :: 0 <= k < |videos| ==> videos[k].State() == NumFramesStep(old(videos[k].State()), probe, first, count)
  {
    var i := 0;
    while i < |videos|
      invariant 0 <= i <= |videos|
      invariant forall k :: 0 <= k < i ==> videos[k].State() == NumFramesStep(old(videos[k].State()), probe, first, count)
      invariant forall k :: i <= k < |videos| ==> videos[k].State() == old(videos[k].State())
    {
      NumFramesOne(videos[i], probe, first, count);
      i := i + 1;
    }
    return videos;
  }

  // ---------------------------------------------------------------- crop_video_section

  /** Past the sign test: the origin inside the frame, then the section inside the frame. */
  function CropDecision(m: Option<Meta>, x: int, y: int, w: int, h: int): (d: Result<Effect, Error>)
    ensures d.Success? ==> d.value == Effect([], [Crop(w, h, x, y)], [Cropped(w, h)])
  {
    if m.None? then Failure(ProbeFailed)
    else match Width(m.value)
      case Failure(e) => Failure(e)
      case Success(fw) =>
        if !(x <= fw) then Failure(Rejected)
        else match Height(m.value)
          case Failure(e) => Failure(e)
          case Success(fh) =>
            if y <= fh && w + x <= fw && h + y <= fh then Success(Effect([], [Crop(w, h, x, y)], [Cropped(w, h)]))
            else Failure(Rejected)
  }

  /** `start_x ^ start_y >= 0` comes first and needs no probe. */
  function CropStep(s: VideoState, probe: Probe, x: int, y: int, w: int, h: int): (t: VideoState)
    ensures Extends(s, t)
    ensures Xor(x, y) < 0 ==> t == s
  {
    if Xor(x, y) < 0 then s
    else
      var c := Filled(s, probe);
      Outcome(s, c, CropDecision(c, x, y, w, h))
  }

  /**
   * For a video whose probe yields both sides, the crop is appended exactly
   * when the offsets have the same sign (the xor test) and the section fits;
   * otherwise the video is left as it was, apart from its cache.
   */
  lemma CropAccepted(s: VideoState, probe: Probe, x: int, y: int, w: int, h: int)
    requires var c := Filled(s, probe); c.Some? && Width(c.value).Success? && Height(c.value).Success?
    ensures var c := Filled(s, probe); var fw := Width(c.value).value; var fh := Height(c.value).value;
      var t := CropStep(s, probe, x, y, w, h);
      && (t.filters == s.filters + [Crop(w, h, x, y)] <==>
            (x >= 0 <==> y >= 0) && x <= fw && y <= fh && x + w <= fw && y + h <= fh)
      && (t.filters == s.filters ==> t.titleParts == s.titleParts)
  {
    XorNonNegative(x, y);
    var t := CropStep(s, probe, x, y, w, h);
    if t.filters == s.filters + [Crop(w, h, x, y)] {
      assert |t.filters| != |s.filters|;
    }
  }

  /** The sign test lets two negative offsets through, as long as the section fits. */
  lemma CropAcceptsNegativeOrigin(s: VideoState, probe: Probe)
    requires var c := Filled(s, probe); c.Some? && Width(c.value) == Success(640) && Height(c.value) == Success(480)
    ensures CropStep(s, probe, -10, -10, 100, 100).filters == s.filters + [Crop(100, 100, -10, -10)]
  {
    CropAccepted(s, probe, -10, -10, 100, 100);
  }

  /** One video's try block of `crop_video_section`. */
  method CropOne(video: Video, probe: Probe, x: int, y: int, w: int, h: int)
    modifies video
    ensures video.State() == CropStep(old(video.State()), probe, x, y, w, h)
  {
    if Xor(x, y) >= 0 {
      var fw := video.GetWidth(probe);
      if fw.Success? && x <= fw.value {
        var fh := video.GetHeight(probe);
        if fh.Success? && y <= fh.value && w + x <= fw.value && h + y <= fh.value {
          video.AddFilter(Crop(w, h, x, y));
          video.AddOutputTitle(Cropped(w, h));
        }
      }
    }
  }

  method CropVideoSection(videos: seq<Video>, probe: Probe, x: int, y: int, w: int, h: int) returns (r: seq<Video>)
    requires Distinct(videos)
    modifies set v | v in videos
    ensures r == videos
    ensures forall k :: 0 <= k < |videos| ==> videos[k].State() == CropStep(old(videos[k].State()), probe, x, y, w, h)
  {
    var i := 0;
    while i < |videos|
      invariant 0 <= i <= |videos|
      invariant forall k :: 0 <= k < i ==> videos[k].State() == CropStep(old(videos[k].State()), probe, x, y, w, h)
      invariant forall k :: i <= k < |videos| ==> videos[k].State() == old(videos[k].State())
    {
      CropOne(videos[i], probe, x, y, w, h);
      i := i + 1;
    }
    return videos;
  }

  // ---------------------------------------------------------------- blur_video

  /** `level in range(0, 52) and steps in range(1, 6)`. */
  function BlurDecision(level: int, steps: int): (d: Result<Effect, Error>)
    ensures d.Success? <==> 0 <= level <= 51 && 1 <= steps <= 5
    ensures d.Success? ==>
      d.value.filters == [GaussianBlur(level, steps)] && d.value.flags == [] && d.value.parts == [Blurred(level, steps)]
  {
    if 0 <= level < 52 && 1 <= steps < 6 then
      Success(Effect([], [GaussianBlur(level, steps)], [Blurred(level, steps)]))
    else Failure(Rejected)
  }

  function BlurStep(s: VideoState, level: int, steps: int): (t: VideoState)
    ensures Extends(s, t)
  {
    Outcome(s, s.metaData, BlurDecision(level, steps))
  }

  /** One video's try block of `blur_video`. */
  method BlurOne(video: Video, level: int, steps: int)
    modifies video
    ensures video.State() == BlurStep(old(video.State()), level, steps)
  {
    if 0 <= level < 52 && 1 <= steps < 6 {
      video.AddFilter(GaussianBlur(level, steps));
      video.AddOutputTitle(Blurred(level, steps));
    }
  }

  method BlurVideo(videos: seq<Video>, level: int, steps: int) returns (r: seq<Video>)
    requires Distinct(videos)
    modifies set v | v in videos
    ensures r == videos
    ensures forall k :: 0 <= k < |videos| ==> videos[k].State() == BlurStep(old(videos[k].State()), level, steps)
  {
    var i := 0;
    while i < |videos|
      invariant 0 <= i <= |videos|
      invariant forall k :: 0 <= k < i ==> videos[k].State() == BlurStep(old(videos[k].State()), level, steps)
      invariant forall k :: i <= k < |videos| ==> videos[k].State() == old(videos[k].State())
    {
      BlurOne(videos[i], level, steps);
      i := i + 1;
    }
    return videos;
  }

  // ---------------------------------------------------------------- set_bitrate

  /** A constant bitrate: target, floor and ceiling equal, buffer twice the target. */
  function BitrateEffect(b: int): (e: Effect)
    ensures |e.flags| == 1 && e.flags[0].ConstantBitrate?
    ensures var f := e.flags[0]; f.rate == f.minRate == f.maxRate == b && f.bufSize == 2 * b
  {
    Effect([ConstantBitrate(b, b, b, b * 2)], [], [BitrateK(b)])
  }

  /** A tenth of the stream's bit rate, in kilobits per second, rounded up. */
  function TenthBitrate(m: Option<Meta>): (d: Result<int, Error>)
    ensures d.Success? <==> m.Some? && BitRate(m.value).Success?
    ensures d.Success? ==> var br := BitRate(m.value).value; (d.value - 1) * 10000 < br <= d.value * 10000
  {
    if m.None? then Failure(ProbeFailed)
    else match BitRate(m.value)
      case Failure(e) => Failure(e)
      case Success(br) => Success(CeilDiv(br, 10000))
  }

  /** A rate of 0 asks for a tenth of each video's own rate; any other rate is used as given. */
  function BitrateStep(s: VideoState, probe: Probe, rate: int): (t: VideoState)
    ensures Extends(s, t)
    ensures rate != 0 ==> t == Apply(s, BitrateEffect(rate))
    ensures rate == 0 && TenthBitrate(Filled(s, probe)).Success? ==>
      t == Apply(s.(metaData := Filled(s, probe)), BitrateEffect(TenthBitrate(Filled(s, probe)).value))
    ensures rate == 0 && TenthBitrate(Filled(s, probe)).Failure? ==> t == s.(metaData := Filled(s, probe))
  {
    if rate == 0 then
      var c := Filled(s, probe);
      var b := TenthBitrate(c);
      Outcome(s, c, if b.Success? then Success(BitrateEffect(b.value)) else Failure(b.error))
    else Apply(s, BitrateEffect(rate))
  }

  /**
   * One video's try block of `set_bitrate`. With the tenfold reduction on, the
   * rate is recomputed from this video's own stream before it is used, so the
   * value left in the loop variable by an earlier video never reaches it.
   */
  method BitrateOne(video: Video, probe: Probe, tenx: bool, bitrate: int) returns (next: int)
    modifies video
    ensures tenx ==> video.State() == BitrateStep(old(video.State()), probe, 0)
    ensures !tenx ==> video.State() == Apply(old(video.State()), BitrateEffect(bitrate)) && next == bitrate
  {
    next := bitrate;
    if tenx {
      var x := video.ExtractMetadata(probe);
      if video.metaData.None? || BitRate(video.metaData.value).Failure? {
        return;
      }
      next := CeilDiv(BitRate(video.metaData.value).value, 10000);
    }
    video.AddLabel(ConstantBitrate(next, next, next, next * 2));
    video.AddOutputTitle(BitrateK(next));
  }

  method SetBitrate(videos: seq<Video>, probe: Probe, rate: int) returns (r: seq<Video>)
    requires Distinct(videos)
    modifies set v | v in videos
    ensures r == videos
    ensures forall k :: 0 <= k < |videos| ==> videos[k].State() == BitrateStep(old(videos[k].State()), probe, rate)
  {
    var tenx := rate == 0;
    var bitrate := rate;
    var i := 0;
    while i < |videos|
      invariant 0 <= i <= |videos|
      invariant !tenx ==> bitrate == rate
      invariant forall k :: 0 <= k < i ==> videos[k].State() == BitrateStep(old(videos[k].State()), probe, rate)
      invariant forall k :: i <= k < |videos| ==> videos[k].State() == old(videos[k].State())
    {
      bitrate := BitrateOne(videos[i], probe, tenx, bitrate);
      i := i + 1;
    }
    return videos;
  }


  // ---------------------------------------------------------------- change_fps, greyscale

  function FpsStep(s: VideoState, rate: int): (t: VideoState)
    ensures Extends(s, t)
    ensures t == s.(filters := s.filters + [Fps(rate)], titleParts := s.titleParts + [Framerate(rate)])
  {
    Apply(s, Effect([], [Fps(rate)], [Framerate(rate)]))
  }

  /** One video's try block of `change_fps`. */
  method FpsOne(video: Video, rate: int)
    modifies video
    ensures video.State() == FpsStep(old(video.State()), rate)
  {
    video.AddFilter(Fps(rate));
    video.AddOutputTitle(Framerate(rate));
  }

  method ChangeFps(videos: seq<Video>, rate: int) returns (r: seq<Video>)
    requires Distinct(videos)
    modifies set v | v in videos
    ensures r == videos
    ensures forall k :: 0 <= k < |videos| ==> videos[k].State() == FpsStep(old(videos[k].State()), rate)
  {
    var i := 0;
    while i < |videos|
      invariant 0 <= i <= |videos|
      invariant forall k :: 0 <= k < i ==> videos[k].State() == FpsStep(old(videos[k].State()), rate)
      invariant forall k :: i <= k < |videos| ==> videos[k].State() == old(videos[k].State())
    {
      FpsOne(videos[i], rate);
      i := i + 1;
    }
    return videos;
  }

  function GreyStep(s: VideoState): (t: VideoState)
    ensures Extends(s, t)
    ensures t == s.(filters := s.filters + [Gray], titleParts := s.titleParts + [Greyed])
  {
    Apply(s, Effect([], [Gray], [Greyed]))
  }

  /** One video's try block of `greyscale`. */
  method GreyOne(video: Video)
    modifies video
    ensures video.State() == GreyStep(old(video.State()))
  {
    video.AddFilter(Gray);
    video.AddOutputTitle(Greyed);
  }

  method Greyscale(videos: seq<Video>) returns (r: seq<Video>)
    requires Distinct(videos)
    modifies set v | v in videos
    ensures r == videos
    ensures forall k :: 0 <= k < |videos| ==> videos[k].State() == GreyStep(old(videos[k].State()))
  {
    var i := 0;
    while i < |videos|
      invariant 0 <= i <= |videos|
      invariant forall k :: 0 <= k < i ==> videos[k].State() == GreyStep(old(videos[k].State()))
      invariant forall k :: i <= k < |videos| ==> videos[k].State() == old(videos[k].State())
    {
      GreyOne(videos[i]);
      i := i + 1;
    }
    return videos;
  }

  // ---------------------------------------------------------------- call order

  /** One call of a Labeler list operation, with its arguments. */
  datatype Call =
    | ResizeByRatioCall(xr: real, yr: real)
    | TrimVideoStartEndCall(start: real, end: real)
    | ChangeResolutionCall(name: string)
    | TrimIntoClipsCall(interval: real)
    | TrimOnFrameCall(frame: int)
    | TrimNumFramesCall(first: int, count: int)
    | CropVideoSectionCall(x: int, y: int, w: int, h: int)
    | BlurVideoCall(level: int, steps: int)
    | SetBitrateCall(rate: int)
    | ChangeFpsCall(rate: int)
    | GreyscaleCall

  /** What one call does to one video of its list. */
  function CallStep(s: VideoState, probe: Probe, c: Call): (t: VideoState)
    ensures Extends(s, t)
  {
    match c
    case ResizeByRatioCall(xr, yr) => ResizeStep(s, probe, xr, yr)
    case TrimVideoStartEndCall(start, end) => TrimSpanStep(s, start, end)
    case ChangeResolutionCall(name) => ResolutionStep(s, name)
    case TrimIntoClipsCall(interval) => ClipsStep(s, interval)
    case TrimOnFrameCall(frame) => OnFrameStep(s, probe, frame)
    case TrimNumFramesCall(first, count) => NumFramesStep(s, probe, first, count)
    case CropVideoSectionCall(x, y, w, h) => CropStep(s, probe, x, y, w, h)
    case BlurVideoCall(level, steps) => BlurStep(s, level, steps)
    case SetBitrateCall(rate) => BitrateStep(s, probe, rate)
    case ChangeFpsCall(rate) => FpsStep(s, rate)
    case GreyscaleCall => GreyStep(s)
  }

  /** One video after a series of calls on its list, first call first. */
  function Run(s: VideoState, probe: Probe, calls: seq<Call>): (t: VideoState)
    ensures Extends(s, t)
    decreases |calls|
  {
    if |calls| == 0 then s
    else CallStep(Run(s, probe, calls[..|calls| - 1]), probe, calls[|calls| - 1])
  }

  /**
   * Fragments keep call order: whatever the first `i` calls left in the
   * flags, filters and title fragments stays in place, in front of
   * everything the later calls append.
   */
  lemma {:induction false} FiltersKeepCallOrder(s: VideoState, probe: Probe, calls: seq<Call>, i: nat)
    requires i <= |calls|
    ensures Extends(Run(s, probe, calls[..i]), Run(s, probe, calls))
    decreases |calls|
  {
    if i < |calls| {
      var front := calls[..|calls| - 1];
      assert front[..i] == calls[..i];
      FiltersKeepCallOrder(s, probe, front, i);
    } else {
      assert calls[..i] == calls;
    }
  }

  /** Example: a frame rate change, then an accepted blur, leave their filters in that order. */
  lemma FpsThenBlurFilters(s: VideoState, probe: Probe, a: int, level: int, steps: int)
    requires 0 <= level <= 51 && 1 <= steps <= 5
    ensures Run(s, probe, [ChangeFpsCall(a), BlurVideoCall(level, steps)]).filters
      == s.filters + [Fps(a), GaussianBlur(level, steps)]
  {
    var calls := [ChangeFpsCall(a), BlurVideoCall(level, steps)];
    assert calls[..1] == [ChangeFpsCall(a)] && calls[..1][..0] == [];
    var u := FpsStep(s, a);
    assert Run(s, probe, calls[..1]) == u;
    assert Run(s, probe, calls) == BlurStep(u, level, steps);
  }
}
