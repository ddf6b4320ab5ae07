/**
 * The older Processor revision: two label adders that append flags to every
 * video of a list, and per-video ffmpeg command builders. Unlike the Labeler,
 * nothing here catches an exception: the first video whose metadata cannot
 * be read aborts the whole call, after the earlier videos were already
 * labelled and with that video's probe cache possibly filled.
 *
 * `subprocess.call` is not modelled; a builder returns the commands it would
 * run, in list order.
 */
module Processor {
  import opened Wrappers
  import opened Text
  import opened Directives
  import opened Videos
  import Labeler

  /** A video's state once a filling getter ran on it: only the cache may change. */
  function FillStep(s: VideoState, probe: Probe): VideoState
  {
    s.(metaData := Labeler.Filled(s, probe))
  }

  // ---------------------------------------------------------------- add_label_resizing_by_ratio

  /**
   * The flag the resize adder appends for one video: `-vf scale=W:H,setsar=1:1 `
   * with each side truncated, then rounded up to even; the width is read first.
   */
  function RatioFlag(m: Option<Meta>, xr: real, yr: real): (r: Result<Flag, Error>)
    ensures r.Success? <==> m.Some? && Width(m.value).Success? && Height(m.value).Success?
    ensures m.Some? && Width(m.value).Failure? ==> r == Failure(Width(m.value).error)
    ensures r.Success? ==> r.value.VideoFilter? && r.value.filter.Scale?
  {
    if m.None? then Failure(ProbeFailed)
    else match Width(m.value)
      case Failure(e) => Failure(e)
      case Success(w) =>
        match Height(m.value)
        case Failure(e) => Failure(e)
        case Success(h) => Success(VideoFilter(Labeler.ResizeFilter(w, h, xr, yr)))
  }

  /** One video of the resize adder: the cache is filled, and the flag appended when both sides were read. */
  function RatioStep(s: VideoState, probe: Probe, xr: real, yr: real): (t: VideoState)
  {
    var c := FillStep(s, probe);
    match RatioFlag(c.metaData, xr, yr)
    case Success(f) => c.(labels := c.labels + [f])
    case Failure(_) => c
  }

  /**
   * Both revisions scale alike: the older adder's flag carries exactly the
   * filter the Labeler's `resize_by_ratio` collects, and they accept the
   * same videos.
   */
  lemma RatioFlagMatchesLabeler(m: Option<Meta>, xr: real, yr: real)
    ensures RatioFlag(m, xr, yr).Success? <==> Labeler.ResizeDecision(m, xr, yr).Success?
    ensures RatioFlag(m, xr, yr).Success? ==>
      RatioFlag(m, xr, yr).value == VideoFilter(Labeler.ResizeDecision(m, xr, yr).value.filters[0])
  {
  }

  /** A labelled video's text gains "scale", and its output title is then marked "resized_". */
  lemma RatioStepMarksResized(s: VideoState, probe: Probe, xr: real, yr: real)
    requires RatioFlag(FillStep(s, probe).metaData, xr, yr).Success?
    ensures var t := RatioStep(s, probe, xr, yr);
      && t.labels == s.labels + [RatioFlag(FillStep(s, probe).metaData, xr, yr).value]
      && Contains(LabelText(t.labels), "scale")
      && "resized_" <= OutputTitle(t.labels, t.title)
  {
    var t := RatioStep(s, probe, xr, yr);
    var i := |t.labels| - 1;
    assert Scales(t.labels[i]);
    ScaleInLabel(t.labels, i);
    ScaleMarksResized(t.labels, t.title, i);
  }

  /** One iteration of the adder's loop; a failure is returned instead of raised. */
  method RatioOne(video: Video, probe: Probe, xr: real, yr: real) returns (r: Result<Flag, Error>)
    modifies video
    ensures r == RatioFlag(FillStep(old(video.State()), probe).metaData, xr, yr)
    ensures video.State() == RatioStep(old(video.State()), probe, xr, yr)
  {
    var x := video.ExtractMetadata(probe);
    if x.Failure? {
      return Failure(x.error);
    }
    var w := video.GetWidth(probe);
    if w.Failure? {
      return Failure(w.error);
    }
    var h := video.GetHeight(probe);
    if h.Failure? {
      return Failure(h.error);
    }
    var f := VideoFilter(Labeler.ResizeFilter(w.value, h.value, xr, yr));
    video.AddLabel(f);
    return Success(f);
  }

  /**
   * The adder's loop: the first n videos were labelled; when some video
   * raised, it is video n, it kept only its cache, and the rest are untouched.
   */
  method RatioLoop(videos: seq<Video>, probe: Probe, xr: real, yr: real) returns (n: nat, err: Option<Error>)
    requires Distinct(videos)
    modifies set v | v in videos
    ensures n <= |videos| && (err.None? <==> n == |videos|)
    ensures forall k :: 0 <= k < n ==> RatioFlag(FillStep(old(videos[k].State()), probe).metaData, xr, yr).Success?
    ensures forall k :: 0 <= k < n ==> videos[k].State() == RatioStep(old(videos[k].State()), probe, xr, yr)
    ensures err.Some? ==> RatioFlag(FillStep(old(videos[n].State()), probe).metaData, xr, yr) == Failure(err.value)
    ensures err.Some? ==> videos[n].State() == RatioStep(old(videos[n].State()), probe, xr, yr)
    ensures forall k :: n < k < |videos| ==> videos[k].State() == old(videos[k].State())
  {
    n := 0;
    while n < |videos|
      invariant 0 <= n <= |videos|
      invariant forall k :: 0 <= k < n ==> RatioFlag(FillStep(old(videos[k].State()), probe).metaData, xr, yr).Success?
      invariant forall k :: 0 <= k < n ==> videos[k].State() == RatioStep(old(videos[k].State()), probe, xr, yr)
      invariant forall k :: n <= k < |videos| ==> videos[k].State() == old(videos[k].State())
    {
      var f := RatioOne(videos[n], probe, xr, yr);
      if f.Failure? {
        return n, Some(f.error);
      }
      n := n + 1;
    }
    return n, None;
  }

  /**
   * `add_label_resizing_by_ratio`: on success every video is labelled and the
   * same list is returned; otherwise some video n raised, every video before
   * it was labelled, n itself kept only its cache, and the rest are untouched.
   */
  method AddLabelResizingByRatio(videos: seq<Video>, probe: Probe, xr: real, yr: real)
    returns (r: Result<seq<Video>, Error>)
    requires Distinct(videos)
    modifies set v | v in videos
    ensures r.Success? ==> r.value == videos
    ensures r.Success? ==> forall k :: 0 <= k < |videos| ==>
      RatioFlag(FillStep(old(videos[k].State()), probe).metaData, xr, yr).Success?
    ensures r.Success? ==> forall k :: 0 <= k < |videos| ==>
      videos[k].State() == RatioStep(old(videos[k].State()), probe, xr, yr)
    ensures r.Failure? ==>
      exists n ::
      && 0 <= n < |videos|
      && RatioFlag(FillStep(old(videos[n].State()), probe).metaData, xr, yr) == Failure(r.error)
      && (forall k :: 0 <= k < n ==> RatioFlag(FillStep(old(videos[k].State()), probe).metaData, xr, yr).Success?)
      && (forall k :: 0 <= k <= n ==> videos[k].State() == RatioStep(old(videos[k].State()), probe, xr, yr))
      && (forall k :: n < k < |videos| ==> videos[k].State() == old(videos[k].State()))
  {
    var n, err := RatioLoop(videos, probe, xr, yr);
    if err.Some? {
      return Failure(err.value);
    }
    return Success(videos);
  }

  // ---------------------------------------------------------------- add_label_trimming_start_duration

  /** One video of the trim adder: `-ss {start} -t {duration} ` appended, with no check at all. */
  function TrimLabelStep(s: VideoState, start: real, duration: real): (t: VideoState)
    ensures t.(labels := s.labels) == s
  {
    s.(labels := s.labels + [SeekFor(start, duration)])
  }

  /** The trim adder's flag puts a seek into the label text and marks the output title "trimmed_". */
  lemma TrimLabelMarksTrimmed(s: VideoState, start: real, duration: real)
    ensures var t := TrimLabelStep(s, start, duration);
      && Contains(LabelText(t.labels), "-ss")
      && (var o := OutputTitle(t.labels, t.title);
          |o| >= |t.title| + 8 && o[|o| - |t.title| - 8..] == "trimmed_" + t.title)
  {
    var t := TrimLabelStep(s, start, duration);
    var i := |t.labels| - 1;
    SeekInLabel(t.labels, i);
    SeekMarksTrimmed(t.labels, t.title, i);
  }

  /** One iteration of the trim adder's loop. */
  method TrimLabelOne(video: Video, start: real, duration: real)
    modifies video
    ensures video.State() == TrimLabelStep(old(video.State()), start, duration)
  {
    video.AddLabel(SeekFor(start, duration));
  }

  /** `add_label_trimming_start_duration`: every video gains the flag; the same list is returned. */
  method AddLabelTrimmingStartDuration(videos: seq<Video>, start: real, duration: real) returns (r: seq<Video>)
    requires Distinct(videos)
    modifies set v | v in videos
    ensures r == videos
    ensures forall k :: 0 <= k < |videos| ==> videos[k].State() == TrimLabelStep(old(videos[k].State()), start, duration)
  {
    var i := 0;
    while i < |videos|
      invariant 0 <= i <= |videos|
      invariant forall k :: 0 <= k < i ==> videos[k].State() == TrimLabelStep(old(videos[k].State()), start, duration)
      invariant forall k :: i <= k < |videos| ==> videos[k].State() == old(videos[k].State())
    {
      TrimLabelOne(videos[i], start, duration);
      i := i + 1;
    }
    return videos;
  }

  // ---------------------------------------------------------------- command builders

  /** The output folder every builder writes into. */
  const OutputFolder := "modified/"

  /** Where `trim_video_start_end` writes: the folder, the span, then the title. */
  function TrimOutput(start: real, end: real, title: string): (o: string)
    ensures OutputFolder <= o && EndsWith(o, title)
  {
    var head := OutputFolder + "output_trim_video_start_" + RealText(start) + "_end_" + RealText(end) + "_";
    EndsWithAppend(head, title);
    head + title
  }

  /** The stream-copying trim: seek to the start, keep `end - start` seconds. */
  function TrimCommand(ffmpeg: string, file: Option<string>, title: string, start: real, end: real): (c: string)
    ensures EndsWith(c, TrimOutput(start, end, title))
  {
    var head := (ffmpeg + " -y ") + ("-ss " + RealText(start)) + ((" -i '" + ProbeTarget(file) + "' -v quiet") + (" -t " + RealText(end - start)))
      + " -c copy ";
    EndsWithAppend(head, TrimOutput(start, end, title));
    head + TrimOutput(start, end, title)
  }

  /** The trim command seeks to the start and lasts the span's length, as the Labeler's trim flag does. */
  lemma TrimCommandSpan(ffmpeg: string, file: Option<string>, title: string, start: real, end: real)
    ensures Contains(TrimCommand(ffmpeg, file, title, start, end), "-ss " + RealText(start))
    ensures Contains(TrimCommand(ffmpeg, file, title, start, end), " -t " + RealText(end - start))
  {
    var head := ffmpeg + " -y ";
    var seek := "-ss " + RealText(start);
    var source := " -i '" + ProbeTarget(file) + "' -v quiet";
    var span := " -t " + RealText(end - start);
    var front := head + seek + (source + span);
    ContainsInside(head, seek, source + span, seek);
    ContainsPrefix(front, " -c copy ", seek);
    ContainsPrefix(front + " -c copy ", TrimOutput(start, end, title), seek);
    assert span[0..] == span;
    ContainsSuffix(source, span, span);
    ContainsSuffix(head + seek, source + span, span);
    ContainsPrefix(front, " -c copy ", span);
    ContainsPrefix(front + " -c copy ", TrimOutput(start, end, title), span);
  }

  /** `trim_video_start_end`: one command per video, in list order; the videos are only read. */
  method TrimVideoStartEnd(videos: seq<Video>, ffmpeg: string, start: real, end: real) returns (cmds: seq<string>)
    ensures |cmds| == |videos|
    ensures forall k :: 0 <= k < |videos| ==> cmds[k] == TrimCommand(ffmpeg, videos[k].file, videos[k].title, start, end)
  {
    cmds := [];
    var i := 0;
    while i < |videos|
      invariant 0 <= i <= |videos| && |cmds| == i
      invariant forall k :: 0 <= k < i ==> cmds[k] == TrimCommand(ffmpeg, videos[k].file, videos[k].title, start, end)
    {
      cmds := cmds + [TrimCommand(ffmpeg, videos[i].GetFile(), videos[i].title, start, end)];
      i := i + 1;
    }
  }

  /**
   * The seek time of `split_num_frames`: `start_frame / (nb_frames / duration)`.
   * Both divisions raise on a zero divisor; no range is checked.
   */
  function FrameSeek(m: Option<Meta>, first: int): (r: Result<real, Error>)
    ensures r.Success? <==>
      m.Some? && NbFrames(m.value).Success? && Duration(m.value).Success?
      && NbFrames(m.value).value != 0 && Duration(m.value).value != 0.0
  {
    if m.None? then Failure(ProbeFailed)
    else match NbFrames(m.value)
      case Failure(e) => Failure(e)
      case Success(nb) =>
        match Duration(m.value)
        case Failure(e) => Failure(e)
        case Success(dur) =>
          if dur == 0.0 || nb == 0 then Failure(ZeroDivision)
          else Success(first as real / (nb as real / dur))
  }

  /** The seek time is the first frame's share of the frame count, times the duration. */
  lemma FrameSeekValue(m: Meta, first: int)
    requires FrameSeek(Some(m), first).Success?
    ensures FrameSeek(Some(m), first).value == first as real * Duration(m).value / NbFrames(m).value as real
  {
  }

  /** A first frame within the stream seeks to a time within the stream. */
  lemma FrameSeekInside(m: Meta, first: int)
    requires FrameSeek(Some(m), first).Success?
    requires NbFrames(m).value > 0 && Duration(m).value > 0.0 && 0 <= first <= NbFrames(m).value
    ensures 0.0 <= FrameSeek(Some(m), first).value <= Duration(m).value
  {
    var nb := NbFrames(m).value as real;
    var dur := Duration(m).value;
    var t := FrameSeek(Some(m), first).value;
    FrameSeekValue(m, first);
    assert t * nb == first as real * dur;
    assert first as real * dur <= nb * dur;
  }

  /** Where `split_num_frames` writes: the first frame and the frame after the last, then the title. */
  function SplitOutput(first: int, count: int, title: string): (o: string)
    ensures OutputFolder <= o && EndsWith(o, title)
  {
    var head := (OutputFolder + "output_split_num_frames") + ("_" + IntText(first) + "_to_" + IntText(first + count) + "_");
    EndsWithAppend(head, title);
    head + title
  }

  /** Re-encode from the seek time, keeping `count` frames. */
  function SplitCommand(ffmpeg: string, file: Option<string>, title: string, time: real, first: int, count: int): string
  {
    (ffmpeg + " -y -ss " + RealText(time) + " -i '" + ProbeTarget(file) + "' -v quiet -c:v libx264 ")
    + ("-frames:v " + IntText(count) + " ") + SplitOutput(first, count, title)
  }

  /**
   * The split command writes to its output name, stops after `count` frames,
   * and names its output after both ends of the range.
   */
  lemma SplitCommandRange(ffmpeg: string, file: Option<string>, title: string, time: real, first: int, count: int)
    ensures EndsWith(SplitCommand(ffmpeg, file, title, time, first, count), SplitOutput(first, count, title))
    ensures Contains(SplitCommand(ffmpeg, file, title, time, first, count), "-frames:v " + IntText(count) + " ")
    ensures Contains(SplitOutput(first, count, title), "_" + IntText(first) + "_to_" + IntText(first + count) + "_")
  {
    var frames := "-frames:v " + IntText(count) + " ";
    var head := ffmpeg + " -y -ss " + RealText(time) + " -i '" + ProbeTarget(file) + "' -v quiet -c:v libx264 ";
    ContainsInside(head, frames, SplitOutput(first, count, title), frames);
    EndsWithAppend(head + frames, SplitOutput(first, count, title));
    var range := "_" + IntText(first) + "_to_" + IntText(first + count) + "_";
    ContainsInside(OutputFolder + "output_split_num_frames", range, title, range);
  }

  /** One video's reads in `split_num_frames`: frame count (filling the cache), then duration, then the seek time. */
  method SplitSeekOne(video: Video, probe: Probe, first: int) returns (r: Result<real, Error>)
    modifies video
    ensures r == FrameSeek(FillStep(old(video.State()), probe).metaData, first)
    ensures video.State() == FillStep(old(video.State()), probe)
  {
    var nb := video.GetNumFrames(probe);
    if nb.Failure? {
      return Failure(nb.error);
    }
    var dur := video.GetDuration();
    if dur.Failure? {
      return Failure(dur.error);
    }
    if dur.value == 0.0 || nb.value == 0 {
      return Failure(ZeroDivision);
    }
    var fps := nb.value as real / dur.value;
    return Success(first as real / fps);
  }

  /**
   * The reads of `split_num_frames` over the list: the seek times of the
   * videos handled before the first exception, and that exception. Videos up
   * to the failing one have their cache filled; the rest are untouched.
   */
  method SplitSeeks(videos: seq<Video>, probe: Probe, first: int) returns (seeks: seq<real>, err: Option<Error>)
    requires Distinct(videos)
    modifies set v | v in videos
    ensures |seeks| <= |videos| && (err.None? <==> |seeks| == |videos|)
    ensures forall k :: 0 <= k < |seeks| ==> FrameSeek(FillStep(old(videos[k].State()), probe).metaData, first) == Success(seeks[k])
    ensures err.Some? ==> FrameSeek(FillStep(old(videos[|seeks|].State()), probe).metaData, first) == Failure(err.value)
    ensures forall k :: 0 <= k < |videos| && k <= |seeks| ==> videos[k].State() == FillStep(old(videos[k].State()), probe)
    ensures forall k :: |seeks| < k < |videos| ==> videos[k].State() == old(videos[k].State())
  {
    ghost var before := seq(|videos|, k requires 0 <= k < |videos| reads videos => videos[k].State());
    seeks := [];
    var i := 0;
    while i < |videos|
      invariant 0 <= i <= |videos| && |seeks| == i
      invariant forall k :: 0 <= k < i ==> FrameSeek(FillStep(before[k], probe).metaData, first) == Success(seeks[k])
      invariant forall k :: 0 <= k < i ==> videos[k].State() == FillStep(before[k], probe)
      invariant forall k :: i <= k < |videos| ==> videos[k].State() == before[k]
    {
      var t := SplitSeekOne(videos[i], probe, first);
      if t.Failure? {
        return seeks, Some(t.error);
      }
      seeks := seeks + [t.value];
      i := i + 1;
    }
    return seeks, None;
  }

  /** The commands of `split_num_frames` for videos whose seek times are known, in list order. */
  method SplitCommands(videos: seq<Video>, ffmpeg: string, seeks: seq<real>, first: int, count: int) returns (cmds: seq<string>)
    requires |seeks| == |videos|
    ensures |cmds| == |videos|
    ensures forall k :: 0 <= k < |videos| ==> cmds[k] == SplitCommand(ffmpeg, videos[k].file, videos[k].title, seeks[k], first, count)
  {
    cmds := [];
    var i := 0;
    while i < |videos|
      invariant 0 <= i <= |videos|
      invariant |cmds| == i
      invariant forall k :: 0 <= k < i ==> cmds[k] == SplitCommand(ffmpeg, videos[k].file, videos[k].title, seeks[k], first, count)
    {
      cmds := cmds + [SplitCommand(ffmpeg, videos[i].file, videos[i].title, seeks[i], first, count)];
      i := i + 1;
    }
  }

  /**
   * `split_num_frames`: the commands run, one per video in list order, and
   * the exception that ended the call early, if any. The command of each
   * video starts at its seek time; the cache of every video read is filled.
   */
  method SplitNumFrames(videos: seq<Video>, probe: Probe, ffmpeg: string, first: int, count: int)
    returns (cmds: seq<string>, err: Option<Error>)
    requires Distinct(videos)
    modifies set v | v in videos
    ensures |cmds| <= |videos| && (err.None? <==> |cmds| == |videos|)
    ensures forall k :: 0 <= k < |cmds| ==> FrameSeek(FillStep(old(videos[k].State()), probe).metaData, first).Success?
    ensures forall k :: 0 <= k < |cmds| ==> cmds[k] == SplitCommand(ffmpeg, old(videos[k].file), old(videos[k].title),
      FrameSeek(FillStep(old(videos[k].State()), probe).metaData, first).value, first, count)
    ensures err.Some? ==> FrameSeek(FillStep(old(videos[|cmds|].State()), probe).metaData, first) == Failure(err.value)
    ensures forall k :: 0 <= k < |videos| && k <= |cmds| ==> videos[k].State() == FillStep(old(videos[k].State()), probe)
    ensures forall k :: |cmds| < k < |videos| ==> videos[k].State() == old(videos[k].State())
  {
    var seeks;
    seeks, err := SplitSeeks(videos, probe, first);
    cmds := SplitCommands(videos[..|seeks|], ffmpeg, seeks, first, count);
  }

  /** Where `crop_video_section` writes: the section's size, then the title. */
  function CropOutput(w: int, h: int, title: string): (o: string)
    ensures OutputFolder <= o && EndsWith(o, title)
  {
    var head := OutputFolder + "output_crop_video_" + IntText(w) + "x" + IntText(h) + "_section_";
    EndsWithAppend(head, title);
    head + title
  }

  /** The crop command: origin (x, y), size w by h, audio copied. */
  function CropCommand(ffmpeg: string, file: Option<string>, title: string, x: int, y: int, w: int, h: int): (c: string)
    ensures EndsWith(c, CropOutput(w, h, title))
  {
    var head := (ffmpeg + " -y -i '" + ProbeTarget(file) + "' -v quiet -filter:v ") + ("'" + CropSpec(w, h, x, y) + "'")
      + " -c:a copy ";
    EndsWithAppend(head, CropOutput(w, h, title));
    head + CropOutput(w, h, title)
  }

  /**
   * The crop command's filter is the one the Labeler's crop collects, less
   * that fragment's trailing blank, and comes quoted.
   */
  lemma CropCommandFilter(ffmpeg: string, file: Option<string>, title: string, x: int, y: int, w: int, h: int)
    ensures Contains(CropCommand(ffmpeg, file, title, x, y, w, h), "'" + CropSpec(w, h, x, y) + "'")
    ensures FilterText(Crop(w, h, x, y)) == CropSpec(w, h, x, y) + " "
  {
    var spec := "'" + CropSpec(w, h, x, y) + "'";
    var head := ffmpeg + " -y -i '" + ProbeTarget(file) + "' -v quiet -filter:v ";
    ContainsInside(head, spec, " -c:a copy ", spec);
    ContainsPrefix(head + spec + " -c:a copy ", CropOutput(w, h, title), spec);
  }

  /** `crop_video_section`: one command per video, in list order; the videos are only read. */
  method CropVideoSection(videos: seq<Video>, ffmpeg: string, x: int, y: int, w: int, h: int) returns (cmds: seq<string>)
    ensures |cmds| == |videos|
    ensures forall k :: 0 <= k < |videos| ==> cmds[k] == CropCommand(ffmpeg, videos[k].file, videos[k].title, x, y, w, h)
  {
    cmds := [];
    var i := 0;
    while i < |videos|
      invariant 0 <= i <= |videos| && |cmds| == i
      invariant forall k {:trigger cmds[k]} :: 0 <= k < i ==> cmds[k] == CropCommand(ffmpeg, videos[k].file, videos[k].title, x, y, w, h)
    {
      cmds := cmds + [CropCommand(ffmpeg, videos[i].GetFile(), videos[i].title, x, y, w, h)];
      i := i + 1;
    }
  }
}
