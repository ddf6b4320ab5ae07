/**
 * The transcoder directives a video accumulates, as structured tokens, and
 * the text each one stands for. Three kinds are kept apart, as the labelling
 * code keeps them: simple flags (the `label` string), filter-graph fragments
 * (`complex_filter`) and output-name fragments (`add_output_title`).
 */
module Directives {
  import opened Text

  /** One stage of a filter graph. */
  datatype Filter =
    | Scale(width: int, height: int)              // scale=W:H,setsar=1:1
    | ScaleLanczos(width: int, height: int)       // scale=WxH:flags=lanczos
    | Crop(width: int, height: int, x: int, y: int) // crop=w:h:x:y (with a trailing blank)
    | GaussianBlur(sigma: int, steps: int)        // gblur=sigma=L:steps=S
    | Fps(rate: int)                              // fps=R
    | Gray                                        // format=gray

  predicate IsScale(f: Filter) { f.Scale? || f.ScaleLanczos? }

  function CropSpec(w: int, h: int, x: int, y: int): string
  {
    "crop=" + IntText(w) + ":" + IntText(h) + ":" + IntText(x) + ":" + IntText(y)
  }

  function FilterText(f: Filter): string
  {
    match f
    case Scale(w, h) => "scale=" + IntText(w) + ":" + IntText(h) + ",setsar=1:1"
    case ScaleLanczos(w, h) => "scale=" + IntText(w) + "x" + IntText(h) + ":flags=lanczos"
    case Crop(w, h, x, y) => CropSpec(w, h, x, y) + " "
    case GaussianBlur(l, n) => "gblur=sigma=" + IntText(l) + ":steps=" + IntText(n)
    case Fps(r) => "fps=" + IntText(r)
    case Gray => "format=gray"
  }

  /** A scale filter's text starts with "scale". */
  lemma ScaleFilterText(f: Filter)
    requires IsScale(f)
    ensures "scale" <= FilterText(f)
  {
  }

  function FilterTexts(fs: seq<Filter>): (ts: seq<string>)
    ensures |ts| == |fs| && forall i :: 0 <= i < |fs| ==> ts[i] == FilterText(fs[i])
  {
    seq(|fs|, i requires 0 <= i < |fs| => FilterText(fs[i]))
  }

  /** One simple transcoder flag group, as appended to a video's label. */
  datatype Flag =
    | SeekFor(start: real, duration: real)        // -ss S -t D
    | SeekTo(time: real)                          // -ss T
    | SeekFrames(time: real, frames: int)         // -ss T -frames:v N
    | SlowPreset                                  // -c:v libx264 -preset slow -crf 28
    | Segment(interval: real)                     // segment muxer every I seconds
    | ConstantBitrate(rate: int, minRate: int, maxRate: int, bufSize: int)
    | VideoFilter(filter: Filter)                 // -vf F
    | FilterGraph(filters: seq<Filter>)           // the folded complex filter

  /** The flags that start with a seek (`-ss`). */
  predicate Seeks(f: Flag) { f.SeekFor? || f.SeekTo? || f.SeekFrames? }

  /** The flags whose text carries a scale filter. */
  predicate Scales(f: Flag)
  {
    || (f.VideoFilter? && IsScale(f.filter))
    || (f.FilterGraph? && exists j :: 0 <= j < |f.filters| && IsScale(f.filters[j]))
  }

  function FlagText(f: Flag): string
  {
    match f
    case SeekFor(start, d) => "-ss " + RealText(start) + " -t " + RealText(d) + " "
    case SeekTo(t) => "-ss " + RealText(t) + " "
    case SeekFrames(t, n) => "-ss " + RealText(t) + " -frames:v " + IntText(n) + " "
    case SlowPreset => "-c:v libx264 -preset slow -crf 28 "
    case Segment(i) =>
      var t := RealText(i);
      " -c:a aac -vsync vfr -reset_timestamps 1 -segment_time " + t + " -g " + t
      + " -sc_threshold 0 -force_key_frames 'expr:gte(t,n_forced*" + t + ")' -f segment "
    case ConstantBitrate(b, lo, hi, buf) =>
      " -x264-params 'nal-hdr=cbr' -b:v " + IntText(b) + "K -minrate " + IntText(lo)
      + "K -maxrate " + IntText(hi) + "K -bufsize " + IntText(buf) + "K "
    case VideoFilter(g) => "-vf " + FilterText(g) + " "
    case FilterGraph(gs) => "-filter_complex \"" + Join(FilterTexts(gs), ",") + "\" "
  }

  /** A seek flag's text starts with "-ss". */
  lemma SeekFlagText(f: Flag)
    requires Seeks(f)
    ensures "-ss" <= FlagText(f)
  {
  }

  function FlagTexts(flags: seq<Flag>): (ts: seq<string>)
    ensures |ts| == |flags| && forall i :: 0 <= i < |flags| ==> ts[i] == FlagText(flags[i])
  {
    seq(|flags|, i requires 0 <= i < |flags| => FlagText(flags[i]))
  }

  /** The label string: the flags' texts in the order they were added. */
  function LabelText(flags: seq<Flag>): string
  {
    Concat(FlagTexts(flags))
  }

  /** The text of a concatenation of labels is the concatenation of their texts. */
  lemma LabelTextConcat(a: seq<Flag>, b: seq<Flag>)
    ensures LabelText(a + b) == LabelText(a) + LabelText(b)
  {
    assert FlagTexts(a + b) == FlagTexts(a) + FlagTexts(b);
    ConcatConcat(FlagTexts(a), FlagTexts(b));
  }

  /** Appending a flag appends its text: `label += text`. */
  lemma LabelTextAppend(flags: seq<Flag>, f: Flag)
    ensures LabelText(flags + [f]) == LabelText(flags) + FlagText(f)
  {
    LabelTextConcat(flags, [f]);
    assert FlagTexts([f]) == [FlagText(f)];
    assert Concat([FlagText(f)]) == FlagText(f) + Concat([]);
  }

  /** The text of a label holds the text of each of its flags. */
  lemma LabelTextAround(flags: seq<Flag>, i: nat)
    requires i < |flags|
    ensures LabelText(flags) == LabelText(flags[..i]) + FlagText(flags[i]) + LabelText(flags[i + 1..])
  {
    assert flags == flags[..i] + [flags[i]] + flags[i + 1..];
    LabelTextConcat(flags[..i] + [flags[i]], flags[i + 1..]);
    LabelTextAppend(flags[..i], flags[i]);
  }

  /** Any seek flag puts "-ss" into the label text. */
  lemma SeekInLabel(flags: seq<Flag>, i: nat)
    requires i < |flags| && Seeks(flags[i])
    ensures Contains(LabelText(flags), "-ss")
  {
    LabelTextAround(flags, i);
    SeekFlagText(flags[i]);
    ContainsInside(LabelText(flags[..i]), FlagText(flags[i]), LabelText(flags[i + 1..]), "-ss");
  }

  /** A flag carrying a scale filter has "scale" in its text. */
  lemma ScaleInFlag(f: Flag)
    requires Scales(f)
    ensures Contains(FlagText(f), "scale")
  {
    match f
    case VideoFilter(g) => ScaleInVideoFilter(g);
    case FilterGraph(gs) =>
      var j :| 0 <= j < |gs| && IsScale(gs[j]);
      ScaleInFilterGraph(gs, j);
  }

  lemma ScaleInVideoFilter(g: Filter)
    requires IsScale(g)
    ensures Contains(FlagText(VideoFilter(g)), "scale")
  {
    assert FlagText(VideoFilter(g)) == "-vf " + FilterText(g) + " ";
    ScaleFilterText(g);
    ContainsInside("-vf ", FilterText(g), " ", "scale");
  }

  lemma ScaleInFilterGraph(gs: seq<Filter>, j: nat)
    requires j < |gs| && IsScale(gs[j])
    ensures Contains(FlagText(FilterGraph(gs)), "scale")
  {
    var graph := Join(FilterTexts(gs), ",");
    assert FlagText(FilterGraph(gs)) == "-filter_complex \"" + graph + "\" ";
    ScaleFilterText(gs[j]);
    JoinContains(FilterTexts(gs), ",", j, "scale");
    ContainsWithin("-filter_complex \"", graph, "\" ", "scale");
  }

  /** Whatever a flag's text holds, the label text holds. */
  lemma FlagTextInLabel(flags: seq<Flag>, i: nat, pat: string)
    requires i < |flags| && Contains(FlagText(flags[i]), pat)
    ensures Contains(LabelText(flags), pat)
  {
    LabelTextAround(flags, i);
    ContainsWithin(LabelText(flags[..i]), FlagText(flags[i]), LabelText(flags[i + 1..]), pat);
  }

  /** Every filter of a folded graph appears in the graph flag's text. */
  lemma FilterInGraph(gs: seq<Filter>, j: nat)
    requires j < |gs|
    ensures Contains(FlagText(FilterGraph(gs)), FilterText(gs[j]))
  {
    var graph := Join(FilterTexts(gs), ",");
    assert FlagText(FilterGraph(gs)) == "-filter_complex \"" + graph + "\" ";
    JoinContains(FilterTexts(gs), ",", j, FilterText(gs[j]));
    ContainsWithin("-filter_complex \"", graph, "\" ", FilterText(gs[j]));
  }

  /** Any scale filter, alone or inside a folded graph, puts "scale" into the label text. */
  lemma ScaleInLabel(flags: seq<Flag>, i: nat)
    requires i < |flags| && Scales(flags[i])
    ensures Contains(LabelText(flags), "scale")
  {
    ScaleInFlag(flags[i]);
    FlagTextInLabel(flags, i, "scale");
  }

  /** One fragment of the output name, as `add_output_title` receives it. */
  datatype TitlePart =
    | ResizedRatio(x: real, y: real)
    | TrimmedSpan(start: real, end: real)
    | ResizedTo(width: int, height: int)
    | TrimmedClips(interval: real)
    | TrimmedOnFrame(frame: int)
    | TrimFrames(first: int, last: int)
    | Cropped(width: int, height: int)
    | Blurred(level: int, steps: int)
    | BitrateK(rate: int)
    | Framerate(rate: int)
    | Greyed

  function TitleText(p: TitlePart): string
  {
    match p
    case ResizedRatio(x, y) => "resized_ratio_" + RealText(x) + "_" + RealText(y) + "_"
    case TrimmedSpan(s, e) => "trimmed_" + RealText(s) + "_to_" + RealText(e) + "_"
    case ResizedTo(w, h) => "resized_" + IntText(w) + "x" + IntText(h) + "_"
    case TrimmedClips(i) => "trimmed_" + RealText(i) + "_clips_"
    case TrimmedOnFrame(f) => "trimmed_on_frame_" + IntText(f) + "_"
    case TrimFrames(a, b) => "trim_frames_" + IntText(a) + "_to_" + IntText(b) + "_"
    case Cropped(w, h) => "cropped_" + IntText(w) + "x" + IntText(h) + "_"
    case Blurred(l, n) => "blurred_" + IntText(l) + "x" + IntText(n) + "_"
    case BitrateK(b) => "bitrate_" + IntText(b) + "K_"
    case Framerate(r) => "framerate_" + IntText(r) + "_"
    case Greyed => "greyscale_"
  }
}
