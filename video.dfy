/**
 * The Video entity: identity (a local file, or an S3 bucket and key), a
 * probe-result cache filled at most once, the accumulated label flags, filter
 * fragments and output-name fragments, and the derived output title.
 */
module Videos {
  import opened Wrappers
  import opened Text
  import opened Directives

  /** The fields of one probed stream this code reads; a missing key is None. */
  datatype Stream = Stream(
    codecName: Option<string>,
    width: Option<int>,
    height: Option<int>,
    duration: Option<real>,
    nbFrames: Option<int>,
    bitRate: Option<int>)

  /** What ffprobe reports: the list of streams, in the order it prints them. */
  datatype Meta = Meta(streams: seq<Stream>)

  /** The exceptions the core can raise. */
  datatype Error =
    | ProbeFailed                  // ffprobe exited non-zero or printed no JSON
    | NoStream                     // streams[0] does not exist
    | MissingField(name: string)   // streams[0] has no such key
    | UndefinedMethod(name: string) // the call names a method Video does not define
    | Rejected                     // a labelling assert failed
    | ZeroDivision                 // a frame-rate computation divided by zero
    | UnknownResolution            // the resolution name is not a key of the table
    | EmptySeparator               // str.split('') raises ValueError
    | NoSuchPart                   // indexing past the pieces of a split
    | NoContents                   // an S3 listing without a "Contents" key
    | NoneFolder                   // None used where a folder path is needed

  /**
   * The external probe, as a function of the text the code hands it: the
   * parsed report, or None when ffprobe fails or its output does not parse.
   */
  type Probe = string -> Option<Meta>

  /** The S3 presigned-URL service: bucket, key and lifetime in seconds to a URL. */
  type Signer = (Option<string>, Option<string>, int) -> string

  /** The file argument ffprobe receives: `f"'{self.file}'"` prints None as "None". */
  function ProbeTarget(file: Option<string>): string
  {
    match file
    case Some(f) => f
    case None => "None"
  }

  /** The cache after `extract_metadata`: probed only while empty, never replaced once set. */
  function Cached(meta: Option<Meta>, probe: Probe, file: Option<string>): (c: Option<Meta>)
    ensures meta.Some? ==> c == meta
    ensures meta.None? ==> c == probe(ProbeTarget(file))
  {
    if meta.Some? then meta else probe(ProbeTarget(file))
  }

  function FirstStream(m: Meta): (r: Result<Stream, Error>)
    ensures r.Success? <==> |m.streams| > 0
    ensures r.Success? ==> r.value == m.streams[0]
  {
    if |m.streams| == 0 then Failure(NoStream) else Success(m.streams[0])
  }

  function Field<T>(v: Option<T>, name: string): Result<T, Error>
  {
    match v
    case Some(x) => Success(x)
    case None => Failure(MissingField(name))
  }

  /** `meta["streams"][0]["width"]` and the other projections. */
  function Width(m: Meta): Result<int, Error>
  {
    var first := FirstStream(m);
    if first.Failure? then Failure(first.error) else Field(first.value.width, "width")
  }

  function Height(m: Meta): Result<int, Error>
  {
    var first := FirstStream(m);
    if first.Failure? then Failure(first.error) else Field(first.value.height, "height")
  }

  function NbFrames(m: Meta): Result<int, Error>
  {
    var first := FirstStream(m);
    if first.Failure? then Failure(first.error) else Field(first.value.nbFrames, "nb_frames")
  }

  function Duration(m: Meta): Result<real, Error>
  {
    var first := FirstStream(m);
    if first.Failure? then Failure(first.error) else Field(first.value.duration, "duration")
  }

  function CodecName(m: Meta): Result<string, Error>
  {
    var first := FirstStream(m);
    if first.Failure? then Failure(first.error) else Field(first.value.codecName, "codec_name")
  }

  function BitRate(m: Meta): Result<int, Error>
  {
    var first := FirstStream(m);
    if first.Failure? then Failure(first.error) else Field(first.value.bitRate, "bit_rate")
  }

  /** Every projection reads stream 0: a report whose first stream has the field yields it. */
  lemma ProjectionsReadFirstStream(m: Meta)
    requires |m.streams| > 0
    ensures Width(m).Success? <==> m.streams[0].width.Some?
    ensures Width(m).Success? ==> Width(m).value == m.streams[0].width.value
    ensures Height(m).Success? <==> m.streams[0].height.Some?
    ensures Height(m).Success? ==> Height(m).value == m.streams[0].height.value
    ensures NbFrames(m).Success? <==> m.streams[0].nbFrames.Some?
    ensures NbFrames(m).Success? ==> NbFrames(m).value == m.streams[0].nbFrames.value
    ensures Duration(m).Success? <==> m.streams[0].duration.Some?
    ensures Duration(m).Success? ==> Duration(m).value == m.streams[0].duration.value
    ensures CodecName(m).Success? <==> m.streams[0].codecName.Some?
    ensures CodecName(m).Success? ==> CodecName(m).value == m.streams[0].codecName.value
    ensures BitRate(m).Success? <==> m.streams[0].bitRate.Some?
    ensures BitRate(m).Success? ==> BitRate(m).value == m.streams[0].bitRate.value
  {
  }

  /** Without a first stream every projection fails with the missing-stream error. */
  lemma ProjectionsWithoutStream(m: Meta)
    requires |m.streams| == 0
    ensures Width(m) == Failure(NoStream) && Height(m) == Failure(NoStream) && NbFrames(m) == Failure(NoStream)
    ensures Duration(m) == Failure(NoStream) && CodecName(m) == Failure(NoStream) && BitRate(m) == Failure(NoStream)
  {
  }

  /**
   * `get_output_title`: "resized_" when the label text mentions "scale",
   * then "trimmed_" when it mentions "-ss", then the title.
   */
  function OutputTitle(flags: seq<Flag>, title: string): (r: string)
  {
    var text := LabelText(flags);
    (if Contains(text, "scale") then "resized_" else "")
    + (if Contains(text, "-ss") then "trimmed_" else "")
    + title
  }

  /** The output title ends with the title, after 0, 8 or 16 characters of markers. */
  lemma OutputTitleShape(flags: seq<Flag>, title: string)
    ensures var r := OutputTitle(flags, title);
      |r| >= |title| && r[|r| - |title|..] == title && |r| - |title| in {0, 8, 16}
  {
  }

  /** With no flags the output title is the title itself. */
  lemma OutputTitleOfNoFlags(title: string)
    ensures OutputTitle([], title) == title
  {
    assert LabelText([]) == "";
  }

  /** A seek flag anywhere in the label makes the output title end in "trimmed_" + title. */
  lemma SeekMarksTrimmed(flags: seq<Flag>, title: string, i: nat)
    requires i < |flags| && Seeks(flags[i])
    ensures EndsWith(OutputTitle(flags, title), "trimmed_" + title)
  {
    SeekInLabel(flags, i);
    var prefix := if Contains(LabelText(flags), "scale") then "resized_" else "";
    assert OutputTitle(flags, title) == prefix + ("trimmed_" + title);
    EndsWithAppend(prefix, "trimmed_" + title);
  }

  /** A scale filter anywhere in the label makes the output title start with "resized_". */
  lemma ScaleMarksResized(flags: seq<Flag>, title: string, i: nat)
    requires i < |flags| && Scales(flags[i])
    ensures "resized_" <= OutputTitle(flags, title)
  {
    ScaleInLabel(flags, i);
  }

  /** `get_presigned_url`: a local file is its own URL; an S3 object gets a quoted signed URL. */
  function PresignedUrl(file: Option<string>, bucket: Option<string>, key: Option<string>,
                        time: int, sign: Signer): string
  {
    if file.None? then "'" + sign(bucket, key, time) + "'" else file.value
  }

  /** A local file is its own URL; an S3 object's URL is the signer's URL for its bucket and key, in single quotes. */
  lemma PresignedUrlShape(file: Option<string>, bucket: Option<string>, key: Option<string>, time: int, sign: Signer)
    ensures var url := PresignedUrl(file, bucket, key, time, sign);
      && (file.Some? ==> url == file.value)
      && (file.None? ==> |url| >= 2 && url[0] == '\'' && url[|url| - 1] == '\''
                         && url[1..|url| - 1] == sign(bucket, key, time))
  {
  }

  /** The right-hand operand of `video == target`. */
  datatype Operand = Str(text: string) | VideoTitled(title: string) | NotText

  /**
   * `__eq__` compares the title with the operand itself. Against another
   * Video, str's comparison declines and Python retries the reflected call,
   * which compares the two titles.
   */
  function TitleEquals(title: string, target: Operand): bool
  {
    match target
    case Str(s) => title == s
    case VideoTitled(t) => t == title
    case NotText => false
  }

  /** Two videos compare equal exactly when their titles agree, in either order. */
  lemma TitleEqualsSymmetric(a: string, b: string)
    ensures TitleEquals(a, VideoTitled(b)) == TitleEquals(b, VideoTitled(a)) == (a == b)
  {
  }

  /** A snapshot of every field of a Video. */
  datatype VideoState = VideoState(
    file: Option<string>,
    bucket: Option<string>,
    key: Option<string>,
    title: string,
    metaData: Option<Meta>,
    labels: seq<Flag>,
    filters: seq<Filter>,
    titleParts: seq<TitlePart>,
    out: string,
    path: Option<string>)

  /** A Video as constructed: no cache, nothing accumulated, no output yet. */
  function Initial(file: Option<string>, bucket: Option<string>, key: Option<string>,
                   title: string): VideoState
  {
    VideoState(file, bucket, key, title, None, [], [], [], "", None)
  }

  /** A list that holds no Video object twice. */
  predicate Distinct(videos: seq<Video>)
  {
    forall a, b :: 0 <= a < b < |videos| ==> videos[a] != videos[b]
  }

  class Video {
    var file: Option<string>
    var bucket: Option<string>
    var key: Option<string>
    var title: string
    var metaData: Option<Meta>
    /** The `label` string, kept as the flags whose texts it concatenates. */
    var labels: seq<Flag>
    /** The `complex_filter` list of filter fragments. */
    var complexFilter: seq<Filter>
    /** The fragments given to `add_output_title`. */
    var titleParts: seq<TitlePart>
    /** The quoted path of the file a flush produced, or "" before any flush. */
    var out: string
    /** The `path` attribute the loaders and the flush set from outside. */
    var path: Option<string>

    function State(): VideoState
      reads this
    {
      VideoState(file, bucket, key, title, metaData, labels, complexFilter, titleParts, out, path)
    }

    constructor (file: Option<string>, bucket: Option<string>, key: Option<string>, title: string)
      ensures State() == Initial(file, bucket, key, title)
    {
      this.file := file;
      this.bucket := bucket;
      this.key := key;
      this.title := title;
      metaData := None;
      labels := [];
      complexFilter := [];
      titleParts := [];
      out := "";
      path := None;
    }

    /**
     * `extract_metadata`: probes only while the cache is empty and returns
     * the fresh report; once set, the cache is left alone and None returned.
     */
    method ExtractMetadata(probe: Probe) returns (r: Result<Option<Meta>, Error>)
      modifies this`metaData
      ensures metaData == Cached(old(metaData), probe, file)
      ensures old(metaData).Some? ==> r == Success(None)
      ensures old(metaData).None? ==> r == if metaData.Some? then Success(metaData) else Failure(ProbeFailed)
    {
      if metaData.None? {
        var report := probe(ProbeTarget(file));
        if report.None? {
          return Failure(ProbeFailed);
        }
        metaData := report;
        return Success(report);
      }
      return Success(None);
    }

    /** `get_codec`: on an empty cache it calls the undefined `get_metadata` and fails. */
    method GetCodec() returns (r: Result<string, Error>)
      ensures metaData.None? ==> r == Failure(UndefinedMethod("get_metadata"))
      ensures metaData.Some? ==> r == CodecName(metaData.value)
    {
      if metaData.Some? {
        return CodecName(metaData.value);
      }
      return Failure(UndefinedMethod("get_metadata"));
    }

    /** `get_duration`: like `get_codec`, it fails on an empty cache. */
    method GetDuration() returns (r: Result<real, Error>)
      ensures metaData.None? ==> r == Failure(UndefinedMethod("get_metadata"))
      ensures metaData.Some? ==> r == Duration(metaData.value)
    {
      if metaData.Some? {
        return Duration(metaData.value);
      }
      return Failure(UndefinedMethod("get_metadata"));
    }

    /** `get_num_frames`: fills an empty cache through `extract_metadata`, then projects. */
    method GetNumFrames(probe: Probe) returns (r: Result<int, Error>)
      modifies this`metaData
      ensures metaData == Cached(old(metaData), probe, file)
      ensures r == if metaData.Some? then NbFrames(metaData.value) else Failure(ProbeFailed)
    {
      var _ := ExtractMetadata(probe);
      if metaData.None? {
        return Failure(ProbeFailed);
      }
      return NbFrames(metaData.value);
    }

    /** `get_width`. */
    method GetWidth(probe: Probe) returns (r: Result<int, Error>)
      modifies this`metaData
      ensures metaData == Cached(old(metaData), probe, file)
      ensures r == if metaData.Some? then Width(metaData.value) else Failure(ProbeFailed)
    {
      var _ := ExtractMetadata(probe);
      if metaData.None? {
        return Failure(ProbeFailed);
      }
      return Width(metaData.value);
    }

    /** `get_height`. */
    method GetHeight(probe: Probe) returns (r: Result<int, Error>)
      modifies this`metaData
      ensures metaData == Cached(old(metaData), probe, file)
      ensures r == if metaData.Some? then Height(metaData.value) else Failure(ProbeFailed)
    {
      var _ := ExtractMetadata(probe);
      if metaData.None? {
        return Failure(ProbeFailed);
      }
      return Height(metaData.value);
    }

    function GetFile(): Option<string>
      reads this
    {
      file
    }

    function GetPresignedUrl(time: int, sign: Signer): string
      reads this
    {
      PresignedUrl(file, bucket, key, time, sign)
    }

    /** `add_label`: the label grows by the flag's text and keeps what it had. */
    method AddLabel(f: Flag)
      modifies this`labels
      ensures labels == old(labels) + [f]
      ensures GetLabel() == old(GetLabel()) + FlagText(f)
    {
      LabelTextAppend(labels, f);
      labels := labels + [f];
    }

    /** `reset_label`: the label becomes empty; filters and name fragments stay. */
    method ResetLabel()
      modifies this`labels
      ensures labels == [] && GetLabel() == ""
    {
      labels := [];
    }

    /** `get_label`. */
    function GetLabel(): string
      reads this
    {
      LabelText(labels)
    }

    /** `get_output_title`. */
    function GetOutputTitle(): string
      reads this
    {
      OutputTitle(labels, title)
    }

    /** `video == target`. */
    function Equals(target: Operand): bool
      reads this
    {
      TitleEquals(title, target)
    }

    /** `complex_filter.append`. */
    method AddFilter(g: Filter)
      modifies this`complexFilter
      ensures complexFilter == old(complexFilter) + [g]
    {
      complexFilter := complexFilter + [g];
    }

    /** `add_output_title`. */
    method AddOutputTitle(p: TitlePart)
      modifies this`titleParts
      ensures titleParts == old(titleParts) + [p]
    {
      titleParts := titleParts + [p];
    }

    /** `set_output`. */
    method SetOutput(o: string)
      modifies this`out
      ensures out == o
    {
      out := o;
    }

    /** `create_complex_filter`: folds the filter fragments, in order, into one label flag. */
    method CreateComplexFilter()
      modifies this`labels
      ensures labels == old(labels) + [FilterGraph(complexFilter)]
    {
      labels := labels + [FilterGraph(complexFilter)];
    }
  }
}
