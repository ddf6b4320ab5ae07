/**
 * The Aux orchestrator: turns an S3 listing or a local directory into Video
 * lists, resolves the output directory, builds one ffmpeg command per video
 * while resetting each source's label, names the uploads and chooses what the
 * clean-up removes. Its own state is two optional folder paths.
 *
 * The S3 listing, the directory listing, `tempfile.mkdtemp`, the ffmpeg
 * executable, the URL signer and `os.walk` are parameters; the commands,
 * uploads and removals are returned rather than performed.
 */
module Auxiliary {
  import opened Wrappers
  import opened Text
  import opened Directives
  import opened Videos

  /** Python truthiness of an optional path: neither None nor "". */
  predicate Truthy(p: Option<string>)
  {
    p.Some? && p.value != ""
  }

  // ---------------------------------------------------------------- load_s3

  /** `key.split(prefix)[1]`: Python refuses an empty separator, and a key without the prefix has one piece. */
  function KeyTitle(key: string, prefix: string): (r: Result<string, Error>)
    ensures |prefix| == 0 ==> r == Failure(EmptySeparator)
  {
    if |prefix| == 0 then Failure(EmptySeparator)
    else
      var parts := SplitOn(key, prefix);
      if |parts| < 2 then Failure(NoSuchPart) else Success(parts[1])
  }

  /** A key made of the prefix and a name that does not repeat it is titled with the name. */
  lemma KeyTitleAfterPrefix(prefix: string, name: string)
    requires |prefix| > 0 && !Contains(name, prefix)
    ensures KeyTitle(prefix + name, prefix) == Success(name)
  {
    SplitAfterPrefix(prefix, name);
  }

  datatype S3Entry = S3Entry(key: string, title: string)

  /**
   * The videos `load_s3` makes from a listing, in listing order: the key equal
   * to the prefix (the folder marker) is skipped; the first key whose title
   * cannot be taken aborts the whole load with that exception.
   */
  function S3Entries(keys: seq<string>, prefix: string): (r: Result<seq<S3Entry>, Error>)
    ensures r.Success? ==> |r.value| <= |keys|
    ensures r.Success? ==> forall j :: 0 <= j < |r.value| ==> r.value[j].key in keys && r.value[j].key != prefix
    decreases |keys|
  {
    if |keys| == 0 then Success([])
    else match S3Entries(keys[..|keys| - 1], prefix)
      case Failure(e) => Failure(e)
      case Success(front) =>
        var key := keys[|keys| - 1];
        if key == prefix then Success(front)
        else match KeyTitle(key, prefix)
          case Failure(e) => Failure(e)
          case Success(t) => Success(front + [S3Entry(key, t)])
  }

  /** Once a listing's front has failed, every longer front fails with the same exception. */
  lemma {:induction false} S3EntriesFailureStays(keys: seq<string>, prefix: string, i: nat)
    requires i <= |keys| && S3Entries(keys[..i], prefix).Failure?
    ensures S3Entries(keys, prefix) == S3Entries(keys[..i], prefix)
    decreases |keys| - i
  {
    if i < |keys| {
      assert keys[..i + 1][..i] == keys[..i];
      S3EntriesFailureStays(keys, prefix, i + 1);
    } else {
      assert keys[..i] == keys;
    }
  }

  /** The keys of a folder listing: the folder marker, then one key per object name. */
  function FolderKeys(prefix: string, names: seq<string>): (keys: seq<string>)
    ensures |keys| == |names| + 1 && keys[0] == prefix
    ensures forall j :: 0 <= j < |names| ==> keys[j + 1] == prefix + names[j]
  {
    [prefix] + seq(|names|, j requires 0 <= j < |names| => prefix + names[j])
  }

  /** The videos a folder listing is expected to load: one per object, titled with its name. */
  function EntriesOf(prefix: string, names: seq<string>): (es: seq<S3Entry>)
    ensures |es| == |names| && forall j :: 0 <= j < |names| ==> es[j] == S3Entry(prefix + names[j], names[j])
  {
    seq(|names|, j requires 0 <= j < |names| => S3Entry(prefix + names[j], names[j]))
  }

  /** A non-empty sequence is its front followed by its last element. */
  lemma LastSplit<T>(s: seq<T>)
    requires |s| > 0
    ensures s[..|s| - 1] + [s[|s| - 1]] == s
  {
  }

  lemma FolderKeysSnoc(prefix: string, names: seq<string>, name: string)
    ensures FolderKeys(prefix, names + [name]) == FolderKeys(prefix, names) + [prefix + name]
  {
  }

  lemma EntriesOfSnoc(prefix: string, names: seq<string>, name: string)
    ensures EntriesOf(prefix, names + [name]) == EntriesOf(prefix, names) + [S3Entry(prefix + name, name)]
  {
  }

  /** Appending a key with a title appends its entry. */
  lemma S3EntriesSnoc(keys: seq<string>, prefix: string, key: string, title: string)
    requires S3Entries(keys, prefix).Success? && key != prefix && KeyTitle(key, prefix) == Success(title)
    ensures S3Entries(keys + [key], prefix) == Success(S3Entries(keys, prefix).value + [S3Entry(key, title)])
  {
    assert (keys + [key])[..|keys|] == keys;
  }

  /** One more object in a folder listing adds its entry. */
  lemma S3EntriesFolderStep(prefix: string, front: seq<string>, name: string)
    requires |prefix| > 0 && name != [] && !Contains(name, prefix)
    requires S3Entries(FolderKeys(prefix, front), prefix) == Success(EntriesOf(prefix, front))
    ensures S3Entries(FolderKeys(prefix, front + [name]), prefix) == Success(EntriesOf(prefix, front + [name]))
  {
    KeyTitleAfterPrefix(prefix, name);
    assert |prefix + name| != |prefix|;
    S3EntriesSnoc(FolderKeys(prefix, front), prefix, prefix + name, name);
    FolderKeysSnoc(prefix, front, name);
    EntriesOfSnoc(prefix, front, name);
  }

  /**
   * A folder listing (the marker, then one key per object under it) loads one
   * video per object, in order, titled with the object's name.
   */
  lemma {:induction false} S3EntriesOfFolder(prefix: string, names: seq<string>)
    requires |prefix| > 0
    requires forall j :: 0 <= j < |names| ==> names[j] != [] && !Contains(names[j], prefix)
    ensures S3Entries(FolderKeys(prefix, names), prefix) == Success(EntriesOf(prefix, names))
    decreases |names|
  {
    if |names| == 0 {
      assert FolderKeys(prefix, names) == [prefix];
      assert [prefix][..0] == [];
    } else {
      var n := |names| - 1;
      LastSplit(names);
      S3EntriesOfFolder(prefix, names[..n]);
      S3EntriesFolderStep(prefix, names[..n], names[n]);
    }
  }

  /** The folder a loaded S3 video records: the local path when set, otherwise the temp folder. */
  function LoadedPath(localPath: Option<string>, tempFolder: Option<string>): Option<string>
  {
    if localPath.None? then tempFolder else localPath
  }

  function S3Video(bucket: string, e: S3Entry, path: Option<string>): VideoState
  {
    Initial(None, Some(bucket), Some(e.key), e.title).(path := path)
  }

  // ---------------------------------------------------------------- load_local

  /** `path.replace('/', ' ').strip().split(' ')[-1]`. */
  function FileTitle(path: string): string
  {
    Last(SplitOn(Strip(ReplaceChar(path, '/', ' ')), " "))
  }

  /** A file named inside a directory is titled with its base name. */
  lemma FileTitleIsBaseName(dir: string, name: string)
    requires name != [] && forall j :: 0 <= j < |name| ==> name[j] != '/' && !IsSpace(name[j])
    ensures FileTitle(dir + "/" + name) == name
  {
    var a := ReplaceChar(dir, '/', ' ') + " ";
    ReplaceBeforeName(dir, name);
    StripBeforeName(a, name);
    var l := LStrip(a);
    assert l == [] || l[|l| - 1] == a[|a| - 1] == ' ';
    LastTokenIsName(l, name);
  }

  lemma ReplaceBeforeName(dir: string, name: string)
    requires forall j :: 0 <= j < |name| ==> name[j] != '/'
    ensures ReplaceChar(dir + "/" + name, '/', ' ') == ReplaceChar(dir, '/', ' ') + " " + name
  {
  }

  lemma StripBeforeName(a: string, name: string)
    requires name != [] && !IsSpace(name[0]) && !IsSpace(name[|name| - 1])
    ensures Strip(a + name) == LStrip(a) + name
  {
    LStripConcat(a, name);
    var l := LStrip(a) + name;
    assert l != [] && !IsSpace(l[|l| - 1]);
  }

  lemma LastTokenIsName(l: string, name: string)
    requires l == [] || l[|l| - 1] == ' '
    requires forall j :: 0 <= j < |name| ==> name[j] != ' '
    ensures Last(SplitOn(l + name, " ")) == name
  {
    assert !Contains(name, [' ']) by {
      ContainsChar(name, ' ');
    }
    if l == [] {
      assert l + name == name;
      SplitWithoutSep(name, " ", "");
      assert "" + name == name;
    } else {
      var u := l[..|l| - 1];
      assert l + name == u + [' '] + name;
      LastPieceAfter(u, ' ', name, "");
    }
  }

  function LocalVideo(file: string, title: string, path: string): VideoState
  {
    Initial(Some(file), None, None, title).(path := Some(path))
  }

  // ---------------------------------------------------------------- upload_s3

  /** One `upload_file(local file, bucket, key)` call. */
  datatype Upload = Upload(file: string, bucket: string, key: string)

  /** `(_local_path or _temp_folder) + '/'`: a None temp folder cannot be concatenated. */
  function UploadDir(localPath: Option<string>, tempFolder: Option<string>): (r: Result<string, Error>)
    ensures r.Failure? <==> !Truthy(localPath) && tempFolder.None?
  {
    if Truthy(localPath) then Success(localPath.value)
    else if tempFolder.Some? then Success(tempFolder.value)
    else Failure(NoneFolder)
  }

  /** The upload of one video: its local output file, and the key `prefix + output title`. */
  function UploadOf(dir: string, s: VideoState, bucket: string, prefix: string): (u: Upload)
    ensures u.bucket == bucket
    ensures var t := OutputTitle(s.labels, s.title); u.file == dir + "/" + t && u.key == prefix + t
  {
    var t := OutputTitle(s.labels, s.title);
    Upload(dir + "/" + t, bucket, prefix + t)
  }

  // ---------------------------------------------------------------- execute_label_and_write_local

  datatype Resolved = Resolved(dir: string, localPath: Option<string>, tempFolder: Option<string>)

  /**
   * The output directory: an explicit path (recorded as the local path), else
   * the local path, else a fresh temp folder (recorded as the temp folder).
   */
  function ResolveDir(path: Option<string>, localPath: Option<string>, tempFolder: Option<string>,
                      freshTemp: string): Resolved
  {
    if path.Some? then Resolved(path.value, path, tempFolder)
    else if localPath.Some? then Resolved(localPath.value, localPath, tempFolder)
    else Resolved(freshTemp, localPath, Some(freshTemp))
  }

  /** An explicit output path sticks: later flushes without one write to the same folder. */
  lemma ExplicitDirSticks(p: string, localPath: Option<string>, tempFolder: Option<string>, fresh1: string, fresh2: string)
    ensures var r := ResolveDir(Some(p), localPath, tempFolder, fresh1);
      ResolveDir(None, r.localPath, r.tempFolder, fresh2).dir == p
  {
  }

  /** Uploads look in the folder the flush wrote to, unless that folder is named by "". */
  lemma UploadDirAfterFlush(path: Option<string>, localPath: Option<string>, tempFolder: Option<string>, freshTemp: string)
    requires ResolveDir(path, localPath, tempFolder, freshTemp).dir != ""
    ensures var r := ResolveDir(path, localPath, tempFolder, freshTemp);
      UploadDir(r.localPath, r.tempFolder) == Success(r.dir)
  {
  }

  /** The flags a flush runs: the label, then the folded filter graph when there are filters. */
  function Folded(s: VideoState): seq<Flag>
  {
    if |s.filters| > 0 then s.labels + [FilterGraph(s.filters)] else s.labels
  }

  /** Folding keeps the label as a prefix and appends exactly one filter graph when there are filters. */
  lemma FoldedExtendsLabel(s: VideoState)
    ensures s.labels <= Folded(s)
    ensures |s.filters| > 0 ==> Folded(s) == s.labels + [FilterGraph(s.filters)]
  {
  }

  /** The input of the command: the last output when there is one, else the file or a signed URL. */
  function SourceOf(s: VideoState, sign: Signer): string
  {
    if s.out == "" then PresignedUrl(s.file, s.bucket, s.key, 60, sign) else s.out
  }

  /** The name ffmpeg writes: the output title after folding. */
  function WrittenTitle(s: VideoState): string
  {
    OutputTitle(Folded(s), s.title)
  }

  /** `{ffmpeg} -y -i {source} {label} {path}/{output_title}`. */
  function CommandFor(s: VideoState, dir: string, ffmpeg: string, sign: Signer): string
  {
    ffmpeg + " -y -i " + SourceOf(s, sign) + " " + LabelText(Folded(s)) + " " + dir + "/" + WrittenTitle(s)
  }

  /** The command: a head up to the source, the label text, and the output path. */
  lemma CommandParts(s: VideoState, dir: string, ffmpeg: string, sign: Signer)
    ensures CommandFor(s, dir, ffmpeg, sign)
      == (ffmpeg + " -y -i " + SourceOf(s, sign) + " ") + LabelText(Folded(s)) + (" " + dir + "/" + WrittenTitle(s))
  {
    RegroupTail(ffmpeg + " -y -i " + SourceOf(s, sign) + " ", LabelText(Folded(s)), " ", dir, "/", WrittenTitle(s));
  }

  /** Whatever the folded label text holds, the command holds. */
  lemma LabelInCommand(s: VideoState, dir: string, ffmpeg: string, sign: Signer, pat: string)
    requires Contains(LabelText(Folded(s)), pat)
    ensures Contains(CommandFor(s, dir, ffmpeg, sign), pat)
  {
    var head := ffmpeg + " -y -i " + SourceOf(s, sign) + " ";
    var tail := " " + dir + "/" + WrittenTitle(s);
    ContainsWithin(head, LabelText(Folded(s)), tail, pat);
    CommandParts(s, dir, ffmpeg, sign);
  }

  /** Every flag the video accumulated, folded graph included, is in its command. */
  lemma CommandRunsEveryFlag(s: VideoState, dir: string, ffmpeg: string, sign: Signer, i: nat)
    requires i < |Folded(s)|
    ensures Contains(CommandFor(s, dir, ffmpeg, sign), FlagText(Folded(s)[i]))
  {
    var f := FlagText(Folded(s)[i]);
    assert f[0..] == f;
    FlagTextInLabel(Folded(s), i, f);
    LabelInCommand(s, dir, ffmpeg, sign, f);
  }

  /** Every accumulated filter fragment reaches the command, inside the folded graph. */
  lemma CommandRunsEveryFilter(s: VideoState, dir: string, ffmpeg: string, sign: Signer, j: nat)
    requires j < |s.filters|
    ensures Contains(CommandFor(s, dir, ffmpeg, sign), FilterText(s.filters[j]))
  {
    var flags := Folded(s);
    var i := |flags| - 1;
    FoldedExtendsLabel(s);
    assert flags[i] == FilterGraph(s.filters);
    FilterInGraph(s.filters, j);
    FlagTextInLabel(flags, i, FilterText(s.filters[j]));
    LabelInCommand(s, dir, ffmpeg, sign, FilterText(s.filters[j]));
  }

  /**
   * The Video the source code builds for a flushed video: file and title are
   * read after `reset_label`, so they carry the plain title, and only `out`
   * names the file ffmpeg wrote.
   */
  function FlushedVideoAsWritten(s: VideoState, dir: string): VideoState
  {
    var plain := OutputTitle([], s.title);
    Initial(Some(dir + "/" + plain), None, None, plain).(path := Some(dir), out := "'" + dir + "/" + WrittenTitle(s) + "'")
  }

  /** `Video(f'{path}/{title}', title=title)` with its folder and its quoted output set. */
  function OutputState(dir: string, title: string): VideoState
  {
    Initial(Some(dir + "/" + title), None, None, title).(path := Some(dir), out := "'" + dir + "/" + title + "'")
  }

  /** The Video for a flushed video, wrapping the file ffmpeg wrote and titled with its name. */
  function FlushedVideo(s: VideoState, dir: string): (t: VideoState)
    ensures t.file == Some(dir + "/" + t.title) && t.path == Some(dir)
    ensures t.labels == [] && t.filters == [] && t.titleParts == [] && t.metaData.None?
  {
    OutputState(dir, WrittenTitle(s))
  }

  /** The next flush of a flushed video reads the quoted file this flush wrote. */
  lemma FlushedVideoChains(s: VideoState, dir: string, sign: Signer)
    ensures SourceOf(FlushedVideo(s, dir), sign) == "'" + dir + "/" + WrittenTitle(s) + "'"
    ensures SourceOf(FlushedVideoAsWritten(s, dir), sign) == "'" + dir + "/" + WrittenTitle(s) + "'"
  {
  }

  /** Uploading a flushed video, from the folder it was written to, picks up the file ffmpeg wrote. */
  lemma UploadFindsWrittenFile(s: VideoState, dir: string, bucket: string, prefix: string)
    ensures UploadOf(dir, FlushedVideo(s, dir), bucket, prefix).file == dir + "/" + WrittenTitle(s)
    ensures UploadOf(dir, FlushedVideo(s, dir), bucket, prefix).key == prefix + WrittenTitle(s)
  {
    OutputTitleOfNoFlags(WrittenTitle(s));
  }

  /**
   * With the source's construction, a trimmed video is uploaded from a file
   * named by its plain title, not from the "trimmed_" file ffmpeg wrote.
   */
  lemma UploadMissesWrittenFileAsWritten(dir: string)
    ensures var s := Initial(Some("a.mp4"), None, None, "a.mp4").(labels := [SeekFor(1.0, 2.0)]);
      UploadOf(dir, FlushedVideoAsWritten(s, dir), "b", "p/").file != dir + "/" + WrittenTitle(s)
  {
    var s := Initial(Some("a.mp4"), None, None, "a.mp4").(labels := [SeekFor(1.0, 2.0)]);
    OutputTitleOfNoFlags("a.mp4");
    assert Folded(s) == s.labels;
    SeekMarksTrimmed(s.labels, "a.mp4", 0);
    var w := WrittenTitle(s);
    assert |w| >= 13;
    assert |UploadOf(dir, FlushedVideoAsWritten(s, dir), "b", "p/").file| == |dir| + 6;
  }

  // ---------------------------------------------------------------- clean

  /** One triple of `os.walk`: a directory and the files directly in it. */
  datatype WalkEntry = WalkEntry(dir: string, files: seq<string>)

  /** The walk starts at the root and only descends below it. */
  predicate WalkedFrom(root: string, walk: seq<WalkEntry>)
  {
    && |walk| > 0 && walk[0].dir == root
    && forall j :: 0 < j < |walk| ==> root + "/" <= walk[j].dir
  }

  /** Removing the tree at `tree` removes the directory `dir`. */
  predicate Covers(tree: string, dir: string)
  {
    dir == tree || tree + "/" <= dir
  }

  /** The folder `clean` works on: the argument, else a truthy local path, else the temp folder. */
  function CleanRoot(path: Option<string>, localPath: Option<string>, tempFolder: Option<string>): Option<string>
  {
    if path.Some? then path else if Truthy(localPath) then localPath else tempFolder
  }

  function FilePaths(dir: string, files: seq<string>): (ps: seq<string>)
    ensures |ps| == |files| && forall j :: 0 <= j < |files| ==> ps[j] == dir + "/" + files[j]
  {
    seq(|files|, j requires 0 <= j < |files| => dir + "/" + files[j])
  }

  /** The files `clean` removes, directory by directory in walk order. */
  function RemovedFiles(walk: seq<WalkEntry>): seq<string>
  {
    if |walk| == 0 then []
    else RemovedFiles(walk[..|walk| - 1]) + FilePaths(walk[|walk| - 1].dir, walk[|walk| - 1].files)
  }

  /**
   * The tree the source's `shutil.rmtree(path)` removes: the walk loop
   * rebinds `path`, so it is the last directory walked.
   */
  function CleanTreeAsWritten(root: string, walk: seq<WalkEntry>): string
  {
    if |walk| == 0 then root else walk[|walk| - 1].dir
  }

  /** The as-written clean-up leaves the root in place as soon as the folder has a subfolder. */
  lemma CleanAsWrittenKeepsRoot()
    ensures var walk := [WalkEntry("tmp", ["a.mp4"]), WalkEntry("tmp/sub", [])];
      WalkedFrom("tmp", walk) && !Covers(CleanTreeAsWritten("tmp", walk), "tmp")
  {
    assert "tmp/" <= "tmp/sub";
  }

  /** Removing the root covers every directory the walk visited. */
  lemma CleanRootCoversWalk(root: string, walk: seq<WalkEntry>)
    requires WalkedFrom(root, walk)
    ensures forall j :: 0 <= j < |walk| ==> Covers(root, walk[j].dir)
  {
  }

  /** The states of a list of videos, in order. */
  function StatesOf(videos: seq<Video>): (ss: seq<VideoState>)
    reads set v | v in videos
    ensures |ss| == |videos| && forall k :: 0 <= k < |videos| ==> ss[k] == videos[k].State()
  {
    seq(|videos|, k requires 0 <= k < |videos| reads set v | v in videos => videos[k].State())
  }

  /** The first `i` entries of `ys` are `f` of the first `i` states of `xs`, in order. */
  predicate MappedUpTo(xs: seq<VideoState>, ys: seq<string>, f: VideoState -> string, i: nat)
  {
    i <= |xs| && |ys| == i && forall k {:trigger ys[k]} :: 0 <= k < i ==> ys[k] == f(xs[k])
  }

  /** Appending `f` of the next state extends the mapped prefix by one. */
  lemma MappedSnoc(xs: seq<VideoState>, ys: seq<string>, f: VideoState -> string, i: nat, y: string)
    requires MappedUpTo(xs, ys, f, i) && i < |xs| && y == f(xs[i])
    ensures MappedUpTo(xs, ys + [y], f, i + 1)
  {
  }

  /**
   * The walk over videos that started in the states `pre` has reset the
   * labels of the first `i` and left the rest untouched.
   */
  predicate ResetUpTo(videos: seq<Video>, pre: seq<VideoState>, i: nat)
    reads set v | v in videos
  {
    && i <= |videos| == |pre|
    && (forall k :: 0 <= k < i ==> videos[k].State() == pre[k].(labels := []))
    && (forall k :: i <= k < |videos| ==> videos[k].State() == pre[k])
  }

  /** What `clean` does: the files it removes one by one, then the tree it removes. */
  datatype Cleanup = Cleanup(removed: seq<string>, tree: string)

  class Aux {
    var localPath: Option<string>
    var tempFolder: Option<string>

    constructor ()
      ensures localPath.None? && tempFolder.None?
    {
      localPath := None;
      tempFolder := None;
    }

    /**
     * `load_s3` over the listing's keys (None: the response has no
     * "Contents"). Aux itself is left unchanged.
     */
    method LoadS3(bucket: string, prefix: string, listing: Option<seq<string>>) returns (r: Result<seq<Video>, Error>)
      ensures listing.None? ==> r == Failure(NoContents)
      ensures listing.Some? ==> (r.Success? <==> S3Entries(listing.value, prefix).Success?)
      ensures listing.Some? && r.Failure? ==> r == Failure(S3Entries(listing.value, prefix).error)
      ensures r.Success? ==> var es := S3Entries(listing.value, prefix).value;
        |r.value| == |es| && Distinct(r.value)
        && forall j :: 0 <= j < |es| ==>
             fresh(r.value[j]) && r.value[j].State() == S3Video(bucket, es[j], LoadedPath(localPath, tempFolder))
    {
      if listing.None? {
        return Failure(NoContents);
      }
      var keys := listing.value;
      var made: seq<Video> := [];
      ghost var es: seq<S3Entry> := [];
      var i := 0;
      while i < |keys|
        invariant 0 <= i <= |keys|
        invariant S3Entries(keys[..i], prefix) == Success(es)
        invariant |made| == |es| && Distinct(made)
        invariant forall j :: 0 <= j < |made| ==>
          fresh(made[j]) && made[j].State() == S3Video(bucket, es[j], LoadedPath(localPath, tempFolder))
      {
        var key := keys[i];
        assert keys[..i + 1][..i] == keys[..i];
        if key != prefix {
          var t := KeyTitle(key, prefix);
          if t.Failure? {
            S3EntriesFailureStays(keys, prefix, i + 1);
            return Failure(t.error);
          }
          var v := NewS3Video(bucket, S3Entry(key, t.value), LoadedPath(localPath, tempFolder));
          made := made + [v];
          es := es + [S3Entry(key, t.value)];
        }
        i := i + 1;
      }
      assert keys[..i] == keys;
      return Success(made);
    }

    /**
     * `load_local` over `os.path.isdir(path)` and, for a directory, the
     * names `os.listdir` gives. The local path is set inside the loop, so an
     * empty directory leaves it as it was.
     */
    method LoadLocal(path: string, isDir: bool, entries: seq<string>) returns (videos: seq<Video>)
      modifies this`localPath
      ensures isDir && |entries| == 0 ==> localPath == old(localPath)
      ensures !(isDir && |entries| == 0) ==> localPath == Some(path)
      ensures isDir ==> (|videos| == |entries|
        && forall j :: 0 <= j < |entries| ==> videos[j].State() == LocalVideo(path + entries[j], entries[j], path))
      ensures !isDir ==> |videos| == 1 && videos[0].State() == LocalVideo(path, FileTitle(path), path)
      ensures Distinct(videos) && forall j :: 0 <= j < |videos| ==> fresh(videos[j])
    {
      videos := [];
      if isDir {
        var i := 0;
        while i < |entries|
          invariant 0 <= i <= |entries|
          invariant |videos| == i && Distinct(videos)
          invariant i == 0 ==> localPath == old(localPath)
          invariant i > 0 ==> localPath == Some(path)
          invariant forall j :: 0 <= j < i ==>
            fresh(videos[j]) && videos[j].State() == LocalVideo(path + entries[j], entries[j], path)
        {
          var v := NewLocalVideo(path + entries[i], entries[i], path);
          localPath := Some(path);
          videos := videos + [v];
          i := i + 1;
        }
      } else {
        var v := NewLocalVideo(path, FileTitle(path), path);
        localPath := Some(path);
        videos := [v];
      }
    }

    /** One Video of `load_s3`, recording the folder it will be written to. */
    static method NewS3Video(bucket: string, e: S3Entry, path: Option<string>) returns (made: Video)
      ensures fresh(made) && made.State() == S3Video(bucket, e, path)
    {
      made := new Video(None, Some(bucket), Some(e.key), e.title);
      made.path := path;
    }

    /** One local Video of `load_local`, recording the folder it was loaded from. */
    static method NewLocalVideo(file: string, title: string, path: string) returns (made: Video)
      ensures fresh(made) && made.State() == LocalVideo(file, title, path)
    {
      made := new Video(Some(file), None, None, title);
      made.path := Some(path);
    }

    /**
     * `upload_s3`: one upload per video, in order. The folder does not change
     * during the walk, so a None folder fails at the first video, before any
     * upload.
     */
    method UploadS3(videos: seq<Video>, bucket: string, prefix: string) returns (r: Result<seq<Upload>, Error>)
      ensures |videos| == 0 ==> r == Success([])
      ensures |videos| > 0 ==> (r.Failure? <==> UploadDir(localPath, tempFolder).Failure?)
      ensures r.Success? ==> (|r.value| == |videos|
        && forall j :: 0 <= j < |videos| ==>
             r.value[j] == UploadOf(UploadDir(localPath, tempFolder).value, videos[j].State(), bucket, prefix))
    {
      var uploads: seq<Upload> := [];
      var i := 0;
      while i < |videos|
        invariant 0 <= i <= |videos|
        invariant i > 0 ==> UploadDir(localPath, tempFolder).Success?
        invariant |uploads| == i
        invariant forall j :: 0 <= j < i ==>
          uploads[j] == UploadOf(UploadDir(localPath, tempFolder).value, videos[j].State(), bucket, prefix)
      {
        var video := videos[i];
        var dir: string;
        if !Truthy(localPath) {
          if tempFolder.None? {
            return Failure(NoneFolder);
          }
          dir := tempFolder.value;
        } else {
          dir := localPath.value;
        }
        var file := dir + "/" + video.GetOutputTitle();
        uploads := uploads + [Upload(file, bucket, prefix + video.GetOutputTitle())];
        i := i + 1;
      }
      return Success(uploads);
    }

    /**
     * One video of `execute_label_and_write_local`: fold the filters, build the
     * command, take the output title, then reset the source's label.
     */
    static method FlushLabel(video: Video, dir: string, ffmpeg: string, sign: Signer) returns (command: string, title: string)
      modifies video`labels
      ensures command == CommandFor(old(video.State()), dir, ffmpeg, sign)
      ensures title == WrittenTitle(old(video.State()))
      ensures video.State() == old(video.State()).(labels := [])
    {
      ghost var s := video.State();
      var source := if video.out == "" then video.GetPresignedUrl(60, sign) else video.out;
      assert source == SourceOf(s, sign);
      if |video.complexFilter| > 0 {
        video.CreateComplexFilter();
      }
      assert video.labels == Folded(s);
      title := video.GetOutputTitle();
      command := ffmpeg + " -y -i " + source + " " + video.GetLabel() + " " + dir + "/" + title;
      video.ResetLabel();
    }

    /**
     * The Video for one written file, with its folder and quoted output. It
     * is built from the written title throughout, the corrected construction
     * (`FlushedVideo`); the source's own reads the plain title for file and
     * title (`FlushedVideoAsWritten`).
     */
    static method OutputVideo(dir: string, title: string) returns (made: Video)
      ensures fresh(made) && made.State() == OutputState(dir, title)
      ensures made.GetFile() == Some(dir + "/" + made.title) && made.GetLabel() == ""
    {
      made := new Video(Some(dir + "/" + title), None, None, title);
      made.path := Some(dir);
      made.SetOutput("'" + dir + "/" + title + "'");
    }

    /** The folder-resolution prologue of `execute_label_and_write_local`. */
    method ResolveOutputDir(path: Option<string>, freshTemp: string) returns (dir: string)
      modifies this
      ensures var res := ResolveDir(path, old(localPath), old(tempFolder), freshTemp);
        dir == res.dir && localPath == res.localPath && tempFolder == res.tempFolder
    {
      if path.None? {
        if localPath.Some? {
          dir := localPath.value;
        } else {
          tempFolder := Some(freshTemp);
          dir := freshTemp;
        }
      } else {
        SetLocalPath(path.value);
        dir := path.value;
      }
    }

    /**
     * The walk of `execute_label_and_write_local` over the videos: every
     * command and output title, every label reset.
     */
    static method FlushAll(videos: seq<Video>, dir: string, ffmpeg: string, sign: Signer)
        returns (commands: seq<string>, titles: seq<string>)
      requires Distinct(videos)
      modifies set v | v in videos
      ensures |commands| == |videos| && |titles| == |videos|
      ensures forall k :: 0 <= k < |videos| ==> commands[k] == CommandFor(old(videos[k].State()), dir, ffmpeg, sign)
      ensures forall k :: 0 <= k < |videos| ==> titles[k] == WrittenTitle(old(videos[k].State()))
      ensures forall k :: 0 <= k < |videos| ==> videos[k].State() == old(videos[k].State()).(labels := [])
    {
      ghost var pre := StatesOf(videos);
      ghost var command := s => CommandFor(s, dir, ffmpeg, sign);
      commands := [];
      titles := [];
      var i := 0;
      while i < |videos|
        invariant ResetUpTo(videos, pre, i)
        invariant MappedUpTo(pre, commands, command, i)
        invariant MappedUpTo(pre, titles, WrittenTitle, i)
      {
        var c, o := FlushNext(videos[i], videos, pre, i, dir, ffmpeg, sign);
        MappedSnoc(pre, commands, command, i, c);
        MappedSnoc(pre, titles, WrittenTitle, i, o);
        commands := commands + [c];
        titles := titles + [o];
        i := i + 1;
      }
    }

    /** One step of the walk: the video at `i` is flushed and only its label changes. */
    static method FlushNext(video: Video, videos: seq<Video>, ghost pre: seq<VideoState>, i: nat,
                            dir: string, ffmpeg: string, sign: Signer)
        returns (command: string, title: string)
      requires Distinct(videos) && i < |videos| && video == videos[i] && ResetUpTo(videos, pre, i)
      modifies video`labels
      ensures ResetUpTo(videos, pre, i + 1)
      ensures command == CommandFor(old(video.State()), dir, ffmpeg, sign) && title == WrittenTitle(old(video.State()))
    {
      command, title := FlushLabel(video, dir, ffmpeg, sign);
      forall k | 0 <= k < |videos| && k != i
        ensures videos[k].State() == old(videos[k].State())
      {
        assert videos[k] != video;
      }
    }

    /** The new Videos of `execute_label_and_write_local`, one per written title, in order. */
    static method OutputVideos(dir: string, titles: seq<string>) returns (made: seq<Video>)
      ensures |made| == |titles| && Distinct(made)
      ensures forall k :: 0 <= k < |titles| ==> fresh(made[k]) && made[k].State() == OutputState(dir, titles[k])
    {
      made := [];
      var i := 0;
      while i < |titles|
        invariant 0 <= i <= |titles|
        invariant |made| == i && Distinct(made)
        invariant forall k :: 0 <= k < i ==> fresh(made[k]) && made[k].State() == OutputState(dir, titles[k])
      {
        var v := OutputVideo(dir, titles[i]);
        made := made + [v];
        i := i + 1;
      }
    }

    /**
     * `execute_label_and_write_local`: the commands to run, in order, and one
     * new Video per input. Every source video ends with an empty label and
     * keeps everything else. The new Videos are the corrected ones
     * (`FlushedVideo`), which name the file ffmpeg wrote; the source names
     * the plain title instead (`FlushedVideoAsWritten`).
     */
    method ExecuteLabelAndWriteLocal(videos: seq<Video>, path: Option<string>, ffmpeg: string,
                                     freshTemp: string, sign: Signer)
        returns (commands: seq<string>, made: seq<Video>)
      requires Distinct(videos)
      modifies this, set v | v in videos
      ensures var res := ResolveDir(path, old(localPath), old(tempFolder), freshTemp);
        localPath == res.localPath && tempFolder == res.tempFolder
      ensures |commands| == |videos| && |made| == |videos| && Distinct(made)
      ensures var dir := ResolveDir(path, old(localPath), old(tempFolder), freshTemp).dir;
        forall k :: 0 <= k < |videos| ==>
          && commands[k] == CommandFor(old(videos[k].State()), dir, ffmpeg, sign)
          && videos[k].State() == old(videos[k].State()).(labels := [])
          && fresh(made[k]) && made[k].State() == FlushedVideo(old(videos[k].State()), dir)
    {
      var dir := ResolveOutputDir(path, freshTemp);
      var titles;
      commands, titles := FlushAll(videos, dir, ffmpeg, sign);
      made := OutputVideos(dir, titles);
    }

    /**
     * `clean` over the walk of its root folder: every walked file is removed,
     * then the root's tree. The source hands `shutil.rmtree` the last walked
     * directory instead (see `CleanTreeAsWritten`).
     */
    method Clean(path: Option<string>, walk: seq<WalkEntry>) returns (r: Result<Cleanup, Error>)
      ensures r.Failure? <==> CleanRoot(path, localPath, tempFolder).None?
      ensures r.Success? ==> r.value == Cleanup(RemovedFiles(walk), CleanRoot(path, localPath, tempFolder).value)
    {
      var root := if path.Some? then path else if Truthy(localPath) then localPath else tempFolder;
      if root.None? {
        return Failure(NoneFolder);
      }
      var removed: seq<string> := [];
      var i := 0;
      while i < |walk|
        invariant 0 <= i <= |walk|
        invariant removed == RemovedFiles(walk[..i])
      {
        var entry := walk[i];
        var j := 0;
        while j < |entry.files|
          invariant 0 <= j <= |entry.files|
          invariant removed == RemovedFiles(walk[..i]) + FilePaths(entry.dir, entry.files[..j])
        {
          removed := removed + [entry.dir + "/" + entry.files[j]];
          j := j + 1;
        }
        assert entry.files[..j] == entry.files;
        assert walk[..i + 1][..i] == walk[..i];
        i := i + 1;
      }
      assert walk[..i] == walk;
      return Success(Cleanup(removed, root.value));
    }

    /** `set_local_path`. */
    method SetLocalPath(path: string)
      modifies this`localPath
      ensures localPath == Some(path)
    {
      localPath := Some(path);
    }
  }
}
