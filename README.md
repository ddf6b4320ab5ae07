# aEye label accumulation, modelled in Dafny

aEye edits batches of videos by accumulating ffmpeg directives on `Video`
objects and running one ffmpeg command per video at the end. This project
models that core:

- the `Video` record (`aEye/video.py`): its probe cache, label string,
  output-title rule, presigned-URL choice and title equality;
- the `Labeler` (`aEye/labeler.py`): eleven list operations that check
  their parameters against each video's metadata and append flags, filter
  fragments and output-name fragments, catching failures video by video;
- the `Aux` orchestrator (`aEye/auxiliary.py`): loading from an S3 listing
  or a local directory, resolving the output folder, building the ffmpeg
  commands while resetting each label, naming uploads, and choosing what the
  clean-up removes;
- the older `Processor` (`aEye/processor.py`): two label adders without
  per-video exception handling, and three ffmpeg command builders.

Directives are structured tokens (`Directives.Flag`, `Directives.Filter`,
`Directives.TitlePart`), each with a renderer to the exact text the source
writes. The label string is the concatenation of its flags' texts.
`Video` and `Aux` are classes whose methods update their fields in place.
Each labelling operation has three parts:

- a pure decision over the cached metadata;
- a step function over a `VideoState` snapshot;
- a method over `seq<Video>`, proved to perform that step on every video.

ffprobe, the S3 presigned-URL service, the S3 listing, the directory
listing, `tempfile.mkdtemp`, the ffmpeg path and `os.walk` are parameters:

- `Videos.Probe`: a file argument to `Option<Meta>`;
- `Videos.Signer`: bucket, key and lifetime to a URL;
- an `Option<seq<string>>` of keys for the S3 listing;
- `isDir` plus the entry names for the directory listing;
- `freshTemp` for the new temp folder, `ffmpeg` for the executable;
- a `seq<WalkEntry>` for the walk.

Commands, uploads and removals are returned rather than performed.

`aEye/labeler.py` and `aEye/auxiliary.py` use five members that the
`Video` class in `aEye/video.py` does not define: `complex_filter`,
`add_output_title`, `out`, `set_output` and `create_complex_filter`. The
model gives `Video` the fields and methods those callers need:

- a sequence of filter fragments;
- a sequence of title fragments;
- an `out` string and a `path`;
- `create_complex_filter`, which appends the filters joined with `,` as
  one `-filter_complex` flag.

`get_output_title` is the substring rule that `aEye/video.py` shows.

Where the docstrings and the code differ, the model follows the code:

- `reset_label` clears only the label.
- `get_codec` and `get_duration` fail on an empty cache, because they call
  a `get_metadata` that does not exist.
- `blur_video` accepts 1 to 5 steps (`range(1, 6)`), not the 6 its
  docstring names.
- The crop check `start_x ^ start_y >= 0` is a sign test on the XOR, so two
  negative offsets pass it.
- `load_local` joins directory and name without a separator (`path + i`).

Two places where the code evidently does not do what was meant are
modelled twice, as written and corrected (see "## Findings"). The
operations use the corrected version:

- In `execute_label_and_write_local`, the returned Video's file and title
  are read after `reset_label`, so they carry the plain title rather than
  the name ffmpeg wrote. `Auxiliary.FlushedVideoAsWritten` is that Video.
  `Aux.OutputVideo` and `Aux.ExecuteLabelAndWriteLocal` build the corrected
  `Auxiliary.FlushedVideo`, which names the written file.
- In `clean`, `shutil.rmtree` gets the last walked folder.
  `Auxiliary.CleanTreeAsWritten` is that folder. `Aux.Clean` removes the
  root folder instead.

## Model

| member | source | states |
|---|---|---|
| Videos.Cached | aEye/video.py:110-115 | a filled cache is kept; an empty one takes the probe's report of the file argument |
| Videos.FirstStream | aEye/video.py:122 | `streams[0]`: succeeds exactly when there is a stream, with that stream |
| Videos.ProjectionsReadFirstStream | aEye/video.py:137-171 | width, height, frame count, duration, codec and bit rate each succeed exactly when the first stream has that field, and each returns that field's value |
| Videos.ProjectionsWithoutStream | aEye/video.py:122 | a report without streams makes every projection fail with the missing-stream error |
| Videos.OutputTitleShape | aEye/video.py:223-239 | the output title ends with the title and adds 0, 8 or 16 characters of markers |
| Videos.OutputTitle | aEye/video.py:223-239 | defines `get_output_title`: "resized_" when the label text contains "scale", then "trimmed_" when it contains "-ss", then the title; its properties are the lemmas of the next rows |
| Videos.OutputTitleOfNoFlags | aEye/video.py:234-239 | an empty label leaves the title unchanged |
| Videos.SeekMarksTrimmed | aEye/video.py:237-238 | any seek flag in the label puts "trimmed_" right before the title |
| Videos.ScaleMarksResized | aEye/video.py:235-236 | any scale filter in the label makes the output title start with "resized_" |
| Videos.PresignedUrlShape | aEye/video.py:199-202 | a local file is returned unchanged; an S3 video gets the signer's URL for its bucket, key and lifetime, between single quotes |
| Videos.PresignedUrl | aEye/video.py:199-202 | defines `get_presigned_url` over the signer; PresignedUrlShape states what it returns |
| Videos.TitleEqualsSymmetric | aEye/video.py:88-99 | two videos are equal exactly when their titles are, in either order |
| Videos.TitleEquals | aEye/video.py:88-99 | defines `__eq__`: the title against a string, against another Video's title through Python's reflected call, false otherwise |
| Videos.Video.constructor | aEye/video.py:73-79 | a new Video has the given file, bucket, key and title, no cache and an empty label |
| Videos.Video.ExtractMetadata | aEye/video.py:101-115 | probes only while the cache is empty; a set cache is never replaced and None is returned |
| Videos.Video.GetCodec | aEye/video.py:117-125 | the first stream's codec; on an empty cache the undefined `get_metadata` fails |
| Videos.Video.GetDuration | aEye/video.py:127-135 | the first stream's duration; on an empty cache the undefined `get_metadata` fails |
| Videos.Video.GetNumFrames | aEye/video.py:137-145 | fills an empty cache, then returns the first stream's frame count |
| Videos.Video.GetWidth | aEye/video.py:153-161 | fills an empty cache, then returns the first stream's width |
| Videos.Video.GetHeight | aEye/video.py:163-171 | fills an empty cache, then returns the first stream's height |
| Videos.Video.AddLabel | aEye/video.py:204-208 | the label string becomes the old label followed by the flag's text |
| Videos.Video.GetFile | aEye/video.py:147-151 | `get_file` returns the file field as stored |
| Videos.Video.GetLabel | aEye/video.py:217-221 | defines `get_label` as the text of the accumulated flags |
| Videos.Video.GetOutputTitle | aEye/video.py:223-239 | defines `get_output_title` on the Video's own label and title (Videos.OutputTitle) |
| Videos.Video.Equals | aEye/video.py:88-99 | defines `__eq__` on the Video's own title (Videos.TitleEquals) |
| Videos.Video.GetPresignedUrl | aEye/video.py:187-202 | returns the URL Videos.PresignedUrl gives for the Video's file, bucket and key |
| Videos.Video.ResetLabel | aEye/video.py:210-215 | the label becomes empty |
| Videos.Video.AddFilter | aEye/labeler.py:121-122 | one filter fragment is appended to the complex filter |
| Videos.Video.AddOutputTitle | aEye/labeler.py:123 | one output-name fragment is appended |
| Videos.Video.SetOutput | aEye/auxiliary.py:226 | `out` is set |
| Videos.Video.CreateComplexFilter | aEye/auxiliary.py:215-216 | the label gains one `-filter_complex` flag holding the collected filters |
| Directives.LabelTextAppend | aEye/video.py:208 | appending a flag appends exactly its text to the label string |
| Directives.FlagText | aEye/labeler.py:121-482 | defines the exact text of each flag the operations add, e.g. `-ss {start} -t {duration} `, and the `-vf` and `-filter_complex` wrappers |
| Directives.FilterText | aEye/labeler.py:121-482 | defines the exact text of each filter fragment, e.g. `crop=w:h:x:y `, `gblur=sigma=L:steps=S`, `fps=R`, `format=gray` |
| Directives.TitleText | aEye/labeler.py:123-482 | defines the exact text of each output-name fragment, e.g. `resized_WxH_`, `blurred_LxS_`, `greyscale_` |
| Directives.FlagTextInLabel | aEye/video.py:204-208 | text found in any one flag's rendering is found in the whole label string |
| Directives.SeekInLabel | aEye/video.py:237 | a seek flag anywhere in the label puts "-ss" into its text |
| Directives.ScaleInLabel | aEye/video.py:235 | a scale filter, alone or in a folded graph, puts "scale" into the label text |
| Directives.FilterInGraph | aEye/auxiliary.py:215-216 | every filter fragment's text appears in the folded `-filter_complex` flag |
| PyInt.Trunc | aEye/labeler.py:118-119 | `int()` of a real truncates toward zero: within one of the real, never farther from zero |
| PyInt.EvenUp | aEye/labeler.py:122 | `ceil(n / 2) * 2` is the least even number at or above n |
| PyInt.CeilDiv | aEye/labeler.py:425 | `ceil(a / b)` is the least q with a <= q * b |
| PyInt.XorNonNegative | aEye/labeler.py:346 | the XOR of two integers is non-negative exactly when they have the same sign |
| Labeler.Apply | aEye/labeler.py:115-129 | an accepted block only appends to the three accumulators and keeps identity, output and path |
| Labeler.Outcome | aEye/labeler.py:116-125 | a caught failure keeps only the cache the block ended with; an accepted block also appends its fragments |
| Labeler.ResizeFilter | aEye/labeler.py:118-122 | both sides are even and equal to the truncated scaled side or one more |
| Labeler.ResizeDecision | aEye/labeler.py:117-123 | accepted exactly when width and height can be read; appends that scale and a `resized_ratio` fragment |
| Labeler.ResizeStep | aEye/labeler.py:116-125 | one video's block only extends it |
| Labeler.ResizeMarksFoldedTitle | aEye/labeler.py:121-123 | once the filters are folded into the label, a resized video's output title starts with "resized_" |
| Labeler.ResizeOne | aEye/labeler.py:116-125 | one video's try block performs the resize step |
| Labeler.ResizeByRatio | aEye/labeler.py:115-129 | returns the same list; every video gets the resize step of its own state |
| Labeler.TrimSpanDecision | aEye/labeler.py:155-158 | an empty cache fails; a missing duration fails with that error; otherwise accepted exactly when 0 <= start < duration, with flag `-ss start -t (end-start)`; end < start is not rejected |
| Labeler.TrimSpanStep | aEye/labeler.py:153-161 | a video without cached metadata is left unchanged; otherwise it is only extended |
| Labeler.TrimSpanMarksTitle | aEye/labeler.py:157 | an accepted trim marks the output title "trimmed_" |
| Labeler.TrimSpanOne | aEye/labeler.py:154-161 | one video's try block performs the trim step |
| Labeler.TrimVideoStartEnd | aEye/labeler.py:153-162 | returns the same list; every video gets the trim step of its own state |
| Labeler.Resolution | aEye/labeler.py:187-193 | exactly the five names of the table are known |
| Labeler.ResolutionNamesHeight | aEye/labeler.py:187-193 | each known name is its height followed by "p", and each size is wider than it is tall |
| Labeler.ResolutionEffect | aEye/labeler.py:200-203 | defines what a known resolution appends: the slow-preset flag, the lanczos scale and the `resized_WxH_` fragment |
| Labeler.ResolutionStep | aEye/labeler.py:195-210 | an unknown name changes no video; a known one appends the preset flag, the lanczos scale and the `resized_WxH_` fragment and keeps the cache |
| Labeler.ResolutionOne | aEye/labeler.py:200-203 | one video gains the preset flag, the scale and the title fragment |
| Labeler.ChangeResolution | aEye/labeler.py:195-212 | the lookup happens once before the loop; every video gets the resolution step |
| Labeler.ClipsDecision | aEye/labeler.py:238-241 | accepted exactly when the interval is positive, with the segment flag and its title fragment |
| Labeler.ClipsStep | aEye/labeler.py:237-244 | one video's block only extends it |
| Labeler.ClipsOne | aEye/labeler.py:237-244 | one video's try block performs the clips step |
| Labeler.TrimIntoClips | aEye/labeler.py:236-245 | returns the same list; every video gets the clips step |
| Labeler.OnFrameDecision | aEye/labeler.py:269-273 | acceptance needs the frame count and duration; the seek is `frame / (nb_frames / duration)` |
| Labeler.OnFrameStep | aEye/labeler.py:268-276 | a negative frame ends the check before any probe, so nothing changes |
| Labeler.OnFrameAccepted | aEye/labeler.py:269 | with both fields present and non-zero, the frame is accepted exactly when 0 <= frame <= nb_frames |
| Labeler.OnFrameSeekInside | aEye/labeler.py:270-272 | the seek time is frame * duration / nb_frames and lies within the video |
| Labeler.OnFrameOne | aEye/labeler.py:268-276 | one video's try block performs the on-frame step |
| Labeler.TrimOnFrame | aEye/labeler.py:267-277 | returns the same list; every video gets the on-frame step |
| Labeler.NumFramesDecision | aEye/labeler.py:305-310 | acceptance needs the frame count and duration; the flag seeks then keeps `num_frames` frames |
| Labeler.NumFramesStep | aEye/labeler.py:304-312 | a start frame that is not positive ends the check before any probe, so nothing changes |
| Labeler.NumFramesAccepted | aEye/labeler.py:305-310 | with both fields present and non-zero, accepted exactly when start + count < nb_frames; the seek is start * duration / nb_frames |
| Labeler.NumFramesOne | aEye/labeler.py:304-312 | one video's try block performs the frame-count step |
| Labeler.TrimNumFrames | aEye/labeler.py:303-313 | returns the same list; every video gets the frame-count step |
| Labeler.CropDecision | aEye/labeler.py:346-351 | an accepted crop appends `crop=w:h:x:y ` and a `cropped_WxH_` fragment |
| Labeler.CropStep | aEye/labeler.py:345-355 | a negative XOR of the offsets ends the check before any probe, so nothing changes |
| Labeler.CropAccepted | aEye/labeler.py:346-351 | the crop is appended exactly when the offsets share a sign, the origin is inside the frame and the section fits |
| Labeler.CropAcceptsNegativeOrigin | aEye/labeler.py:346 | two negative offsets pass the sign test and are cropped |
| Labeler.CropOne | aEye/labeler.py:345-355 | one video's try block performs the crop step |
| Labeler.CropVideoSection | aEye/labeler.py:344-356 | returns the same list; every video gets the crop step |
| Labeler.BlurDecision | aEye/labeler.py:386-388 | accepted exactly when 0 <= level <= 51 and 1 <= steps <= 5, with the gblur filter, no flag and the `blurred_LxS_` fragment |
| Labeler.BlurStep | aEye/labeler.py:385-392 | one video's block only extends it |
| Labeler.BlurOne | aEye/labeler.py:385-392 | one video's try block performs the blur step |
| Labeler.BlurVideo | aEye/labeler.py:384-393 | returns the same list; every video gets the blur step |
| Labeler.BitrateEffect | aEye/labeler.py:426-428 | the target, floor and ceiling rates are equal, and the buffer is twice the target |
| Labeler.TenthBitrate | aEye/labeler.py:423-425 | the ceiling of the stream's bit rate over 10000, read from a filled cache |
| Labeler.BitrateStep | aEye/labeler.py:421-431 | a non-zero rate is applied as given; zero fills the cache and applies a tenth of the video's own rate, or, when that cannot be read, keeps only the filled cache |
| Labeler.BitrateOne | aEye/labeler.py:421-431 | one video's block; a fixed rate is passed on unchanged to the next video |
| Labeler.SetBitrate | aEye/labeler.py:416-432 | returns the same list; every video gets the bitrate step, although the loop rebinds `bitrate` |
| Labeler.FpsStep | aEye/labeler.py:458-459 | appends one fps filter and the `framerate_R_` fragment, nothing else changes |
| Labeler.FpsOne | aEye/labeler.py:457-461 | one video's block performs the fps step |
| Labeler.ChangeFps | aEye/labeler.py:456-462 | returns the same list; every video gets the fps step |
| Labeler.GreyStep | aEye/labeler.py:481-482 | appends one gray filter and the `greyscale_` fragment, nothing else changes |
| Labeler.GreyOne | aEye/labeler.py:480-484 | one video's block performs the greyscale step |
| Labeler.Greyscale | aEye/labeler.py:479-485 | returns the same list; every video gets the greyscale step |
| Labeler.CallStep | aEye/labeler.py:115-485 | any one call of a list operation only extends a video: identity, output and path stay, cache kept once filled, flags, filters and title fragments only appended to |
| Labeler.Run | aEye/labeler.py:115-485 | any series of calls only extends a video |
| Labeler.FiltersKeepCallOrder | aEye/labeler.py:115-485 | for any series of calls and any cut point, what the earlier calls left in the flags, filters and title fragments stays in place, before whatever the later calls append |
| Labeler.FpsThenBlurFilters | aEye/labeler.py:384-462 | example: `change_fps` then an accepted `blur_video` leave exactly the fps filter, then the blur filter, after the filters already there |
| Auxiliary.KeyTitle | aEye/auxiliary.py:105 | splitting by an empty prefix fails |
| Auxiliary.KeyTitleAfterPrefix | aEye/auxiliary.py:105 | a key made of the prefix and a name without it is titled with the name |
| Auxiliary.S3Entries | aEye/auxiliary.py:99-111 | every entry's key is in the listing and differs from the prefix; no more entries than keys |
| Auxiliary.S3EntriesFailureStays | aEye/auxiliary.py:99-105 | the first key whose title cannot be taken aborts the whole load |
| Auxiliary.S3EntriesOfFolder | aEye/auxiliary.py:99-111 | a folder listing gives one video per object, in listing order, titled with the object's name |
| Auxiliary.FileTitleIsBaseName | aEye/auxiliary.py:144-145 | a file inside a folder is titled with its base name |
| Auxiliary.FileTitle | aEye/auxiliary.py:144-145 | defines the base-name rule: slashes become blanks, the ends are stripped and the last blank-separated piece is taken |
| Auxiliary.UploadDir | aEye/auxiliary.py:174-177 | uploads read from a truthy local path, else the temp folder; fails exactly when neither exists |
| Auxiliary.ResolveDir | aEye/auxiliary.py:199-206 | defines the folder cascade: explicit path (recorded as the local path), else the local path, else a fresh temp folder (recorded as the temp folder) |
| Auxiliary.UploadOf | aEye/auxiliary.py:175-178 | the local file is folder/output title and the key is prefix + output title |
| Auxiliary.ExplicitDirSticks | aEye/auxiliary.py:199-206 | an explicit output folder is reused by later calls without one |
| Auxiliary.UploadDirAfterFlush | aEye/auxiliary.py:174-206 | uploads look in the folder the last flush wrote to, unless that folder is "" |
| Auxiliary.FoldedExtendsLabel | aEye/auxiliary.py:215-216 | the label stays a prefix; with filters, exactly one filter graph is appended |
| Auxiliary.Folded | aEye/auxiliary.py:215-216 | defines the flags a flush runs: the label, then the filter graph when there are filters; FoldedExtendsLabel states its shape |
| Auxiliary.SourceOf | aEye/auxiliary.py:211-214 | defines the command's input: the presigned URL (60 seconds) when `out` is empty, else `out` |
| Auxiliary.WrittenTitle | aEye/auxiliary.py:217-218 | defines the name ffmpeg writes: the output title once the filters are folded into the label |
| Auxiliary.CommandFor | aEye/auxiliary.py:218 | defines the command string; CommandParts and the next rows state what it holds |
| Auxiliary.CommandParts | aEye/auxiliary.py:218 | the command is a head up to the source, then the label text, then the output path |
| Auxiliary.LabelInCommand | aEye/auxiliary.py:218 | any text found in the folded label is found in the command |
| Auxiliary.CommandRunsEveryFlag | aEye/auxiliary.py:218 | every flag the video accumulated is in its command |
| Auxiliary.CommandRunsEveryFilter | aEye/auxiliary.py:215-218 | every filter fragment reaches the command inside the folded graph |
| Auxiliary.FlushedVideo | aEye/auxiliary.py:222-226 | the new Video wraps folder/written title, carries that title, lives in the folder and has nothing accumulated |
| Auxiliary.FlushedVideoAsWritten | aEye/auxiliary.py:222-226 | defines the Video the source builds: file and title from the plain title read after `reset_label`, `out` from the written title |
| Auxiliary.FlushedVideoChains | aEye/auxiliary.py:211-226 | the next flush of a returned Video reads the quoted file this flush wrote |
| Auxiliary.UploadFindsWrittenFile | aEye/auxiliary.py:175-226 | uploading a returned Video picks up the file ffmpeg wrote, under prefix + its name |
| Auxiliary.UploadMissesWrittenFileAsWritten | aEye/auxiliary.py:222-224 | as written, a trimmed video is uploaded from the plain-title file, not the one ffmpeg wrote |
| Auxiliary.FilePaths | aEye/auxiliary.py:250-251 | one `dir/name` path per walked file, in order |
| Auxiliary.CleanTreeAsWritten | aEye/auxiliary.py:249-255 | defines the folder the source's `rmtree` gets: the last walked folder, or the root when nothing was walked |
| Auxiliary.CleanRoot | aEye/auxiliary.py:245-246 | defines clean's folder: the given path, else a truthy local path, else the temp folder |
| Auxiliary.CleanAsWrittenKeepsRoot | aEye/auxiliary.py:249-255 | as written, a folder with a subfolder is not removed, because `rmtree` gets the last walked folder |
| Auxiliary.CleanRootCoversWalk | aEye/auxiliary.py:249 | removing the root removes every folder the walk visited |
| Auxiliary.Aux.constructor | aEye/auxiliary.py:72-75 | no local path and no temp folder |
| Auxiliary.Aux.LoadS3 | aEye/auxiliary.py:97-114 | no "Contents" fails; otherwise one fresh Video per listed object, in order, with its key, title and folder |
| Auxiliary.LoadedPath | aEye/auxiliary.py:107-110 | defines the folder a loaded S3 Video gets: the temp folder when the local path is None, else the local path |
| Auxiliary.Aux.NewS3Video | aEye/auxiliary.py:106-110 | a fresh Video with the object's bucket, key and title, living in the given folder, with nothing accumulated |
| Auxiliary.Aux.LoadLocal | aEye/auxiliary.py:133-153 | one Video per directory entry with file `path + name`, or one titled with its base name; the local path is set unless the directory is empty |
| Auxiliary.Aux.NewLocalVideo | aEye/auxiliary.py:137-138 | a fresh Video with the given file and title, living in the given folder, with nothing accumulated |
| Auxiliary.Aux.UploadS3 | aEye/auxiliary.py:172-178 | one upload per video, in order, from the chosen folder; none when no folder exists |
| Auxiliary.Aux.FlushLabel | aEye/auxiliary.py:211-223 | one video's command and written title, taken from its state before the reset; afterwards only the label is cleared |
| Auxiliary.Aux.FlushNext | aEye/auxiliary.py:210-223 | one loop iteration: the i-th video's command and title from its prior state, its label reset, every other video untouched |
| Auxiliary.Aux.OutputVideo | aEye/auxiliary.py:224-226 | the corrected Video for a written file: file folder/written title, titled with the written title, with its folder and quoted output |
| Auxiliary.Aux.OutputVideos | aEye/auxiliary.py:222-227 | one fresh, distinct Video per written title, in order, each the OutputState of its title |
| Auxiliary.Aux.ResolveOutputDir | aEye/auxiliary.py:199-206 | explicit path, else local path, else a fresh temp folder, recorded in the matching field |
| Auxiliary.Aux.FlushAll | aEye/auxiliary.py:210-223 | one command and one pre-reset output title per input, in order; each source video keeps everything but its label |
| Auxiliary.Aux.ExecuteLabelAndWriteLocal | aEye/auxiliary.py:199-231 | the resolved folder, then one command and one new Video per input, every label reset; the new Videos are the corrected FlushedVideo of the second Findings row |
| Auxiliary.Aux.Clean | aEye/auxiliary.py:245-255 | every walked file is removed, then the root folder's tree (the corrected `rmtree` of the first Findings row); no folder at all fails |
| Auxiliary.Aux.SetLocalPath | aEye/auxiliary.py:260-273 | the local path is set |
| Processor.RatioFlag | aEye/processor.py:108-112 | a flag only when width and height are read, the width first; it is a `-vf` scale |
| Processor.RatioFlagMatchesLabeler | aEye/processor.py:108-112 | the older adder accepts the same videos and emits the same scale as the Labeler's resize |
| Processor.RatioStep | aEye/processor.py:108-112 | defines one video of the older adder: the cache filled, then the flag appended when both sides were read |
| Processor.RatioStepMarksResized | aEye/processor.py:112 | a labelled video gains "scale" in its label and a "resized_" output title |
| Processor.RatioOne | aEye/processor.py:108-112 | one iteration: the flag or the exception, with the cache filled |
| Processor.RatioLoop | aEye/processor.py:107-112 | the loop stops at the first failing video: videos before it get the ratio step, that video keeps its filled cache, later ones are untouched; no error means every video was labelled |
| Processor.AddLabelResizingByRatio | aEye/processor.py:107-116 | all videos labelled and the same list returned, or the first failing video ends the call: earlier videos labelled, later ones untouched |
| Processor.TrimLabelStep | aEye/processor.py:142 | only the label changes |
| Processor.TrimLabelOne | aEye/processor.py:141-142 | one video performs the trim label step |
| Processor.TrimLabelMarksTrimmed | aEye/processor.py:142 | the label gains "-ss" and the output title "trimmed_" |
| Processor.AddLabelTrimmingStartDuration | aEye/processor.py:141-146 | returns the same list; every video gains the seek flag with no check |
| Processor.TrimOutput | aEye/processor.py:166 | the output sits in the output folder and ends with the title |
| Processor.TrimCommand | aEye/processor.py:164-166 | the command ends with its output path |
| Processor.TrimCommandSpan | aEye/processor.py:164-165 | the command seeks to the start and keeps `end - start` seconds |
| Processor.TrimVideoStartEnd | aEye/processor.py:163-167 | one command per video, in order |
| Processor.FrameSeek | aEye/processor.py:237-238 | succeeds exactly when frame count and duration are read and neither is zero |
| Processor.FrameSeekValue | aEye/processor.py:237-238 | the seek time is start_frame * duration / nb_frames |
| Processor.FrameSeekInside | aEye/processor.py:237-238 | a first frame within the stream seeks within the stream |
| Processor.SplitOutput | aEye/processor.py:241 | the output sits in the output folder and ends with the title |
| Processor.SplitCommand | aEye/processor.py:239-241 | defines the split command; SplitCommandRange states what it holds |
| Processor.SplitCommandRange | aEye/processor.py:239-241 | the command ends with its output, keeps `num_frames` frames and names both ends of the range |
| Processor.SplitCommands | aEye/processor.py:236-241 | one split command per video, in order, each from its own seek time |
| Processor.SplitSeekOne | aEye/processor.py:237-238 | one video's reads: the seek time or the exception, with the cache filled |
| Processor.SplitSeeks | aEye/processor.py:236-238 | the seek times up to the first exception; caches filled up to that video, later ones untouched |
| Processor.SplitNumFrames | aEye/processor.py:236-244 | the commands run before the first exception, one per video, each from its own seek time |
| Processor.CropOutput | aEye/processor.py:267 | the output sits in the output folder and ends with the title |
| Processor.CropCommand | aEye/processor.py:265-267 | the command ends with its output path |
| Processor.CropCommandFilter | aEye/processor.py:266 | the command holds the quoted `crop=w:h:x:y` that the Labeler's crop collects, without its trailing blank |
| Processor.CropVideoSection | aEye/processor.py:264-269 | one command per video, in order |

## Left out

- Running ffmpeg and ffprobe, S3 calls, `tempfile.mkdtemp`, `os.walk`, `os.remove` and `shutil.rmtree` are left out. They are external processes and file-system effects: their inputs are parameters and their effects are returned values.
- JSON parsing of the probe output is left out: `Meta` holds the parsed fields, and `int(...)`/`float(...)` of ffprobe's string fields is taken as exact.
- Python float arithmetic and float formatting are left out. Times and ratios are exact reals, and `Text.RealText` renders a whole real without a fractional part, while Python prints `2.0`.
- Aliasing is left out: every list operation requires its Video objects to be distinct, so the same object is never updated twice in one walk.
- `Video.__bool__` (OpenCV capture), `__repr__` and logging are left out, because they have no effect on the accumulated state.
- A failing `os.remove` inside `clean` is left out; it is caught and printed by the source. So is `rmtree` on a folder that does not exist.
- `Processor.trim_into_clips`, `split_on_frame` and `blur_video` are left out. They are command builders of the same shape as the three that are modelled.
- `Processor.cv_extract_frame_at_time`, `cv_extract_specific_frame`, `extract_many_frames` and `remove_outputs` are left out, because they are OpenCV frame I/O and file deletion.
- Default arguments are not modelled as defaults: callers pass every argument, and the presigned-URL lifetime of 60 seconds is fixed where the source uses it.
- Auxiliary.Aux.ExecuteLabelAndWriteLocal: returns the corrected Videos, named after the file ffmpeg wrote. The source's Videos carry the plain title in file and title. That construction is Auxiliary.FlushedVideoAsWritten, and no operation returns it.
- Auxiliary.Aux.OutputVideo: uses the written title for file, title and `out`. The source uses the plain title for file and title (see Auxiliary.FlushedVideoAsWritten).
- Auxiliary.Aux.Clean: removes the root folder's tree. The source's `rmtree` gets the last walked folder; that folder is Auxiliary.CleanTreeAsWritten.
- Videos.Video.GetDuration: the duration is a real read from the cache; the string-to-float conversion the callers apply is not modelled.

## Findings

| source | as written | input that shows it | evidently intended | confidence | as-written member | corrected member |
|---|---|---|---|---|---|---|
| aEye/auxiliary.py:249-255 | the walk loop rebinds `path`, so `shutil.rmtree(path)` removes the last folder walked | a root "tmp" holding a file and a subfolder "tmp/sub": `rmtree` gets "tmp/sub" and "tmp" stays | remove the root folder that was cleaned | high; not executed | Auxiliary.CleanAsWrittenKeepsRoot | Auxiliary.Aux.Clean |
| aEye/auxiliary.py:222-224 | the new Video's file and title are read after `reset_label`, so they carry the plain title, while ffmpeg wrote `{path}/{output title}` | a video "a.mp4" with a `-ss 1 -t 2` label: ffmpeg writes "trimmed_a.mp4", and `upload_s3` looks for "a.mp4" | the new Video names the file ffmpeg wrote | medium; not executed | Auxiliary.UploadMissesWrittenFileAsWritten | Auxiliary.FlushedVideo |
