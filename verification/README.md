# URL resource loader nodes, modelled in Dafny

This project models the decision logic of a ComfyUI plugin with five nodes:

- an object-store upload node (`OSS_Upload`);
- three loaders that each fetch one kind of resource from a URL (video, image, audio);
- a general loader that looks at a response and decides whether it holds an image or audio.

Everything around that logic is passed in as parameters. This covers HTTP, the object-store SDK, the image and audio decoders, and the file system. The model is pure functions over strings, naturals and sequences.

The modules are:

- `Wrappers`: `Option` and `Result`.
- `Text`: the Python string operations the nodes use. These are `lower()`, `startswith`/`endswith`, `in`, `split(c)[-1]` and `split(c)[0]`, `strip()` with Python's whitespace set, and `str(n)`.
- `Paths`: `os.path.join` (POSIX) and pathlib's `name` and `suffix`.
- `Uploader` (`oss_uploader.py`): the manifest walk, per-entry outcomes, the report, the content-type table, and the node's error answers.
- `VideoLoader` (`LoadVideoFromURL.py`): URL checks, extension inference, the collision-free save path, `validate_inputs`, and `execute`.
- `ImageLoader` (`LoadImageFromURL.py`): the resize rule, the tensor shape and the mask.
- `AudioLoader` (`LoadAudioFromURL.py`): the blank-URL check, the retry loop, error mapping, the WAV hint, the 16000 Hz gate and the layout normalisation.
- `ResourceLoader` (`url_resource_loader.py`): type dispatch, both branches' output shapes, and the mapping of every failure to an `(image, audio, info)` triple.

Where the outside world matters, it appears as follows:

- The upload node's file system is a map from path to size. The store's PUT and `os.remove` are oracles.
- The audio node's transport is an oracle answering per URL and attempt number. The decoder is an oracle per URL and format hint. The resampler is a function giving the new frame count.
- The upload node's `json.loads(file_list)` is an oracle: `Upload` receives the parsed manifest, or `None` when parsing raised a decode error.
- The video node's input folder is a set of existing paths. Its transfer is one outcome: refused before the body, broken off mid-stream, or delivered.

## Model

| member | source | states |
|---|---|---|
| `Uploader.Get` | oss_uploader.py:182-183 | `dict.get`: the value comes from a field with that key, and the default is returned only when no field has the key |
| `Uploader.ContentType` | oss_uploader.py:253-299 | the default `application/octet-stream` comes out exactly when no table key equals the lower-cased suffix; any other type is the value of an entry keyed by that suffix |
| `Uploader.LookupFinds` | oss_uploader.py:299 | the table lookup succeeds exactly when some entry has the key, and returns the first such entry's value |
| `Uploader.ContentTypeIgnoresCase` | oss_uploader.py:255-299 | names that are equal up to ASCII case get the same content type (`a.PNG` and `a.png`) |
| `Uploader.ContentTypeOfLowered` | oss_uploader.py:255 | lower-casing a name before typing it changes nothing |
| `Uploader.ContentTypeOfExtension` | oss_uploader.py:255-299 | `stem.ext` is typed by the table entry for `.` plus the lower-cased `ext`, or by the default when there is no entry |
| `Uploader.ContentTypeWithoutSuffix` | oss_uploader.py:255-299 | a name with no dot, or only a leading dot, gets `application/octet-stream` |
| `Uploader.LocalPathLayout` | oss_uploader.py:190-193 | the local path is `dir/sub/name`; the subfolder is left out when empty |
| `Uploader.TotalSizeAppend` | oss_uploader.py:219 | appending an upload adds exactly its size to the total |
| `Uploader.Fail` | oss_uploader.py:196-201 | a failure appends exactly the record (filename, reason) to the failed list and changes nothing else |
| `Uploader.Succeed` | oss_uploader.py:219-233 | a success appends the record and its size, and keeps the total equal to the sum of the sizes |
| `Uploader.UploadEntry` | oss_uploader.py:188-239 | each entry adds exactly one record. A filename or subfolder that `os.path.join` rejects gives a failure. A missing local file gives "File not found". A PUT error gives a failure carrying its message. A stored file is appended as (name, key, size), and its size is added to the total. The file is removed from the file system only when deletion is asked for and succeeds |
| `Uploader.RemovalDoesNotChangeRecord` | oss_uploader.py:222-226 | whether deletion is asked for, and whether removing the file succeeds, changes none of the recorded lists or the total |
| `Uploader.RemoteKeyIgnoresSubfolder` | oss_uploader.py:204 | the remote key is `outputs/{task_id}/{filename}` whatever the subfolder |
| `Uploader.Visit` | oss_uploader.py:181-186 | an entry without a truthy filename is skipped and leaves the state unchanged. Any other entry is handed to `UploadEntry` with its `filename` and its `subfolder`, which defaults to "" when absent, and leaves exactly one record |
| `Uploader.UploadList` | oss_uploader.py:181-239 | the walk of one list succeeds exactly when every item is an object. It adds one record per eligible entry, only appends, and keeps the totals consistent. Otherwise it stops at the first item that is not an object, and carries that item and everything the walk of the items before it did: uploads, failures and removals |
| `Uploader.UploadListAppend` | oss_uploader.py:181-239 | walking `a + b` is walking `a` and then `b` from where `a` ended, so processing continues after a failed entry |
| `Uploader.UploadKinds` | oss_uploader.py:177-179 | the walk over kinds is the walk over the concatenated lists; values that are not lists are skipped |
| `Uploader.UploadFiles` | oss_uploader.py:172-250 | status is "success" exactly when nothing failed, and "partial" otherwise. The counts are the list lengths. The total is the sum of the uploaded sizes. Every key is `outputs/{task_id}/{name}`. uploaded plus failed equals the number of eligible entries. A manifest that is not an object aborts on `items`; otherwise an abort names the first listed item that is not an object and carries the walk up to it. The reported uploaded list, failed list and total are exactly those the walk over every listed entry recorded |
| `Uploader.VisitMissing` | oss_uploader.py:196-201 | an entry naming an absent file is recorded as "File not found" |
| `Uploader.VisitStored` | oss_uploader.py:204-233 | an entry naming a present file that the store accepts is uploaded under its key, with its size |
| `Uploader.OneMissingOnePresent` | oss_uploader.py:196-246 | a manifest with one missing and one present file gives a partial report: one upload, one "File not found" failure, and the present file's size as the total |
| `Uploader.Upload` | oss_uploader.py:106-148 | no SDK gives the install message. A client that cannot be built gives its error. Invalid JSON gives "Invalid file_list JSON: " plus the text. The status is "error" exactly for error answers. Otherwise the answer is exactly `_upload_files`'s report, or, when the walk aborts, an error answer carrying the abort |
| `Uploader.ErrorMessage` | oss_uploader.py:108-148 | an invalid manifest's message is "Invalid file_list JSON: " followed by the text; neither the missing-SDK message nor an abort starts that way. A client error is reported by its own text. An abort names `items` exactly when the manifest itself is not an object |
| `Paths.Join` | oss_uploader.py:191-193 | `os.path.join`: an absolute component replaces the path. Otherwise the component is appended directly when the directory is empty or ends in '/', and after one '/' in every other case |
| `Paths.JoinCancel` | LoadVideoFromURL.py:96-101 | two relative (or two absolute) components that join onto the same directory to the same path are equal |
| `Paths.PathName` | oss_uploader.py:255 | pathlib's `name` has no '/', is never ".", and is no longer than the path |
| `Paths.PathNameOfJoined` | oss_uploader.py:255 | the name of `d/n` is `n` for any component `n` other than "" and "." |
| `Paths.PathNameIgnoresTrailing` | oss_uploader.py:255 | a trailing "/" or "/." does not change the name |
| `Paths.Suffix` | oss_uploader.py:255 | pathlib's `suffix` is empty, or a dot followed by dot-free text that ends the name and is shorter than it |
| `Paths.SuffixOfExtension` | oss_uploader.py:255 | `stem.ext` is its own name, and its suffix is `.ext` |
| `Paths.SuffixOfHidden` | oss_uploader.py:255 | a name with one leading dot and no other dot has no suffix |
| `Paths.PathNameLower` | oss_uploader.py:255 | taking the name commutes with lower-casing |
| `Paths.SuffixLower` | oss_uploader.py:255 | taking the suffix commutes with lower-casing |
| `Text.Lower` | url_resource_loader.py:79 | `lower()` on ASCII: same length, and each character lower-cased, only 'A' to 'Z' changing |
| `Text.AfterLast` | LoadVideoFromURL.py:86 | `split(c)[-1]` is the longest `c`-free suffix: either all of the string, or preceded by `c` |
| `Text.BeforeFirst` | LoadVideoFromURL.py:86 | `split(c)[0]` is the longest `c`-free prefix: either all of the string, or followed by `c` |
| `Text.Strip` | LoadAudioFromURL.py:28-32 | `strip()` removes a blank prefix and a blank suffix and leaves no whitespace at either end |
| `Text.StripEmptyIffBlank` | LoadAudioFromURL.py:28 | a string strips to "" exactly when it is all whitespace |
| `Text.StripIdempotent` | LoadAudioFromURL.py:32 | stripping twice is stripping once |
| `Text.DecimalRoundTrip` | LoadVideoFromURL.py:101 | reading back the digits of `str(n)` gives `n` |
| `Text.DecimalInjective` | LoadVideoFromURL.py:101 | different counters print differently |
| `VideoLoader.InferExtension` | LoadVideoFromURL.py:84-89 | the extension is always one of the nine whitelisted ones. It is the URL's lower-cased token, cut at '?', exactly when the URL has a dot and that token is whitelisted; otherwise it is `.mp4` |
| `VideoLoader.InferExtensionWithQuery` | LoadVideoFromURL.py:84-89 | for `base.ext?query`, the extension is the lower-cased `ext` when whitelisted, and `.mp4` otherwise |
| `VideoLoader.InferExtensionPlain` | LoadVideoFromURL.py:84-89 | the same for `base.ext` without a query |
| `VideoLoader.CandidateInjective` | LoadVideoFromURL.py:96-101 | different attempt numbers give different file names |
| `VideoLoader.SavePathInjective` | LoadVideoFromURL.py:96-101 | different attempt numbers give different paths in the folder |
| `VideoLoader.InjectiveBound` | LoadVideoFromURL.py:100-102 | a set holding `n` distinct attempts has at least `n` elements, which is why the search stops |
| `VideoLoader.FirstFree` | LoadVideoFromURL.py:99-102 | the loop ends at an attempt that does not exist, and every earlier attempt exists |
| `VideoLoader.ChooseSavePath` | LoadVideoFromURL.py:96-102 | the chosen path does not exist, and it is the first attempt that does not |
| `VideoLoader.ChooseFreeName` | LoadVideoFromURL.py:96 | `name.ext` is chosen when it is free |
| `VideoLoader.ChooseLeast` | LoadVideoFromURL.py:99-102 | no free attempt comes before the chosen one |
| `VideoLoader.ChooseSecond` | LoadVideoFromURL.py:99-102 | when `name.ext` is taken and `name_1.ext` is free, `name_1.ext` is chosen |
| `VideoLoader.TwoDownloads` | LoadVideoFromURL.py:96-102 | two downloads under one name give `name.ext`, then `name_1.ext` |
| `VideoLoader.ValidateInputs` | LoadVideoFromURL.py:156-169 | accepted exactly when the URL is non-empty and http(s), and no kept, non-empty file name holds an invalid character (backslash, `/`, `:`, `*`, `?`, `"`, `<`, `>` or the vertical bar). Each refusal has its exact message |
| `VideoLoader.VideoErrorMessage` | LoadVideoFromURL.py:66-147 | the empty-URL message is the validator's. Exactly the two input errors start with "Error: "; the bad-scheme one ends by quoting the URL. A transfer error is tagged `[LoadVideoFromURL]` and ends with the cause |
| `VideoLoader.Execute` | LoadVideoFromURL.py:65-147 | an empty or non-http(s) URL fails first. Success means the body was delivered. The saved path was free before, is the first free attempt in the input folder, and has the inferred extension. A temporary file that broke off leaves no file. A file in the input folder that broke off stays: the folder then holds exactly the old paths plus the new one. Every later failure carries the transfer's detail |
| `VideoLoader.TargetPath` | LoadVideoFromURL.py:92-133 | the file written ends in the inferred extension; in the input folder it is the first free attempt, as `ChooseSavePath` picks it |
| `VideoLoader.RejectedBeforeRequest` | LoadVideoFromURL.py:65-69 | a refused URL gives the same result whatever the transfer and save options, and creates no file |
| `VideoLoader.ValidateAgreesWithExecute` | LoadVideoFromURL.py:65-69 | the validator's verdict and `execute`'s pre-checks agree on every URL, and an empty URL gets the same message from both |
| `ImageLoader.TargetSize` | LoadImageFromURL.py:33-43 | both sides given gives exactly that size; neither gives the original. One side given scales the other by the same ratio, truncated. A zero original side fails with a division by zero, and a derived side of 0 is refused; these are the only failures |
| `ImageLoader.ImageErrorMessage` | LoadImageFromURL.py:31 | exactly a fetch or decode failure is reported as "Failed to load image from URL: " followed by the cause |
| `ImageLoader.ScaledSide` | LoadImageFromURL.py:37-38 | the derived side is the largest whole number not above the exact scaled side |
| `ImageLoader.TruncatesNotRounds` | LoadImageFromURL.py:37-39 | a 2x3 picture resized to width 1 is 1 high, not 2 |
| `ImageLoader.WholeFactorKeepsRatio` | LoadImageFromURL.py:36-43 | scaling down by a whole factor keeps the aspect ratio exactly, whichever side is given |
| `ImageLoader.LoadImage` | LoadImageFromURL.py:26-51 | a fetch failure is "Failed to load image from URL". A resize error escapes unwrapped, as it is raised outside the `try`. The image is `[1, H, W, 3]`, turned when the orientation tag swaps axes. The mask is `[1, H, W]` of ones |
| `ImageLoader.ExactSizeWhenBothGiven` | LoadImageFromURL.py:34-35 | both sides given gives `[1, height, width, 3]` whatever the picture's size |
| `ImageLoader.OriginalSizeWhenNoneGiven` | LoadImageFromURL.py:33-48 | with neither side given, the picture keeps its size |
| `AudioLoader.RetryFrom` | LoadAudioFromURL.py:71-88 | attempts alternate with pauses, with none before the first or after the last. There are at most three attempts, and all but the last failed. Success is the first response. Failure re-raises the third attempt's error |
| `AudioLoader.AtMostThreeAttempts` | LoadAudioFromURL.py:72-83 | one to three attempts, every one before the last failed |
| `AudioLoader.FirstResponseWins` | LoadAudioFromURL.py:72-83 | the first attempt that gets a response is the one used |
| `AudioLoader.AllAttemptsFail` | LoadAudioFromURL.py:84-88 | three failures give try, pause, try, pause, try, and the third error |
| `AudioLoader.AudioErrorMessage` | LoadAudioFromURL.py:29-115 | every message after the blank-URL one names the URL. The three catch-all messages carry the error text, and the status message carries the code |
| `AudioLoader.ClassifyOther` | LoadAudioFromURL.py:108-115 | an error text mentioning "metadata" or "audio" in any case means "not an audio file". Otherwise "BytesIO" (case-sensitive) means a read failure. Anything else is a plain failure |
| `AudioLoader.MapRequestFailure` | LoadAudioFromURL.py:102-115 | timeout, HTTP status and connection errors each map to their own error, keeping the status code. Any other request error is classified by its text, as `ClassifyOther` does |
| `AudioLoader.WavSuffixAnyCase` | LoadAudioFromURL.py:97 | a URL ending in `.wav` in any case asks for the WAV format |
| `AudioLoader.LoadFromUrl` | LoadAudioFromURL.py:59-115 | succeeds exactly when some attempt gets a response, its streamed body reads without a request error, and the body decodes. A request error from the loop or from reading the body maps by kind. A decoder error maps by its text |
| `AudioLoader.BodyReadFailureNotRetried` | LoadAudioFromURL.py:83-107 | a connection error while reading the first response's body ends the fetch after one attempt, reported as "cannot connect" |
| `AudioLoader.Resampled` | LoadAudioFromURL.py:36-42 | resampling changes only the last axis |
| `AudioLoader.NormalizeLayout` | LoadAudioFromURL.py:46-49 | `[T]` becomes `[1, T]` and `[1, C, T]` becomes `[C, T]`; every other shape is kept |
| `AudioLoader.NormalizeLayoutKeepsData` | LoadAudioFromURL.py:46-49 | normalising keeps the element count and the last axis, and makes ranks 1, 2 and `[1, C, T]` two-dimensional |
| `AudioLoader.NormalizeLayoutIdempotent` | LoadAudioFromURL.py:46-49 | normalising twice is normalising once, for every shape |
| `AudioLoader.LoadAudio` | LoadAudioFromURL.py:25-56 | a blank URL is refused, and only such a URL. The output rate is always 16000. The output is the stripped URL's decoding, resampled only when its rate differs, then normalised |
| `AudioLoader.BlankUrlRefused` | LoadAudioFromURL.py:28-29 | a whitespace-only URL is refused whatever the network answers |
| `AudioLoader.SurroundingSpaceIgnored` | LoadAudioFromURL.py:28-32 | surrounding whitespace makes no difference to the result |
| `AudioLoader.OnlyStrippedUrlFetched` | LoadAudioFromURL.py:32 | two networks that answer the stripped URL alike give the same result |
| `AudioLoader.SameAnswersSameFetch` | LoadAudioFromURL.py:71-88 | the retry loop depends only on the answers for its own URL |
| `AudioLoader.NoResampleAtTargetRate` | LoadAudioFromURL.py:35-49 | a body already at 16000 Hz is only normalised, not resampled |
| `ResourceLoader.KindOf` | url_resource_loader.py:72-79 | image exactly when the content type contains "image". Audio exactly when it does not, and it contains "audio" or the lower-cased URL contains an audio extension |
| `ResourceLoader.AudioByUrlAlone` | url_resource_loader.py:79 | `.MP3` anywhere in the URL selects audio when the content type does not say image |
| `ResourceLoader.LoadImage` | url_resource_loader.py:72-117 | a decoded picture gives a `[1, 3, H, W]` tensor and no audio. An error reading the body gives the network-error info; a decoder error gives the processing-error info |
| `ResourceLoader.LoadAudio` | url_resource_loader.py:80-117 | the waveform is always `[1, T]` at the file's rate. "dict" gives the dict with duration `T / rate`; anything else gives the pair. A rate of 0 fails with "division by zero". An error reading the body gives the network-error info; a decoder error gives the processing-error info |
| `ResourceLoader.InfoText` | url_resource_loader.py:76-117 | every info text opens with its own headline line, and a failure's text ends with the address |
| `ResourceLoader.InfoTextTellsKind` | url_resource_loader.py:76-117 | two infos with the same text have the same headline: the text tells which outcome happened |
| `ResourceLoader.LoadFromUrl` | url_resource_loader.py:55-117 | at most one output is present, and each matches its info. A timeout and a request error become triples with neither output. Otherwise the branch is the one `KindOf` picks |
| `ResourceLoader.LoadFromUrlByDefault` | url_resource_loader.py:55 | without an output format the format is "dict", so any audio comes back as the dict |
| `ResourceLoader.ImageTakesPriority` | url_resource_loader.py:72 | an image content type never yields audio or "unsupported" |
| `ResourceLoader.UnsupportedIgnoresBody` | url_resource_loader.py:107-108 | the unsupported answer does not depend on the body and names the content type |
| `ResourceLoader.FailuresAreTriples` | url_resource_loader.py:110-117 | a triple with neither output is a failure or the unsupported answer; no exception escapes |
| `ResourceLoader.DownmixShape` | url_resource_loader.py:87-92 | a multi-channel file gives the same result as a mono file of the same length and rate |

## Left out

- HTTP transport (`requests`, `aiohttp`), streaming and chunked writes are left out because they are network I/O. Each request is an outcome passed in.
- The `oss2` client, its authentication and `put_object` are left out because they are a foreign SDK. The PUT is an oracle per (local path, key), and building the client is an optional error.
- Decoding, resampling, `exif_transpose` and all float pixel and sample values are left out because they are library numerics. Only shapes, sizes and rates are kept. The orientation fix-up is a flag saying whether the tag swaps the axes.
- Temp-file creation and cleanup, `os.makedirs`, `folder_paths` and the output-directory fallback are left out because they are file-system side effects. The input and output directories and the temporary file's name are parameters.
- The MD5 cache fingerprint is left out because it is a foreign hash. The report's timestamp and the traceback text are left out because they are not deterministic.
- Async execution, the extension and registration classes, `NODE_CLASS_MAPPINGS` and `__init__.py` are left out because they are host plumbing.
- The JSON serialisation of the upload node's answer is left out. The answer is kept as a datatype, and its status and messages are modelled.
- Text.Lower: lowers ASCII letters only; Python's `lower()` also lowers other scripts, and some non-ASCII characters lower to ASCII ones. The KELVIN SIGN U+212A lowers to 'k', so for a URL ending `.m` U+212A `v` Python infers `.mkv` where the model infers `.mp4`. The same holds for the audio-extension test on a URL and for an upload's suffix.
- ImageLoader.ScaledSide: computed over exact rationals. The source uses float division, which can land one below the exact floor when the ratio is not representable. ImageLoader.TargetSize and ImageLoader.LoadImage inherit this. For a 49x49 picture asked for width 1, Python computes `int(49 * (1/49))`, which is `int(0.9999999999999999) == 0`, so PIL refuses the resize. The model returns `Success(Size(1, 1))`.
- Uploader.ErrorMessage: gives only the attribute part of the message for a manifest or entry that is not an object. Python's message also names the offending value's type, which the JSON model does not tell apart for numbers.
- ResourceLoader.InfoText: leaves out the audio success text, because it prints the duration with two decimals (float formatting).
- ResourceLoader.LoadAudio: keeps the waveform as `[1, T]` shape only. The temporary `.wav` file is left behind when reading fails; that is not modelled. The duration is an exact real, whereas the source computes the float `len(audio_data)/sample_rate` (url_resource_loader.py:98). So `duration * rate == frames` holds in the model but not always in the program.
- The video node's success path calls `VideoFromFile`. Only the path it is given is modelled.
- Uploader.ReasonText: for an entry `os.path.join` rejects, the message omits the trailing type name (", not 'int'", ", not 'list'" and so on). The JSON model does not tell an int from a float.
- Uploader.Get: on a duplicate key it returns the first field's value, whereas `json.loads` keeps the last one. A manifest with a duplicate kind is also walked once per field, not once. Manifests with duplicate keys are outside the model.

## Behaviour kept as written

Three behaviours of the code are easy to misread. The model keeps each one as written:

- `int()` truncates the derived image side; it does not round (LoadImageFromURL.py:38, 42).
- `squeeze(0)` removes the first axis only when it has size 1. The comment at LoadAudioFromURL.py:49 reads `[B,C,T] -> [C,T]`, but a rank-3 waveform whose first axis is not 1 stays rank 3.
- The general loader's audio test looks for an audio extension anywhere in the lower-cased URL, not only at its end (url_resource_loader.py:79).
