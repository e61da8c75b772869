/** The video node (`ComfyVideoURLLoader`): checks the URL, infers the file
    extension from it, picks a file name in the input folder that does not
    clash with an existing one (`name.ext`, `name_1.ext`, `name_2.ext`, ...) or
    a temporary file, and downloads the body there.

    The transfer itself is one abstract outcome, the input folder's contents a
    set of paths, and the temporary file's name a parameter. */
module VideoLoader {
  import opened Wrappers
  import opened Text
  import opened Paths

  predicate HasHttpScheme(url: string) {
    StartsWith(url, "http://") || StartsWith(url, "https://")
  }

  // ----- extension inference -------------------------------------------------

  const SupportedExtensions: seq<string> := ["mp4", "webm", "mov", "avi", "mkv", "flv", "mpeg", "mpg", "wmv"]

  const DefaultExtension: string := ".mp4"

  /** An extension the node can produce: a dot and a whitelisted name. */
  predicate IsExtension(ext: string) {
    |ext| >= 2 && ext[0] == '.' && ext[1..] in SupportedExtensions
  }

  /** The URL's would-be extension: the lower-cased text after its last '.',
      cut at the first '?'. */
  function UrlExtension(url: string): string {
    Lower(BeforeFirst(AfterLast(url, '.'), '?'))
  }

  /** The extension the download is saved with: the URL's own when it is
      whitelisted, `.mp4` otherwise and when the URL has no '.' at all. */
  function InferExtension(url: string): (r: string)
    ensures IsExtension(r)
    ensures '.' !in url ==> r == DefaultExtension
    ensures '.' in url && UrlExtension(url) in SupportedExtensions ==> r == "." + UrlExtension(url)
    ensures r != DefaultExtension ==> r == "." + UrlExtension(url)
  {
    var token := UrlExtension(url);
    if '.' in url && token in SupportedExtensions then
      assert ("." + token)[1..] == token;
      "." + token
    else
      assert DefaultExtension[1..] == "mp4";
      DefaultExtension
  }

  /** The extension of `base.ext?query` is `.ext` lower-cased when that is
      whitelisted, whatever the query holds other than dots; `.mp4` otherwise. */
  lemma InferExtensionWithQuery(base: string, ext: string, query: string)
    requires '.' !in ext && '?' !in ext && '.' !in query
    ensures InferExtension(base + "." + ext + "?" + query) ==
              if Lower(ext) in SupportedExtensions then "." + Lower(ext) else DefaultExtension
  {
    UrlExtensionWithQuery(base, ext, query);
  }

  lemma UrlExtensionWithQuery(base: string, ext: string, query: string)
    requires '.' !in ext && '?' !in ext && '.' !in query
    ensures '.' in base + "." + ext + "?" + query
    ensures UrlExtension(base + "." + ext + "?" + query) == Lower(ext)
  {
    var tail := ext + "?" + query;
    assert '.' !in tail by {
      assert forall i :: 0 <= i < |tail| ==> tail[i] in ext || tail[i] == '?' || tail[i] in query;
    }
    var url := base + "." + ext + "?" + query;
    assert url == base + ['.'] + tail;
    assert url[|base|] == '.';
    AfterLastOfJoined(base, '.', tail);
    assert tail == ext + ['?'] + query;
    BeforeFirstOfJoined(ext, '?', query);
  }

  /** The same for a URL with no query string. */
  lemma InferExtensionPlain(base: string, ext: string)
    requires '.' !in ext && '?' !in ext
    ensures InferExtension(base + "." + ext) ==
              if Lower(ext) in SupportedExtensions then "." + Lower(ext) else DefaultExtension
  {
    UrlExtensionPlain(base, ext);
  }

  lemma UrlExtensionPlain(base: string, ext: string)
    requires '.' !in ext && '?' !in ext
    ensures '.' in base + "." + ext
    ensures UrlExtension(base + "." + ext) == Lower(ext)
  {
    var url := base + "." + ext;
    assert url == base + ['.'] + ext;
    assert url[|base|] == '.';
    AfterLastOfJoined(base, '.', ext);
    BeforeFirstWithout(ext, '?');
  }

  // ----- choosing the save path ----------------------------------------------

  /** The `k`-th file name tried: `name.ext` first, then `name_k.ext`. */
  function Candidate(stem: string, k: nat, ext: string): string {
    if k == 0 then stem + ext else stem + "_" + Decimal(k) + ext
  }

  function SavePath(dir: string, stem: string, k: nat, ext: string): string {
    Join(dir, Candidate(stem, k, ext))
  }

  /** Different attempts name different files. */
  lemma CandidateInjective(stem: string, ext: string, i: nat, j: nat)
    requires Candidate(stem, i, ext) == Candidate(stem, j, ext)
    ensures i == j
  {
    if i != 0 && j != 0 {
      var c := Candidate(stem, i, ext);
      var n := |stem| + 1;
      assert |Decimal(i)| == |Decimal(j)|;
      assert c[n..n + |Decimal(i)|] == Decimal(i);
      assert Candidate(stem, j, ext)[n..n + |Decimal(j)|] == Decimal(j);
      DecimalInjective(i, j);
    }
  }

  /** Every candidate is relative, or every one is absolute, so joining them
      onto the folder keeps them apart. */
  lemma CandidateAbsoluteness(stem: string, ext: string, k: nat)
    requires IsExtension(ext)
    ensures IsAbsolute(Candidate(stem, k, ext)) == IsAbsolute(stem)
  {
    var c := Candidate(stem, k, ext);
    if stem != "" {
      assert c[..1] == stem[..1];
    } else {
      assert c[0] == '.' || c[0] == '_';
    }
  }

  lemma SavePathInjective(dir: string, stem: string, ext: string, i: nat, j: nat)
    requires IsExtension(ext)
    requires SavePath(dir, stem, i, ext) == SavePath(dir, stem, j, ext)
    ensures i == j
  {
    CandidateAbsoluteness(stem, ext, i);
    CandidateAbsoluteness(stem, ext, j);
    JoinCancel(dir, Candidate(stem, i, ext), Candidate(stem, j, ext));
    CandidateInjective(stem, ext, i, j);
  }

  lemma SavePathsDiffer(dir: string, stem: string, ext: string, i: nat, j: nat)
    requires IsExtension(ext) && i != j
    ensures SavePath(dir, stem, i, ext) != SavePath(dir, stem, j, ext)
  {
    if SavePath(dir, stem, i, ext) == SavePath(dir, stem, j, ext) {
      SavePathInjective(dir, stem, ext, i, j);
    }
  }

  /** A set holding `n` values of a one-to-one function has at least `n`
      elements. */
  lemma {:induction false} InjectiveBound(f: nat -> string, existing: set<string>, n: nat)
    requires forall i: nat, j: nat :: f(i) == f(j) ==> i == j
    requires forall k: nat :: k < n ==> f(k) in existing
    ensures n <= |existing|
  {
    if n > 0 {
      var rest := existing - {f(n - 1)};
      forall k: nat | k < n - 1 ensures f(k) in rest {
        assert f(k) != f(n - 1);
      }
      InjectiveBound(f, rest, n - 1);
    }
  }

  ghost predicate Injective(name: nat -> string) {
    forall i: nat, j: nat :: name(i) == name(j) ==> i == j
  }

  /** The paths the search tries, in order. */
  function Attempts(dir: string, stem: string, ext: string): (name: nat -> string)
    requires IsExtension(ext)
    ensures Injective(name)
    ensures forall k: nat :: name(k) == SavePath(dir, stem, k, ext)
  {
    var name := (k: nat) => SavePath(dir, stem, k, ext);
    forall i: nat, j: nat | name(i) == name(j) ensures i == j {
      SavePathInjective(dir, stem, ext, i, j);
    }
    name
  }

  /** The `while os.path.exists(...)` search over the attempts, from attempt
      `k` on. It stops because the attempts are all different and only
      finitely many paths exist. */
  function FirstFree(existing: set<string>, name: nat -> string, k: nat): (r: nat)
    requires Injective(name)
    requires forall j: nat :: j < k ==> name(j) in existing
    ensures k <= r
    ensures name(r) !in existing
    ensures forall j: nat :: j < r ==> name(j) in existing
    decreases |existing| - k
  {
    if name(k) !in existing then k
    else
      InjectiveBound(name, existing, k + 1);
      FirstFree(existing, name, k + 1)
  }

  /** The save path: the first attempt whose path does not exist yet. */
  function ChooseSavePath(existing: set<string>, dir: string, stem: string, ext: string): (r: string)
    requires IsExtension(ext)
    ensures r !in existing
    ensures exists k: nat :: r == SavePath(dir, stem, k, ext)
              && forall j :: 0 <= j < k ==> SavePath(dir, stem, j, ext) in existing
  {
    var name := Attempts(dir, stem, ext);
    var k := FirstFree(existing, name, 0);
    assert forall j :: 0 <= j < k ==> SavePath(dir, stem, j, ext) in existing by {
      forall j | 0 <= j < k ensures SavePath(dir, stem, j, ext) in existing {
        assert name(j) in existing;
      }
    }
    name(k)
  }

  /** `name.ext` when it is free. */
  lemma ChooseFreeName(existing: set<string>, dir: string, stem: string, ext: string)
    requires IsExtension(ext)
    requires Join(dir, stem + ext) !in existing
    ensures ChooseSavePath(existing, dir, stem, ext) == Join(dir, stem + ext)
  {
  }

  /** The chosen attempt is the least free one: any other attempt that is free
      comes later. */
  lemma ChooseLeast(existing: set<string>, dir: string, stem: string, ext: string, k: nat)
    requires IsExtension(ext)
    requires SavePath(dir, stem, k, ext) !in existing
    ensures exists m: nat :: m <= k && ChooseSavePath(existing, dir, stem, ext) == SavePath(dir, stem, m, ext)
  {
    var name := Attempts(dir, stem, ext);
    var r := FirstFree(existing, name, 0);
    assert name(k) !in existing;
    assert r <= k;
  }

  lemma SecondCandidate(stem: string, ext: string)
    ensures Candidate(stem, 1, ext) == stem + "_1" + ext
  {
    assert DigitChar(1) == '1';
    assert Decimal(1) == "1";
    assert stem + "_" + "1" + ext == stem + "_1" + ext;
  }

  /** When the first attempt is taken and the second is free, the second is chosen. */
  lemma ChooseSecond(existing: set<string>, dir: string, stem: string, ext: string)
    requires IsExtension(ext)
    requires SavePath(dir, stem, 0, ext) in existing && SavePath(dir, stem, 1, ext) !in existing
    ensures ChooseSavePath(existing, dir, stem, ext) == SavePath(dir, stem, 1, ext)
  {
    var name := Attempts(dir, stem, ext);
    assert name(0) in existing && name(1) !in existing;
    assert FirstFree(existing, name, 1) == 1;
    assert FirstFree(existing, name, 0) == 1;
  }

  /** Downloading twice under the same name into a folder that has neither
      file gives `name.ext` and then `name_1.ext`. */
  lemma TwoDownloads(existing: set<string>, dir: string, stem: string, ext: string)
    requires IsExtension(ext)
    requires Join(dir, stem + ext) !in existing && Join(dir, stem + "_1" + ext) !in existing
    ensures ChooseSavePath(existing, dir, stem, ext) == Join(dir, stem + ext)
    ensures ChooseSavePath(existing + {Join(dir, stem + ext)}, dir, stem, ext) == Join(dir, stem + "_1" + ext)
  {
    var first := SavePath(dir, stem, 0, ext);
    assert first == Join(dir, stem + ext);
    SecondCandidate(stem, ext);
    ChooseFreeName(existing, dir, stem, ext);
    SavePathsDiffer(dir, stem, ext, 1, 0);
    ChooseSecond(existing + {first}, dir, stem, ext);
  }

  // ----- validate_inputs -----------------------------------------------------

  /** The characters a saved file name may not contain. */
  const InvalidFilenameChars: string := "\\/:*?\"<>|"

  predicate HasInvalidChar(filename: string) {
    exists i :: 0 <= i < |filename| && filename[i] in InvalidFilenameChars
  }

  datatype Verdict = Accepted | Rejected(message: string)

  /** `validate_inputs`: `True`, or the first complaint. The file name is only
      looked at when the video is to be kept and a name was given. */
  function ValidateInputs(url: string, saveToInputFolder: bool, filename: string): (r: Verdict)
    ensures r.Accepted? <==>
              url != "" && HasHttpScheme(url) && !(saveToInputFolder && filename != "" && HasInvalidChar(filename))
    ensures url == "" ==> r == Rejected("Error: Video URL cannot be empty!")
    ensures url != "" && !HasHttpScheme(url) ==> r == Rejected("Error: URL must start with http:// or https://!")
    ensures r.Rejected? && url != "" && HasHttpScheme(url) ==>
              r.message == "Error: Filename cannot contain these characters: " + InvalidFilenameChars + "!"
  {
    if url == "" then Rejected("Error: Video URL cannot be empty!")
    else if !HasHttpScheme(url) then Rejected("Error: URL must start with http:// or https://!")
    else if saveToInputFolder && filename != "" && HasInvalidChar(filename) then
      Rejected("Error: Filename cannot contain these characters: " + InvalidFilenameChars + "!")
    else Accepted
  }

  // ----- execute -------------------------------------------------------------

  /** What the transfer did: refused before any body arrived (a connection
      error or an error status), broke off after the file was opened, or
      delivered the whole body. */
  datatype Download = RefusedBeforeBody(detail: string) | FailedMidStream(detail: string) | Delivered

  datatype VideoError = EmptyUrl | BadScheme(url: string) | LoadFailed(detail: string)

  /** The text of the `ValueError` or `RuntimeError` that escapes `execute`.
      The two input errors share the "Error: " prefix of `validate_inputs`; a
      failed transfer is wrapped with the node's name and the cause. */
  function VideoErrorMessage(e: VideoError): (m: string)
    ensures e.EmptyUrl? ==> m == "Error: Video URL cannot be empty!"
    ensures StartsWith(m, "Error: ") <==> !e.LoadFailed?
    ensures e.BadScheme? ==> EndsWith(m, "(got: " + e.url + ")")
    ensures e.LoadFailed? ==> StartsWith(m, "[LoadVideoFromURL] ") && EndsWith(m, e.detail)
  {
    match e
    case EmptyUrl =>
      "Error: Video URL cannot be empty!"
    case BadScheme(url) =>
      JoinedEnds("Error: ", "Invalid URL format! Must start with http:// or https:// ", "(got: " + url + ")");
      "Error: " + "Invalid URL format! Must start with http:// or https:// " + ("(got: " + url + ")")
    case LoadFailed(detail) =>
      var m := "[LoadVideoFromURL] " + "Failed to load video: " + detail;
      JoinedEnds("[LoadVideoFromURL] ", "Failed to load video: ", detail);
      DiffersAt(m, "Error: ", 0);
      m
  }

  /** The result of `execute`, with the paths that exist afterwards. */
  datatype Execution = Execution(outcome: Result<string, VideoError>, after: set<string>)

  /** `execute`. `existing` is the set of paths that exist, `inputDir` the
      input folder and `tempName` the name the system gives a temporary file
      before its suffix. A temporary file that broke off is deleted; a file in
      the input folder that broke off is left behind. */
  function Execute(url: string, saveToInputFolder: bool, filename: string, existing: set<string>,
                   inputDir: string, tempName: string, download: Download): (r: Execution)
    ensures url == "" ==> r == Execution(Failure(EmptyUrl), existing)
    ensures url != "" && !HasHttpScheme(url) ==> r == Execution(Failure(BadScheme(url)), existing)
    ensures r.outcome.Success? <==> url != "" && HasHttpScheme(url) && download.Delivered?
    ensures r.outcome.Success? && saveToInputFolder ==>
              r.outcome.value !in existing && r.after == existing + {r.outcome.value}
              && exists k: nat :: r.outcome.value == SavePath(inputDir, filename, k, InferExtension(url))
    ensures r.outcome.Success? && saveToInputFolder ==>
              r.outcome.value == ChooseSavePath(existing, inputDir, filename, InferExtension(url))
    ensures r.outcome.Success? && !saveToInputFolder ==>
              r.outcome.value == tempName + InferExtension(url) && r.after == existing + {r.outcome.value}
    ensures r.outcome.Success? ==> EndsWith(r.outcome.value, InferExtension(url))
    ensures download.RefusedBeforeBody? || !saveToInputFolder ==>
              r.after == existing || r.outcome.Success?
    ensures r.outcome.Failure? && url != "" && HasHttpScheme(url) ==>
              r.outcome.error.LoadFailed? && r.outcome.error.detail == download.detail
    ensures url != "" && HasHttpScheme(url) && saveToInputFolder && download.FailedMidStream? ==>
              r.after == existing + {TargetPath(url, true, filename, existing, inputDir, tempName)}
              && TargetPath(url, true, filename, existing, inputDir, tempName) !in existing
  {
    if url == "" then Execution(Failure(EmptyUrl), existing)
    else if !HasHttpScheme(url) then Execution(Failure(BadScheme(url)), existing)
    else
      var path := TargetPath(url, saveToInputFolder, filename, existing, inputDir, tempName);
      match download
      case RefusedBeforeBody(d) => Execution(Failure(LoadFailed(d)), existing)
      case Delivered => Execution(Success(path), existing + {path})
      case FailedMidStream(d) =>
        if saveToInputFolder then Execution(Failure(LoadFailed(d)), existing + {path})
        else Execution(Failure(LoadFailed(d)), existing)
  }

  /** Where the body is written: the first free name in the input folder, or
      the temporary file, both with the inferred extension. */
  function TargetPath(url: string, saveToInputFolder: bool, filename: string, existing: set<string>,
                      inputDir: string, tempName: string): (path: string)
    ensures EndsWith(path, InferExtension(url))
    ensures saveToInputFolder ==>
              path !in existing && exists k: nat :: path == SavePath(inputDir, filename, k, InferExtension(url))
    ensures saveToInputFolder ==> path == ChooseSavePath(existing, inputDir, filename, InferExtension(url))
  {
    var ext := InferExtension(url);
    if saveToInputFolder then
      var path := ChooseSavePath(existing, inputDir, filename, ext);
      var k: nat :| path == SavePath(inputDir, filename, k, ext);
      CandidateAbsoluteness(filename, ext, k);
      assert EndsWith(Candidate(filename, k, ext), ext);
      path
    else tempName + ext
  }

  /** A URL refused by the checks is refused before any request: the result
      depends neither on the transfer nor on where it would have been saved. */
  lemma RejectedBeforeRequest(url: string, save1: bool, save2: bool, name1: string, name2: string,
                              existing: set<string>, dir: string, temp1: string, temp2: string,
                              d1: Download, d2: Download)
    requires url == "" || !HasHttpScheme(url)
    ensures Execute(url, save1, name1, existing, dir, temp1, d1) == Execute(url, save2, name2, existing, dir, temp2, d2)
    ensures Execute(url, save1, name1, existing, dir, temp1, d1).after == existing
  {
  }

  /** `validate_inputs` and `execute` agree on the URL: one accepts it exactly
      when the other gets past its checks, and an empty URL gets the same
      message from both. */
  lemma ValidateAgreesWithExecute(url: string, save: bool, filename: string, existing: set<string>,
                                  dir: string, tempName: string, download: Download)
    ensures ValidateInputs(url, save, filename).Accepted? ==>
              var r := Execute(url, save, filename, existing, dir, tempName, download);
              r.outcome.Success? || r.outcome.error.LoadFailed?
    ensures var r := Execute(url, save, filename, existing, dir, tempName, download);
            r.outcome.Failure? && !r.outcome.error.LoadFailed? ==>
              ValidateInputs(url, save, filename).Rejected?
    ensures url == "" ==>
              ValidateInputs(url, save, filename).message ==
                VideoErrorMessage(Execute(url, save, filename, existing, dir, tempName, download).outcome.error)
  {
  }
}
