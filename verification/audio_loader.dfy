/** The audio node (`LoadAudioFromURL`): rejects a blank URL, fetches the
    stripped URL with up to two retries one second apart, decodes the body,
    resamples to 16000 Hz and brings the waveform into `[C, T]` layout.

    Only shapes and rates are modelled. Each request attempt is an outcome
    passed in (per URL and attempt number), decoding is an outcome per URL and
    format hint, and resampling is a function giving the new number of frames. */
module AudioLoader {
  import opened Wrappers
  import opened Text

  const MaxRetries: nat := 2

  const TargetSampleRate: nat := 16000

  // ----- the retry loop ------------------------------------------------------

  /** The kinds of request failure the node tells apart. */
  datatype RequestFailure =
    | Timeout
    | HttpStatus(code: nat)
    | ConnectionFailed
    | OtherRequest(detail: string)

  /** One request attempt: a response (and what reading its streamed body
      raised, if anything), or the request error it raised. */
  datatype Attempt = Responded(readError: Option<RequestFailure>) | Raised(failure: RequestFailure)

  /** What the loop does, in order: an attempt, or a one-second sleep. */
  datatype Step = Try(attempt: nat) | Pause

  /** The loop's result (the attempt that got a response, or the error it
      re-raises) and its steps. */
  datatype Fetch = Fetch(outcome: Result<nat, RequestFailure>, steps: seq<Step>)

  /** Attempts `k`, `k + 1`, ... with exactly one pause between two attempts
      and none before the first or after the last. */
  ghost predicate Alternates(steps: seq<Step>, k: nat)
    decreases |steps|
  {
    && |steps| >= 1 && steps[0] == Try(k)
    && (|steps| == 1 || (|steps| >= 3 && steps[1] == Pause && Alternates(steps[2..], k + 1)))
  }

  function AttemptCount(steps: seq<Step>): nat {
    (|steps| + 1) / 2
  }

  /** The `for retry in range(max_retries + 1)` loop from attempt `k` on. */
  function RetryFrom(transport: (string, nat) -> Attempt, url: string, k: nat): (r: Fetch)
    requires k <= MaxRetries
    ensures Alternates(r.steps, k)
    ensures k + AttemptCount(r.steps) <= MaxRetries + 1
    ensures forall j :: k <= j < k + AttemptCount(r.steps) - 1 ==> transport(url, j).Raised?
    ensures r.outcome.Success? ==>
              r.outcome.value == k + AttemptCount(r.steps) - 1 && transport(url, r.outcome.value).Responded?
    ensures r.outcome.Failure? ==>
              k + AttemptCount(r.steps) == MaxRetries + 1 && transport(url, MaxRetries) == Raised(r.outcome.error)
    decreases MaxRetries - k
  {
    match transport(url, k)
    case Responded(_) => Fetch(Success(k), [Try(k)])
    case Raised(failure) =>
      if k == MaxRetries then Fetch(Failure(failure), [Try(k)])
      else
        var rest := RetryFrom(transport, url, k + 1);
        var steps := [Try(k), Pause] + rest.steps;
        assert steps[2..] == rest.steps;
        Fetch(rest.outcome, steps)
  }

  function Retry(transport: (string, nat) -> Attempt, url: string): Fetch {
    RetryFrom(transport, url, 0)
  }

  /** At most `max_retries + 1 = 3` attempts, and the loop stops at the first
      response: every attempt before the last one failed. */
  lemma AtMostThreeAttempts(transport: (string, nat) -> Attempt, url: string)
    ensures var r := Retry(transport, url);
            1 <= AttemptCount(r.steps) <= 3
            && forall j :: 0 <= j < AttemptCount(r.steps) - 1 ==> transport(url, j).Raised?
  {
  }

  /** A response on any of the three attempts is found, and it is the first one. */
  lemma {:induction false} FirstResponseWins(transport: (string, nat) -> Attempt, url: string, j: nat)
    requires j <= MaxRetries && transport(url, j).Responded?
    requires forall i :: 0 <= i < j ==> transport(url, i).Raised?
    ensures Retry(transport, url).outcome == Success(j)
  {
  }

  /** Three failures: the third one's error is the one raised, after exactly
      two pauses. */
  lemma AllAttemptsFail(transport: (string, nat) -> Attempt, url: string)
    requires forall i :: 0 <= i <= MaxRetries ==> transport(url, i).Raised?
    ensures Retry(transport, url) ==
              Fetch(Failure(transport(url, 2).failure), [Try(0), Pause, Try(1), Pause, Try(2)])
  {
    assert transport(url, 0).Raised? && transport(url, 1).Raised? && transport(url, 2).Raised?;
  }

  // ----- error mapping -------------------------------------------------------

  datatype AudioError =
    | EmptyUrl
    | TimedOut(url: string)
    | BadStatus(code: nat, url: string)
    | CannotConnect(url: string)
    | NotAudio(url: string, detail: string)
    | ReadConflict(url: string, detail: string)
    | LoadFailed(detail: string, url: string)

  /** The text of the `ValueError` or `RuntimeError` that escapes. Every
      message after the blank-URL one names the URL, and the three catch-all
      ones carry the original error text. */
  function AudioErrorMessage(e: AudioError): (m: string)
    ensures e != EmptyUrl ==> Contains(m, e.url)
    ensures e.NotAudio? || e.ReadConflict? || e.LoadFailed? ==> Contains(m, e.detail)
    ensures e.BadStatus? ==> Contains(m, Decimal(e.code))
  {
    match e
    case EmptyUrl => "音频URL不能为空，请填写有效的音频文件地址"
    case TimedOut(url) =>
      ContainsJoined("加载音频超时：URL=", url, "（超时时间60秒）");
      "加载音频超时：URL=" + url + "（超时时间60秒）"
    case BadStatus(code, url) =>
      ContainsBoth("URL返回错误状态码：", Decimal(code), "，URL=", url);
      "URL返回错误状态码：" + Decimal(code) + "，URL=" + url
    case CannotConnect(url) =>
      ContainsJoined("无法连接到音频服务器：URL=", url, "");
      "无法连接到音频服务器：URL=" + url
    case NotAudio(url, detail) =>
      ContainsBoth("URL不是有效的音频文件：", url, "，错误信息：", detail);
      "URL不是有效的音频文件：" + url + "，错误信息：" + detail
    case ReadConflict(url, detail) =>
      ContainsBoth("音频数据读取失败（命名冲突）：", url, "，错误信息：", detail);
      "音频数据读取失败（命名冲突）：" + url + "，错误信息：" + detail
    case LoadFailed(detail, url) =>
      ContainsBoth("从URL加载音频失败：", detail, "，URL=", url);
      "从URL加载音频失败：" + detail + "，URL=" + url
  }

  /** The catch-all handler: the error text decides between "not an audio
      file" (it mentions metadata or audio, in any case), "read failure" (it
      mentions `BytesIO`, case-sensitively) and a plain failure. */
  function ClassifyOther(url: string, detail: string): (e: AudioError)
    ensures e.NotAudio? <==> Contains(Lower(detail), "metadata") || Contains(Lower(detail), "audio")
    ensures e.ReadConflict? <==> !e.NotAudio? && Contains(detail, "BytesIO")
    ensures e.NotAudio? || e.ReadConflict? || e.LoadFailed?
    ensures e.url == url && e.detail == detail
  {
    if Contains(Lower(detail), "metadata") || Contains(Lower(detail), "audio") then NotAudio(url, detail)
    else if Contains(detail, "BytesIO") then ReadConflict(url, detail)
    else LoadFailed(detail, url)
  }

  /** The handlers for a request that failed for good, tried in the source's order. */
  function MapRequestFailure(url: string, f: RequestFailure): (e: AudioError)
    ensures f.Timeout? <==> e.TimedOut?
    ensures f.HttpStatus? <==> e.BadStatus?
    ensures f.ConnectionFailed? <==> e.CannotConnect?
    ensures f.HttpStatus? ==> e.code == f.code
    ensures f.OtherRequest? ==> e == ClassifyOther(url, f.detail)
    ensures e != EmptyUrl && e.url == url
  {
    match f
    case Timeout => TimedOut(url)
    case HttpStatus(code) => BadStatus(code, url)
    case ConnectionFailed => CannotConnect(url)
    case OtherRequest(detail) => ClassifyOther(url, detail)
  }

  // ----- decoding ------------------------------------------------------------

  datatype FormatHint = WavFormat | Autodetect

  /** `format="wav"` exactly when the lower-cased URL ends in `.wav`. */
  function FormatHintOf(url: string): FormatHint {
    if EndsWith(Lower(url), ".wav") then WavFormat else Autodetect
  }

  /** `.wav`, `.WAV`, `.Wav`, ... at the end of the URL all ask for WAV. */
  lemma WavSuffixAnyCase(base: string, ext: string)
    requires Lower(ext) == ".wav"
    ensures FormatHintOf(base + ext) == WavFormat
  {
    LowerAppend(base, ext);
    assert Lower(base + ext)[|base|..] == Lower(ext);
  }

  /** A decoded body: the waveform's shape and its sample rate. */
  datatype Decoding = Decoded(shape: seq<nat>, sampleRate: nat) | DecodeRaised(detail: string)

  /** What reading the body of the response the loop ended with raised: the
      request is streamed, so `response.content` is read after the loop and
      can still raise a request error, which is not retried. */
  function ReadError(transport: (string, nat) -> Attempt, url: string): Option<RequestFailure> {
    var fetch := Retry(transport, url);
    if fetch.outcome.Success? then transport(url, fetch.outcome.value).readError else None
  }

  /** `_load_audio_from_url`: the retry loop, then reading and decoding the body. */
  function LoadFromUrl(url: string, transport: (string, nat) -> Attempt,
                       decode: (string, FormatHint) -> Decoding): (r: Result<Decoding, AudioError>)
    ensures r.Success? ==> r.value.Decoded? && r.value == decode(url, FormatHintOf(url))
    ensures r.Success? <==>
              Retry(transport, url).outcome.Success? && ReadError(transport, url).None?
              && decode(url, FormatHintOf(url)).Decoded?
    ensures Retry(transport, url).outcome.Failure? ==>
              r == Failure(MapRequestFailure(url, Retry(transport, url).outcome.error))
    ensures ReadError(transport, url).Some? ==> r == Failure(MapRequestFailure(url, ReadError(transport, url).value))
    ensures Retry(transport, url).outcome.Success? && ReadError(transport, url).None?
            && decode(url, FormatHintOf(url)).DecodeRaised? ==>
              r == Failure(ClassifyOther(url, decode(url, FormatHintOf(url)).detail))
  {
    match Retry(transport, url).outcome
    case Failure(f) => Failure(MapRequestFailure(url, f))
    case Success(k) =>
      if transport(url, k).readError.Some? then Failure(MapRequestFailure(url, transport(url, k).readError.value))
      else match decode(url, FormatHintOf(url))
      case DecodeRaised(detail) => Failure(ClassifyOther(url, detail))
      case Decoded(shape, rate) => Success(Decoded(shape, rate))
  }

  // ----- shapes --------------------------------------------------------------

  /** Resampling works along the last axis: only the number of frames changes. */
  function Resampled(shape: seq<nat>, frames: nat): (r: seq<nat>)
    ensures |r| == |shape|
    ensures |shape| > 0 ==> r[..|r| - 1] == shape[..|shape| - 1] && r[|r| - 1] == frames
  {
    if shape == [] then shape else shape[..|shape| - 1] + [frames]
  }

  /** `[T]` becomes `[1, T]`; `[B, C, T]` loses its first axis when `B` is 1
      (`squeeze(0)` leaves any other size alone); everything else is kept. */
  function NormalizeLayout(shape: seq<nat>): (r: seq<nat>)
    ensures |shape| == 1 ==> r == [1, shape[0]]
    ensures |shape| == 2 ==> r == shape
    ensures |shape| == 3 && shape[0] == 1 ==> r == shape[1..]
    ensures |shape| == 3 && shape[0] != 1 ==> r == shape
    ensures |shape| != 1 && |shape| != 3 ==> r == shape
  {
    if |shape| == 1 then [1] + shape
    else if |shape| == 3 && shape[0] == 1 then shape[1..]
    else shape
  }

  /** The number of elements of a tensor of this shape. */
  function Elements(shape: seq<nat>): nat {
    if shape == [] then 1 else shape[0] * Elements(shape[1..])
  }

  /** Normalising only adds or removes an axis of size 1: the element count
      and the last axis stay, and ranks 1, 2 and `[1, C, T]` all end up 2-D. */
  lemma NormalizeLayoutKeepsData(shape: seq<nat>)
    ensures Elements(NormalizeLayout(shape)) == Elements(shape)
    ensures |shape| > 0 ==> NormalizeLayout(shape)[|NormalizeLayout(shape)| - 1] == shape[|shape| - 1]
    ensures (|shape| == 1 || |shape| == 2 || (|shape| == 3 && shape[0] == 1)) ==> |NormalizeLayout(shape)| == 2
  {
    if |shape| == 1 {
      assert ([1] + shape)[1..] == shape;
    }
  }

  /** Normalising twice is normalising once, for the shapes the node is
      meant for. */
  lemma NormalizeLayoutIdempotent(shape: seq<nat>)
    ensures NormalizeLayout(NormalizeLayout(shape)) == NormalizeLayout(shape)
  {
  }

  // ----- the node ------------------------------------------------------------

  /** The node's output: the waveform's shape and the sample rate. */
  datatype Audio = Audio(shape: seq<nat>, sampleRate: nat)

  /** `load_audio`. `resample(frames, rate)` is the number of frames a
      waveform of `frames` frames at `rate` Hz has at 16000 Hz. */
  function LoadAudio(url: string, transport: (string, nat) -> Attempt,
                     decode: (string, FormatHint) -> Decoding, resample: (nat, nat) -> nat): (r: Result<Audio, AudioError>)
    ensures Strip(url) == "" <==> r == Failure(EmptyUrl)
    ensures r.Success? ==> r.value.sampleRate == TargetSampleRate
    ensures Strip(url) != "" ==>
              match LoadFromUrl(Strip(url), transport, decode)
              case Failure(e) => r == Failure(e)
              case Success(d) =>
                r.Success? &&
                r.value.shape == NormalizeLayout(if d.sampleRate == TargetSampleRate then d.shape
                                                 else Resampled(d.shape, resample(Last(d.shape), d.sampleRate)))
  {
    if Strip(url) == "" then Failure(EmptyUrl)
    else
      var decoded :- LoadFromUrl(Strip(url), transport, decode);
      var shape := if decoded.sampleRate == TargetSampleRate then decoded.shape
                   else Resampled(decoded.shape, resample(Last(decoded.shape), decoded.sampleRate));
      Success(Audio(NormalizeLayout(shape), TargetSampleRate))
  }

  /** The last axis's size, or 0 for a shape with no axes. */
  function Last(shape: seq<nat>): nat {
    if shape == [] then 0 else shape[|shape| - 1]
  }

  /** An empty or whitespace-only URL is refused before any request, whatever
      the network would have answered. */
  lemma BlankUrlRefused(url: string, transport: (string, nat) -> Attempt,
                        decode: (string, FormatHint) -> Decoding, resample: (nat, nat) -> nat)
    requires IsBlank(url)
    ensures LoadAudio(url, transport, decode, resample) == Failure(EmptyUrl)
  {
    StripEmptyIffBlank(url);
  }

  /** Surrounding whitespace makes no difference: the stripped URL is what is
      fetched. */
  lemma SurroundingSpaceIgnored(url: string, transport: (string, nat) -> Attempt,
                                decode: (string, FormatHint) -> Decoding, resample: (nat, nat) -> nat)
    ensures LoadAudio(url, transport, decode, resample) == LoadAudio(Strip(url), transport, decode, resample)
  {
    StripIdempotent(url);
    var u := Strip(url);
    assert Strip(u) == u;
    if u != "" {
      var fetched := LoadFromUrl(u, transport, decode);
      if fetched.Success? {
        assert LoadAudio(url, transport, decode, resample).value == LoadAudio(u, transport, decode, resample).value;
      }
    }
  }

  /** Only the stripped URL is asked of the network: two networks that answer
      it alike give the same result. */
  lemma OnlyStrippedUrlFetched(url: string, t1: (string, nat) -> Attempt, t2: (string, nat) -> Attempt,
                               decode: (string, FormatHint) -> Decoding, resample: (nat, nat) -> nat)
    requires forall i: nat :: t1(Strip(url), i) == t2(Strip(url), i)
    ensures LoadAudio(url, t1, decode, resample) == LoadAudio(url, t2, decode, resample)
  {
    if Strip(url) != "" {
      SameAnswersSameFetch(t1, t2, Strip(url), 0);
    }
  }

  lemma {:induction false} SameAnswersSameFetch(t1: (string, nat) -> Attempt, t2: (string, nat) -> Attempt,
                                                url: string, k: nat)
    requires k <= MaxRetries
    requires forall i: nat :: t1(url, i) == t2(url, i)
    ensures RetryFrom(t1, url, k) == RetryFrom(t2, url, k)
    decreases MaxRetries - k
  {
    assert t1(url, k) == t2(url, k);
    if t1(url, k).Raised? && k < MaxRetries {
      SameAnswersSameFetch(t1, t2, url, k + 1);
      var rest := RetryFrom(t1, url, k + 1);
      assert RetryFrom(t1, url, k) == Fetch(rest.outcome, [Try(k), Pause] + rest.steps);
      assert RetryFrom(t2, url, k) == Fetch(rest.outcome, [Try(k), Pause] + rest.steps);
    }
  }

  /** A body already at 16000 Hz is not resampled: its shape is only normalised. */
  lemma NoResampleAtTargetRate(url: string, transport: (string, nat) -> Attempt,
                               decode: (string, FormatHint) -> Decoding, resample: (nat, nat) -> nat,
                               shape: seq<nat>)
    requires Strip(url) != "" && Retry(transport, Strip(url)).outcome.Success?
    requires ReadError(transport, Strip(url)).None?
    requires decode(Strip(url), FormatHintOf(Strip(url))) == Decoded(shape, TargetSampleRate)
    ensures LoadAudio(url, transport, decode, resample) == Success(Audio(NormalizeLayout(shape), TargetSampleRate))
  {
  }

  /** A connection error while reading the body of the first response is
      reported as "cannot connect" after one attempt: it is not retried. */
  lemma BodyReadFailureNotRetried(transport: (string, nat) -> Attempt, url: string,
                                  decode: (string, FormatHint) -> Decoding)
    requires transport(url, 0) == Responded(Some(ConnectionFailed))
    ensures Retry(transport, url) == Fetch(Success(0), [Try(0)])
    ensures LoadFromUrl(url, transport, decode) == Failure(CannotConnect(url))
  {
  }
}
