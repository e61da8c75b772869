/** The general loader node (`URLResourceLoader.load_from_url`): one request,
    then the response's content type and the URL decide whether the body is
    decoded as an image, as audio, or not at all. Every failure comes back as
    an `(image, audio, info)` triple with no image and no audio.

    Only shapes are modelled. The response is passed in: how the request
    ended and, for a response, what reading the body and the two decoders
    would give. */
module ResourceLoader {
  import opened Wrappers
  import opened Text

  // ----- choosing the branch -------------------------------------------------

  const AudioExtensions: seq<string> := [".mp3", ".wav", ".flac", ".ogg", ".m4a"]

  /** One of the audio extensions occurs anywhere in the lower-cased URL: this
      is a substring test, not a suffix test. */
  predicate MentionsAudioExtension(url: string) {
    exists i :: 0 <= i < |AudioExtensions| && Contains(Lower(url), AudioExtensions[i])
  }

  datatype Kind = ImageKind | AudioKind | Unsupported

  /** The branch taken. The content-type tests are case-sensitive; the URL
      test is not. */
  function KindOf(contentType: string, url: string): (k: Kind)
    ensures k == ImageKind <==> Contains(contentType, "image")
    ensures k == AudioKind <==>
              !Contains(contentType, "image") && (Contains(contentType, "audio") || MentionsAudioExtension(url))
  {
    if Contains(contentType, "image") then ImageKind
    else if Contains(contentType, "audio") || MentionsAudioExtension(url) then AudioKind
    else Unsupported
  }

  /** A URL that merely mentions `.mp3` anywhere, in any case, is read as
      audio when the content type says neither image nor audio. */
  lemma AudioByUrlAlone(contentType: string, before: string, after: string)
    requires !Contains(contentType, "image")
    ensures KindOf(contentType, before + ".MP3" + after) == AudioKind
  {
    var url := before + ".MP3" + after;
    LowerAppend(before + ".MP3", after);
    LowerAppend(before, ".MP3");
    assert Lower(".MP3") == ".mp3";
    assert Lower(url) == Lower(before) + ".mp3" + Lower(after);
    ContainsJoined(Lower(before), ".mp3", Lower(after));
    assert Contains(Lower(url), AudioExtensions[0]);
  }

  // ----- the response ----------------------------------------------------------

  datatype ImageDecoding = Picture(width: nat, height: nat) | ImageRaised(detail: string)

  /** What `soundfile.read` returns: one channel as a 1-D array, several as a
      2-D array of frames by channels. */
  datatype SoundData = Mono(frames: nat, rate: nat) | MultiChannel(frames: nat, channels: nat, rate: nat)

  datatype SoundDecoding = Sound(data: SoundData) | SoundRaised(detail: string)

  /** What the body would give: an error while reading it, or else what each
      decoder makes of it. */
  datatype Body = Body(readError: Option<string>, image: ImageDecoding, sound: SoundDecoding)

  datatype Response =
    | TimedOut                                          // the request timed out
    | RequestFailed(detail: string)                     // any other request error, an error status included
    | Received(contentType: Option<string>, body: Body)

  // ----- the result -----------------------------------------------------------

  datatype AudioValue =
    | AudioDict(waveform: seq<nat>, sampleRate: nat, duration: real)
    | AudioPair(waveform: seq<nat>, sampleRate: nat)

  datatype Info =
    | ImageLoaded(url: string, width: nat, height: nat)
    | AudioLoaded(url: string, sampleRate: nat, frames: nat, format: string)
    | UnsupportedType(contentType: string)
    | TimeoutInfo(timeout: nat, url: string)
    | NetworkError(detail: string, url: string)
    | ProcessingError(detail: string, url: string)

  predicate IsFailureInfo(i: Info) {
    i.TimeoutInfo? || i.NetworkError? || i.ProcessingError?
  }

  /** The first line of the info text: a mark and what happened. */
  function Headline(i: Info): string {
    match i
    case ImageLoaded(_, _, _) => "✅ 图片加载成功"
    case AudioLoaded(_, _, _, _) => "✅ 音频加载成功"
    case UnsupportedType(_) => "❌ 不支持的文件类型"
    case TimeoutInfo(_, _) => "❌ 请求超时"
    case NetworkError(_, _) => "❌ 网络请求错误"
    case ProcessingError(_, _) => "❌ 资源处理失败"
  }

  /** A failure's info text: the headline, one line of detail and the address. */
  function FailureText(headline: string, detail: string, url: string): (t: string)
    ensures StartsWith(t, headline + "\n") && EndsWith(t, "\n地址：" + url)
  {
    JoinedEnds(headline + "\n", detail, "\n地址：" + url);
    headline + "\n" + detail + ("\n地址：" + url)
  }

  /** The info text. The audio one is left out: it prints the duration with
      two decimals. Each text opens with its headline, and a failure's text
      closes with the address. */
  function InfoText(i: Info): (t: string)
    requires !i.AudioLoaded?
    ensures StartsWith(t, Headline(i) + "\n")
    ensures IsFailureInfo(i) ==> EndsWith(t, "\n地址：" + i.url)
  {
    match i
    case ImageLoaded(url, w, h) =>
      var rest := "地址：" + url + "\n尺寸：(" + Decimal(w) + ", " + Decimal(h) + ") (宽x高)";
      JoinedEnds(Headline(i) + "\n", rest, "");
      Headline(i) + "\n" + rest
    case UnsupportedType(ct) =>
      var rest := "Content-Type：" + ct + "\n请确认URL指向图片或音频文件";
      JoinedEnds(Headline(i) + "\n", rest, "");
      Headline(i) + "\n" + rest
    case TimeoutInfo(t, url) => FailureText(Headline(i), "超时时间：" + Decimal(t) + "秒", url)
    case NetworkError(d, url) => FailureText(Headline(i), "错误信息：" + d, url)
    case ProcessingError(d, url) => FailureText(Headline(i), "错误信息：" + d, url)
  }

  /** The info text tells what happened: two infos with the same text have
      the same headline. */
  lemma InfoTextTellsKind(a: Info, b: Info)
    requires !a.AudioLoaded? && !b.AudioLoaded?
    requires InfoText(a) == InfoText(b)
    ensures Headline(a) == Headline(b)
  {
    var t := InfoText(a);
    PrefixesAgree(t, Headline(a) + "\n", Headline(b) + "\n", 0);
    PrefixesAgree(t, Headline(a) + "\n", Headline(b) + "\n", 2);
  }

  /** The triple: the image tensor's shape, the audio value and the info. */
  datatype Loaded = Loaded(image: Option<seq<nat>>, audio: Option<AudioValue>, info: Info)

  // ----- the branches ----------------------------------------------------------

  /** The image branch: a `[1, 3, H, W]` tensor, channels first. */
  function LoadImage(url: string, body: Body): (r: Loaded)
    ensures r.audio.None?
    ensures r.image.Some? <==> body.readError.None? && body.image.Picture?
    ensures r.image.Some? ==>
              r.image.value == [1, 3, body.image.height, body.image.width]
              && r.info == ImageLoaded(url, body.image.width, body.image.height)
    ensures r.image.None? ==> IsFailureInfo(r.info)
    ensures body.readError.Some? ==> r.info == NetworkError(body.readError.value, url)
    ensures body.readError.None? && body.image.ImageRaised? ==> r.info == ProcessingError(body.image.detail, url)
  {
    if body.readError.Some? then Loaded(None, None, NetworkError(body.readError.value, url))
    else match body.image
      case ImageRaised(d) => Loaded(None, None, ProcessingError(d, url))
      case Picture(w, h) => Loaded(Some([1, 3, h, w]), None, ImageLoaded(url, w, h))
  }

  /** The audio branch: several channels are averaged into one, so the
      waveform is always `[1, T]`. A rate of 0 fails on the duration's division
      whichever output format was asked for, since the info text divides too. */
  function LoadAudio(url: string, format: string, body: Body): (r: Loaded)
    ensures r.image.None?
    ensures r.audio.Some? <==> body.readError.None? && body.sound.Sound? && body.sound.data.rate > 0
    ensures r.audio.Some? ==>
              var data := body.sound.data;
              && r.audio.value.waveform == [1, data.frames]
              && r.audio.value.sampleRate == data.rate
              && (format == "dict" <==> r.audio.value.AudioDict?)
              && (r.audio.value.AudioDict? ==> r.audio.value.duration * (data.rate as real) == data.frames as real)
              && r.info == AudioLoaded(url, data.rate, data.frames, format)
    ensures r.audio.None? ==> IsFailureInfo(r.info)
    ensures body.readError.Some? ==> r.info == NetworkError(body.readError.value, url)
    ensures body.readError.None? && body.sound.SoundRaised? ==> r.info == ProcessingError(body.sound.detail, url)
    ensures body.readError.None? && body.sound.Sound? && body.sound.data.rate == 0 ==>
              r.info == ProcessingError("division by zero", url)
  {
    if body.readError.Some? then Loaded(None, None, NetworkError(body.readError.value, url))
    else match body.sound
      case SoundRaised(d) => Loaded(None, None, ProcessingError(d, url))
      case Sound(data) =>
        if data.rate == 0 then Loaded(None, None, ProcessingError("division by zero", url))
        else
          var waveform := [1, data.frames];
          var duration := data.frames as real / data.rate as real;
          var value := if format == "dict" then AudioDict(waveform, data.rate, duration)
                       else AudioPair(waveform, data.rate);
          Loaded(None, Some(value), AudioLoaded(url, data.rate, data.frames, format))
  }

  /** `load_from_url`. `timeout` is the request timeout in seconds. */
  function LoadFromUrl(url: string, timeout: nat, format: string, response: Response): (r: Loaded)
    ensures !(r.image.Some? && r.audio.Some?)
    ensures r.image.Some? <==> r.info.ImageLoaded?
    ensures r.audio.Some? <==> r.info.AudioLoaded?
    ensures response.TimedOut? ==> r == Loaded(None, None, TimeoutInfo(timeout, url))
    ensures response.RequestFailed? ==> r == Loaded(None, None, NetworkError(response.detail, url))
    ensures response.Received? ==>
              var kind := KindOf(response.contentType.GetOr(""), url);
              && (kind == ImageKind ==> r == LoadImage(url, response.body))
              && (kind == AudioKind ==> r == LoadAudio(url, format, response.body))
              && (kind == Unsupported ==> r == Loaded(None, None, UnsupportedType(response.contentType.GetOr(""))))
  {
    match response
    case TimedOut => Loaded(None, None, TimeoutInfo(timeout, url))
    case RequestFailed(d) => Loaded(None, None, NetworkError(d, url))
    case Received(ct, body) =>
      var contentType := ct.GetOr("");
      match KindOf(contentType, url)
      case ImageKind => LoadImage(url, body)
      case AudioKind => LoadAudio(url, format, body)
      case Unsupported => Loaded(None, None, UnsupportedType(contentType))
  }

  /** `load_from_url` called without `audio_output_format`, which defaults to
      "dict": audio always comes back as the dict. */
  function LoadFromUrlByDefault(url: string, timeout: nat, response: Response): (r: Loaded)
    ensures r == LoadFromUrl(url, timeout, "dict", response)
    ensures r.audio.Some? ==> r.audio.value.AudioDict?
  {
    LoadFromUrl(url, timeout, "dict", response)
  }

  /** An image content type wins over every sign of audio: no audio comes out,
      whatever the URL and the body. */
  lemma ImageTakesPriority(url: string, timeout: nat, format: string, ct: string, body: Body)
    requires Contains(ct, "image")
    ensures var r := LoadFromUrl(url, timeout, format, Received(Some(ct), body));
            r.audio.None? && !r.info.UnsupportedType? && !r.info.AudioLoaded?
  {
  }

  /** When the branch is unsupported the body is never read: the result does
      not depend on it. */
  lemma UnsupportedIgnoresBody(url: string, timeout: nat, format: string, ct: Option<string>, b1: Body, b2: Body)
    requires KindOf(ct.GetOr(""), url) == Unsupported
    ensures LoadFromUrl(url, timeout, format, Received(ct, b1)) == LoadFromUrl(url, timeout, format, Received(ct, b2))
    ensures LoadFromUrl(url, timeout, format, Received(ct, b1)).info == UnsupportedType(ct.GetOr(""))
  {
  }

  /** No exception escapes: every failure is a triple with neither output and
      a failure info; the only other output-less triple is the unsupported one. */
  lemma FailuresAreTriples(url: string, timeout: nat, format: string, response: Response)
    ensures var r := LoadFromUrl(url, timeout, format, response);
            r.image.None? && r.audio.None? ==> IsFailureInfo(r.info) || r.info.UnsupportedType?
  {
  }

  /** A multi-channel file gives the same waveform shape as a mono file of the
      same length and rate. */
  lemma DownmixShape(url: string, format: string, frames: nat, channels: nat, rate: nat, readError: Option<string>,
                     image: ImageDecoding)
    ensures LoadAudio(url, format, Body(readError, image, Sound(MultiChannel(frames, channels, rate)))) ==
            LoadAudio(url, format, Body(readError, image, Sound(Mono(frames, rate))))
  {
  }
}
