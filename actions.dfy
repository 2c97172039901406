/** The server actions of src/app/actions.ts: the section-header stripping
    that `handleGenerateAcapella` applies before text-to-speech, the removal
    of an empty `spotifyUrl` in `handleGenerateLyrics`, and how each handler
    turns results and thrown values into its answer object. */
module Actions {
  import opened Js

  // ---------------------------------------------------------------------
  // The replacement `lyrics.replace(/\[.*?\]\n?/g, '')`, as a scanner.

  /** The characters a regular-expression `.` does not match (no `s` flag):
      the four line terminators of ECMAScript. */
  predicate IsLineTerminator(c: char)
  {
    c == '\n' || c == '\r' || c == '\U{2028}' || c == '\U{2029}'
  }

  /** Matching the lazy `.*?\]` against `u`: the position of the first `]`
      in `u`, provided no line terminator comes before it. */
  function CloseAt(u: string): (r: Option<nat>)
    ensures r.Some? ==> r.value < |u| && u[r.value] == ']'
    ensures r.Some? ==> forall i :: 0 <= i < r.value ==> u[i] != ']' && !IsLineTerminator(u[i])
    decreases |u|
  {
    if u == [] then None
    else if u[0] == ']' then Some(0)
    else if IsLineTerminator(u[0]) then None
    else
      var r := CloseAt(u[1..]);
      assert forall j :: 1 <= j < |u| ==> u[j] == u[1..][j - 1];
      if r.Some? then Some(r.value + 1) else None
  }

  /** Removes every match of `\[.*?\]\n?`, scanning left to right: at a `[`
      that has a closing `]` before the next line terminator, the span up to
      that `]` and at most one `\n` after it are dropped and the scan resumes
      after them; any other character is kept. */
  function StripHeaders(s: string): (r: string)
    decreases |s|
  {
    if s == [] then []
    else if s[0] == '[' && CloseAt(s[1..]).Some? then
      var after := s[CloseAt(s[1..]).value + 2..];
      if after != [] && after[0] == '\n' then StripHeaders(after[1..]) else StripHeaders(after)
    else [s[0]] + StripHeaders(s[1..])
  }

  /** Text without a header span left in it: no `[` is followed by a `]`
      before the next line terminator. */
  ghost predicate NoHeader(t: string)
  {
    forall i :: 0 <= i < |t| && t[i] == '[' ==> CloseAt(t[i + 1..]).None?
  }

  lemma NoHeaderCons(c: char, t: string)
    ensures NoHeader([c] + t) <==> (c == '[' ==> CloseAt(t).None?) && NoHeader(t)
  {
    var u := [c] + t;
    assert u[1..] == t;
    assert forall i :: 0 <= i < |t| ==> u[i + 1] == t[i] && u[i + 2..] == t[i + 1..];
    if NoHeader(t) && (c == '[' ==> CloseAt(t).None?) {
      forall i | 0 <= i < |u| && u[i] == '['
        ensures CloseAt(u[i + 1..]).None?
      {
        if i > 0 {
          assert t[i - 1] == '[';
        }
      }
    }
    if NoHeader(u) {
      assert u[0] == c;
      forall i | 0 <= i < |t| && t[i] == '['
        ensures CloseAt(t[i + 1..]).None?
      {
        assert u[i + 1] == '[';
      }
    }
  }

  /** A text with no `]` before its first line terminator keeps that
      property when stripped. */
  lemma {:induction false} StripKeepsOpen(u: string)
    requires CloseAt(u).None?
    ensures CloseAt(StripHeaders(u)).None?
    decreases |u|
  {
    if u != [] {
      assert u[0] != ']';
      if !IsLineTerminator(u[0]) {
        assert CloseAt(u[1..]).None?;
        StripKeepsOpen(u[1..]);
        var r := StripHeaders(u);
        assert r == [u[0]] + StripHeaders(u[1..]);
        assert r[1..] == StripHeaders(u[1..]);
      } else {
        var r := StripHeaders(u);
        assert r == [u[0]] + StripHeaders(u[1..]);
      }
    }
  }

  /** Stripping leaves no header span behind. */
  lemma {:induction false} StripLeavesNoHeader(s: string)
    ensures NoHeader(StripHeaders(s))
    decreases |s|
  {
    if s == [] {
    } else if s[0] == '[' && CloseAt(s[1..]).Some? {
      var after := s[CloseAt(s[1..]).value + 2..];
      if after != [] && after[0] == '\n' {
        StripLeavesNoHeader(after[1..]);
      } else {
        StripLeavesNoHeader(after);
      }
    } else {
      StripLeavesNoHeader(s[1..]);
      if s[0] == '[' {
        StripKeepsOpen(s[1..]);
      }
      NoHeaderCons(s[0], StripHeaders(s[1..]));
    }
  }

  /** Text with no header span is left as it is. */
  lemma {:induction false} StripWithoutHeader(t: string)
    requires NoHeader(t)
    ensures StripHeaders(t) == t
    decreases |t|
  {
    if t != [] {
      NoHeaderCons(t[0], t[1..]);
      assert [t[0]] + t[1..] == t;
      StripWithoutHeader(t[1..]);
    }
  }

  /** Stripping is idempotent, and its fixed points are exactly the texts
      without a header span. */
  lemma StripIdempotent(s: string)
    ensures StripHeaders(StripHeaders(s)) == StripHeaders(s)
    ensures StripHeaders(s) == s <==> NoHeader(s)
  {
    StripLeavesNoHeader(s);
    StripWithoutHeader(StripHeaders(s));
    if NoHeader(s) {
      StripWithoutHeader(s);
    }
  }

  /** Lyrics with no `[` are passed on unchanged. */
  lemma StripWithoutBracket(s: string)
    requires '[' !in s
    ensures StripHeaders(s) == s
  {
    StripWithoutHeader(s);
  }

  /** `a` is `b` with some characters deleted, the rest kept in order. */
  predicate IsSubsequence(a: string, b: string)
    decreases |b|
  {
    a == [] || (b != [] && ((a[0] == b[0] && IsSubsequence(a[1..], b[1..])) || IsSubsequence(a, b[1..])))
  }

  lemma {:induction false} SubsequenceOfSuffix(a: string, b: string, k: nat)
    requires k <= |b| && IsSubsequence(a, b[k..])
    ensures IsSubsequence(a, b)
    decreases k
  {
    if k > 0 {
      assert b[k - 1..][1..] == b[k..];
      SubsequenceOfSuffix(a, b, k - 1);
    }
  }

  /** What stripping keeps is kept in its original order. */
  lemma {:induction false} StripIsSubsequence(s: string)
    ensures IsSubsequence(StripHeaders(s), s)
    decreases |s|
  {
    if s == [] {
    } else if s[0] == '[' && CloseAt(s[1..]).Some? {
      var k := CloseAt(s[1..]).value + 2;
      var after := s[k..];
      if after != [] && after[0] == '\n' {
        StripIsSubsequence(after[1..]);
        assert s[k + 1..] == after[1..];
        SubsequenceOfSuffix(StripHeaders(s), s, k + 1);
      } else {
        StripIsSubsequence(after);
        SubsequenceOfSuffix(StripHeaders(s), s, k);
      }
    } else {
      StripIsSubsequence(s[1..]);
      var r := StripHeaders(s);
      assert r[0] == s[0] && r[1..] == StripHeaders(s[1..]);
    }
  }

  /** A closed header with at most one `\n` after it disappears, and the scan
      goes on with what follows. */
  lemma StripHeaderSpan(inner: string, rest: string)
    requires forall i :: 0 <= i < |inner| ==> inner[i] != ']' && !IsLineTerminator(inner[i])
    ensures StripHeaders("[" + inner + "]" + rest) ==
      if rest != [] && rest[0] == '\n' then StripHeaders(rest[1..]) else StripHeaders(rest)
  {
    var close := "]" + rest;
    var s := "[" + (inner + close);
    SplitHeaderSpan(inner, rest);
    CloseAtSkips(inner, close);
    AfterHeaderSpan(inner, rest);
    StripAtHeader(s);
  }

  lemma SplitHeaderSpan(inner: string, rest: string)
    ensures "[" + inner + "]" + rest == "[" + (inner + ("]" + rest))
    ensures ("[" + (inner + ("]" + rest)))[1..] == inner + ("]" + rest)
    ensures ("[" + (inner + ("]" + rest)))[0] == '['
  {
  }

  lemma AfterHeaderSpan(inner: string, rest: string)
    ensures ("[" + (inner + ("]" + rest)))[|inner| + 2..] == rest
  {
    var s := "[" + (inner + ("]" + rest));
    assert |s| == |inner| + 2 + |rest|;
    assert forall i :: 0 <= i < |rest| ==> s[|inner| + 2 + i] == rest[i];
  }

  /** One step of the scan at a closed header. */
  lemma StripAtHeader(s: string)
    requires s != [] && s[0] == '[' && CloseAt(s[1..]).Some?
    ensures var after := s[CloseAt(s[1..]).value + 2..];
      StripHeaders(s) == if after != [] && after[0] == '\n' then StripHeaders(after[1..]) else StripHeaders(after)
  {
  }

  lemma {:induction false} CloseAtSkips(inner: string, rest: string)
    requires forall i :: 0 <= i < |inner| ==> inner[i] != ']' && !IsLineTerminator(inner[i])
    requires rest != [] && rest[0] == ']'
    ensures CloseAt(inner + rest) == Some(|inner|)
    decreases |inner|
  {
    if inner != [] {
      assert (inner + rest)[1..] == inner[1..] + rest;
      CloseAtSkips(inner[1..], rest);
    }
  }

  /** A `[` with no `]` before the next line terminator is kept, and the scan
      goes on right after it. */
  lemma StripUnclosed(u: string)
    requires CloseAt(u).None?
    ensures StripHeaders("[" + u) == "[" + StripHeaders(u)
  {
    var s := "[" + u;
    assert s[0] == '[' && s[1..] == u;
  }

  /** Text without `[` in front of the rest passes through as it is. */
  lemma {:induction false} StripPlainPrefix(a: string, b: string)
    requires '[' !in a
    ensures StripHeaders(a + b) == a + StripHeaders(b)
    decreases |a|
  {
    if a == [] {
      assert a + b == b;
    } else {
      var s := a + b;
      assert s[0] == a[0] && s[0] != '[' && s[1..] == a[1..] + b;
      assert StripHeaders(s) == [s[0]] + StripHeaders(s[1..]);
      StripPlainPrefix(a[1..], b);
      assert a == [a[0]] + a[1..];
    }
  }

  /** A song of two sections, each under its own header line, loses both
      header lines and nothing else. */
  lemma StripTwoSections(h1: string, verse: string, h2: string, chorus: string)
    requires forall i :: 0 <= i < |h1| ==> h1[i] != ']' && !IsLineTerminator(h1[i])
    requires forall i :: 0 <= i < |h2| ==> h2[i] != ']' && !IsLineTerminator(h2[i])
    requires '[' !in verse && '[' !in chorus
    ensures StripHeaders(HeaderLine(h1) + verse + "\n" + HeaderLine(h2) + chorus) == verse + "\n" + chorus
  {
    var body := verse + "\n";
    assert '[' !in body by {
      assert forall i :: 0 <= i < |verse| ==> body[i] == verse[i];
    }
    var second := HeaderLine(h2) + chorus;
    calc {
      StripHeaders(HeaderLine(h1) + verse + "\n" + HeaderLine(h2) + chorus);
      { Regroup(HeaderLine(h1), verse, "\n", HeaderLine(h2), chorus); }
      StripHeaders(HeaderLine(h1) + (body + second));
      { StripHeaderLine(h1, body + second); }
      StripHeaders(body + second);
      { StripPlainPrefix(body, second); }
      body + StripHeaders(second);
      { StripHeaderLine(h2, chorus); StripWithoutBracket(chorus); }
      body + chorus;
    }
  }

  lemma Regroup(a: string, b: string, c: string, d: string, e: string)
    ensures a + b + c + d + e == a + ((b + c) + (d + e))
  {
  }

  /** A header on a line of its own. */
  function HeaderLine(h: string): string
  {
    "[" + h + "]\n"
  }

  lemma StripHeaderLine(h: string, rest: string)
    requires forall i :: 0 <= i < |h| ==> h[i] != ']' && !IsLineTerminator(h[i])
    ensures StripHeaders(HeaderLine(h) + rest) == StripHeaders(rest)
  {
    var tail := "\n" + rest;
    StripHeaderSpan(h, tail);
    assert tail[0] == '\n' && tail[1..] == rest;
    assert HeaderLine(h) + rest == "[" + h + "]" + tail;
  }

  // ---------------------------------------------------------------------
  // Error messages.

  const UnknownError := "An unknown error occurred."
  const LyricsErrorPrefix := "An error occurred while generating lyrics: "
  const AcapellaErrorPrefix := "An error occurred while generating the acapella: "
  const AlbumArtErrorPrefix := "An error occurred while generating album art: "
  const EmptyLyricsError := "Failed to generate lyrics. The result was empty."

  /** `e instanceof Error ? e.message : 'An unknown error occurred.'` */
  function ErrorDetail(e: Thrown): string
  {
    match e
    case ErrorObject(message) => message
    case NonError => UnknownError
  }

  /** The handler's prefix followed by the detail of what was thrown; both
      halves can be read back from the message. */
  function Describe(prefix: string, e: Thrown): (m: string)
    ensures |prefix| <= |m| && m[..|prefix|] == prefix && m[|prefix|..] == ErrorDetail(e)
  {
    prefix + ErrorDetail(e)
  }

  /** The three handlers' messages never coincide, so a message tells which
      handler failed. */
  lemma HandlerMessagesDiffer(e1: Thrown, e2: Thrown, e3: Thrown)
    ensures Describe(LyricsErrorPrefix, e1) != Describe(AcapellaErrorPrefix, e2)
    ensures Describe(LyricsErrorPrefix, e1) != Describe(AlbumArtErrorPrefix, e3)
    ensures Describe(AcapellaErrorPrefix, e2) != Describe(AlbumArtErrorPrefix, e3)
  {
    var m1, m2, m3 := Describe(LyricsErrorPrefix, e1), Describe(AcapellaErrorPrefix, e2), Describe(AlbumArtErrorPrefix, e3);
    assert m1[35] == LyricsErrorPrefix[35] == 'l';
    assert m2[35] == AcapellaErrorPrefix[35] == 't';
    assert m3[35] == AlbumArtErrorPrefix[35] == 'a';
  }

  // ---------------------------------------------------------------------
  // handleGenerateLyrics

  /** A property value of a plain JavaScript object. */
  datatype JsValue = Undefined | Str(s: string)

  /** The lyrics request as an object: property name to value; a name that
      is not in the map is a property the object does not have. */
  type JsObject = map<string, JsValue>

  const SpotifyUrlKey := "spotifyUrl"

  /** The part of `generateLyrics`' answer the handler reads; each property
      may be missing. */
  datatype LyricsOutput = LyricsOutput(lyrics: Option<string>, genre: Option<string>, analysis: Option<string>)

  datatype LyricGenerationResult = LyricGenerationResult(
    lyrics: Option<string>, genre: Option<string>, analysis: Option<string>, error: Option<string>)

  /** `{ error: message }` */
  function LyricsError(message: string): LyricGenerationResult
  {
    LyricGenerationResult(None, None, None, Some(message))
  }

  /** `generateLyrics` is not modelled: it answers some outcome per request. */
  type LyricsModel = JsObject -> Settled<LyricsOutput>

  /** `const inputData = { ...data }` followed by the conditional
      `delete inputData.spotifyUrl`. */
  method WithoutEmptySpotifyUrl(data: JsObject) returns (inputData: JsObject)
    ensures SpotifyUrlKey !in inputData <==>
      SpotifyUrlKey !in data || data[SpotifyUrlKey] == Undefined || data[SpotifyUrlKey] == Str("")
    ensures SpotifyUrlKey in inputData ==> inputData == data
    ensures forall k :: k != SpotifyUrlKey ==> (k in inputData <==> k in data)
    ensures forall k :: k in inputData ==> inputData[k] == data[k]
  {
    inputData := data;
    var url := if SpotifyUrlKey in inputData then inputData[SpotifyUrlKey] else Undefined;
    if url == Str("") || url == Undefined {
      inputData := inputData - {SpotifyUrlKey};
    }
  }

  /** `handleGenerateLyrics`. It never rejects: every failure of the model
      becomes an `error` message. */
  method HandleGenerateLyrics(data: JsObject, generateLyrics: LyricsModel)
    returns (r: Settled<LyricGenerationResult>, ghost request: JsObject)
    ensures SpotifyUrlKey in request <==> SpotifyUrlKey in data && data[SpotifyUrlKey] != Undefined && data[SpotifyUrlKey] != Str("")
    ensures forall k :: k in request <==> k in data && (k != SpotifyUrlKey || SpotifyUrlKey in request)
    ensures forall k :: k in request ==> request[k] == data[k]
    ensures !r.Rejected?
    ensures generateLyrics(request).Pending? <==> r.Pending?
    ensures generateLyrics(request).Rejected? ==>
      r == Fulfilled(LyricsError(Describe(LyricsErrorPrefix, generateLyrics(request).reason)))
    ensures generateLyrics(request).Fulfilled? ==> var out := generateLyrics(request).value;
      r == Fulfilled(if Truthy(out.lyrics) then LyricGenerationResult(out.lyrics, out.genre, out.analysis, None)
                     else LyricsError(EmptyLyricsError))
  {
    var inputData := WithoutEmptySpotifyUrl(data);
    request := inputData;
    match generateLyrics(inputData) {
      case Pending =>
        r := Pending;
      case Rejected(e) =>
        r := Fulfilled(LyricsError(Describe(LyricsErrorPrefix, e)));
      case Fulfilled(lyricResult) =>
        if !Truthy(lyricResult.lyrics) {
          r := Fulfilled(LyricsError(EmptyLyricsError));
        } else {
          r := Fulfilled(LyricGenerationResult(lyricResult.lyrics, lyricResult.genre, lyricResult.analysis, None));
        }
    }
  }

  // ---------------------------------------------------------------------
  // handleGenerateAcapella

  datatype GenerateAudioInput = GenerateAudioInput(lyrics: string, voice: string)
  datatype GenerateAudioOutput = GenerateAudioOutput(audioDataUri: Option<string>)
  datatype AcapellaGenerationResult = AcapellaGenerationResult(audioDataUri: Option<string>, error: Option<string>)

  /** `generateAudio` (the text-to-speech flow) is not modelled. */
  type SpeechFlow = GenerateAudioInput -> Settled<GenerateAudioOutput>

  /** What `handleGenerateAcapella` sends to text-to-speech. */
  function SpeechRequest(data: GenerateAudioInput): GenerateAudioInput
  {
    GenerateAudioInput(StripHeaders(data.lyrics), data.voice)
  }

  /** The request keeps the voice, keeps the lyrics' remaining characters in
      order with no header span left, and is the caller's own input exactly
      when the lyrics hold no header span (in particular when they hold no
      `[`). */
  lemma SpeechRequestFaithful(data: GenerateAudioInput)
    ensures SpeechRequest(data).voice == data.voice
    ensures NoHeader(SpeechRequest(data).lyrics) && IsSubsequence(SpeechRequest(data).lyrics, data.lyrics)
    ensures '[' !in data.lyrics ==> SpeechRequest(data) == data
    ensures NoHeader(data.lyrics) <==> SpeechRequest(data) == data
  {
    StripLeavesNoHeader(data.lyrics);
    StripIsSubsequence(data.lyrics);
    StripIdempotent(data.lyrics);
    if '[' !in data.lyrics {
      StripWithoutBracket(data.lyrics);
    }
  }

  /** `handleGenerateAcapella`: it never rejects. */
  function HandleGenerateAcapella(data: GenerateAudioInput, generateAudio: SpeechFlow): (r: Settled<AcapellaGenerationResult>)
    ensures !r.Rejected?
    ensures r.Pending? <==> generateAudio(SpeechRequest(data)).Pending?
    ensures r.Fulfilled? ==> (r.value.error.Some? <==> generateAudio(SpeechRequest(data)).Rejected?)
    ensures r.Fulfilled? && r.value.error.Some? ==>
      r.value.audioDataUri.None? && r.value.error == Some(Describe(AcapellaErrorPrefix, generateAudio(SpeechRequest(data)).reason))
    ensures r.Fulfilled? && r.value.error.None? ==> r.value.audioDataUri == generateAudio(SpeechRequest(data)).value.audioDataUri
  {
    match generateAudio(SpeechRequest(data))
    case Pending => Pending
    case Rejected(e) => Fulfilled(AcapellaGenerationResult(None, Some(Describe(AcapellaErrorPrefix, e))))
    case Fulfilled(audioResult) => Fulfilled(AcapellaGenerationResult(audioResult.audioDataUri, None))
  }

  // ---------------------------------------------------------------------
  // handleGenerateAlbumArt

  datatype GenerateAlbumArtInput = GenerateAlbumArtInput(imageDataUri: string, prompt: string)
  datatype GenerateAlbumArtOutput = GenerateAlbumArtOutput(albumArtDataUri: string)
  datatype AlbumArtGenerationResult = AlbumArtGenerationResult(albumArtDataUri: Option<string>, error: Option<string>)

  /** `generateAlbumArt` is not modelled. */
  type AlbumArtFlow = GenerateAlbumArtInput -> Settled<GenerateAlbumArtOutput>

  /** `handleGenerateAlbumArt`: it never rejects, and exactly one of the two
      properties of its answer is present. */
  function HandleGenerateAlbumArt(data: GenerateAlbumArtInput, generateAlbumArt: AlbumArtFlow): (r: Settled<AlbumArtGenerationResult>)
    ensures !r.Rejected?
    ensures r.Pending? <==> generateAlbumArt(data).Pending?
    ensures r.Fulfilled? ==> (r.value.albumArtDataUri.Some? != r.value.error.Some?)
    ensures r.Fulfilled? && r.value.albumArtDataUri.Some? ==>
      generateAlbumArt(data) == Fulfilled(GenerateAlbumArtOutput(r.value.albumArtDataUri.value))
    ensures r.Fulfilled? && r.value.error.Some? ==>
      generateAlbumArt(data).Rejected? && r.value.error.value == Describe(AlbumArtErrorPrefix, generateAlbumArt(data).reason)
  {
    match generateAlbumArt(data)
    case Pending => Pending
    case Rejected(e) => Fulfilled(AlbumArtGenerationResult(None, Some(Describe(AlbumArtErrorPrefix, e))))
    case Fulfilled(result) => Fulfilled(AlbumArtGenerationResult(Some(result.albumArtDataUri), None))
  }
}
