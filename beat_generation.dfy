/** The audio side of the beat generation flow
    (src/ai/flows/beat-generation.ts): the WAV writer's format, the collection
    of the writer's output into one base64 string, the extraction of the
    base64 payload from the model's data URI, and the flow's two guards. */
module BeatGeneration {
  import opened Js
  import Base64

  type byte = Base64.byte

  /** The options given to `new wav.Writer(...)`. */
  datatype WavFormat = WavFormat(channels: int, sampleRate: int, bitDepth: int)

  /** What the writer stream emits: a chunk of its output, a failure, or the
      end of the stream. */
  datatype WriterEvent = Data(chunk: seq<byte>) | Error(reason: Thrown) | End

  /** `wav.Writer` itself is not part of this model: given the format and the
      PCM bytes written to it (followed by `end()`), it yields some finite
      sequence of events. */
  type Writer = (WavFormat, seq<byte>) -> seq<WriterEvent>

  const DefaultChannels := 1
  const DefaultRate := 24000
  const DefaultSampleWidth := 2

  /** The writer format for `toWav(pcm, channels, rate, sampleWidth)`. */
  function FormatOf(channels: int, rate: int, sampleWidth: int): (f: WavFormat)
  {
    WavFormat(channels, rate, sampleWidth * 8)
  }

  /** The format carries its arguments back out: channel count and sample
      rate unchanged, and the sample width as the bit depth in whole bytes. */
  lemma FormatOfInverse(channels: int, rate: int, sampleWidth: int)
    ensures var f := FormatOf(channels, rate, sampleWidth);
      f.channels == channels && f.sampleRate == rate &&
      f.bitDepth % 8 == 0 && f.bitDepth / 8 == sampleWidth
  {
  }

  /** Distinct arguments give distinct writer formats. */
  lemma FormatOfInjective(c1: int, r1: int, w1: int, c2: int, r2: int, w2: int)
    requires FormatOf(c1, r1, w1) == FormatOf(c2, r2, w2)
    ensures c1 == c2 && r1 == r2 && w1 == w2
  {
  }

  /** With the default arguments the writer gets mono, 24000 Hz, 16-bit. */
  lemma DefaultFormat()
    ensures FormatOf(DefaultChannels, DefaultRate, DefaultSampleWidth) == WavFormat(1, 24000, 16)
  {
  }

  /** `Buffer.concat`: the chunks joined in order. */
  function Concat(chunks: seq<seq<byte>>): (r: seq<byte>)
    decreases |chunks|
  {
    if chunks == [] then [] else Concat(chunks[..|chunks| - 1]) + chunks[|chunks| - 1]
  }

  lemma {:induction false} ConcatAppend(a: seq<seq<byte>>, b: seq<seq<byte>>)
    ensures Concat(a + b) == Concat(a) + Concat(b)
    decreases |b|
  {
    if b == [] {
      assert a + b == a;
    } else {
      var last := b[|b| - 1];
      assert (a + b)[..|a + b| - 1] == a + b[..|b| - 1];
      ConcatAppend(a, b[..|b| - 1]);
    }
  }

  /** The reference meaning of a writer stream: the bytes it delivers before
      its end, read front to back; a failure before the end rejects; a stream
      that stops without either never settles. */
  function Delivered(events: seq<WriterEvent>): (r: Settled<seq<byte>>)
    decreases |events|
  {
    if events == [] then Pending
    else match events[0]
      case End => Fulfilled([])
      case Error(e) => Rejected(e)
      case Data(d) =>
        match Delivered(events[1..])
        case Fulfilled(rest) => Fulfilled(d + rest)
        case other => other
  }

  function DataEvents(chunks: seq<seq<byte>>): (r: seq<WriterEvent>)
    ensures |r| == |chunks|
    ensures forall i :: 0 <= i < |r| ==> r[i] == Data(chunks[i])
  {
    seq(|chunks|, i requires 0 <= i < |chunks| => Data(chunks[i]))
  }

  /** Every chunk emitted before `end` is delivered, in emission order, and
      nothing after `end` matters. */
  lemma {:induction false} DeliveredAtEnd(chunks: seq<seq<byte>>, tail: seq<WriterEvent>)
    ensures Delivered(DataEvents(chunks) + [End] + tail) == Fulfilled(Concat(chunks))
    decreases |chunks|
  {
    DeliveredFront(chunks, [End] + tail);
    assert (DataEvents(chunks) + [End] + tail) == DataEvents(chunks) + ([End] + tail);
    assert Delivered([End] + tail) == Fulfilled([]);
    assert Concat(chunks) + [] == Concat(chunks);
  }

  /** An `error` event before `end` rejects with the writer's error, whatever
      data came before it. */
  lemma {:induction false} DeliveredAtError(chunks: seq<seq<byte>>, e: Thrown, tail: seq<WriterEvent>)
    ensures Delivered(DataEvents(chunks) + [Error(e)] + tail) == Rejected(e)
  {
    DeliveredFront(chunks, [Error(e)] + tail);
    assert (DataEvents(chunks) + [Error(e)] + tail) == DataEvents(chunks) + ([Error(e)] + tail);
  }

  /** A stream with neither `error` nor `end` never produces a value. */
  lemma {:induction false} DeliveredWithoutEnd(chunks: seq<seq<byte>>)
    ensures Delivered(DataEvents(chunks)) == Pending
  {
    DeliveredFront(chunks, []);
    assert DataEvents(chunks) + [] == DataEvents(chunks);
  }

  /** Data events in front of a stream prepend their bytes to what it
      delivers. */
  lemma {:induction false} DeliveredFront(chunks: seq<seq<byte>>, rest: seq<WriterEvent>)
    ensures Delivered(DataEvents(chunks) + rest) == Resume(chunks, Delivered(rest))
    decreases |chunks|
  {
    if chunks == [] {
      assert DataEvents(chunks) + rest == rest;
      ResumeNothing(Delivered(rest));
    } else {
      var s := DataEvents(chunks) + rest;
      assert s[0] == Data(chunks[0]);
      assert s[1..] == DataEvents(chunks[1..]) + rest;
      DeliveredData(s);
      DeliveredFront(chunks[1..], rest);
      ResumeNested(chunks[0], chunks[1..], Delivered(rest));
      assert [chunks[0]] + chunks[1..] == chunks;
    }
  }

  lemma DeliveredData(s: seq<WriterEvent>)
    requires s != [] && s[0].Data?
    ensures Delivered(s) == Resume([s[0].chunk], Delivered(s[1..]))
  {
    assert Concat([s[0].chunk]) == s[0].chunk by {
      assert [s[0].chunk][..0] == [];
    }
  }

  lemma ResumeNothing(x: Settled<seq<byte>>)
    ensures Resume([], x) == x
  {
    if x.Fulfilled? {
      assert Concat([]) + x.value == x.value;
    }
  }

  lemma ResumeNested(d: seq<byte>, bufs: seq<seq<byte>>, x: Settled<seq<byte>>)
    ensures Resume([d], Resume(bufs, x)) == Resume([d] + bufs, x)
  {
    ConcatAppend([d], bufs);
    if x.Fulfilled? {
      assert Concat([d]) + (Concat(bufs) + x.value) == (Concat([d]) + Concat(bufs)) + x.value;
    }
  }

  /** The bytes delivered to `events[i..]` once `bufs` holds the chunks seen
      so far. */
  function Resume(bufs: seq<seq<byte>>, rest: Settled<seq<byte>>): Settled<seq<byte>>
  {
    match rest
    case Fulfilled(b) => Fulfilled(Concat(bufs) + b)
    case other => other
  }

  /** A data event moves its chunk from the stream onto `bufs`. */
  lemma ResumeData(bufs: seq<seq<byte>>, events: seq<WriterEvent>)
    requires events != [] && events[0].Data?
    ensures Resume(bufs, Delivered(events)) == Resume(bufs + [events[0].chunk], Delivered(events[1..]))
  {
    var d := events[0].chunk;
    assert (bufs + [d])[..|bufs|] == bufs;
    assert Concat(bufs + [d]) == Concat(bufs) + d;
    var rest := Delivered(events[1..]);
    if rest.Fulfilled? {
      assert Concat(bufs + [d]) + rest.value == Concat(bufs) + (d + rest.value);
    }
  }

  function EncodeOutcome(d: Settled<seq<byte>>): Settled<string>
  {
    match d
    case Fulfilled(b) => Fulfilled(Base64.Encode(b))
    case Pending => Pending
    case Rejected(e) => Rejected(e)
  }

  /** `toWav`: listen to the writer's `data`, `error` and `end` events,
      pushing every data chunk onto `bufs`; the first `error` rejects, the
      first `end` resolves with the base64 of all chunks joined. */
  method ToWav(pcm: seq<byte>, channels: int, rate: int, sampleWidth: int, writer: Writer)
    returns (r: Settled<string>)
    ensures r == EncodeOutcome(Delivered(writer(FormatOf(channels, rate, sampleWidth), pcm)))
    ensures r.Fulfilled? ==> Base64.Decode(r.value) == Some(Delivered(writer(FormatOf(channels, rate, sampleWidth), pcm)).value)
  {
    var events := writer(FormatOf(channels, rate, sampleWidth), pcm);
    var bufs: seq<seq<byte>> := [];
    r := Pending;
    var i := 0;
    var settled := false;
    assert events[0..] == events;
    assert forall b: seq<byte> :: Concat([]) + b == b;
    while i < |events| && !settled
      invariant 0 <= i <= |events|
      invariant !settled ==> Delivered(events) == Resume(bufs, Delivered(events[i..]))
      invariant settled ==> r == EncodeOutcome(Delivered(events))
      invariant !settled ==> r == Pending
    {
      assert events[i..][1..] == events[i + 1..];
      match events[i] {
        case Data(d) =>
          ResumeData(bufs, events[i..]);
          bufs := bufs + [d];
        case Error(e) =>
          r := Rejected(e);
          settled := true;
        case End =>
          r := Fulfilled(Base64.Encode(Concat(bufs)));
          settled := true;
          assert Concat(bufs) + [] == Concat(bufs);
      }
      i := i + 1;
    }
    if r.Fulfilled? {
      Base64.DecodeEncode(Delivered(events).value);
    }
  }

  /** `s.indexOf(c)`: the first position of `c`, or -1. */
  function IndexOf(s: string, c: char): (k: int)
    ensures -1 <= k < |s|
    ensures k == -1 <==> c !in s
    ensures k >= 0 ==> s[k] == c && c !in s[..k]
    decreases |s|
  {
    if s == [] then -1
    else if s[0] == c then 0
    else
      var k := IndexOf(s[1..], c);
      assert k >= 0 ==> s[..k + 1] == [s[0]] + s[1..][..k];
      if k == -1 then -1 else k + 1
  }

  /** The base64 part of the model's data URI:
      `url.substring(url.indexOf(',') + 1)`. */
  function Payload(url: string): (p: string)
    ensures ',' !in url ==> p == url
    ensures ',' in url ==> exists k :: 0 <= k < |url| && url[k] == ',' && ',' !in url[..k] && p == url[k + 1..]
  {
    var k := IndexOf(url, ',');
    url[k + 1..]
  }

  /** Whatever MIME header precedes the first comma is dropped, and the rest,
      commas included, is kept. */
  lemma PayloadOfDataUri(header: string, body: string)
    requires ',' !in header
    ensures Payload(header + "," + body) == body
  {
    var url := header + "," + body;
    assert url[|header|] == ',';
    assert url[..|header|] == header;
    assert url[|header| + 1..] == body;
  }

  const NoPatternMessage := "Failed to generate a beatbox pattern."
  const NoAudioMessage := "No beat audio was returned from the AI model."
  const WavDataUriPrefix := "data:audio/wav;base64,"

  datatype BeatInput = BeatInput(genre: string, topic: Option<string>)
  /** The part of the speech model's answer the flow reads. */
  datatype Media = Media(url: string)
  datatype BeatOutput = BeatOutput(beatAudioDataUri: string)

  /** The generative calls and Node's base64 decoder are not modelled: the
      text of `beatboxPrompt(input)`, the `media` of `ai.generate` for a given
      prompt, and `Buffer.from(s, 'base64')`. */
  type BeatboxPrompt = BeatInput -> Settled<string>
  type SpeechModel = string -> Settled<Option<Media>>
  type Base64Decoder = string -> seq<byte>

  /** The flow's answer once `toWav` has settled. */
  function AsWavDataUri(wav: Settled<string>): (r: Settled<BeatOutput>)
  {
    match wav
    case Fulfilled(w) => Fulfilled(BeatOutput(WavDataUriPrefix + w))
    case Pending => Pending
    case Rejected(e) => Rejected(e)
  }

  /** `generateBeatFlow`. `spoken` records the prompt given to the speech
      model, `None` when it is never called. */
  method GenerateBeatFlow(input: BeatInput, beatbox: BeatboxPrompt, speech: SpeechModel,
                          decode: Base64Decoder, writer: Writer)
    returns (r: Settled<BeatOutput>, ghost spoken: Option<string>)
    ensures spoken.Some? <==> beatbox(input).Fulfilled? && beatbox(input).value != ""
    ensures spoken.Some? ==> spoken.value == beatbox(input).value
    ensures beatbox(input).Pending? ==> r.Pending?
    ensures beatbox(input).Rejected? ==> r == Rejected(beatbox(input).reason)
    ensures beatbox(input) == Fulfilled("") ==> r == Fail(NoPatternMessage)
    ensures spoken.Some? ==> match speech(spoken.value)
      case Pending => r.Pending?
      case Rejected(e) => r == Rejected(e)
      case Fulfilled(None) => r == Fail(NoAudioMessage)
      case Fulfilled(Some(m)) =>
        var events := writer(FormatOf(DefaultChannels, DefaultRate, DefaultSampleWidth), decode(Payload(m.url)));
        r == AsWavDataUri(EncodeOutcome(Delivered(events)))
    ensures r.Fulfilled? ==> var uri := r.value.beatAudioDataUri;
      |WavDataUriPrefix| <= |uri| && uri[..|WavDataUriPrefix|] == WavDataUriPrefix &&
      Base64.Decode(uri[|WavDataUriPrefix|..]).Some?
  {
    spoken := None;
    var pattern := beatbox(input);
    match pattern {
      case Pending => r := Pending;
      case Rejected(e) => r := Rejected(e);
      case Fulfilled(text) =>
        if text == "" {
          r := Fail(NoPatternMessage);
        } else {
          spoken := Some(text);
          match speech(text) {
            case Pending => r := Pending;
            case Rejected(e) => r := Rejected(e);
            case Fulfilled(media) =>
              if media.None? {
                r := Fail(NoAudioMessage);
              } else {
                var audio := decode(Payload(media.value.url));
                var wav := ToWav(audio, DefaultChannels, DefaultRate, DefaultSampleWidth, writer);
                r := AsWavDataUri(wav);
                if wav.Fulfilled? {
                  assert (WavDataUriPrefix + wav.value)[|WavDataUriPrefix|..] == wav.value;
                }
              }
          }
        }
    }
  }
}
