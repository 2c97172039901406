# LyricAI core, modelled in Dafny

LyricAI is a web front end that generates song lyrics, an a-cappella
reading of them, a beat and album art through generative-AI services. The
logic of its own that is worth verifying is small and sequential, and this
project models it:

- **Beat audio packaging** (`BeatGeneration`, `Base64`): the WAV writer's
  format derived from `toWav`'s arguments, the collection of the writer's
  `data` chunks into one buffer that is base64-encoded at `end`, rejection on
  `error`, the extraction of the base64 payload after the first comma of the
  speech model's data URI, the `data:audio/wav;base64,` prefix, and the
  flow's two error guards. Base64 is canonical RFC 4648, section 4
  encoding, with a strict decoder that is its exact inverse.
- **Server actions** (`Actions`): the removal of section headers with the
  regular expression `/\[.*?\]\n?/g` as a hand-written scanner, the removal
  of an empty `spotifyUrl` from the lyrics request, and how the three
  handlers turn results and thrown values into answer objects.
- **Lyric display** (`LyricDisplay`): `formatLyrics`, which splits at `\n`
  and renders each piece as a header, a break or a text line, with
  ECMAScript's `trim`; and the table of voices.
- **Mock Spotify lookup** (`Spotify`): the ordered, case-insensitive
  keyword test that always answers one of three records.
- **Album-art upload** (`AlbumArt`): a class whose fields `uploadedImage`
  and `uploadError` change through the 4 MiB size guard and the file
  reader's callbacks; the generate click and the button's enabled rule; the
  controls a Pro and a non-Pro user see.
- **Lyric form** (`LyricForm`): the two minimum-length rules and the
  submit-disabled rule.

`Js` holds the JavaScript notions shared by all of them: optional values,
thrown values (an `Error` with a message, or anything else), how an awaited
call ends (pending, fulfilled, rejected), and string truthiness.

Every call into code that is not modelled is a parameter of the operation
that makes it: `beatboxPrompt`, the speech model behind `ai.generate`,
Node's `Buffer.from(s, 'base64')`, the `wav.Writer` stream (a function from
format and PCM bytes to the finite sequence of events it emits),
`generateLyrics`, `generateAudio` and `generateAlbumArt`.

Strings are sequences of Unicode scalar values. Where JavaScript's UTF-16
`length` matters (the form's minimum length), it is counted explicitly.

## Model

| member | source | states |
|---|---|---|
| `Base64.Encode` | src/ai/flows/beat-generation.ts:68 | `toString('base64')`: four symbols per started group of three bytes |
| `Base64.ValueOf` | src/ai/flows/beat-generation.ts:68 | a symbol's 6-bit value is the inverse of the RFC 4648 alphabet table; pad and other characters have none |
| `Base64.DecodeEncode` | src/ai/flows/beat-generation.ts:68 | strict decoding of the encoding gives back the exact bytes |
| `Base64.EncodeDecode` | src/ai/flows/beat-generation.ts:68 | any string that decodes is the canonical encoding of what it decodes to |
| `BeatGeneration.FormatOfInverse` | src/ai/flows/beat-generation.ts:56-60 | `FormatOf` (the writer's configuration): the writer gets `channels` and `sampleRate` unchanged and a bit depth of whole bytes equal to `sampleWidth * 8` |
| `BeatGeneration.FormatOfInjective` | src/ai/flows/beat-generation.ts:56-60 | different `toWav` arguments configure different writer formats |
| `BeatGeneration.DefaultFormat` | src/ai/flows/beat-generation.ts:49-60 | the defaults give mono, 24000 Hz, 16-bit |
| `BeatGeneration.ConcatAppend` | src/ai/flows/beat-generation.ts:68 | `Buffer.concat` of two chunk lists is the concatenation of their concatenations |
| `BeatGeneration.DeliveredAtEnd` | src/ai/flows/beat-generation.ts:62-69 | `Delivered` (the reference meaning of the writer's event stream): at the first `end` the value is every earlier data chunk joined in emission order; later events do not matter |
| `BeatGeneration.DeliveredAtError` | src/ai/flows/beat-generation.ts:63 | an `error` before `end` rejects with the writer's error, whatever data came first |
| `BeatGeneration.DeliveredWithoutEnd` | src/ai/flows/beat-generation.ts:67-69 | without `error` or `end` no value is ever produced |
| `BeatGeneration.DeliveredFront` | src/ai/flows/beat-generation.ts:64-66 | data events in front of a stream prepend their bytes to what it delivers |
| `BeatGeneration.ToWav` | src/ai/flows/beat-generation.ts:49-74 | the loop that pushes chunks onto `bufs` settles as the reference stream meaning says; a fulfilled result is base64 that decodes to exactly the delivered bytes |
| `BeatGeneration.IndexOf` | src/ai/flows/beat-generation.ts:109 | `indexOf`: -1 exactly when the character is absent, else its first position |
| `BeatGeneration.Payload` | src/ai/flows/beat-generation.ts:108-111 | the whole URL when it has no comma, else everything after its first comma |
| `BeatGeneration.PayloadOfDataUri` | src/ai/flows/beat-generation.ts:108-111 | for `header,body` with a comma-free header the payload is `body` |
| `BeatGeneration.GenerateBeatFlow` | src/ai/flows/beat-generation.ts:82-117 | an empty pattern fails with its message and the speech model is never called; missing media fails with its message; otherwise the URI is the fixed prefix followed by `toWav`'s base64 of the decoded payload; every fulfilled URI is the prefix followed by decodable base64 |
| `Actions.CloseAt` | src/app/actions.ts:66 | where lazy `.*?\]` stops: the first `]` with no `]` and no line terminator before it |
| `Actions.StripHeaderSpan` | src/app/actions.ts:66 | `StripHeaders` (the scanner for the replacement): a span from `[` to the first `]`, with no line terminator inside, and at most one `\n` after it disappear, and the scan goes on with the rest |
| `Actions.StripUnclosed` | src/app/actions.ts:66 | a `[` with no `]` before the next line terminator is kept and scanning resumes right after it |
| `Actions.StripPlainPrefix` | src/app/actions.ts:66 | text without `[` is kept as it is in front of the rest |
| `Actions.StripIsSubsequence` | src/app/actions.ts:66 | the characters kept are characters of the input, in their original order |
| `Actions.StripLeavesNoHeader` | src/app/actions.ts:66 | no `[` followed by a `]` before a line terminator is left |
| `Actions.StripWithoutHeader` | src/app/actions.ts:66 | text with no header span is unchanged |
| `Actions.StripIdempotent` | src/app/actions.ts:66 | stripping twice is stripping once; the fixed points are exactly the header-free texts |
| `Actions.StripWithoutBracket` | src/app/actions.ts:66 | lyrics with no `[` are unchanged |
| `Actions.StripTwoSections` | src/app/actions.ts:65-66 | two header lines (`[Verse]\n`, `[Chorus]\n`) are removed and nothing else |
| `Actions.SpeechRequestFaithful` | src/app/actions.ts:66-70 | text-to-speech gets the voice unchanged and header-free lyrics that keep the others' order; the request equals the input exactly when the lyrics hold no header |
| `Actions.Describe` | src/app/actions.ts:51-57 | an error message is the handler's prefix followed by the `Error`'s message, or by the unknown-error text for anything else |
| `Actions.HandlerMessagesDiffer` | src/app/actions.ts:51-101 | messages of different handlers never coincide |
| `Actions.WithoutEmptySpotifyUrl` | src/app/actions.ts:35-39 | `spotifyUrl` is absent afterwards exactly when it was missing, `undefined` or `''`; otherwise the copy equals the input; no other property changes |
| `Actions.HandleGenerateLyrics` | src/app/actions.ts:31-59 | the model gets the cleaned copy; empty or missing lyrics give only the empty-result error; success copies `lyrics`, `genre`, `analysis` with no error; a throw gives only the prefixed message; it never rejects |
| `Actions.HandleGenerateAcapella` | src/app/actions.ts:61-84 | the speech flow gets the stripped request; success copies `audioDataUri` with no error; a throw gives only the prefixed message; it never rejects |
| `Actions.HandleGenerateAlbumArt` | src/app/actions.ts:86-102 | exactly one of `albumArtDataUri` and `error` is present; the data URI is the flow's, the error the prefixed message; it never rejects |
| `LyricDisplay.Split` | src/components/lyric-display.tsx:47 | `split("\n")`: at least one piece, none holding a newline |
| `LyricDisplay.JoinSplit` | src/components/lyric-display.tsx:47 | joining the pieces with `\n` gives the lyrics back |
| `LyricDisplay.SplitCount` | src/components/lyric-display.tsx:47 | one piece per newline plus one, empty pieces included |
| `LyricDisplay.SplitInjective` | src/components/lyric-display.tsx:47 | different lyrics split differently |
| `LyricDisplay.Trim` | src/components/lyric-display.tsx:48-49 | `trim()`: a slice with only trimmable characters cut from both ends, starting and ending with a kept character |
| `LyricDisplay.TrimEmpty` | src/components/lyric-display.tsx:60 | a line trims to `""` exactly when all of it is whitespace or line terminators |
| `LyricDisplay.RemoveBrackets` | src/components/lyric-display.tsx:56 | no `[` or `]` is left, and every other character of the input is still there |
| `LyricDisplay.RemoveBracketsAppend` | src/components/lyric-display.tsx:56 | bracket removal works piece by piece |
| `LyricDisplay.HeaderTextOf` | src/components/lyric-display.tsx:56 | `[inner]` shows as `inner` with its own brackets deleted too |
| `LyricDisplay.RemoveBracketsNone` | src/components/lyric-display.tsx:56 | text without brackets is shown unchanged |
| `LyricDisplay.RenderLineCases` | src/components/lyric-display.tsx:48-67 | `RenderLine` (one line's rendering): header iff the trimmed line starts with `[` and ends with `]`; otherwise break iff the line is all whitespace; otherwise the line verbatim; the header text is the trimmed line without brackets |
| `LyricDisplay.FormatLyrics` | src/components/lyric-display.tsx:46-69 | one rendering per piece, in input order, as many as newlines plus one |
| `LyricDisplay.FormatLyricsText` | src/components/lyric-display.tsx:63-66 | a text line is its piece of the lyrics, untrimmed |
| `LyricDisplay.LabelIn` | src/components/lyric-display.tsx:109-111 | a value has a label exactly when some voice has that value, and the label is that voice's |
| `LyricDisplay.LabelOf` | src/components/lyric-display.tsx:20-26 | the label shown for an offered voice value |
| `LyricDisplay.VoicesDistinct` | src/components/lyric-display.tsx:20-26 | five voices with pairwise distinct values |
| `Spotify.LowerChar` | src/ai/tools/spotify.ts:25 | each ASCII capital becomes its small letter and the Kelvin sign becomes `k`; a small ASCII letter comes only from itself, its capital or the Kelvin sign; nothing else changes |
| `Spotify.ToLowerIdempotent` | src/ai/tools/spotify.ts:25 | lowering twice is lowering once |
| `Spotify.IncludesFrom` | src/ai/tools/spotify.ts:25 | the search finds the keyword exactly when it occurs from the start position on |
| `Spotify.LookupDecision` | src/ai/tools/spotify.ts:25-43 | `Lookup` (the body of the tool): `taylor` wins, even with `daft-punk` present; `daft-punk` alone gives Daft Punk; neither gives the unknown record |
| `Spotify.LookupTotal` | src/ai/tools/spotify.ts:21-44 | the answer is always one of the three records |
| `Spotify.LookupCaseInsensitive` | src/ai/tools/spotify.ts:25-32 | URLs with the same lower-case form get the same answer |
| `Spotify.ToLowerAppend` | src/ai/tools/spotify.ts:25 | lowering distributes over concatenation |
| `Spotify.KeywordFound` | src/ai/tools/spotify.ts:25-32 | a keyword spelled in any case sits in the lowered URL where it was written |
| `Spotify.LookupTaylorAnyCase` | src/ai/tools/spotify.ts:25-31 | `taylor` in any letter case, anywhere in the URL, finds the Taylor Swift record |
| `Spotify.LookupDaftPunkAnyCase` | src/ai/tools/spotify.ts:32-38 | `daft-punk` in any letter case finds Daft Punk unless `taylor` occurs too |
| `Spotify.KeywordSpellings` | src/ai/tools/spotify.ts:25-32 | `Taylor`, `TAYLOR`, `Daft-Punk` and `daft-pun` + Kelvin sign all lower to the keywords |
| `Spotify.TracksDistinct` | src/ai/tools/spotify.ts:26-43 | the three records differ |
| `AlbumArt.AlbumArtCreator.constructor` | src/components/album-art-creator.tsx:22-23 | no image and no error at first |
| `AlbumArt.AlbumArtCreator.HandleFileChange` | src/components/album-art-creator.tsx:25-42 | no file changes nothing; over 4 MiB sets the size error, keeps the image and starts no read; up to 4 MiB inclusive starts a read |
| `AlbumArt.AlbumArtCreator.OnReadLoad` | src/components/album-art-creator.tsx:33-36 | a finished read sets the image and clears the error |
| `AlbumArt.AlbumArtCreator.OnReadError` | src/components/album-art-creator.tsx:37-39 | a failed read sets the read error and keeps the image |
| `AlbumArt.AlbumArtCreator.HandleGenerateClick` | src/components/album-art-creator.tsx:44-48 | `onGenerate` gets the stored image exactly when it is a non-empty string |
| `AlbumArt.AlbumArtCreator.ClickGenerate` | src/components/album-art-creator.tsx:142 | a click generates exactly when an image is present, nothing is generating and there is no result yet |
| `AlbumArt.AlbumArtCreator.Controls` | src/components/album-art-creator.tsx:50-157 | a non-Pro user sees only the upgrade button; a Pro user never sees it and sees: the preview of the uploaded image iff there is one and no result yet; the file input exactly when there is no preview, disabled while generating or once there is a result; the alert iff there is an upload error, with that message, which is always one of the component's two messages; the download link iff there is a result, pointing at it; the generate button with the enabled rule |
| `LyricForm.Utf16Length` | src/components/lyric-form.tsx:20 | lengths in UTF-16 code units, between one and two per character |
| `LyricForm.Validate` | src/components/lyric-form.tsx:19-26 | the topic issue appears iff the topic is shorter than 2, the genre issue iff the genre is; no issues iff both are long enough |
| `LyricForm.RulesIndependent` | src/components/lyric-form.tsx:19-26 | each rule depends on its own field only |
| `LyricForm.DefaultsRejected` | src/components/lyric-form.tsx:38-41 | the empty defaults fail both rules |
| `LyricForm.LengthBoundary` | src/components/lyric-form.tsx:20-25 | one BMP character is too short, two characters are enough, one astral character is enough |
| `LyricForm.Submit` | src/components/lyric-form.tsx:46-73 | `onSubmit` gets the values exactly when not loading and both rules pass |

## Left out

- Format checks: `toWav` validates no parameter; it passes `channels` and `rate` through and always uses a bit depth of `sampleWidth * 8`.
- The WAV header and the `wav` library: the library writes the header, so the writer's output is opaque and its events are a parameter; nothing is claimed about the RIFF or data size fields.
- Node's lenient base64 decoding in `Buffer.from(..., 'base64')`: it is a parameter of the flow; the model's own decoder is strict and canonical.
- Prompt templates and every generative call (`beatboxPrompt`, `ai.generate`, `generateLyrics`, `generateAlbumArt`, `generateAudio`): opaque parameters.
- The events of `toWav` are a finite list handled in order; promise scheduling and concurrency are not modelled.
- `console.log` and `console.error` calls: output only.
- A `null` answer from `generateLyrics` makes `lyricResult.lyrics` throw a `TypeError` whose message the runtime chooses; the model's lyrics model always answers an object.
- `audioDataUri` from the unshown text-to-speech flow is taken as an optional string.
- `Spotify.LowerChar`: models `toLowerCase` for ASCII capitals and the Kelvin sign only; other characters are left unchanged, because no other lower-case mapping yields a character of `taylor` or `daft-punk`.
- React rendering, hooks and browser APIs: JSX markup, styling, the clipboard, the `setTimeout` reset in `handleCopy` and `FileReader`'s asynchrony; the reader's callbacks are methods called later.
- `AlbumArt.AlbumArtCreator.Controls`: gives the controls only, not the markup, the generated-image area or the progress overlay shown while generating.
- Authentication, Stripe, Firebase and environment setup, and the UI-only files (page, header, waveform player).
