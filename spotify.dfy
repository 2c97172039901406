/** The mock Spotify lookup of src/ai/tools/spotify.ts: an ordered,
    case-insensitive keyword test on the URL that always answers one of three
    fixed records. */
module Spotify {

  datatype Track = Track(artist: string, song: string, genre: string)

  const TaylorTrack := Track("Taylor Swift", "Cruel Summer", "Synth-pop")
  const DaftPunkTrack := Track("Daft Punk", "Get Lucky", "Disco")
  const UnknownTrack := Track("Unknown Artist", "Unknown Song", "Pop")

  /** `toLowerCase` on one character, as far as it can affect the keywords:
      ASCII capitals become small letters and the KELVIN SIGN (U+212A)
      becomes `k`; every other character is left as it is. */
  function LowerChar(c: char): (d: char)
    ensures 'a' <= d <= 'z' ==> d == c || ('A' <= c <= 'Z' && d as int == c as int + 32) || (c == '\U{212A}' && d == 'k')
    ensures !('a' <= d <= 'z') ==> d == c
    ensures 'A' <= c <= 'Z' ==> d as int == c as int + 32
    ensures c == '\U{212A}' ==> d == 'k'
  {
    if 'A' <= c <= 'Z' then (c as int + 32) as char
    else if c == '\U{212A}' then 'k'
    else c
  }

  function ToLower(s: string): (r: string)
    ensures |r| == |s|
    ensures forall i :: 0 <= i < |s| ==> r[i] == LowerChar(s[i])
  {
    seq(|s|, i requires 0 <= i < |s| => LowerChar(s[i]))
  }

  /** Lowering twice is lowering once. */
  lemma ToLowerIdempotent(s: string)
    ensures ToLower(ToLower(s)) == ToLower(s)
  {
  }

  /** `k` occurs in `s` starting at position `i`. */
  predicate OccursAt(s: string, k: string, i: int)
  {
    0 <= i && i + |k| <= |s| && s[i..i + |k|] == k
  }

  /** `s.includes(k)` */
  ghost predicate Includes(s: string, k: string)
  {
    exists i :: OccursAt(s, k, i)
  }

  /** The same as `Includes` from position `from` on, by a left-to-right
      search. */
  function IncludesFrom(s: string, k: string, from: nat): (b: bool)
    requires from <= |s|
    ensures b <==> exists i :: from <= i && OccursAt(s, k, i)
    decreases |s| - from
  {
    if |s| - from < |k| then false
    else if s[from..from + |k|] == k then assert OccursAt(s, k, from); true
    else IncludesFrom(s, k, from + 1)
  }

  /** The body of `searchSpotifyTool`. */
  function Lookup(url: string): (t: Track)
  {
    var lower := ToLower(url);
    if IncludesFrom(lower, "taylor", 0) then TaylorTrack
    else if IncludesFrom(lower, "daft-punk", 0) then DaftPunkTrack
    else UnknownTrack
  }

  /** The decision, keyword by keyword, with `taylor` checked first. */
  lemma LookupDecision(url: string)
    ensures Includes(ToLower(url), "taylor") ==> Lookup(url) == TaylorTrack
    ensures !Includes(ToLower(url), "taylor") && Includes(ToLower(url), "daft-punk") ==> Lookup(url) == DaftPunkTrack
    ensures !Includes(ToLower(url), "taylor") && !Includes(ToLower(url), "daft-punk") ==> Lookup(url) == UnknownTrack
  {
  }

  /** The lookup always answers, and with one of the three records. */
  lemma LookupTotal(url: string)
    ensures Lookup(url) in {TaylorTrack, DaftPunkTrack, UnknownTrack}
  {
  }

  /** Matching ignores case: only the lower-case form of the URL matters. */
  lemma LookupCaseInsensitive(a: string, b: string)
    requires ToLower(a) == ToLower(b)
    ensures Lookup(a) == Lookup(b)
    ensures Lookup(a) == Lookup(ToLower(a))
  {
    ToLowerIdempotent(a);
  }

  /** Lowering works character by character, so it distributes over
      concatenation. */
  lemma ToLowerAppend(a: string, b: string)
    ensures ToLower(a + b) == ToLower(a) + ToLower(b)
  {
  }

  /** A keyword written in any mix of cases, or with the KELVIN SIGN for its
      `k`, occurs in the lowered URL where it was written. */
  lemma KeywordFound(prefix: string, w: string, suffix: string, keyword: string)
    requires ToLower(w) == keyword
    ensures OccursAt(ToLower(prefix + w + suffix), keyword, |prefix|)
  {
    ToLowerAppend(prefix + w, suffix);
    ToLowerAppend(prefix, w);
    var lower := ToLower(prefix) + keyword + ToLower(suffix);
    assert lower[|prefix|..|prefix| + |keyword|] == keyword;
  }

  /** `taylor` in any letter case, anywhere in the URL, finds the Taylor
      Swift record. */
  lemma LookupTaylorAnyCase(prefix: string, w: string, suffix: string)
    requires ToLower(w) == "taylor"
    ensures Lookup(prefix + w + suffix) == TaylorTrack
  {
    KeywordFound(prefix, w, suffix, "taylor");
  }

  /** `daft-punk` in any letter case finds Daft Punk, unless `taylor` occurs
      too. */
  lemma LookupDaftPunkAnyCase(prefix: string, w: string, suffix: string)
    requires ToLower(w) == "daft-punk"
    requires !Includes(ToLower(prefix + w + suffix), "taylor")
    ensures Lookup(prefix + w + suffix) == DaftPunkTrack
  {
    KeywordFound(prefix, w, suffix, "daft-punk");
  }

  /** Spellings the lookup treats as its keywords. */
  lemma KeywordSpellings()
    ensures ToLower("Taylor") == "taylor" && ToLower("TAYLOR") == "taylor"
    ensures ToLower("Daft-Punk") == "daft-punk" && ToLower("daft-pun\U{212A}") == "daft-punk"
  {
  }

  /** The three records are distinct, so the answer tells which branch was
      taken. */
  lemma TracksDistinct()
    ensures TaylorTrack != DaftPunkTrack && TaylorTrack != UnknownTrack && DaftPunkTrack != UnknownTrack
  {
  }
}
