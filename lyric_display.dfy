/** The lyric view of src/components/lyric-display.tsx: `formatLyrics`
    splits the lyrics at `\n` and shows each piece as a section header, a
    line break or a text line; and the table of selectable voices. */
module LyricDisplay {
  import opened Js

  // ---------------------------------------------------------------------
  // `text.split("\n")`

  /** The pieces of `s` between newlines; `s` with `k` newlines has `k + 1`
      pieces, empty ones included. */
  function Split(s: string): (pieces: seq<string>)
    ensures |pieces| >= 1
    ensures forall i :: 0 <= i < |pieces| ==> '\n' !in pieces[i]
    decreases |s|
  {
    if s == [] then [""]
    else if s[0] == '\n' then [""] + Split(s[1..])
    else
      var rest := Split(s[1..]);
      [[s[0]] + rest[0]] + rest[1..]
  }

  /** `pieces.join("\n")` */
  function Join(pieces: seq<string>): (s: string)
    requires |pieces| >= 1
    decreases |pieces|
  {
    if |pieces| == 1 then pieces[0] else pieces[0] + "\n" + Join(pieces[1..])
  }

  /** Splitting loses nothing: joining the pieces gives the text back. */
  lemma {:induction false} JoinSplit(s: string)
    ensures Join(Split(s)) == s
    decreases |s|
  {
    if s == [] {
    } else if s[0] == '\n' {
      JoinSplit(s[1..]);
      var p := Split(s);
      assert p[1..] == Split(s[1..]);
      assert s == "" + "\n" + s[1..];
    } else {
      JoinSplit(s[1..]);
      var rest := Split(s[1..]);
      var p := Split(s);
      assert p[0] == [s[0]] + rest[0] && p[1..] == rest[1..];
      if |rest| == 1 {
        assert s == [s[0]] + s[1..];
      } else {
        assert Join(rest) == rest[0] + "\n" + Join(rest[1..]);
        assert s == [s[0]] + s[1..];
      }
    }
  }

  function CountNewlines(s: string): nat
    decreases |s|
  {
    if s == [] then 0 else (if s[0] == '\n' then 1 else 0) + CountNewlines(s[1..])
  }

  /** One piece more than there are newlines. */
  lemma {:induction false} SplitCount(s: string)
    ensures |Split(s)| == CountNewlines(s) + 1
    decreases |s|
  {
    if s != [] {
      SplitCount(s[1..]);
    }
  }

  /** Pieces are determined by the text: splitting is injective. */
  lemma SplitInjective(s: string, t: string)
    requires Split(s) == Split(t)
    ensures s == t
  {
    JoinSplit(s);
    JoinSplit(t);
  }

  // ---------------------------------------------------------------------
  // `String.prototype.trim`

  /** The characters `trim` removes: ECMAScript's WhiteSpace (tab, vertical
      tab, form feed, space, no-break space, the byte order mark and the
      space separators of Unicode category Zs) and LineTerminator. */
  predicate IsTrimmable(c: char)
  {
    c == '\t' || c == '\U{000B}' || c == '\U{000C}' || c == ' ' || c == '\U{00A0}' || c == '\U{FEFF}' ||
    c == '\U{1680}' || ('\U{2000}' <= c <= '\U{200A}') || c == '\U{202F}' || c == '\U{205F}' || c == '\U{3000}' ||
    c == '\n' || c == '\r' || c == '\U{2028}' || c == '\U{2029}'
  }

  predicate AllTrimmable(s: string)
  {
    forall i :: 0 <= i < |s| ==> IsTrimmable(s[i])
  }

  /** How many trimmable characters `s` starts with. */
  function Leading(s: string): (k: nat)
    ensures k <= |s| && AllTrimmable(s[..k]) && (k == |s| || !IsTrimmable(s[k]))
    decreases |s|
  {
    if s != [] && IsTrimmable(s[0]) then
      var k := Leading(s[1..]);
      assert s[..k + 1] == [s[0]] + s[1..][..k];
      k + 1
    else 0
  }

  /** How many trimmable characters `s` ends with. */
  function Trailing(s: string): (k: nat)
    ensures k <= |s| && AllTrimmable(s[|s| - k..]) && (k == |s| || !IsTrimmable(s[|s| - k - 1]))
    decreases |s|
  {
    if s != [] && IsTrimmable(s[|s| - 1]) then
      var t := s[..|s| - 1];
      var k := Trailing(t);
      assert s[|s| - (k + 1)..] == t[|t| - k..] + [s[|s| - 1]];
      k + 1
    else 0
  }

  /** `s.trim()`: `s` without its leading and trailing trimmable
      characters. */
  function Trim(s: string): (r: string)
    ensures exists i, j :: 0 <= i <= j <= |s| && r == s[i..j] && AllTrimmable(s[..i]) && AllTrimmable(s[j..])
    ensures r == [] || (!IsTrimmable(r[0]) && !IsTrimmable(r[|r| - 1]))
  {
    var t := s[Leading(s)..];
    var r := t[..|t| - Trailing(t)];
    assert r == s[Leading(s)..|s| - Trailing(t)];
    assert s[|s| - Trailing(t)..] == t[|t| - Trailing(t)..];
    r
  }

  /** A line trims to nothing exactly when all of it is trimmable. */
  lemma TrimEmpty(s: string)
    ensures Trim(s) == "" <==> AllTrimmable(s)
  {
    var r := Trim(s);
    var i, j :| 0 <= i <= j <= |s| && r == s[i..j] && AllTrimmable(s[..i]) && AllTrimmable(s[j..]);
    if r == "" {
      forall x | 0 <= x < |s| ensures IsTrimmable(s[x]) {
        if x < i { assert s[x] == s[..i][x]; } else { assert s[x] == s[j..][x - j]; }
      }
    }
  }

  // ---------------------------------------------------------------------
  // `formatLyrics`

  /** How one line is shown: an `<h3>` with the header text, a `<br>`, or a
      `<p>` with the line as it is. */
  datatype Rendered = Header(text: string) | Break | Text(line: string)

  /** `startsWith("[") && endsWith("]")` on the trimmed line. */
  predicate IsSectionHeader(line: string)
  {
    var t := Trim(line);
    |t| > 0 && t[0] == '[' && t[|t| - 1] == ']'
  }

  /** `replace(/[\[\]]/g, "")`: every bracket, wherever it is, deleted. */
  function RemoveBrackets(s: string): (r: string)
    ensures '[' !in r && ']' !in r
    ensures |r| <= |s|
    ensures forall c :: c != '[' && c != ']' ==> (c in r <==> c in s)
    decreases |s|
  {
    if s == [] then []
    else if s[0] == '[' || s[0] == ']' then RemoveBrackets(s[1..])
    else
      var r := [s[0]] + RemoveBrackets(s[1..]);
      assert forall c :: c in s <==> c == s[0] || c in s[1..];
      r
  }

  /** Deleting brackets distributes over concatenation. */
  lemma {:induction false} RemoveBracketsAppend(a: string, b: string)
    ensures RemoveBrackets(a + b) == RemoveBrackets(a) + RemoveBrackets(b)
    decreases |a|
  {
    if a == [] {
      assert a + b == b;
    } else {
      assert (a + b)[0] == a[0] && (a + b)[1..] == a[1..] + b;
      RemoveBracketsAppend(a[1..], b);
    }
  }

  /** A bracketed header loses its outer brackets and every inner one. */
  lemma HeaderTextOf(inner: string)
    ensures RemoveBrackets("[" + inner + "]") == RemoveBrackets(inner)
  {
    RemoveBracketsAppend("[" + inner, "]");
    RemoveBracketsAppend("[", inner);
    assert RemoveBrackets("]") == [] by { assert "]"[1..] == []; }
    assert RemoveBrackets("[") == [] by { assert "["[1..] == []; }
  }

  /** Text without brackets is left as it is. */
  lemma {:induction false} RemoveBracketsNone(s: string)
    requires '[' !in s && ']' !in s
    ensures RemoveBrackets(s) == s
    decreases |s|
  {
    if s != [] {
      RemoveBracketsNone(s[1..]);
      assert s == [s[0]] + s[1..];
    }
  }

  /** The rendering of one line: the header test comes first, then the
      blank test; every other line is shown verbatim, untrimmed. */
  function RenderLine(line: string): (r: Rendered)
  {
    if IsSectionHeader(line) then Header(RemoveBrackets(Trim(line)))
    else if Trim(line) == "" then Break
    else Text(line)
  }

  /** What each kind of rendering says about its line. */
  lemma RenderLineCases(line: string)
    ensures RenderLine(line).Header? <==> IsSectionHeader(line)
    ensures RenderLine(line).Break? <==> !IsSectionHeader(line) && AllTrimmable(line)
    ensures RenderLine(line).Text? <==> !IsSectionHeader(line) && !AllTrimmable(line)
    ensures RenderLine(line).Header? ==> RenderLine(line).text == RemoveBrackets(Trim(line))
    ensures RenderLine(line).Text? ==> RenderLine(line).line == line
  {
    TrimEmpty(line);
  }

  /** `formatLyrics(text)`: one rendering per piece of `text.split("\n")`,
      in order. */
  function FormatLyrics(text: string): (r: seq<Rendered>)
    ensures |r| == |Split(text)| == CountNewlines(text) + 1
    ensures forall i :: 0 <= i < |r| ==> r[i] == RenderLine(Split(text)[i])
  {
    SplitCount(text);
    var lines := Split(text);
    seq(|lines|, i requires 0 <= i < |lines| => RenderLine(lines[i]))
  }

  /** A text line shown by `formatLyrics` is its piece of the lyrics,
      untrimmed, and holds no newline. */
  lemma FormatLyricsText(text: string, i: int)
    requires 0 <= i < |FormatLyrics(text)| && FormatLyrics(text)[i].Text?
    ensures FormatLyrics(text)[i].line == Split(text)[i]
    ensures '\n' !in FormatLyrics(text)[i].line
  {
    RenderLineCases(Split(text)[i]);
  }

  // ---------------------------------------------------------------------
  // The voices offered for the acapella.

  /** A voice's `value` (the speech model's voice name) and its `label`. */
  datatype Voice = Voice(value: string, caption: string)

  const Voices: seq<Voice> := [
    Voice("Algenib", "Narrator (Male)"),
    Voice("Achernar", "Promoter (Female)"),
    Voice("Sirius", "Friendly (Male)"),
    Voice("Vega", "Calm (Female)"),
    Voice("Canopus", "Storyteller (Male)")
  ]

  /** The label shown for a voice value, if the value is offered. */
  function LabelOf(value: string): (r: Option<string>)
    ensures r.Some? <==> exists i :: 0 <= i < |Voices| && Voices[i].value == value
    ensures r.Some? ==> exists i :: 0 <= i < |Voices| && Voices[i] == Voice(value, r.value)
  {
    LabelIn(Voices, value)
  }

  function LabelIn(voices: seq<Voice>, value: string): (r: Option<string>)
    ensures r.Some? <==> exists i :: 0 <= i < |voices| && voices[i].value == value
    ensures r.Some? ==> exists i :: 0 <= i < |voices| && voices[i] == Voice(value, r.value)
    decreases |voices|
  {
    if voices == [] then None
    else if voices[0].value == value then Some(voices[0].caption)
    else
      var r := LabelIn(voices[1..], value);
      assert forall i :: 1 <= i < |voices| ==> voices[i] == voices[1..][i - 1];
      r
  }

  /** Five voices with pairwise distinct values, so each value picks one
      voice. */
  lemma VoicesDistinct()
    ensures |Voices| == 5
    ensures forall i, j :: 0 <= i < j < |Voices| ==> Voices[i].value != Voices[j].value
  {
  }
}
