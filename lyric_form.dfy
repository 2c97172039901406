/** The lyric request form of src/components/lyric-form.tsx: two
    independent minimum-length rules on its fields, and a submit button that
    is disabled while lyrics are being generated. */
module LyricForm {
  import opened Js

  datatype FormData = FormData(topic: string, genre: string)

  /** A failed rule: the field and the message shown under it. */
  datatype Issue = Issue(field: string, message: string)

  const MinLength := 2
  const TopicIssue := Issue("topic", "Topic must be at least 2 characters.")
  const GenreIssue := Issue("genre", "Genre must be at least 2 characters.")
  const DefaultValues := FormData("", "")

  /** JavaScript's `length`: UTF-16 code units, so a character outside the
      Basic Multilingual Plane counts twice. */
  function Utf16Length(s: string): (n: nat)
    ensures |s| <= n <= 2 * |s|
    decreases |s|
  {
    if s == [] then 0 else (if s[0] as int > 0xFFFF then 2 else 1) + Utf16Length(s[1..])
  }

  /** `z.string().min(2)` */
  predicate LongEnough(s: string)
  {
    Utf16Length(s) >= MinLength
  }

  /** The issues `formSchema` reports, in field order. */
  function Validate(data: FormData): (issues: seq<Issue>)
    ensures TopicIssue in issues <==> !LongEnough(data.topic)
    ensures GenreIssue in issues <==> !LongEnough(data.genre)
    ensures forall i :: 0 <= i < |issues| ==> issues[i] == TopicIssue || issues[i] == GenreIssue
    ensures issues == [] <==> LongEnough(data.topic) && LongEnough(data.genre)
  {
    (if LongEnough(data.topic) then [] else [TopicIssue]) +
    (if LongEnough(data.genre) then [] else [GenreIssue])
  }

  /** Each rule looks at its own field only. */
  lemma RulesIndependent(a: FormData, b: FormData)
    ensures a.topic == b.topic ==> (TopicIssue in Validate(a) <==> TopicIssue in Validate(b))
    ensures a.genre == b.genre ==> (GenreIssue in Validate(a) <==> GenreIssue in Validate(b))
  {
  }

  /** The empty defaults fail both rules. */
  lemma DefaultsRejected()
    ensures Validate(DefaultValues) == [TopicIssue, GenreIssue]
  {
  }

  /** Two characters are enough, one is not; a single character outside the
      Basic Multilingual Plane (two code units) is enough. */
  lemma LengthBoundary(c: char, d: char)
    ensures !LongEnough([c]) <==> c as int <= 0xFFFF
    ensures LongEnough([c, d])
  {
    assert [c][1..] == [];
    assert [c, d][1..] == [d];
  }

  /** `disabled={isLoading}` */
  predicate SubmitDisabled(isLoading: bool)
  {
    isLoading
  }

  /** Submitting the form: nothing while the button is disabled; otherwise
      `handleSubmit` hands the values to `onSubmit` when both rules pass, and
      reports the issues when not. */
  function Submit(data: FormData, isLoading: bool): (r: Option<FormData>)
    ensures r.Some? <==> !isLoading && LongEnough(data.topic) && LongEnough(data.genre)
    ensures r.Some? ==> r.value == data
  {
    if SubmitDisabled(isLoading) then None
    else if Validate(data) == [] then Some(data)
    else None
  }
}
