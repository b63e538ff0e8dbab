/**
 * The stored shapes of a worksheet: a worksheet holds general instructions and
 * ordered sections; a section holds ordered questions sharing one mark value.
 * Fields the database may leave unset are Options; timestamps are not modelled.
 */
module Worksheets {
  import opened Wrappers

  /** A question: its text (possibly unset in old records) and an optional image URL. */
  datatype Question = Question(text: Option<string>, imageUrl: Option<string>)

  /** A section; `questionType` is the free-text label stored under the field name `type`. */
  datatype Section = Section(
    id: string,
    title: string,
    questionType: string,
    marksPerQuestion: int,
    questions: seq<Question>)

  datatype Worksheet = Worksheet(
    id: string,
    title: string,
    description: string,
    sections: Option<seq<Section>>,
    generalInstructions: Option<seq<string>>,
    userId: string)

  /** The question a freshly added slot holds: empty text, no image. */
  const EMPTY_QUESTION := Question(Some(""), None)

  /** JavaScript truthiness of `imageUrl`: set and not the empty string. */
  predicate HasImage(q: Question) {
    q.imageUrl.Some? && q.imageUrl.value != ""
  }

  /** Number of questions in `qs` whose image URL is truthy. */
  function CountImages(qs: seq<Question>): (n: nat)
    ensures n <= |qs|
  {
    if qs == [] then 0 else CountImages(qs[..|qs| - 1]) + (if HasImage(qs[|qs| - 1]) then 1 else 0)
  }
}
