/**
 * The worksheet editor page. Its state is the title, the description, the list of
 * general instructions and the list of sections; every edit replaces one of these
 * lists by a map or filter over the previous one, keyed by a section id or a
 * position. The editor also numbers questions across the whole worksheet, and it
 * brings sections saved in an older format (questions stored as bare strings)
 * into the current shape when a worksheet is loaded.
 */
module Editor {
  import opened Wrappers
  import opened JsText
  import opened Worksheets
  import DocxExport

  const DEFAULT_INSTRUCTIONS: seq<string> := [
    "All questions would be compulsory. However, an internal choice of approximately 33% would be provided. 50% marks are to be allotted to competency-based questions.",
    "Section A would have 16 simple/complex MCQs and 04 Assertion-Reasoning type questions carrying 1 mark each.",
    "Section B would have 6 Short Answer (SA) type questions carrying 02 marks each.",
    "Section C would have 7 Short Answer (SA) type questions carrying 03 marks each.",
    "Section D would have 3 Long Answer (LA) type questions carrying 05 marks each.",
    "Section E would have 3 source based/case based/passage based/integrated units of assessment (04 marks each) with sub-parts of the values of 1/2/3 marks."
  ]

  // ---------------------------------------------------------------------------
  // Position-keyed list edits

  /** Only position `index` changes, and nothing does when it is out of range. */
  function ReplaceAt<T>(s: seq<T>, index: int, value: T): (r: seq<T>)
    ensures r == if 0 <= index < |s| then s[index := value] else s
    decreases |s|
  {
    if s == [] then []
    else [if index == 0 then value else s[0]] + ReplaceAt(s[1..], index - 1, value)
  }

  /** Exactly the element at `index` goes, the rest keep their order. */
  function RemoveAt<T>(s: seq<T>, index: int): (r: seq<T>)
    ensures r == if 0 <= index < |s| then s[..index] + s[index + 1..] else s
    decreases |s|
  {
    if s == [] then []
    else
      var rest := RemoveAt(s[1..], index - 1);
      assert 0 < index < |s| ==> s[1..][..index - 1] == s[1..index];
      (if index == 0 then [] else [s[0]]) + rest
  }

  // ---------------------------------------------------------------------------
  // Section-keyed edits

  /** Replaces question `questionIndex` of every section whose id is `sectionId`; nothing else changes. */
  function QuestionUpdated(ss: seq<Section>, sectionId: string, questionIndex: int, value: Question): (r: seq<Section>)
    ensures |r| == |ss|
    ensures forall k :: 0 <= k < |ss| ==>
      && r[k].id == ss[k].id && r[k].title == ss[k].title
      && r[k].questionType == ss[k].questionType && r[k].marksPerQuestion == ss[k].marksPerQuestion
      && r[k].questions ==
           if ss[k].id == sectionId && 0 <= questionIndex < |ss[k].questions|
           then ss[k].questions[questionIndex := value]
           else ss[k].questions
  {
    seq(|ss|, k requires 0 <= k < |ss| =>
      if ss[k].id == sectionId then ss[k].(questions := ReplaceAt(ss[k].questions, questionIndex, value))
      else ss[k])
  }

  /** Appends an empty question to every section whose id is `sectionId`; nothing else changes. */
  function QuestionAdded(ss: seq<Section>, sectionId: string): (r: seq<Section>)
    ensures |r| == |ss|
    ensures forall k :: 0 <= k < |ss| ==>
      && r[k].id == ss[k].id && r[k].title == ss[k].title
      && r[k].questionType == ss[k].questionType && r[k].marksPerQuestion == ss[k].marksPerQuestion
      && (ss[k].id == sectionId ==>
            |r[k].questions| == |ss[k].questions| + 1
            && r[k].questions[..|ss[k].questions|] == ss[k].questions
            && r[k].questions[|ss[k].questions|] == EMPTY_QUESTION)
      && (ss[k].id != sectionId ==> r[k] == ss[k])
  {
    var r := seq(|ss|, k requires 0 <= k < |ss| =>
      if ss[k].id == sectionId then ss[k].(questions := ss[k].questions + [EMPTY_QUESTION]) else ss[k]);
    assert forall k :: 0 <= k < |ss| && ss[k].id == sectionId ==>
      r[k].questions[..|ss[k].questions|] == ss[k].questions;
    r
  }

  /** Removes question `questionIndex` from every section whose id is `sectionId`, keeping the others in order. */
  function QuestionDeleted(ss: seq<Section>, sectionId: string, questionIndex: int): (r: seq<Section>)
    ensures |r| == |ss|
    ensures forall k :: 0 <= k < |ss| ==>
      && r[k].id == ss[k].id && r[k].title == ss[k].title
      && r[k].questionType == ss[k].questionType && r[k].marksPerQuestion == ss[k].marksPerQuestion
      && r[k].questions ==
           if ss[k].id == sectionId && 0 <= questionIndex < |ss[k].questions|
           then ss[k].questions[..questionIndex] + ss[k].questions[questionIndex + 1..]
           else ss[k].questions
  {
    seq(|ss|, k requires 0 <= k < |ss| =>
      if ss[k].id == sectionId then ss[k].(questions := RemoveAt(ss[k].questions, questionIndex))
      else ss[k])
  }

  /** Sets title, type and marks of every section whose id is `sectionId`; ids and questions stay as they were. */
  function SettingsUpdated(ss: seq<Section>, sectionId: string, title: string, questionType: string, marks: int)
    : (r: seq<Section>)
    ensures |r| == |ss|
    ensures forall k :: 0 <= k < |ss| ==>
      && r[k].id == ss[k].id && r[k].questions == ss[k].questions
      && (ss[k].id == sectionId ==>
            r[k].title == title && r[k].questionType == questionType && r[k].marksPerQuestion == marks)
      && (ss[k].id != sectionId ==> r[k] == ss[k])
  {
    seq(|ss|, k requires 0 <= k < |ss| =>
      if ss[k].id == sectionId
      then ss[k].(title := title, questionType := questionType, marksPerQuestion := marks)
      else ss[k])
  }

  /** The section "Add new section" creates: titled by the next letter, short-answer, one mark, one empty question. */
  function NewSection(id: string, existing: nat): Section {
    Section(id, "Section " + [FromCharCode(65 + existing)], "Short answer", 1, [EMPTY_QUESTION])
  }

  /** Appends a new section after the existing ones, which stay exactly as they were. */
  function SectionAdded(ss: seq<Section>, newId: string): (r: seq<Section>)
    ensures |r| == |ss| + 1 && r[..|ss|] == ss
    ensures r[|ss|].id == newId && r[|ss|].title == "Section " + [FromCharCode(65 + |ss|)]
    ensures r[|ss|].questionType == "Short answer"
    ensures r[|ss|].marksPerQuestion == 1 && r[|ss|].questions == [EMPTY_QUESTION]
  {
    ss + [NewSection(newId, |ss|)]
  }

  /** Adding an instruction and removing the last one undo each other; rewriting an entry with its own text changes nothing. */
  lemma InstructionEditsInverse(instructions: seq<string>, index: int)
    ensures RemoveAt(instructions + [""], |instructions|) == instructions
    ensures 0 <= index < |instructions| ==> ReplaceAt(instructions, index, instructions[index]) == instructions
    ensures 0 <= index < |instructions| ==> |RemoveAt(instructions, index)| == |instructions| - 1
  {
    var extended := instructions + [""];
    assert RemoveAt(extended, |instructions|) == extended[..|instructions|] + extended[|instructions| + 1..];
    assert extended[..|instructions|] == instructions;
    if 0 <= index < |instructions| {
      assert instructions[index := instructions[index]] == instructions;
    }
  }

  /**
   * Deleting the question that "Add question" appended gives back the sections as they were,
   * provided every section carrying that id held the same number of questions.
   */
  lemma AddThenDeleteQuestion(ss: seq<Section>, sectionId: string, n: nat)
    requires forall k :: 0 <= k < |ss| && ss[k].id == sectionId ==> |ss[k].questions| == n
    ensures QuestionDeleted(QuestionAdded(ss, sectionId), sectionId, n) == ss
  {
    var added := QuestionAdded(ss, sectionId);
    var r := QuestionDeleted(added, sectionId, n);
    forall k | 0 <= k < |ss| ensures r[k] == ss[k] {
      if ss[k].id == sectionId {
        assert added[k].questions[n + 1..] == [];
        assert r[k].questions == ss[k].questions;
      }
    }
  }

  // ---------------------------------------------------------------------------
  // Numbering across sections

  /** Number of questions in sections 0..s-1. */
  function QuestionsBefore(ss: seq<Section>, s: nat): nat
    requires s <= |ss|
  {
    if s == 0 then 0 else QuestionsBefore(ss, s - 1) + |ss[s - 1].questions|
  }

  /** The number the editor shows for question `q` of section `s`: it keeps counting across sections. */
  function GlobalNumber(ss: seq<Section>, s: nat, q: int): int
    requires s <= |ss|
  {
    QuestionsBefore(ss, s) + q + 1
  }

  lemma {:induction false} QuestionsBeforeMonotone(ss: seq<Section>, a: nat, b: nat)
    requires a <= b <= |ss|
    ensures QuestionsBefore(ss, a) <= QuestionsBefore(ss, b)
    decreases b - a
  {
    if a < b {
      QuestionsBeforeMonotone(ss, a, b - 1);
    }
  }

  /**
   * Displayed numbers strictly increase in display order (section by section, question by
   * question), start at 1 and never exceed the number of questions in the worksheet.
   */
  lemma GlobalNumbersIncrease(ss: seq<Section>, s1: nat, q1: nat, s2: nat, q2: nat)
    requires s1 < |ss| && q1 < |ss[s1].questions|
    requires s2 < |ss| && q2 < |ss[s2].questions|
    requires s1 < s2 || (s1 == s2 && q1 < q2)
    ensures GlobalNumber(ss, s1, q1) < GlobalNumber(ss, s2, q2)
    ensures 1 <= GlobalNumber(ss, s1, q1) && GlobalNumber(ss, s2, q2) <= QuestionsBefore(ss, |ss|)
  {
    if s1 < s2 {
      QuestionsBeforeMonotone(ss, s1 + 1, s2);
    }
    QuestionsBeforeMonotone(ss, s2 + 1, |ss|);
  }

  /**
   * The editor and the exported document number a question alike only in a section preceded by
   * sections without questions: the editor shows GlobalNumber, while the document restarts at 1
   * in every section (question j is printed as "j+1. ").
   */
  lemma ExportNumberingDiffers(ss: seq<Section>, k: nat, j: nat, fetch: DocxExport.ImageFetcher)
    requires k < |ss| && j < |ss[k].questions|
    ensures var b := DocxExport.SectionBlocks(ss[k], k, fetch);
      var p := DocxExport.QuestionOffset(ss[k].questions, j);
      && p < |b|
      && b[p] == DocxExport.QuestionParagraph(ss[k].questions[j], j + 1, ss[k].marksPerQuestion)
      && (j + 1 == GlobalNumber(ss, k, j) <==> QuestionsBefore(ss, k) == 0)
      && (k > 0 && ss[0].questions != [] ==> j + 1 < GlobalNumber(ss, k, j))
  {
    DocxExport.SectionQuestionAt(ss[k], k, fetch, j);
    if k > 0 {
      QuestionsBeforeMonotone(ss, 1, k);
    }
  }

  /** A section id that is carried by section `k` and by no other section. */
  predicate UniqueAt(ss: seq<Section>, sectionId: string, k: nat) {
    k < |ss| && ss[k].id == sectionId && forall m :: 0 <= m < |ss| && m != k ==> ss[m].id != sectionId
  }

  /** Two section lists whose question counts differ only at `k`, by `d`: numbers after `k` differ by `d`. */
  lemma {:induction false} QuestionsBeforeShift(a: seq<Section>, b: seq<Section>, k: nat, d: int, s: nat)
    requires |a| == |b| && k < |a| && s <= |a|
    requires forall m :: 0 <= m < |a| && m != k ==> |a[m].questions| == |b[m].questions|
    requires |a[k].questions| == |b[k].questions| + d
    ensures QuestionsBefore(a, s) == QuestionsBefore(b, s) + (if s > k then d else 0)
  {
    if s > 0 {
      QuestionsBeforeShift(a, b, k, d, s - 1);
    }
  }

  /** After "Add question" in section `k`, every later section's numbers move up by one and earlier ones stay. */
  lemma NumbersAfterAddQuestion(ss: seq<Section>, sectionId: string, k: nat, s: nat)
    requires UniqueAt(ss, sectionId, k) && s <= |ss|
    ensures QuestionsBefore(QuestionAdded(ss, sectionId), s) == QuestionsBefore(ss, s) + (if s > k then 1 else 0)
  {
    QuestionsBeforeShift(QuestionAdded(ss, sectionId), ss, k, 1, s);
  }

  /** After deleting an existing question of section `k`, every later section's numbers move down by one. */
  lemma NumbersAfterDeleteQuestion(ss: seq<Section>, sectionId: string, k: nat, q: nat, s: nat)
    requires UniqueAt(ss, sectionId, k) && q < |ss[k].questions| && s <= |ss|
    ensures QuestionsBefore(QuestionDeleted(ss, sectionId, q), s) == QuestionsBefore(ss, s) - (if s > k then 1 else 0)
  {
    var r := QuestionDeleted(ss, sectionId, q);
    var before := ss[k].questions;
    assert r[k].questions == before[..q] + before[q + 1..];
    QuestionsBeforeShift(r, ss, k, -1, s);
  }

  /** A new section leaves every existing number alone, and its first question follows the last one. */
  lemma NumbersAfterAddSection(ss: seq<Section>, newId: string)
    ensures forall s :: 0 <= s <= |ss| ==> QuestionsBefore(SectionAdded(ss, newId), s) == QuestionsBefore(ss, s)
    ensures GlobalNumber(SectionAdded(ss, newId), |ss|, 0) == QuestionsBefore(ss, |ss|) + 1
  {
    forall s | 0 <= s <= |ss| ensures QuestionsBefore(SectionAdded(ss, newId), s) == QuestionsBefore(ss, s) {
      NumbersBeforeNewSection(ss, newId, s);
    }
  }

  lemma {:induction false} NumbersBeforeNewSection(ss: seq<Section>, newId: string, s: nat)
    requires s <= |ss|
    ensures QuestionsBefore(SectionAdded(ss, newId), s) == QuestionsBefore(ss, s)
  {
    if s > 0 {
      NumbersBeforeNewSection(ss, newId, s - 1);
    }
  }

  // ---------------------------------------------------------------------------
  // Loading saved worksheets

  /** A question as the database may hold it: a bare string from the old format, or a question record. */
  datatype StoredQuestion = LegacyText(text: string) | Structured(question: Question)

  datatype StoredSection = StoredSection(
    id: string,
    title: string,
    questionType: string,
    marksPerQuestion: int,
    questions: seq<StoredQuestion>)

  /** A saved worksheet as read back; fields the database may lack are Options. */
  datatype StoredWorksheet = StoredWorksheet(
    title: string,
    description: Option<string>,
    sections: Option<seq<StoredSection>>,
    generalInstructions: Option<seq<string>>)

  /** What the read of a saved worksheet returns. */
  datatype Fetched = ReadFailed | NotFound | Found(worksheet: StoredWorksheet)

  datatype LoadOutcome = Loaded | Missing | LoadFailed

  /** A bare string becomes a question with that text and no image; a question record is kept as it is. */
  function MigrateQuestion(q: StoredQuestion): Question {
    match q
    case LegacyText(t) => Question(Some(t), None)
    case Structured(question) => question
  }

  function MigrateSection(s: StoredSection): Section {
    Section(s.id, s.title, s.questionType, s.marksPerQuestion,
      seq(|s.questions|, j requires 0 <= j < |s.questions| => MigrateQuestion(s.questions[j])))
  }

  /** Converts every question of every section; sections, their settings and the question counts are preserved. */
  function MigrateSections(ss: seq<StoredSection>): (r: seq<Section>)
    ensures |r| == |ss|
    ensures forall k :: 0 <= k < |ss| ==>
      && r[k].id == ss[k].id && r[k].title == ss[k].title
      && r[k].questionType == ss[k].questionType && r[k].marksPerQuestion == ss[k].marksPerQuestion
      && |r[k].questions| == |ss[k].questions|
      && (forall j :: 0 <= j < |ss[k].questions| ==> r[k].questions[j] == MigrateQuestion(ss[k].questions[j]))
  {
    seq(|ss|, k requires 0 <= k < |ss| => MigrateSection(ss[k]))
  }

  /** Saving sections in the current format and loading them back gives the same sections. */
  function StoreSections(ss: seq<Section>): seq<StoredSection> {
    seq(|ss|, k requires 0 <= k < |ss| =>
      StoredSection(ss[k].id, ss[k].title, ss[k].questionType, ss[k].marksPerQuestion,
        seq(|ss[k].questions|, j requires 0 <= j < |ss[k].questions| => Structured(ss[k].questions[j]))))
  }

  lemma MigrateStoredSections(ss: seq<Section>)
    ensures MigrateSections(StoreSections(ss)) == ss
  {
    var r := MigrateSections(StoreSections(ss));
    forall k | 0 <= k < |ss| ensures r[k] == ss[k] {
      assert r[k].questions == ss[k].questions;
    }
  }

  /** Old-format text `t` becomes the question with text `t` and no image. */
  lemma MigrateLegacy(t: string)
    ensures MigrateQuestion(LegacyText(t)) == Question(Some(t), None)
    ensures !HasImage(MigrateQuestion(LegacyText(t)))
  {
  }

  // ---------------------------------------------------------------------------
  // The editor's state

  class WorksheetEditor {
    var title: string
    var description: string
    var generalInstructions: seq<string>
    var sections: seq<Section>

    /** A new worksheet: "Untitled Paper", the default instructions, one MCQ section with one empty question. */
    constructor (initialSectionId: string)
      ensures title == "Untitled Paper" && description == ""
      ensures generalInstructions == DEFAULT_INSTRUCTIONS
      ensures sections == [Section(initialSectionId, "Section A", "MCQ based-question", 1, [EMPTY_QUESTION])]
    {
      title := "Untitled Paper";
      description := "";
      generalInstructions := DEFAULT_INSTRUCTIONS;
      sections := [Section(initialSectionId, "Section A", "MCQ based-question", 1, [EMPTY_QUESTION])];
    }

    /** The worksheet the editor hands to the export dialog. */
    function Snapshot(id: string, userId: string): Worksheet
      reads this
    {
      Worksheet(id, title, description, Some(sections), Some(generalInstructions), userId)
    }

    /**
     * The editor always hands over a section list, so exporting what it holds never fails for want of
     * one, and an accepted export is built from the instructions and sections on screen.
     */
    lemma SnapshotHasSections(id: string, userId: string, o: DocxExport.ExportOptions, fetch: DocxExport.ImageFetcher)
      ensures DocxExport.ExportDocument(Snapshot(id, userId), o, fetch) != Failure(DocxExport.InvalidWorksheetData)
      ensures DocxExport.ExportDocument(Snapshot(id, userId), o, fetch).Success? ==>
        DocxExport.ExportDocument(Snapshot(id, userId), o, fetch).value
        == DocxExport.Export(
             DocxExport.Header(o) + DocxExport.GenerateInstructions(generalInstructions)
               + DocxExport.SectionsUpTo(sections, |sections|, fetch),
             DocxExport.FileName(title))
    {
      DocxExport.ExportAcceptance(Snapshot(id, userId), o, fetch);
    }

    method UpdateInstruction(index: int, value: string)
      modifies this
      ensures generalInstructions == ReplaceAt(old(generalInstructions), index, value)
      ensures sections == old(sections) && title == old(title) && description == old(description)
    {
      generalInstructions := ReplaceAt(generalInstructions, index, value);
    }

    method AddInstruction()
      modifies this
      ensures generalInstructions == old(generalInstructions) + [""]
      ensures sections == old(sections) && title == old(title) && description == old(description)
    {
      generalInstructions := generalInstructions + [""];
    }

    method RemoveInstruction(index: int)
      modifies this
      ensures generalInstructions == RemoveAt(old(generalInstructions), index)
      ensures sections == old(sections) && title == old(title) && description == old(description)
    {
      generalInstructions := RemoveAt(generalInstructions, index);
    }

    method UpdateQuestion(sectionId: string, questionIndex: int, value: Question)
      modifies this
      ensures sections == QuestionUpdated(old(sections), sectionId, questionIndex, value)
      ensures generalInstructions == old(generalInstructions) && title == old(title) && description == old(description)
    {
      sections := QuestionUpdated(sections, sectionId, questionIndex, value);
    }

    method AddQuestion(sectionId: string)
      modifies this
      ensures sections == QuestionAdded(old(sections), sectionId)
      ensures generalInstructions == old(generalInstructions) && title == old(title) && description == old(description)
    {
      sections := QuestionAdded(sections, sectionId);
    }

    method DeleteQuestion(sectionId: string, questionIndex: int)
      modifies this
      ensures sections == QuestionDeleted(old(sections), sectionId, questionIndex)
      ensures generalInstructions == old(generalInstructions) && title == old(title) && description == old(description)
    {
      sections := QuestionDeleted(sections, sectionId, questionIndex);
    }

    method UpdateSectionSettings(sectionId: string, newTitle: string, questionType: string, marks: int)
      modifies this
      ensures sections == SettingsUpdated(old(sections), sectionId, newTitle, questionType, marks)
      ensures generalInstructions == old(generalInstructions) && title == old(title) && description == old(description)
    {
      sections := SettingsUpdated(sections, sectionId, newTitle, questionType, marks);
    }

    /** `newId` stands for the clock-derived id the page gives a new section. */
    method AddSection(newId: string)
      modifies this
      ensures sections == SectionAdded(old(sections), newId)
      ensures generalInstructions == old(generalInstructions) && title == old(title) && description == old(description)
    {
      sections := SectionAdded(sections, newId);
    }

    /** The number shown next to question `questionIndex` of section `sectionIndex`. */
    method GlobalQuestionIndex(sectionIndex: nat, questionIndex: int) returns (index: int)
      requires sectionIndex <= |sections|
      ensures index == GlobalNumber(sections, sectionIndex, questionIndex)
    {
      var globalIndex := questionIndex;
      for i := 0 to sectionIndex
        invariant globalIndex == questionIndex + QuestionsBefore(sections, i)
      {
        globalIndex := globalIndex + |sections[i].questions|;
      }
      index := globalIndex + 1;
    }

    /**
     * Applies what reading the saved worksheet returned. Title and description are set before
     * the sections are converted, so a record without a section list still changes them and
     * then fails; a record without instructions gets the default ones.
     */
    method LoadWorksheet(fetched: Fetched) returns (outcome: LoadOutcome)
      modifies this
      ensures fetched.ReadFailed? ==> outcome == LoadFailed && unchanged(this)
      ensures fetched.NotFound? ==> outcome == Missing && unchanged(this)
      ensures fetched.Found? ==>
        var w := fetched.worksheet;
        && title == w.title && description == w.description.GetOr("")
        && (w.sections.None? ==>
              outcome == LoadFailed
              && sections == old(sections) && generalInstructions == old(generalInstructions))
        && (w.sections.Some? ==>
              outcome == Loaded
              && sections == MigrateSections(w.sections.value)
              && generalInstructions == w.generalInstructions.GetOr(DEFAULT_INSTRUCTIONS))
    {
      match fetched {
        case ReadFailed =>
          outcome := LoadFailed;
        case NotFound =>
          outcome := Missing;
        case Found(w) =>
          title := w.title;
          description := w.description.GetOr("");
          if w.sections.None? {
            outcome := LoadFailed;
          } else {
            sections := MigrateSections(w.sections.value);
            generalInstructions := w.generalInstructions.GetOr(DEFAULT_INSTRUCTIONS);
            outcome := Loaded;
          }
      }
    }
  }
}
