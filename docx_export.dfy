/**
 * The DOCX export assembler. Given a worksheet, the export options and an image
 * fetcher, it checks the inputs and produces the document as an ordered sequence
 * of blocks plus the download file name: a fixed header, the numbered general
 * instructions, then every section in order (its SECTION-<letter> title, its
 * instructions line, and per question a text paragraph followed, when the
 * question has an image URL, by the image or a placeholder if the fetch failed).
 * Serialising the blocks and saving the file are outside the model.
 */
module DocxExport {
  import opened Wrappers
  import opened JsText
  import opened Worksheets

  newtype Byte = b: int | 0 <= b < 256

  /** A run of text inside a paragraph, with the two emphasis flags the layout relies on. */
  datatype Run = Run(text: string, bold: bool, underline: bool)

  /** One block of the document body. */
  datatype Block =
    | Paragraph(centered: bool, runs: seq<Run>)
    | Image(data: seq<Byte>)
    | Placeholder(message: string)

  /** Fetching an image: the bytes behind a URL, or None when the request or the decoding fails. */
  type ImageFetcher = string -> Option<seq<Byte>>

  /** What the export dialog hands to the exporter. None in `maxMarks` stands for NaN. */
  datatype ExportOptions = ExportOptions(
    examTitle: string,
    title: string,
    subject: string,
    className: string,
    maxMarks: Option<int>,
    time: string,
    schoolName: string)

  datatype ExportError = InvalidWorksheetData | MissingExportOptions

  /** The message each rejection carries; the dialog shows it to the user. */
  function ErrorMessage(e: ExportError): string {
    match e
    case InvalidWorksheetData => "Invalid worksheet data"
    case MissingExportOptions => "Missing required export options"
  }

  /** The assembled document and the name it is saved under. */
  datatype Export = Export(document: seq<Block>, fileName: string)

  const IMAGE_PLACEHOLDER := "[Image could not be loaded]"

  /** The run of blanks between the time and the maximum marks on the meta line. */
  const META_GAP := "                                                                    "

  function RunsText(runs: seq<Run>): string {
    if runs == [] then "" else RunsText(runs[..|runs| - 1]) + runs[|runs| - 1].text
  }

  lemma RunsTextPair(a: Run, b: Run)
    ensures RunsText([a, b]) == a.text + b.text
  {
    assert [a, b][..1] == [a];
    assert [a][..0] == [];
    assert RunsText([a]) == RunsText([]) + a.text;
  }

  /** The visible text of a block; an image has none. */
  function BlockText(b: Block): string {
    match b
    case Paragraph(_, runs) => RunsText(runs)
    case Image(_) => ""
    case Placeholder(message) => message
  }

  predicate EndsWith(s: string, suffix: string) {
    |suffix| <= |s| && s[|s| - |suffix|..] == suffix
  }

  /** The "s" of "marks": present only when a question carries more than one mark. */
  function Plural(marks: int): string {
    if marks > 1 then "s" else ""
  }

  function SectionLabel(k: nat): string {
    "SECTION-" + [FromCharCode(65 + k)]
  }

  /** The centred, bold, underlined title of the section at position `k`. */
  function SectionTitle(k: nat): Block {
    Paragraph(true, [Run(SectionLabel(k), true, true)])
  }

  function InstructionsLine(s: Section): string {
    s.questionType + " type questions. Each question carries "
      + IntToString(s.marksPerQuestion) + " mark" + Plural(s.marksPerQuestion) + "."
  }

  function SectionInstructions(s: Section): Block {
    Paragraph(false, [Run(InstructionsLine(s), false, false)])
  }

  function MarkSuffix(marks: int): string {
    " [" + IntToString(marks) + " Mark" + Plural(marks) + "]"
  }

  /** Question `number`: a bold "<number>. ", the text (unset text prints as ""), a bold mark suffix. */
  function QuestionParagraph(q: Question, number: int, marks: int): Block {
    Paragraph(false, [
      Run(IntToString(number) + ". ", true, false),
      Run(q.text.GetOr(""), false, false),
      Run(MarkSuffix(marks), true, false)])
  }

  /** What stands where a question's image goes: the image, or the placeholder when the fetch failed. */
  function ImageSlot(fetched: Option<seq<Byte>>): Block {
    match fetched
    case Some(data) => Image(data)
    case None => Placeholder(IMAGE_PLACEHOLDER)
  }

  function QuestionBlocks(q: Question, number: int, marks: int, fetch: ImageFetcher): seq<Block> {
    [QuestionParagraph(q, number, marks)]
      + (if HasImage(q) then [ImageSlot(fetch(q.imageUrl.value))] else [])
  }

  /** The blocks of the first `n` questions, numbered 1..n. */
  function QuestionsUpTo(qs: seq<Question>, n: nat, marks: int, fetch: ImageFetcher): seq<Block>
    requires n <= |qs|
  {
    if n == 0 then []
    else QuestionsUpTo(qs, n - 1, marks, fetch) + QuestionBlocks(qs[n - 1], n, marks, fetch)
  }

  /** Everything the section at position `k` contributes to the document. */
  function SectionBlocks(s: Section, k: nat, fetch: ImageFetcher): seq<Block> {
    [SectionTitle(k), SectionInstructions(s)]
      + QuestionsUpTo(s.questions, |s.questions|, s.marksPerQuestion, fetch)
  }

  /** Renders one section, awaiting each image before moving to the next question. */
  method GenerateSection(section: Section, sectionIndex: nat, fetch: ImageFetcher) returns (blocks: seq<Block>)
    ensures blocks == SectionBlocks(section, sectionIndex, fetch)
  {
    var marks := section.marksPerQuestion;
    var questions: seq<Block> := [];
    for qIndex := 0 to |section.questions|
      invariant questions == QuestionsUpTo(section.questions, qIndex, marks, fetch)
    {
      var question := section.questions[qIndex];
      var number := qIndex + 1;
      questions := questions + [QuestionParagraph(question, number, marks)];
      if HasImage(question) {
        var imageData := fetch(question.imageUrl.value);
        match imageData {
          case Some(data) =>
            questions := questions + [Image(data)];
          case None =>
            questions := questions + [Placeholder(IMAGE_PLACEHOLDER)];
        }
      }
    }
    blocks := [SectionTitle(sectionIndex), SectionInstructions(section)] + questions;
  }

  /** The general instruction at 0-based `index`, numbered from 1. */
  function InstructionParagraph(index: nat, instruction: string): (b: Block)
    ensures b.Paragraph? && BlockText(b) == IntToString(index + 1) + ". " + instruction
  {
    var number := Run(IntToString(index + 1) + ". ", true, false);
    RunsTextPair(number, Run(instruction, false, false));
    Paragraph(false, [number, Run(instruction, false, false)])
  }

  /** One numbered paragraph per general instruction, in order. */
  function GenerateInstructions(instructions: seq<string>): (r: seq<Block>)
    ensures |r| == |instructions|
    ensures forall i :: 0 <= i < |r| ==>
      r[i].Paragraph? && BlockText(r[i]) == IntToString(i + 1) + ". " + instructions[i]
  {
    seq(|instructions|, i requires 0 <= i < |instructions| => InstructionParagraph(i, instructions[i]))
  }

  /** The first `n` parts, joined in order. */
  function Concat<T>(parts: seq<seq<T>>, n: nat): seq<T>
    requires n <= |parts|
  {
    if n == 0 then [] else Concat(parts, n - 1) + parts[n - 1]
  }

  /** What each section renders to, section `k` labelled by its position `k`. */
  function RenderedSections(ss: seq<Section>, fetch: ImageFetcher): seq<seq<Block>> {
    seq(|ss|, k requires 0 <= k < |ss| => SectionBlocks(ss[k], k, fetch))
  }

  /** The blocks of the first `n` sections, in section order. */
  function SectionsUpTo(ss: seq<Section>, n: nat, fetch: ImageFetcher): seq<Block>
    requires n <= |ss|
  {
    Concat(RenderedSections(ss, fetch), n)
  }

  /** `maxMarks.toString()`. */
  function MaxMarksText(maxMarks: Option<int>): string {
    match maxMarks
    case Some(v) => IntToString(v)
    case None => "NaN"
  }

  /** Exam title, school, class, the Time/M.M. line, the subject line and the instructions heading. */
  function Header(o: ExportOptions): seq<Block> {
    [ Paragraph(true, [Run(o.examTitle, true, false)]),
      Paragraph(true, [Run(ToUpper(o.schoolName), true, false)]),
      Paragraph(true, [Run(ToUpper(o.className), true, false)]),
      Paragraph(false, [Run("Time: ", false, false), Run(ToUpper(o.time), false, false),
                        Run(META_GAP, false, false), Run("M.M.: ", false, false),
                        Run(MaxMarksText(o.maxMarks), false, false)]),
      Paragraph(true, [Run("SUBJECT: ", false, false), Run(ToUpper(o.subject), false, false)]),
      Paragraph(false, [Run("General Instructions:", true, true)]) ]
  }

  /** JavaScript truthiness of a number: neither 0 nor NaN. */
  predicate Truthy(n: Option<int>) {
    n.Some? && n.value != 0
  }

  /** The input checks, in the order the exporter makes them. */
  function CheckInputs(w: Worksheet, o: ExportOptions): Option<ExportError> {
    if w.sections.None? then Some(InvalidWorksheetData)
    else if o.schoolName == "" || o.subject == "" || o.className == "" || o.time == "" || !Truthy(o.maxMarks)
    then Some(MissingExportOptions)
    else None
  }

  /** The download name: the worksheet title, or "Worksheet" when it is empty, plus ".docx". */
  function FileName(title: string): (name: string)
    ensures EndsWith(name, ".docx")
    ensures title != "" ==> name[..|name| - 5] == title
    ensures title == "" ==> name == "Worksheet.docx"
  {
    var name := (if title == "" then "Worksheet" else title) + ".docx";
    assert name[|name| - 5..] == ".docx";
    name
  }

  /** What exporting `w` with `o` produces, given how each image fetch turns out. */
  function ExportDocument(w: Worksheet, o: ExportOptions, fetch: ImageFetcher): Result<Export, ExportError> {
    match CheckInputs(w, o)
    case Some(e) => Failure(e)
    case None =>
      var ss := w.sections.value;
      Success(Export(
        Header(o) + GenerateInstructions(w.generalInstructions.GetOr([])) + SectionsUpTo(ss, |ss|, fetch),
        FileName(w.title)))
  }

  /** Checks the inputs, renders the sections one after another, then assembles the document. */
  method GenerateWorksheetDocx(worksheet: Worksheet, options: ExportOptions, fetch: ImageFetcher)
    returns (r: Result<Export, ExportError>)
    ensures r == ExportDocument(worksheet, options, fetch)
  {
    if worksheet.sections.None? {
      return Failure(InvalidWorksheetData);
    }
    if options.schoolName == "" || options.subject == "" || options.className == ""
      || options.time == "" || !Truthy(options.maxMarks)
    {
      return Failure(MissingExportOptions);
    }
    var all := worksheet.sections.value;
    var sections: seq<Block> := [];
    for index := 0 to |all|
      invariant sections == SectionsUpTo(all, index, fetch)
    {
      var sectionElements := GenerateSection(all[index], index, fetch);
      sections := sections + sectionElements;
    }
    var document := Header(options) + GenerateInstructions(worksheet.generalInstructions.GetOr([])) + sections;
    r := Success(Export(document, FileName(worksheet.title)));
  }

  // ---------------------------------------------------------------------------
  // Layout of one section

  /** Where question `j` of a section starts: after the title, the instructions and the blocks of questions 0..j-1. */
  function QuestionOffset(qs: seq<Question>, j: nat): nat
    requires j <= |qs|
  {
    2 + j + CountImages(qs[..j])
  }

  lemma {:induction false} QuestionsUpToLength(qs: seq<Question>, n: nat, marks: int, fetch: ImageFetcher)
    requires n <= |qs|
    ensures |QuestionsUpTo(qs, n, marks, fetch)| == n + CountImages(qs[..n])
  {
    if n > 0 {
      QuestionsUpToLength(qs, n - 1, marks, fetch);
      assert qs[..n][..n - 1] == qs[..n - 1];
    }
  }

  lemma PrefixIndex<T>(a: seq<T>, b: seq<T>, i: nat)
    requires i < |a|
    ensures i < |a + b| && (a + b)[i] == a[i]
  {
  }

  /** Question `j` is the last of the first `j + 1`; its blocks come right after those of the questions before it. */
  lemma QuestionsUpToLast(qs: seq<Question>, j: nat, marks: int, fetch: ImageFetcher)
    requires j < |qs|
    ensures var p := j + CountImages(qs[..j]);
      var b := QuestionsUpTo(qs, j + 1, marks, fetch);
      && p < |b| && b[p] == QuestionParagraph(qs[j], j + 1, marks)
      && (HasImage(qs[j]) ==> p + 1 < |b| && b[p + 1] == ImageSlot(fetch(qs[j].imageUrl.value)))
  {
    QuestionsUpToLength(qs, j, marks, fetch);
    var prefix := QuestionsUpTo(qs, j, marks, fetch);
    var last := QuestionBlocks(qs[j], j + 1, marks, fetch);
    assert QuestionsUpTo(qs, j + 1, marks, fetch) == prefix + last;
    assert last[0] == QuestionParagraph(qs[j], j + 1, marks);
  }

  lemma {:induction false} QuestionsUpToAt(qs: seq<Question>, n: nat, marks: int, fetch: ImageFetcher, j: nat)
    requires j < n <= |qs|
    ensures var p := j + CountImages(qs[..j]);
      var b := QuestionsUpTo(qs, n, marks, fetch);
      && p < |b| && b[p] == QuestionParagraph(qs[j], j + 1, marks)
      && (HasImage(qs[j]) ==> p + 1 < |b| && b[p + 1] == ImageSlot(fetch(qs[j].imageUrl.value)))
  {
    if j < n - 1 {
      QuestionsUpToAt(qs, n - 1, marks, fetch, j);
      var prefix := QuestionsUpTo(qs, n - 1, marks, fetch);
      var last := QuestionBlocks(qs[n - 1], n, marks, fetch);
      assert QuestionsUpTo(qs, n, marks, fetch) == prefix + last;
      var p := j + CountImages(qs[..j]);
      PrefixIndex(prefix, last, p);
      if HasImage(qs[j]) {
        PrefixIndex(prefix, last, p + 1);
      }
    } else {
      assert n == j + 1;
      QuestionsUpToLast(qs, j, marks, fetch);
    }
  }

  /**
   * A section renders to its title, its instructions line and, per question, one text
   * block plus one more block exactly when the question has an image URL.
   */
  lemma SectionBlockCount(s: Section, k: nat, fetch: ImageFetcher)
    ensures |SectionBlocks(s, k, fetch)| == 2 + |s.questions| + CountImages(s.questions)
    ensures |SectionBlocks(s, k, fetch)| == QuestionOffset(s.questions, |s.questions|)
  {
    QuestionsUpToLength(s.questions, |s.questions|, s.marksPerQuestion, fetch);
    assert s.questions[..|s.questions|] == s.questions;
  }

  /** Question `j + 1` comes right after question `j` and its image slot, if it has one. */
  lemma NextQuestionOffset(qs: seq<Question>, j: nat)
    requires j < |qs|
    ensures QuestionOffset(qs, j + 1) == QuestionOffset(qs, j) + 1 + (if HasImage(qs[j]) then 1 else 0)
  {
    assert qs[..j + 1][..j] == qs[..j];
  }

  /** The visible text of a question paragraph: its number, the text and the mark suffix. */
  lemma QuestionParagraphText(q: Question, number: int, marks: int)
    ensures BlockText(QuestionParagraph(q, number, marks)) == IntToString(number) + ". " + q.text.GetOr("") + MarkSuffix(marks)
  {
    var runs := QuestionParagraph(q, number, marks).runs;
    RunsTextPair(runs[0], runs[1]);
    assert runs[..2] == [runs[0], runs[1]];
  }

  /**
   * Question `j` (0-based) of a section sits at QuestionOffset(j), numbered j + 1 whatever the
   * section's position; when it has an image URL the next block is the image, or the placeholder
   * when the fetch failed.
   */
  lemma SectionQuestionAt(s: Section, k: nat, fetch: ImageFetcher, j: nat)
    requires j < |s.questions|
    ensures var b := SectionBlocks(s, k, fetch);
      var p := QuestionOffset(s.questions, j);
      var q := s.questions[j];
      && p < |b|
      && b[p] == QuestionParagraph(q, j + 1, s.marksPerQuestion)
      && BlockText(b[p]) == IntToString(j + 1) + ". " + q.text.GetOr("") + MarkSuffix(s.marksPerQuestion)
      && (HasImage(q) && fetch(q.imageUrl.value).Some? ==> p + 1 < |b| && b[p + 1] == Image(fetch(q.imageUrl.value).value))
      && (HasImage(q) && fetch(q.imageUrl.value).None? ==> p + 1 < |b| && b[p + 1] == Placeholder(IMAGE_PLACEHOLDER))
  {
    SectionParagraphAt(s, k, fetch, j);
    if HasImage(s.questions[j]) {
      SectionImageAt(s, k, fetch, j);
    }
    QuestionParagraphText(s.questions[j], j + 1, s.marksPerQuestion);
  }

  /** Question `j`'s paragraph, located inside the whole section. */
  lemma SectionParagraphAt(s: Section, k: nat, fetch: ImageFetcher, j: nat)
    requires j < |s.questions|
    ensures QuestionOffset(s.questions, j) < |SectionBlocks(s, k, fetch)|
    ensures SectionBlocks(s, k, fetch)[QuestionOffset(s.questions, j)] == QuestionParagraph(s.questions[j], j + 1, s.marksPerQuestion)
  {
    var qs := s.questions;
    QuestionsUpToAt(qs, |qs|, s.marksPerQuestion, fetch, j);
    AfterHeading(SectionBlocks(s, k, fetch), SectionTitle(k), SectionInstructions(s),
      QuestionsUpTo(qs, |qs|, s.marksPerQuestion, fetch), j + CountImages(qs[..j]), QuestionOffset(qs, j));
  }

  /** The image slot of question `j`, when it has an image URL, is the block right after its paragraph. */
  lemma SectionImageAt(s: Section, k: nat, fetch: ImageFetcher, j: nat)
    requires j < |s.questions| && HasImage(s.questions[j])
    ensures QuestionOffset(s.questions, j) + 1 < |SectionBlocks(s, k, fetch)|
    ensures SectionBlocks(s, k, fetch)[QuestionOffset(s.questions, j) + 1] == ImageSlot(fetch(s.questions[j].imageUrl.value))
  {
    var qs := s.questions;
    QuestionsUpToAt(qs, |qs|, s.marksPerQuestion, fetch, j);
    AfterHeading(SectionBlocks(s, k, fetch), SectionTitle(k), SectionInstructions(s),
      QuestionsUpTo(qs, |qs|, s.marksPerQuestion, fetch), j + CountImages(qs[..j]) + 1, QuestionOffset(qs, j) + 1);
  }

  /** Behind a two-block heading, a body's block `p` sits at `p + 2`. */
  lemma AfterHeading<T>(b: seq<T>, x: T, y: T, body: seq<T>, p: nat, off: nat)
    requires b == [x, y] + body && off == p + 2 && p < |body|
    ensures off < |b| && b[off] == body[p]
  {
  }

  /** The section title is "SECTION-" plus the letter of its position; the section's stored title plays no part. */
  lemma SectionTitleIsPositional(s: Section, k: nat, fetch: ImageFetcher, otherTitle: string)
    ensures SectionBlocks(s, k, fetch)[0] == SectionTitle(k)
    ensures BlockText(SectionTitle(k)) == "SECTION-" + [FromCharCode(65 + k)]
    ensures k < 26 ==> BlockText(SectionTitle(k)) == "SECTION-" + [ALPHABET[k]]
    ensures SectionBlocks(s.(title := otherTitle), k, fetch) == SectionBlocks(s, k, fetch)
  {
    assert [Run(SectionLabel(k), true, true)][..0] == [];
    if k < 26 {
      FromCharCodeLetters(k);
    }
  }

  /** A suffix of `b` is a suffix of anything that ends with `b`. */
  lemma EndsWithAfter(a: string, b: string, suffix: string)
    requires EndsWith(b, suffix)
    ensures EndsWith(a + b, suffix)
  {
    assert (a + b)[|a + b| - |suffix|..] == b[|b| - |suffix|..];
  }

  /** The instructions line ends in "marks." exactly when a question carries more than one mark, else in "mark.". */
  lemma InstructionsPlural(s: Section)
    ensures EndsWith(InstructionsLine(s), "marks.") <==> s.marksPerQuestion > 1
    ensures s.marksPerQuestion <= 1 ==> EndsWith(InstructionsLine(s), " mark.")
  {
    var head := s.questionType + " type questions. Each question carries " + IntToString(s.marksPerQuestion);
    if s.marksPerQuestion > 1 {
      assert InstructionsLine(s) == head + " marks.";
      EndsWithAfter(head, " marks.", "marks.");
    } else {
      assert InstructionsLine(s) == head + " mark.";
      EndsWithAfter(head, " mark.", " mark.");
    }
  }

  /** The per-question suffix reads " [<m> Marks]" exactly when m > 1, else " [<m> Mark]". */
  lemma MarkSuffixPlural(marks: int)
    ensures EndsWith(MarkSuffix(marks), "Marks]") <==> marks > 1
    ensures marks <= 1 ==> EndsWith(MarkSuffix(marks), " Mark]")
  {
    var head := " [" + IntToString(marks);
    if marks > 1 {
      assert MarkSuffix(marks) == head + " Marks]";
      EndsWithAfter(head, " Marks]", "Marks]");
    } else {
      assert MarkSuffix(marks) == head + " Mark]";
      EndsWithAfter(head, " Mark]", " Mark]");
    }
  }

  lemma EndsWithAppend(a: string, b: string)
    ensures EndsWith(a + b, b)
  {
    assert (a + b)[|a + b| - |b|..] == b;
  }

  lemma SmallNumberTexts()
    ensures IntToString(1) == "1" && IntToString(2) == "2"
  {
  }

  /** After a question, one mark prints as " [1 Mark]" and two as " [2 Marks]". */
  lemma MarkSuffixExamples()
    ensures MarkSuffix(1) == " [1 Mark]" && MarkSuffix(2) == " [2 Marks]"
  {
    SmallNumberTexts();
  }

  /** On the instructions line, one mark prints as "carries 1 mark." and two as "carries 2 marks.". */
  lemma InstructionsExamples(s: Section)
    ensures s.marksPerQuestion == 1 ==> EndsWith(InstructionsLine(s), "carries 1 mark.")
    ensures s.marksPerQuestion == 2 ==> EndsWith(InstructionsLine(s), "carries 2 marks.")
  {
    SmallNumberTexts();
    var lead := s.questionType + " type questions. Each question ";
    if s.marksPerQuestion == 1 {
      assert InstructionsLine(s) == lead + "carries 1 mark.";
      EndsWithAppend(lead, "carries 1 mark.");
    } else if s.marksPerQuestion == 2 {
      assert InstructionsLine(s) == lead + "carries 2 marks.";
      EndsWithAppend(lead, "carries 2 marks.");
    }
  }

  // ---------------------------------------------------------------------------
  // Layout of the whole document

  /** Number of blocks a section renders to, whatever the fetches return. */
  function SectionSize(s: Section): nat {
    2 + |s.questions| + CountImages(s.questions)
  }

  /** Number of blocks the first `n` sections produce. */
  function SectionsLength(ss: seq<Section>, n: nat): nat
    requires n <= |ss|
  {
    if n == 0 then 0 else SectionsLength(ss, n - 1) + SectionSize(ss[n - 1])
  }

  lemma {:induction false} PartsLength(ss: seq<Section>, parts: seq<seq<Block>>, n: nat)
    requires |parts| == |ss| && n <= |ss|
    requires forall k :: 0 <= k < |ss| ==> |parts[k]| == SectionSize(ss[k])
    ensures |Concat(parts, n)| == SectionsLength(ss, n)
  {
    if n > 0 {
      PartsLength(ss, parts, n - 1);
    }
  }

  /** However the fetches turn out, the first `n` sections produce SectionsLength(ss, n) blocks. */
  lemma SectionsUpToLength(ss: seq<Section>, n: nat, fetch: ImageFetcher)
    requires n <= |ss|
    ensures |SectionsUpTo(ss, n, fetch)| == SectionsLength(ss, n)
  {
    var parts := RenderedSections(ss, fetch);
    forall k | 0 <= k < |ss| ensures |parts[k]| == SectionSize(ss[k]) {
      SectionBlockCount(ss[k], k, fetch);
    }
    PartsLength(ss, parts, n);
  }

  lemma {:induction false} ConcatPrefix<T>(parts: seq<seq<T>>, k: nat, n: nat)
    requires k <= n <= |parts|
    ensures |Concat(parts, k)| <= |Concat(parts, n)|
    ensures Concat(parts, k) == Concat(parts, n)[..|Concat(parts, k)|]
    decreases n - k
  {
    if k < n {
      ConcatPrefix(parts, k, n - 1);
      var a := Concat(parts, n - 1);
      assert (a + parts[n - 1])[..|Concat(parts, k)|] == a[..|Concat(parts, k)|];
    }
  }

  /** Part `k` is found whole in the joined sequence, right after parts 0..k-1. */
  lemma ConcatSlice<T>(parts: seq<seq<T>>, k: nat)
    requires k < |parts|
    ensures var all := Concat(parts, |parts|);
      var lo := |Concat(parts, k)|;
      && lo + |parts[k]| <= |all| && all[lo..lo + |parts[k]|] == parts[k]
  {
    ConcatPrefix(parts, k + 1, |parts|);
    var c := Concat(parts, k);
    assert (c + parts[k])[|c|..] == parts[k];
  }

  /**
   * Sections keep their input order: the blocks of section `k` occupy the stretch that starts after
   * all blocks of sections 0..k-1, and that stretch is exactly what section `k` renders to.
   */
  lemma SectionsInOrder(ss: seq<Section>, k: nat, fetch: ImageFetcher)
    requires k < |ss|
    ensures var all := SectionsUpTo(ss, |ss|, fetch);
      var lo := SectionsLength(ss, k);
      var hi := SectionsLength(ss, k + 1);
      && lo <= hi <= |all| && all[lo..hi] == SectionBlocks(ss[k], k, fetch)
  {
    var parts := RenderedSections(ss, fetch);
    ConcatSlice(parts, k);
    SectionsUpToLength(ss, k, fetch);
    assert |Concat(parts, k)| == SectionsLength(ss, k);
    SectionBlockCount(ss[k], k, fetch);
    assert parts[k] == SectionBlocks(ss[k], k, fetch);
    assert SectionsLength(ss, k + 1) == SectionsLength(ss, k) + |parts[k]|;
  }

  lemma HeaderText(o: ExportOptions)
    ensures |Header(o)| == 6
    ensures BlockText(Header(o)[0]) == o.examTitle
    ensures BlockText(Header(o)[1]) == ToUpper(o.schoolName)
    ensures BlockText(Header(o)[2]) == ToUpper(o.className)
    ensures BlockText(Header(o)[3]) == "Time: " + ToUpper(o.time) + META_GAP + "M.M.: " + MaxMarksText(o.maxMarks)
    ensures BlockText(Header(o)[4]) == "SUBJECT: " + ToUpper(o.subject)
    ensures BlockText(Header(o)[5]) == "General Instructions:"
  {
    forall r: Run ensures RunsText([r]) == r.text {
      assert [r][..0] == [];
    }
    var meta := Header(o)[3].runs;
    RunsTextPair(meta[0], meta[1]);
    assert meta[..2] == [meta[0], meta[1]];
    assert meta[..3][..2] == meta[..2];
    assert meta[..4][..3] == meta[..3];
    assert RunsText(meta[..3]) == RunsText(meta[..2]) + meta[2].text;
    assert RunsText(meta[..4]) == RunsText(meta[..3]) + meta[3].text;
    assert RunsText(meta) == RunsText(meta[..4]) + meta[4].text;
    RunsTextPair(Header(o)[4].runs[0], Header(o)[4].runs[1]);
  }

  lemma AcceptedDocument(w: Worksheet, o: ExportOptions, fetch: ImageFetcher)
    requires ExportDocument(w, o, fetch).Success?
    ensures w.sections.Some?
    ensures ExportDocument(w, o, fetch).value.document
      == Header(o) + GenerateInstructions(w.generalInstructions.GetOr([]))
         + SectionsUpTo(w.sections.value, |w.sections.value|, fetch)
  {
  }

  /** An accepted document is the six header blocks, one block per instruction, then the sections. */
  lemma DocumentShape(w: Worksheet, o: ExportOptions, fetch: ImageFetcher)
    requires ExportDocument(w, o, fetch).Success?
    ensures var d := ExportDocument(w, o, fetch).value.document;
      var ins := w.generalInstructions.GetOr([]);
      var ss := w.sections.value;
      && |d| == 6 + |ins| + SectionsLength(ss, |ss|)
      && d[..6] == Header(o)
      && d[6 + |ins|..] == SectionsUpTo(ss, |ss|, fetch)
  {
    AcceptedDocument(w, o, fetch);
    var ss := w.sections.value;
    var ins := w.generalInstructions.GetOr([]);
    var d := ExportDocument(w, o, fetch).value.document;
    var header := Header(o);
    var body := SectionsUpTo(ss, |ss|, fetch);
    assert |header| == 6;
    SectionsUpToLength(ss, |ss|, fetch);
    assert d == header + GenerateInstructions(ins) + body;
    assert d[..6] == header;
    assert d[6 + |ins|..] == body;
  }

  /**
   * An accepted export lays the document out as: the six header blocks (the last one the
   * "General Instructions:" heading), one numbered block per general instruction (none when the
   * list is unset or empty), then the blocks of every section.
   */
  lemma DocumentLayout(w: Worksheet, o: ExportOptions, fetch: ImageFetcher)
    requires ExportDocument(w, o, fetch).Success?
    ensures var d := ExportDocument(w, o, fetch).value.document;
      var ins := w.generalInstructions.GetOr([]);
      var ss := w.sections.value;
      && |d| == 6 + |ins| + SectionsLength(ss, |ss|)
      && d[..6] == Header(o)
      && (forall i :: 0 <= i < |ins| ==> BlockText(d[6 + i]) == IntToString(i + 1) + ". " + ins[i])
      && d[6 + |ins|..] == SectionsUpTo(ss, |ss|, fetch)
  {
    DocumentShape(w, o, fetch);
    AcceptedDocument(w, o, fetch);
    var ins := w.generalInstructions.GetOr([]);
    var d := ExportDocument(w, o, fetch).value.document;
    var numbered := GenerateInstructions(ins);
    var body := SectionsUpTo(w.sections.value, |w.sections.value|, fetch);
    assert |Header(o)| == 6;
    forall i | 0 <= i < |ins| ensures d[6 + i] == numbered[i] {
      MiddleIndex(Header(o), numbered, body, i, 6 + i);
    }
  }

  /** Block `i` of the middle part of `a + m + c` sits at `|a| + i`. */
  lemma MiddleIndex<T>(a: seq<T>, m: seq<T>, c: seq<T>, i: nat, at: nat)
    requires i < |m| && at == |a| + i
    ensures at < |a + m + c| && (a + m + c)[at] == m[i]
  {
  }

  // ---------------------------------------------------------------------------
  // Input checks

  /**
   * The export is refused with "Invalid worksheet data" exactly when the section list is unset, and
   * otherwise with "Missing required export options" exactly when school, subject, class or time is
   * empty or maxMarks is 0 or NaN. A negative maxMarks passes, and the exam title is never checked.
   */
  lemma ExportAcceptance(w: Worksheet, o: ExportOptions, fetch: ImageFetcher)
    ensures ExportDocument(w, o, fetch) == Failure(InvalidWorksheetData) <==> w.sections.None?
    ensures ExportDocument(w, o, fetch) == Failure(MissingExportOptions) <==>
      w.sections.Some? &&
      (o.schoolName == "" || o.subject == "" || o.className == "" || o.time == ""
        || o.maxMarks == None || o.maxMarks == Some(0))
    ensures ExportDocument(w, o, fetch).Success? <==>
      w.sections.Some? && o.schoolName != "" && o.subject != "" && o.className != "" && o.time != ""
      && o.maxMarks.Some? && o.maxMarks.value != 0
  {
  }

  lemma ExamTitleNotChecked(w: Worksheet, o: ExportOptions, fetch: ImageFetcher, examTitle: string)
    ensures ExportDocument(w, o.(examTitle := examTitle), fetch).Success? == ExportDocument(w, o, fetch).Success?
  {
  }

  // ---------------------------------------------------------------------------
  // Image fetches change image payloads only

  /** A block with any image payload forgotten: images and placeholders look alike. */
  function Erase(b: Block): Block {
    if b.Paragraph? then b else Image([])
  }

  /** Two documents with the same blocks, except that an image may stand where the other has a placeholder. */
  predicate SameLayout(a: seq<Block>, b: seq<Block>) {
    |a| == |b| && forall i :: 0 <= i < |a| ==> Erase(a[i]) == Erase(b[i])
  }

  lemma SameLayoutConcat(a1: seq<Block>, a2: seq<Block>, b1: seq<Block>, b2: seq<Block>)
    requires SameLayout(a1, b1) && SameLayout(a2, b2)
    ensures SameLayout(a1 + a2, b1 + b2)
  {
    forall i | 0 <= i < |a1 + a2| ensures Erase((a1 + a2)[i]) == Erase((b1 + b2)[i]) {
      if i >= |a1| {
        assert (a1 + a2)[i] == a2[i - |a1|] && (b1 + b2)[i] == b2[i - |a1|];
      }
    }
  }

  lemma {:induction false} QuestionsLayoutIndependent(qs: seq<Question>, n: nat, marks: int, f: ImageFetcher, g: ImageFetcher)
    requires n <= |qs|
    ensures SameLayout(QuestionsUpTo(qs, n, marks, f), QuestionsUpTo(qs, n, marks, g))
  {
    if n > 0 {
      QuestionsLayoutIndependent(qs, n - 1, marks, f, g);
      SameLayoutConcat(QuestionsUpTo(qs, n - 1, marks, f), QuestionBlocks(qs[n - 1], n, marks, f),
                       QuestionsUpTo(qs, n - 1, marks, g), QuestionBlocks(qs[n - 1], n, marks, g));
    }
  }

  lemma SectionLayoutIndependent(s: Section, k: nat, f: ImageFetcher, g: ImageFetcher)
    ensures SameLayout(SectionBlocks(s, k, f), SectionBlocks(s, k, g))
  {
    QuestionsLayoutIndependent(s.questions, |s.questions|, s.marksPerQuestion, f, g);
    var head := [SectionTitle(k), SectionInstructions(s)];
    SameLayoutConcat(head, QuestionsUpTo(s.questions, |s.questions|, s.marksPerQuestion, f),
                     head, QuestionsUpTo(s.questions, |s.questions|, s.marksPerQuestion, g));
  }

  lemma {:induction false} ConcatSameLayout(p1: seq<seq<Block>>, p2: seq<seq<Block>>, n: nat)
    requires |p1| == |p2| && n <= |p1|
    requires forall k :: 0 <= k < |p1| ==> SameLayout(p1[k], p2[k])
    ensures SameLayout(Concat(p1, n), Concat(p2, n))
  {
    if n > 0 {
      ConcatSameLayout(p1, p2, n - 1);
      SameLayoutConcat(Concat(p1, n - 1), p1[n - 1], Concat(p2, n - 1), p2[n - 1]);
    }
  }

  lemma SectionsLayoutIndependent(ss: seq<Section>, n: nat, f: ImageFetcher, g: ImageFetcher)
    requires n <= |ss|
    ensures SameLayout(SectionsUpTo(ss, n, f), SectionsUpTo(ss, n, g))
  {
    var p1, p2 := RenderedSections(ss, f), RenderedSections(ss, g);
    forall k | 0 <= k < |ss| ensures SameLayout(p1[k], p2[k]) {
      SectionLayoutIndependent(ss[k], k, f, g);
    }
    ConcatSameLayout(p1, p2, n);
  }

  /**
   * How image fetches turn out never decides whether the export succeeds, nor its file name,
   * nor any text block: a failed fetch only swaps an image for the placeholder in the same place.
   */
  lemma ExportIndependentOfFetch(w: Worksheet, o: ExportOptions, f: ImageFetcher, g: ImageFetcher)
    ensures ExportDocument(w, o, f).Success? == ExportDocument(w, o, g).Success?
    ensures ExportDocument(w, o, f).Failure? ==> ExportDocument(w, o, f) == ExportDocument(w, o, g)
    ensures ExportDocument(w, o, f).Success? ==>
      && ExportDocument(w, o, f).value.fileName == ExportDocument(w, o, g).value.fileName
      && SameLayout(ExportDocument(w, o, f).value.document, ExportDocument(w, o, g).value.document)
  {
    if CheckInputs(w, o).None? {
      var ss := w.sections.value;
      var front := Header(o) + GenerateInstructions(w.generalInstructions.GetOr([]));
      SectionsLayoutIndependent(ss, |ss|, f, g);
      SameLayoutConcat(front, SectionsUpTo(ss, |ss|, f), front, SectionsUpTo(ss, |ss|, g));
    }
  }
}
