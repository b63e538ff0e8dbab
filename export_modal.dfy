/**
 * The export dialog: a form with the exam title, school, subject, class, time
 * and maximum marks, checked field by field in a fixed order before the
 * exporter is called with the trimmed values. The dialog tracks whether an
 * export is running and closes itself only when the export succeeds.
 */
module ExportDialog {
  import opened Wrappers
  import opened JsText
  import opened Worksheets
  import DocxExport

  /** The form as typed: every field is raw text, including the maximum marks. */
  datatype ExportForm = ExportForm(
    examTitle: string,
    schoolName: string,
    subject: string,
    className: string,
    time: string,
    maxMarks: string,
    exportFormat: string)

  /** The fields in the order the form checks them. */
  datatype FormField = ExamTitle | SchoolName | Subject | ClassName | Time | MaxMarks

  function FieldOrder(f: FormField): nat {
    match f
    case ExamTitle => 0
    case SchoolName => 1
    case Subject => 2
    case ClassName => 3
    case Time => 4
    case MaxMarks => 5
  }

  /** The error shown when `f` is the first field that fails. */
  function FieldMessage(f: FormField): string {
    match f
    case ExamTitle => "Please enter the exam title"
    case SchoolName => "Please enter the school name"
    case Subject => "Please enter the subject"
    case ClassName => "Please enter the class"
    case Time => "Please enter the time duration"
    case MaxMarks => "Please enter valid maximum marks"
  }

  /** A text field fails when it is empty once trimmed, that is when it is all whitespace (TrimEmptyIffBlank). */
  predicate Blank(s: string) {
    AllWhitespace(s)
  }

  /**
   * The marks field fails when it is empty or parses to a number that is not positive.
   * It is not trimmed first, and text that does not parse (NaN) does not fail here.
   */
  predicate MaxMarksRejected(m: string) {
    m == "" || (ParseInt(m).Some? && ParseInt(m).value <= 0)
  }

  predicate FieldFails(form: ExportForm, f: FormField) {
    match f
    case ExamTitle => Blank(form.examTitle)
    case SchoolName => Blank(form.schoolName)
    case Subject => Blank(form.subject)
    case ClassName => Blank(form.className)
    case Time => Blank(form.time)
    case MaxMarks => MaxMarksRejected(form.maxMarks)
  }

  /**
   * The form check: None when the form is acceptable, otherwise the first field (in check
   * order) that fails; only that field's message is shown.
   */
  function ValidateForm(form: ExportForm): (r: Option<FormField>)
    ensures r.None? <==> forall f :: !FieldFails(form, f)
    ensures r.Some? ==> FieldFails(form, r.value)
    ensures r.Some? ==> forall f :: FieldOrder(f) < FieldOrder(r.value) ==> !FieldFails(form, f)
  {
    var r :=
      if Blank(form.examTitle) then Some(ExamTitle)
      else if Blank(form.schoolName) then Some(SchoolName)
      else if Blank(form.subject) then Some(Subject)
      else if Blank(form.className) then Some(ClassName)
      else if Blank(form.time) then Some(Time)
      else if MaxMarksRejected(form.maxMarks) then Some(MaxMarks)
      else None;
    assert r.Some? ==> FieldFails(form, r.value);
    r
  }

  /** The options handed to the exporter: trimmed text fields, `parseInt` of the marks and the worksheet's title. */
  function BuildOptions(form: ExportForm, worksheetTitle: string): DocxExport.ExportOptions {
    DocxExport.ExportOptions(
      Trim(form.examTitle), worksheetTitle, Trim(form.subject), Trim(form.className),
      ParseInt(form.maxMarks), Trim(form.time), Trim(form.schoolName))
  }

  /** Every text option is already trimmed, and it is empty exactly when its field is blank. */
  lemma BuildOptionsTrimmed(form: ExportForm, worksheetTitle: string)
    ensures var o := BuildOptions(form, worksheetTitle);
      && Trim(o.examTitle) == o.examTitle && (o.examTitle == "" <==> Blank(form.examTitle))
      && Trim(o.schoolName) == o.schoolName && (o.schoolName == "" <==> Blank(form.schoolName))
      && Trim(o.subject) == o.subject && (o.subject == "" <==> Blank(form.subject))
      && Trim(o.className) == o.className && (o.className == "" <==> Blank(form.className))
      && Trim(o.time) == o.time && (o.time == "" <==> Blank(form.time))
  {
    TrimmedField(form.examTitle);
    TrimmedField(form.schoolName);
    TrimmedField(form.subject);
    TrimmedField(form.className);
    TrimmedField(form.time);
  }

  /** A trimmed field is its own trim, and it is empty exactly when the field is blank. */
  lemma TrimmedField(s: string)
    ensures Trim(Trim(s)) == Trim(s) && (Trim(s) == "" <==> Blank(s))
  {
    TrimIdempotent(s);
    TrimEmptyIffBlank(s);
  }

  /** A form that passes its own check gives the exporter non-empty text fields and marks that are positive or NaN. */
  lemma AcceptedFormOptions(form: ExportForm, worksheetTitle: string)
    requires ValidateForm(form).None?
    ensures var o := BuildOptions(form, worksheetTitle);
      && o.schoolName != "" && o.subject != "" && o.className != "" && o.time != "" && o.examTitle != ""
      && (o.maxMarks.None? || o.maxMarks.value > 0)
  {
    assert !FieldFails(form, ExamTitle) && !FieldFails(form, SchoolName) && !FieldFails(form, Subject);
    assert !FieldFails(form, ClassName) && !FieldFails(form, Time) && !FieldFails(form, MaxMarks);
    BuildOptionsTrimmed(form, worksheetTitle);
  }

  /** For a worksheet with sections, the export of an accepted form succeeds exactly when the marks parse. */
  lemma AcceptedFormReachesExporter(form: ExportForm, w: Worksheet, fetch: DocxExport.ImageFetcher)
    requires ValidateForm(form).None?
    ensures w.sections.Some? ==>
      (DocxExport.ExportDocument(w, BuildOptions(form, w.title), fetch).Success? <==> ParseInt(form.maxMarks).Some?)
  {
    AcceptedFormOptions(form, w.title);
    DocxExport.ExportAcceptance(w, BuildOptions(form, w.title), fetch);
  }

  /** The form lets marks through that do not parse; the exporter then refuses the missing value. */
  lemma UnparsedMarksPassForm(form: ExportForm, w: Worksheet, fetch: DocxExport.ImageFetcher)
    requires !Blank(form.examTitle) && !Blank(form.schoolName) && !Blank(form.subject)
    requires !Blank(form.className) && !Blank(form.time)
    requires form.maxMarks != "" && ParseInt(form.maxMarks).None?
    requires w.sections.Some?
    ensures ValidateForm(form) == None
    ensures DocxExport.ExportDocument(w, BuildOptions(form, w.title), fetch) == Failure(DocxExport.MissingExportOptions)
  {
    assert !MaxMarksRejected(form.maxMarks);
    DocxExport.ExportAcceptance(w, BuildOptions(form, w.title), fetch);
  }

  /**
   * ".5", which a number input does deliver, is such a value: `parseInt` stops at the point and
   * yields NaN, so the marks check lets it through.
   */
  lemma UnparsedMarksExample()
    ensures ParseInt(".5") == None && !MaxMarksRejected(".5")
  {
    ParseIntNonNumeric(".5");
  }

  /**
   * For the decimal text of a whole number the form accepts exactly the positive ones, while the
   * exporter on its own tests only that the number is neither 0 nor NaN and so lets negatives through.
   */
  lemma NegativeMarksOnlyFormRejects(n: int)
    ensures MaxMarksRejected(IntToString(n)) <==> n <= 0
    ensures DocxExport.Truthy(Some(n)) <==> n != 0
  {
    ParseIntOfIntToString(n);
  }

  /** Exponent notation is read only up to the "e": the number input's "1e3" passes the form as 1, not 1000. */
  lemma MarksInExponentForm()
    ensures ParseInt("1e3") == Some(1) && !MaxMarksRejected("1e3")
  {
    assert "1e3" == "1" + "e3";
    ParseIntLeadingDigits("1", "e3");
    assert DigitsValue("1", 10) == 1 by {
      assert "1"[..0] == [];
    }
  }

  /** How an export attempt ends. */
  datatype ExportOutcome =
    | Invalid(field: FormField)
    | Exported(result: DocxExport.Export)
    | ExportFailed(message: string)
    | NotDocx

  /**
   * The outcome of pressing Export: the first failing field, or the exporter's result for the
   * built options. `saveError` is the message of an error thrown while writing or saving the
   * file, None when it is saved.
   */
  function ExportOutcomeOf(form: ExportForm, w: Worksheet, fetch: DocxExport.ImageFetcher, saveError: Option<string>)
    : ExportOutcome
  {
    match ValidateForm(form)
    case Some(f) => Invalid(f)
    case None =>
      if form.exportFormat != "docx" then NotDocx
      else
        match DocxExport.ExportDocument(w, BuildOptions(form, w.title), fetch)
        case Failure(e) => ExportFailed(DocxExport.ErrorMessage(e))
        case Success(x) => if saveError.None? then Exported(x) else ExportFailed(saveError.value)
  }

  /**
   * A document leaves the dialog only from a form that passes its check, in the DOCX format, and it
   * is exactly what the exporter builds from the trimmed options.
   */
  lemma ExportedOnlyWhenValid(form: ExportForm, w: Worksheet, fetch: DocxExport.ImageFetcher, saveError: Option<string>)
    ensures ExportOutcomeOf(form, w, fetch, saveError).Exported? <==>
      ValidateForm(form).None? && form.exportFormat == "docx" && saveError.None?
      && DocxExport.ExportDocument(w, BuildOptions(form, w.title), fetch).Success?
    ensures ExportOutcomeOf(form, w, fetch, saveError).Exported? ==>
      ExportOutcomeOf(form, w, fetch, saveError).result == DocxExport.ExportDocument(w, BuildOptions(form, w.title), fetch).value
      && ExportOutcomeOf(form, w, fetch, saveError).result.fileName == DocxExport.FileName(w.title)
    ensures ExportOutcomeOf(form, w, fetch, saveError).Invalid? <==> ValidateForm(form).Some?
  {
  }

  class ExportModal {
    var form: ExportForm
    var isExporting: bool
    /** Whether the dialog is shown; the page owns it and the dialog closes it through a callback. */
    var open: bool

    /** The dialog as first shown: a preset exam title, every other field empty, DOCX selected. */
    constructor (isOpen: bool)
      ensures form == ExportForm("PRE-BOARD EXAMINATION (2024-25)", "", "", "", "", "", "docx")
      ensures !isExporting && open == isOpen
    {
      form := ExportForm("PRE-BOARD EXAMINATION (2024-25)", "", "", "", "", "", "docx");
      isExporting := false;
      open := isOpen;
    }

    /** Typing into the inputs or picking a format. */
    method SetForm(newForm: ExportForm)
      modifies this
      ensures form == newForm && isExporting == old(isExporting) && open == old(open)
    {
      form := newForm;
    }

    /**
     * Pressing Export. An invalid form changes nothing. Otherwise the export runs (only for the
     * DOCX format), the dialog closes only if the file was produced and saved, and the running
     * flag is cleared however it ended.
     */
    method HandleExport(worksheet: Worksheet, fetch: DocxExport.ImageFetcher, saveError: Option<string>)
      returns (outcome: ExportOutcome)
      modifies this
      ensures outcome == ExportOutcomeOf(old(form), worksheet, fetch, saveError)
      ensures form == old(form)
      ensures outcome.Invalid? ==> isExporting == old(isExporting) && open == old(open)
      ensures !outcome.Invalid? ==> !isExporting
      ensures open == (old(open) && !outcome.Exported?)
    {
      var invalid := ValidateForm(form);
      if invalid.Some? {
        return Invalid(invalid.value);
      }
      isExporting := true;
      if form.exportFormat == "docx" {
        var r := DocxExport.GenerateWorksheetDocx(worksheet, BuildOptions(form, worksheet.title), fetch);
        match r {
          case Failure(e) =>
            outcome := ExportFailed(DocxExport.ErrorMessage(e));
          case Success(x) =>
            if saveError.None? {
              outcome := Exported(x);
              open := false;
            } else {
              outcome := ExportFailed(saveError.value);
            }
        }
      } else {
        outcome := NotDocx;
      }
      isExporting := false;
    }
  }
}
