/** The text content of the two PDF exports (`exportChecklist`,
    `exportCoverSheet`) and of the combined `exportPackageSummary`. Page
    layout, fonts, colours and page breaks are not content and are left out;
    a document is the sequence of texts it prints, grouped as printed. */
module Export {
  import opened Wrappers
  import opened Seqs
  import opened Text
  import opened PackageModel
  import opened PackageRegistry
  import opened DateUtils
  import opened Checklist
  import opened CoverSheet

  // ---------------------------------------------------------------------------
  // Checklist export

  /** The bracketed symbol printed before a document. */
  function StatusSymbol(s: DocStatus): (r: string)
    ensures r == "[ ]" <==> s == Incomplete || s == Unset
  {
    match s
    case Complete => assert "[X]"[1] == 'X'; "[X]"
    case NotApplicable => assert |"[--]"| == 4; "[--]"
    case WaiverNeeded => assert "[!]"[1] == '!'; "[!]"
    case _ => "[ ]"
  }

  /** The symbols tell apart every status the checklist can set. */
  lemma SymbolsDistinguishStatuses(a: DocStatus, b: DocStatus)
    requires a != Unset && b != Unset
    ensures StatusSymbol(a) == StatusSymbol(b) <==> a == b
  {
    assert "[X]"[1] == 'X' && "[!]"[1] == '!' && "[ ]"[1] == ' ';
    assert |"[--]"| == 4 && |"[X]"| == 3;
  }

  /** One printed document: its line, the `(Optional)` badge and the note. */
  datatype PdfItem = PdfItem(line: string, optional: bool, note: Option<string>)

  /** The symbol, then the number, then the name. */
  function ItemLine(d: Document): (r: string)
    ensures |r| > |StatusSymbol(d.status)| + |d.name|
    ensures r[..|StatusSymbol(d.status)|] == StatusSymbol(d.status)
    ensures r[|r| - |d.name|..] == d.name
    ensures r[|StatusSymbol(d.status)|..|r| - |d.name|] == " " + IntToString(d.id) + ". "
  {
    var sym, mid := StatusSymbol(d.status), " " + IntToString(d.id) + ". ";
    var r := sym + mid + d.name;
    assert r == sym + (" " + IntToString(d.id) + ". " + d.name);
    assert r[|sym|..|r| - |d.name|] == mid;
    r
  }

  function ItemOf(d: Document): (it: PdfItem)
    ensures it.line == ItemLine(d)
    ensures it.optional <==> !d.required
    ensures it.note.Some? <==> d.notes != ""
    ensures it.note.Some? ==> |it.note.value| == |"Note: "| + |d.notes| && it.note.value[6..] == d.notes
  {
    PdfItem(ItemLine(d), !d.required, if d.notes != "" then Some("Note: " + d.notes) else None)
  }

  /** ASCII `toUpperCase`. */
  function ToUpper(s: string): (r: string)
    ensures |r| == |s|
    ensures forall i :: 0 <= i < |s| ==> r[i] == if 'a' <= s[i] <= 'z' then (s[i] as int - 32) as char else s[i]
    ensures forall i :: 0 <= i < |s| ==> !('a' <= r[i] <= 'z')
  {
    if s == [] then ""
    else [if 'a' <= s[0] <= 'z' then (s[0] as int - 32) as char else s[0]] + ToUpper(s[1..])
  }

  lemma ToUpperIsIdempotent(s: string)
    ensures ToUpper(ToUpper(s)) == ToUpper(s)
  {
  }

  /** A category of the checklist: its upper-cased name and its documents. */
  datatype PdfSection = PdfSection(header: string, items: seq<PdfItem>)

  function ItemsOf(ds: seq<Document>): (r: seq<PdfItem>)
    ensures |r| == |ds|
    ensures forall j :: 0 <= j < |ds| ==> r[j] == ItemOf(ds[j])
  {
    if ds == [] then [] else [ItemOf(ds[0])] + ItemsOf(ds[1..])
  }

  /** The section a category group prints as. */
  function SectionOf(g: Group): PdfSection {
    PdfSection(ToUpper(g.category), ItemsOf(g.docs))
  }

  function SectionsOf(gs: seq<Group>): (r: seq<PdfSection>)
    ensures |r| == |gs|
    ensures forall i :: 0 <= i < |gs| ==> r[i] == SectionOf(gs[i])
  {
    if gs == [] then [] else [SectionOf(gs[0])] + SectionsOf(gs[1..])
  }

  /** The number of document lines across sections. */
  function TotalItems(ss: seq<PdfSection>): nat {
    if ss == [] then 0 else |ss[0].items| + TotalItems(ss[1..])
  }

  lemma {:induction false} TotalItemsOfSections(gs: seq<Group>)
    ensures TotalItems(SectionsOf(gs)) == TotalDocs(gs)
  {
    if gs != [] {
      TotalItemsOfSections(gs[1..]);
      assert SectionsOf(gs)[1..] == SectionsOf(gs[1..]);
    }
  }

  const Legend := "[X] Complete   [ ] Incomplete   [--] Not Applicable   [!] Waiver Required"

  datatype ChecklistPdf = ChecklistPdf(
    title: string,
    applicant: Option<string>,
    date: string,
    progress: string,
    sections: seq<PdfSection>,
    legend: string)

  function ProgressLine(p: Progress): string {
    "Progress: " + IntToString(p.percentage) + "% Complete (" + NatToString(p.complete) + "/"
      + NatToString(p.required) + " required docs)"
  }

  /** The content of the checklist PDF of `pkg` printed on `today`. */
  function ChecklistPdfOf(pkg: Package, today: CalendarDate): (r: ChecklistPdf)
    ensures r.title == DisplayName(pkg) + " PACKAGE CHECKLIST"
    ensures r.applicant.Some? <==> pkg.applicantName != ""
    ensures r.applicant.Some? ==> r.applicant.value == "Applicant: " + pkg.applicantRank + " " + pkg.applicantName
    ensures r.date == "Date: " + FormatMilitary(At(today))
    ensures r.progress == ProgressLine(CalculateProgress(Some(pkg)))
    ensures r.sections == SectionsOf(GroupByCategory(pkg.documents))
    ensures r.legend == Legend
  {
    ChecklistPdf(
      DisplayName(pkg) + " PACKAGE CHECKLIST",
      if pkg.applicantName != "" then Some("Applicant: " + pkg.applicantRank + " " + pkg.applicantName) else None,
      "Date: " + FormatMilitary(At(today)),
      ProgressLine(CalculateProgress(Some(pkg))),
      SectionsOf(GroupByCategory(pkg.documents)),
      Legend)
  }

  /** Every document is printed once: the sections together hold one line per
      document. */
  lemma ChecklistPrintsEveryDocumentOnce(pkg: Package, today: CalendarDate)
    ensures TotalItems(ChecklistPdfOf(pkg, today).sections) == |pkg.documents|
  {
    TotalItemsOfSections(GroupByCategory(pkg.documents));
  }

  /** Some section headed `header` prints the line `it`. */
  predicate Prints(ss: seq<PdfSection>, header: string, it: PdfItem) {
    exists i, j :: 0 <= i < |ss| && 0 <= j < |ss[i].items| && ss[i].header == header && ss[i].items[j] == it
  }

  /** A document of `ds` has a line in the section of its category. */
  lemma GroupedDocumentIsPrinted(gs: seq<Group>, ds: seq<Document>, k: nat)
    requires GroupsOf(gs, ds) && k < |ds|
    ensures Prints(SectionsOf(gs), ToUpper(CategoryOf(ds[k])), ItemOf(ds[k]))
  {
    var d := ds[k];
    var i :| 0 <= i < |gs| && gs[i].category == CategoryOf(d);
    var g := gs[i];
    assert InCategory(g.category)(ds[k]);
    assert d in g.docs by {
      assert g.docs == Filter(ds, InCategory(g.category));
    }
    var j :| 0 <= j < |g.docs| && g.docs[j] == d;
    var ss := SectionsOf(gs);
    assert ss[i] == PdfSection(ToUpper(g.category), ItemsOf(g.docs));
    assert ss[i].items[j] == ItemOf(d);
  }

  /** Each document is printed under the header of its own category (the
      upper-cased category, `Other` when it has none). */
  lemma ChecklistPrintsDocumentUnderItsCategory(pkg: Package, today: CalendarDate, k: nat)
    requires k < |pkg.documents|
    ensures Prints(ChecklistPdfOf(pkg, today).sections, ToUpper(CategoryOf(pkg.documents[k])), ItemOf(pkg.documents[k]))
  {
    GroupedDocumentIsPrinted(GroupByCategory(pkg.documents), pkg.documents, k);
  }

  // ---------------------------------------------------------------------------
  // File names

  /** A character JavaScript's `\s` matches. */
  predicate IsSpace(c: char) {
    var n := c as int;
    || (9 <= n <= 13) || n == 32 || n == 0xA0 || n == 0x1680
    || (0x2000 <= n <= 0x200A) || n == 0x2028 || n == 0x2029 || n == 0x202F
    || n == 0x205F || n == 0x3000 || n == 0xFEFF
  }

  predicate NoSpace(s: string) {
    forall i :: 0 <= i < |s| ==> !IsSpace(s[i])
  }

  /** `replace(/\s+/g, '_')` from a position where `inRun` says whether the
      previous character was already part of a replaced run. */
  function Collapse(s: string, inRun: bool): (r: string)
    ensures NoSpace(r)
    ensures |r| <= |s|
  {
    if s == [] then ""
    else if IsSpace(s[0]) then (if inRun then Collapse(s[1..], true) else "_" + Collapse(s[1..], true))
    else [s[0]] + Collapse(s[1..], false)
  }

  /** The whole string with each run of white space replaced by one `_`. */
  function Sanitize(s: string): (r: string)
    ensures NoSpace(r)
  {
    Collapse(s, false)
  }

  /** A string with no white space is left as it is. */
  lemma {:induction false} CollapseKeepsSpaceFree(s: string, inRun: bool)
    requires NoSpace(s)
    ensures Collapse(s, inRun) == s
  {
    if s != [] {
      CollapseKeepsSpaceFree(s[1..], false);
    }
  }

  lemma SanitizeIsIdempotent(s: string)
    ensures Sanitize(Sanitize(s)) == Sanitize(s)
  {
    CollapseKeepsSpaceFree(Sanitize(s), false);
  }

  /** A space-free tail passes through unchanged after whatever precedes it. */
  lemma {:induction false} CollapseAppendSpaceFree(a: string, b: string, inRun: bool)
    requires NoSpace(b)
    ensures Collapse(a + b, inRun) == Collapse(a, inRun) + b
  {
    if a == [] {
      assert a + b == b;
      CollapseKeepsSpaceFree(b, inRun);
    } else {
      assert (a + b)[0] == a[0] && (a + b)[1..] == a[1..] + b;
      CollapseAppendSpaceFree(a[1..], b, IsSpace(a[0]));
    }
  }

  predicate NotUnderscore(c: char) { c != '_' }
  predicate Visible(c: char) { !IsSpace(c) && c != '_' }

  /** Only white space is replaced: apart from underscores, the characters
      of the result are those of the input that are not white space, in
      order. */
  lemma {:induction false} CollapseKeepsText(s: string, inRun: bool)
    ensures Filter(Collapse(s, inRun), NotUnderscore) == Filter(s, Visible)
  {
    if s != [] {
      CollapseKeepsText(s[1..], IsSpace(s[0]));
      var rest := Collapse(s[1..], IsSpace(s[0]));
      if IsSpace(s[0]) {
        if !inRun {
          FilterAppend("_", rest, NotUnderscore);
        }
      } else {
        FilterAppend([s[0]], rest, NotUnderscore);
      }
    }
  }

  lemma NoSpaceAppend(a: string, b: string)
    requires NoSpace(a) && NoSpace(b)
    ensures NoSpace(a + b)
  {
    assert forall i :: |a| <= i < |a + b| ==> (a + b)[i] == b[i - |a|];
  }

  lemma DigitsHaveNoSpace(s: string)
    requires AllDigits(s)
    ensures NoSpace(s)
  {
  }

  lemma NumericDateHasNoSpace(c: CalendarDate)
    ensures NoSpace(FormatNumeric(At(c)))
  {
    var y, m, d := IntToString(c.year), Pad2(c.month), Pad2(c.day);
    DigitsHaveNoSpace(m);
    DigitsHaveNoSpace(d);
    if c.year < 0 {
      var n := NatToString(-c.year);
      DigitsHaveNoSpace(n);
      assert NoSpace("-");
      NoSpaceAppend("-", n);
    } else {
      DigitsHaveNoSpace(y);
    }
    NoSpaceAppend(y, m);
    NoSpaceAppend(y + m, d);
  }

  lemma FixedPartsHaveNoSpace()
    ensures NoSpace(ChecklistInfix) && NoSpace(CoverSheetInfix) && NoSpace(".pdf")
  {
  }

  /** Sanitising a name followed by a space-free tail leaves the tail as it is. */
  lemma SanitizeBeforeTail(base: string, infix: string, date: string)
    requires NoSpace(infix) && NoSpace(date)
    ensures Sanitize(base + infix + date + ".pdf") == Sanitize(base) + infix + date + ".pdf"
  {
    var tail := infix + date + ".pdf";
    FixedPartsHaveNoSpace();
    NoSpaceAppend(infix, date);
    NoSpaceAppend(infix + date, ".pdf");
    CollapseAppendSpaceFree(base, tail, false);
    assert base + infix + date + ".pdf" == base + tail;
    assert Sanitize(base) + infix + date + ".pdf" == Sanitize(base) + tail;
  }

  /** `${pkg.applicantName || 'package'}${infix}${formatNumeric(today)}.pdf`
      with white-space runs replaced: the name's runs become `_`, the rest
      is kept as it is. */
  function Filename(applicantName: string, infix: string, today: CalendarDate): (r: string)
    requires NoSpace(infix)
    ensures NoSpace(r)
    ensures r == Sanitize(if applicantName == "" then "package" else applicantName) + infix
      + FormatNumeric(At(today)) + ".pdf"
  {
    var base := if applicantName == "" then "package" else applicantName;
    NumericDateHasNoSpace(today);
    SanitizeBeforeTail(base, infix, FormatNumeric(At(today)));
    Sanitize(base + infix + FormatNumeric(At(today)) + ".pdf")
  }

  const ChecklistInfix := "_checklist_"
  const CoverSheetInfix := "_coversheet_"

  function ChecklistFilename(applicantName: string, today: CalendarDate): (r: string)
    ensures NoSpace(r)
    ensures r == Sanitize(if applicantName == "" then "package" else applicantName) + ChecklistInfix
      + FormatNumeric(At(today)) + ".pdf"
  {
    FixedPartsHaveNoSpace();
    Filename(applicantName, ChecklistInfix, today)
  }

  function CoverSheetFilename(applicantName: string, today: CalendarDate): (r: string)
    ensures NoSpace(r)
    ensures r == Sanitize(if applicantName == "" then "package" else applicantName) + CoverSheetInfix
      + FormatNumeric(At(today)) + ".pdf"
  {
    FixedPartsHaveNoSpace();
    Filename(applicantName, CoverSheetInfix, today)
  }

  // ---------------------------------------------------------------------------
  // Cover sheet export

  /** The placeholder `addField` prints for an empty value. */
  const PdfBlank := "_______________"

  function PdfValue(v: string): (r: string)
    ensures r != ""
    ensures v != "" ==> r == v
    ensures v == "" ==> r == PdfBlank
  {
    if v != "" then v else PdfBlank
  }

  /** One `addField(label, value)` line. */
  datatype FieldLine = FieldLine(heading: string, text: string)

  /** An optional field printed only when the package has a non-empty value. */
  function OptionalField(heading: string, v: Option<string>): (r: seq<FieldLine>)
    ensures |r| <= 1
    ensures r != [] <==> v.Some? && v.value != ""
    ensures r != [] ==> r == [FieldLine(heading, v.value)]
  {
    if v.Some? && v.value != "" then [FieldLine(heading, v.value)] else []
  }

  datatype CoverPdf = CoverPdf(
    title: string,
    applicant: seq<FieldLine>,
    packageInfo: seq<FieldLine>,
    enclosureTitle: string,
    enclosures: seq<string>,
    waiverNote: bool,
    waivers: seq<string>)

  function EnclosureLines(items: seq<EnclosureItem>): (r: seq<string>)
    ensures |r| == |items|
    ensures forall i :: 0 <= i < |items| ==> r[i] == "(" + NatToString(items[i].number) + ") " + ItemLabel(items[i])
  {
    if items == [] then []
    else ["(" + NatToString(items[0].number) + ") " + ItemLabel(items[0])] + EnclosureLines(items[1..])
  }

  function PdfWaiverLines(ws: seq<Waiver>): (r: seq<string>)
    ensures |r| == |ws|
    ensures forall i :: 0 <= i < |ws| ==> r[i] == "[ ] " + ws[i].kind + ": " + ws[i].reason
  {
    if ws == [] then [] else ["[ ] " + ws[0].kind + ": " + ws[0].reason] + PdfWaiverLines(ws[1..])
  }

  function ApplicantFields(pkg: Package): (r: seq<FieldLine>)
    ensures |r| == 5
    ensures r[0] == FieldLine("Rank", PdfValue(pkg.applicantRank))
    ensures r[1] == FieldLine("Name", PdfValue(pkg.applicantName))
    ensures r[2] == FieldLine("EDIPI", PdfValue(pkg.applicantEDIPI))
    ensures r[3] == FieldLine("MOS", PdfValue(pkg.applicantMOS))
    ensures r[4] == FieldLine("Unit", PdfValue(pkg.applicantUnit))
  {
    [FieldLine("Rank", PdfValue(pkg.applicantRank)), FieldLine("Name", PdfValue(pkg.applicantName)),
     FieldLine("EDIPI", PdfValue(pkg.applicantEDIPI)), FieldLine("MOS", PdfValue(pkg.applicantMOS)),
     FieldLine("Unit", PdfValue(pkg.applicantUnit))]
  }

  function PackageFields(pkg: Package, today: CalendarDate): (r: seq<FieldLine>)
    ensures 2 <= |r| <= 5
    ensures r[0] == FieldLine("Program", PdfValue(DisplayName(pkg)))
    ensures r[|r| - 1] == FieldLine("Date Prepared", PdfValue(FormatMilitary(At(today))))
    ensures r[1..|r| - 1] == OptionalField("Target Board", pkg.targetBoard)
      + OptionalField("Target MOS", pkg.targetMOS) + OptionalField("Pref. District", pkg.preferredDistrict)
  {
    var middle := OptionalField("Target Board", pkg.targetBoard)
      + OptionalField("Target MOS", pkg.targetMOS) + OptionalField("Pref. District", pkg.preferredDistrict);
    var r := [FieldLine("Program", PdfValue(DisplayName(pkg)))] + middle
      + [FieldLine("Date Prepared", PdfValue(FormatMilitary(At(today))))];
    assert r[1..|r| - 1] == middle;
    r
  }

  /** The content of the cover sheet PDF of `pkg` printed on `today`. */
  function CoverPdfOf(pkg: Package, today: CalendarDate): (r: CoverPdf)
    ensures r.title == DisplayName(pkg) + " APPLICATION"
    ensures r.applicant == ApplicantFields(pkg) && r.packageInfo == PackageFields(pkg, today)
    ensures var e := EnclosureSectionOf(pkg.documents);
      && r.enclosureTitle == "ENCLOSURES (" + NatToString(e.count) + ")"
      && r.enclosures == EnclosureLines(e.items)
      && r.waiverNote == e.waiverNote
    ensures r.waivers == PdfWaiverLines(pkg.waivers)
  {
    var e := EnclosureSectionOf(pkg.documents);
    CoverPdf(
      DisplayName(pkg) + " APPLICATION",
      ApplicantFields(pkg),
      PackageFields(pkg, today),
      "ENCLOSURES (" + NatToString(e.count) + ")",
      EnclosureLines(e.items),
      e.waiverNote,
      PdfWaiverLines(pkg.waivers))
  }

  /** A value and the blank an empty value prints as are told apart the same
      way on both renderings of the cover sheet. */
  lemma BlanksAgree(v: string)
    ensures PdfValue(v) == v <==> Field(v) == v
    ensures PdfValue(v) == v <==> v != ""
  {
  }

  /** The PDF and the on-screen cover sheet (`generateCoverSheetHTML`) show
      the same title, program, optional fields and date, number the same
      enclosures in the same order with the same waiver marks, print the
      waiver footnote in the same cases, and list the same number of waivers. */
  lemma CoverPdfMatchesSheet(pkg: Package, today: CalendarDate)
    ensures var p, c := CoverPdfOf(pkg, today), GenerateCoverSheet(pkg, today);
      && p.title == c.title
      && p.packageInfo[0].text == PdfValue(c.program)
      && p.packageInfo[|p.packageInfo| - 1].text == c.datePrepared
      && |p.packageInfo| == 2 + (if c.targetBoard.Some? then 1 else 0)
           + (if c.targetMOS.Some? then 1 else 0) + (if c.preferredDistrict.Some? then 1 else 0)
      && |p.enclosures| == c.enclosures.count
      && (forall i :: 0 <= i < |p.enclosures| ==>
            p.enclosures[i] == "(" + NatToString(i + 1) + ") " + ItemLabel(c.enclosures.items[i]))
      && p.waiverNote == c.enclosures.waiverNote
      && |p.waivers| == |c.waivers|
  {
    PackageFieldsMatchSheet(pkg, today);
    EnclosuresMatchSheet(pkg, today);
  }

  lemma PackageFieldsMatchSheet(pkg: Package, today: CalendarDate)
    ensures var p, c := PackageFields(pkg, today), GenerateCoverSheet(pkg, today);
      && p[0].text == PdfValue(c.program)
      && p[|p| - 1].text == c.datePrepared
      && |p| == 2 + (if c.targetBoard.Some? then 1 else 0)
           + (if c.targetMOS.Some? then 1 else 0) + (if c.preferredDistrict.Some? then 1 else 0)
  {
  }

  lemma EnclosuresMatchSheet(pkg: Package, today: CalendarDate)
    ensures var p, c := CoverPdfOf(pkg, today), GenerateCoverSheet(pkg, today);
      && p.title == c.title
      && |p.enclosures| == c.enclosures.count
      && (forall i :: 0 <= i < |p.enclosures| ==>
            p.enclosures[i] == "(" + NatToString(i + 1) + ") " + ItemLabel(c.enclosures.items[i]))
      && p.waiverNote == c.enclosures.waiverNote
      && |p.waivers| == |c.waivers|
  {
    var e := EnclosureSectionOf(pkg.documents);
    assert GenerateCoverSheet(pkg, today).enclosures == e;
    assert CoverPdfOf(pkg, today).enclosures == EnclosureLines(e.items);
    EnclosureLinesNumbered(e.items);
  }

  /** Items numbered from 1 in order print as `(1) …`, `(2) …`, … */
  lemma EnclosureLinesNumbered(items: seq<EnclosureItem>)
    requires forall i :: 0 <= i < |items| ==> items[i].number == i + 1
    ensures forall i :: 0 <= i < |items| ==>
      EnclosureLines(items)[i] == "(" + NatToString(i + 1) + ") " + ItemLabel(items[i])
  {
  }

  // ---------------------------------------------------------------------------
  // Export entry points

  const LibraryMessage := "PDF export requires jsPDF library. Please check your connection and try again."

  /** What an export does: nothing without a package, an error message when
      the PDF library is not loaded, otherwise a document saved under a name. */
  datatype Outcome<T> = NoPackage | LibraryMissing(message: string) | Exported(doc: T, filename: string)

  function ExportChecklist(pkg: Option<Package>, libraryLoaded: bool, today: CalendarDate): (r: Outcome<ChecklistPdf>)
    ensures r.NoPackage? <==> pkg.None?
    ensures r.LibraryMissing? <==> pkg.Some? && !libraryLoaded
    ensures r.LibraryMissing? ==> r.message == LibraryMessage
    ensures r.Exported? ==>
      && r.doc == ChecklistPdfOf(pkg.value, today)
      && r.filename == ChecklistFilename(pkg.value.applicantName, today)
      && NoSpace(r.filename)
  {
    if pkg.None? then NoPackage
    else if !libraryLoaded then LibraryMissing(LibraryMessage)
    else
      Exported(ChecklistPdfOf(pkg.value, today), ChecklistFilename(pkg.value.applicantName, today))
  }

  function ExportCoverSheet(pkg: Option<Package>, libraryLoaded: bool, today: CalendarDate): (r: Outcome<CoverPdf>)
    ensures r.NoPackage? <==> pkg.None?
    ensures r.LibraryMissing? <==> pkg.Some? && !libraryLoaded
    ensures r.LibraryMissing? ==> r.message == LibraryMessage
    ensures r.Exported? ==>
      && r.doc == CoverPdfOf(pkg.value, today)
      && r.filename == CoverSheetFilename(pkg.value.applicantName, today)
      && NoSpace(r.filename)
  {
    if pkg.None? then NoPackage
    else if !libraryLoaded then LibraryMissing(LibraryMessage)
    else
      Exported(CoverPdfOf(pkg.value, today), CoverSheetFilename(pkg.value.applicantName, today))
  }

  /** `exportPackageSummary`: nothing without a package, the error message
      when the PDF library is not loaded, otherwise the cover sheet and then
      the checklist, each saved under its own name. */
  datatype Summary =
    | NothingExported
    | SummaryFailed(message: string)
    | BothExported(cover: CoverPdf, coverName: string, checklist: ChecklistPdf, checklistName: string)

  function ExportPackageSummary(pkg: Option<Package>, libraryLoaded: bool, today: CalendarDate): (r: Summary)
    ensures r.NothingExported? <==> pkg.None?
    ensures r.SummaryFailed? <==> pkg.Some? && !libraryLoaded
    ensures r.SummaryFailed? ==> r.message == ExportCoverSheet(pkg, false, today).message
    ensures r.BothExported? ==>
      && ExportCoverSheet(pkg, true, today) == Exported(r.cover, r.coverName)
      && ExportChecklist(pkg, true, today) == Exported(r.checklist, r.checklistName)
  {
    if pkg.None? then NothingExported
    else if !libraryLoaded then SummaryFailed(LibraryMessage)
    else
      var c, l := ExportCoverSheet(pkg, true, today), ExportChecklist(pkg, true, today);
      BothExported(c.doc, c.filename, l.doc, l.filename)
  }

  /** The two files of a summary differ in name: the cover sheet's infix is
      one character longer. */
  lemma SummaryFilenamesDiffer(pkg: Package, today: CalendarDate)
    ensures var s := ExportPackageSummary(Some(pkg), true, today);
      s.BothExported? && |s.coverName| == |s.checklistName| + 1
  {
    FixedPartsHaveNoSpace();
    var s := ExportPackageSummary(Some(pkg), true, today);
    var c := CoverSheetFilename(pkg.applicantName, today);
    var l := ChecklistFilename(pkg.applicantName, today);
    assert |CoverSheetInfix| == |ChecklistInfix| + 1;
    assert s.coverName == c && s.checklistName == l;
  }
}
