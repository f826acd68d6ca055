/** The cover sheet: the enclosure list, the applicant and package fields with
    their blanks, and the form that updates the applicant information. */
module CoverSheet {
  import opened Wrappers
  import opened Seqs
  import opened PackageModel
  import opened PackageRegistry
  import opened DateUtils
  import StorageUtil
  import WarrantOfficer
  import Recruiting

  // ---------------------------------------------------------------------------
  // Enclosures

  /** A document goes into the package as an enclosure when it is complete or
      needs a waiver. */
  predicate IsEnclosed(d: Document) {
    d.status == Complete || d.status == WaiverNeeded
  }

  function DocKey(d: Document): int { d.id }

  /** `documents.filter(complete or waiver_needed).sort((a, b) => a.id - b.id)`. */
  function Enclosures(docs: seq<Document>): (r: seq<Document>)
    ensures forall d :: d in r <==> d in docs && IsEnclosed(d)
    ensures multiset(r) == multiset(Filter(docs, IsEnclosed))
    ensures SortedBy(r, DocKey)
    ensures StableBy(r, Filter(docs, IsEnclosed), DocKey)
  {
    var kept := Filter(docs, IsEnclosed);
    FilterMembers(docs, IsEnclosed);
    SameMembers(SortBy(kept, DocKey), kept);
    SortBy(kept, DocKey)
  }

  /** An item of the enclosure list: its number, the document's name and
      whether it carries the waiver star. */
  datatype EnclosureItem = EnclosureItem(number: nat, name: string, waiver: bool)

  /** `enclosures.map((doc, index) => ...)`, numbered from `first`. */
  function EnclosureItemsFrom(encl: seq<Document>, first: nat): (items: seq<EnclosureItem>)
    ensures |items| == |encl|
    ensures forall i :: 0 <= i < |encl| ==>
      items[i] == EnclosureItem(first + i, encl[i].name, encl[i].status == WaiverNeeded)
  {
    if encl == [] then []
    else
      [EnclosureItem(first, encl[0].name, encl[0].status == WaiverNeeded)]
        + EnclosureItemsFrom(encl[1..], first + 1)
  }

  /** An item's text after its number: the name, starred when a waiver is needed. */
  function ItemLabel(item: EnclosureItem): (r: string)
    ensures item.waiver <==> |r| >= 2 && r[|r| - 2..] == " *" && r[..|r| - 2] == item.name
    ensures !item.waiver ==> r == item.name
  {
    if item.waiver then item.name + " *"
    else
      assert |item.name| >= 2 && item.name[|item.name| - 2..] == " *" ==> item.name[..|item.name| - 2] != item.name;
      item.name
  }

  // ---------------------------------------------------------------------------
  // The sheet

  /** The blank the sheet prints for an empty applicant field. */
  const Blank := "___________"

  /** `value || '___________'`. */
  function Field(v: string): (r: string)
    ensures r != ""
    ensures v != "" ==> r == v
  {
    if v == "" then Blank else v
  }

  /** A package field shown only when it holds something (`${pkg.targetBoard ? ... : ''}`). */
  function Shown(v: Option<string>): (r: Option<string>)
    ensures r.Some? <==> v.Some? && v.value != ""
    ensures r.Some? ==> r == v
  {
    if v.Some? && v.value != "" then v else None
  }

  /** The enclosure section: the count in its title, the numbered items and
      whether the waiver note follows them. */
  datatype EnclosureSection = EnclosureSection(count: nat, items: seq<EnclosureItem>, waiverNote: bool)

  function EnclosureSectionOf(docs: seq<Document>): (s: EnclosureSection)
    ensures s.count == |s.items| == |Filter(docs, IsEnclosed)|
    ensures forall i :: 0 <= i < |s.items| ==>
      s.items[i] == EnclosureItem(i + 1, Enclosures(docs)[i].name, Enclosures(docs)[i].status == WaiverNeeded)
    ensures s.waiverNote <==> exists i :: 0 <= i < |s.items| && s.items[i].waiver
  {
    var encl := Enclosures(docs);
    var items := EnclosureItemsFrom(encl, 1);
    AnyWaiver(encl, items);
    EnclosureSection(|encl|, items, Filter(encl, NeedsWaiver) != [])
  }

  lemma AnyWaiver(encl: seq<Document>, items: seq<EnclosureItem>)
    requires |items| == |encl|
    requires forall i :: 0 <= i < |encl| ==> items[i].waiver == (encl[i].status == WaiverNeeded)
    ensures Filter(encl, NeedsWaiver) != [] <==> exists i :: 0 <= i < |items| && items[i].waiver
  {
    FilterEmpty(encl, NeedsWaiver);
  }

  /** Every enclosure is a complete or waiver-needed document, and every such
      document is enclosed. */
  lemma EnclosuresAreTheFinishedDocuments(docs: seq<Document>, d: Document)
    requires d in docs
    ensures IsEnclosed(d) <==> exists i :: 0 <= i < |EnclosureSectionOf(docs).items| && Enclosures(docs)[i] == d
  {
    var encl := Enclosures(docs);
    if IsEnclosed(d) {
      var i :| 0 <= i < |encl| && encl[i] == d;
    }
  }

  /** The enclosures include a waiver-needed document exactly when the
      documents do: every such document is enclosed. */
  lemma WaiverAmongEnclosures(docs: seq<Document>)
    ensures (exists i :: 0 <= i < |Enclosures(docs)| && NeedsWaiver(Enclosures(docs)[i]))
        <==> Filter(docs, NeedsWaiver) != []
  {
    var encl := Enclosures(docs);
    FilterMembers(docs, NeedsWaiver);
    if Filter(docs, NeedsWaiver) != [] {
      var d := Filter(docs, NeedsWaiver)[0];
      assert d in encl;
      var i :| 0 <= i < |encl| && encl[i] == d;
    }
  }

  /** The waiver note is printed exactly when the progress summary reports a
      document that needs a waiver. */
  lemma WaiverNoteMatchesProgress(pkg: Package)
    ensures EnclosureSectionOf(pkg.documents).waiverNote <==> CalculateProgress(Some(pkg)).waiverNeeded != []
  {
    var s := EnclosureSectionOf(pkg.documents);
    var encl := Enclosures(pkg.documents);
    WaiverAmongEnclosures(pkg.documents);
    assert forall i :: 0 <= i < |s.items| ==> (s.items[i].waiver <==> NeedsWaiver(encl[i]));
  }

  /** The text content of `generateCoverSheetHTML()`. `waivers` holds the lines
      of the requested waivers' list. */
  datatype Sheet = Sheet(
    title: string,
    rank: string,
    name: string,
    edipi: string,
    mos: string,
    unit: string,
    program: string,
    targetBoard: Option<string>,
    targetMOS: Option<string>,
    preferredDistrict: Option<string>,
    datePrepared: string,
    enclosures: EnclosureSection,
    waivers: seq<string>)

  function WaiverLine(w: Waiver): string {
    "&#9744; " + w.kind + ": " + w.reason
  }

  function WaiverLines(ws: seq<Waiver>): (r: seq<string>)
    ensures |r| == |ws|
    ensures forall i :: 0 <= i < |ws| ==> r[i] == WaiverLine(ws[i])
  {
    if ws == [] then [] else [WaiverLine(ws[0])] + WaiverLines(ws[1..])
  }

  /** `generateCoverSheetHTML()` for the package on `today`: every applicant
      field or its blank, the type's own fields only when filled in, and the
      enclosure section of the package's documents. */
  function GenerateCoverSheet(pkg: Package, today: CalendarDate): (c: Sheet)
    ensures c.title == DisplayName(pkg) + " APPLICATION" && c.program == DisplayName(pkg)
    ensures c.rank == Field(pkg.applicantRank) && c.name == Field(pkg.applicantName)
    ensures c.edipi == Field(pkg.applicantEDIPI) && c.mos == Field(pkg.applicantMOS)
    ensures c.unit == Field(pkg.applicantUnit)
    ensures c.targetBoard == Shown(pkg.targetBoard) && c.targetMOS == Shown(pkg.targetMOS)
    ensures c.preferredDistrict == Shown(pkg.preferredDistrict)
    ensures c.datePrepared == FormatMilitary(At(today))
    ensures c.enclosures == EnclosureSectionOf(pkg.documents)
    ensures |c.waivers| == |pkg.waivers|
    ensures forall i :: 0 <= i < |pkg.waivers| ==>
      c.waivers[i] == "&#9744; " + pkg.waivers[i].kind + ": " + pkg.waivers[i].reason
  {
    Sheet(
      DisplayName(pkg) + " APPLICATION",
      Field(pkg.applicantRank), Field(pkg.applicantName), Field(pkg.applicantEDIPI),
      Field(pkg.applicantMOS), Field(pkg.applicantUnit),
      DisplayName(pkg),
      Shown(pkg.targetBoard), Shown(pkg.targetMOS), Shown(pkg.preferredDistrict),
      FormatMilitary(At(today)),
      EnclosureSectionOf(pkg.documents),
      WaiverLines(pkg.waivers))
  }

  /** A freshly created package encloses nothing and prints no waiver note. */
  lemma FreshPackageEnclosesNothing(pkg: Package, ts: seq<TemplateDoc>, withAttachments: bool, today: CalendarDate)
    requires ClonedFrom(pkg.documents, ts, withAttachments)
    ensures GenerateCoverSheet(pkg, today).enclosures == EnclosureSection(0, [], false)
  {
    FilterNone(pkg.documents, IsEnclosed);
  }

  // ---------------------------------------------------------------------------
  // Updating the applicant information

  /** The sheet's form inputs; None is an input missing from the page. */
  datatype CoverForm = CoverForm(
    rank: Option<string>,
    name: Option<string>,
    edipi: Option<string>,
    mos: Option<string>,
    unit: Option<string>,
    targetBoard: Option<string>,
    targetMOS: Option<string>,
    preferredDistrict: Option<string>)

  /** `updatePackageInfo()` on the package: the applicant fields from the form
      (`?.value || ''`), the type's own fields for that type only, and the new
      time stamp. */
  function WithCoverForm(pkg: Package, f: CoverForm, now: string): (r: Package)
    ensures r.applicantRank == f.rank.GetOr("") && r.applicantName == f.name.GetOr("")
    ensures r.applicantEDIPI == f.edipi.GetOr("") && r.applicantMOS == f.mos.GetOr("")
    ensures r.applicantUnit == f.unit.GetOr("")
    ensures pkg.packageType == WarrantOfficer.Id ==>
      r.targetBoard == Some(f.targetBoard.GetOr("")) && r.targetMOS == Some(f.targetMOS.GetOr(""))
    ensures pkg.packageType != WarrantOfficer.Id ==>
      r.targetBoard == pkg.targetBoard && r.targetMOS == pkg.targetMOS
    ensures pkg.packageType == Recruiting.Id ==> r.preferredDistrict == Some(f.preferredDistrict.GetOr(""))
    ensures pkg.packageType != Recruiting.Id ==> r.preferredDistrict == pkg.preferredDistrict
    ensures r.lastUpdated == now
    ensures r.(applicantRank := pkg.applicantRank, applicantName := pkg.applicantName,
               applicantEDIPI := pkg.applicantEDIPI, applicantMOS := pkg.applicantMOS,
               applicantUnit := pkg.applicantUnit, targetBoard := pkg.targetBoard,
               targetMOS := pkg.targetMOS, preferredDistrict := pkg.preferredDistrict,
               lastUpdated := pkg.lastUpdated) == pkg
  {
    var p := pkg.(applicantRank := f.rank.GetOr(""), applicantName := f.name.GetOr(""),
                  applicantEDIPI := f.edipi.GetOr(""), applicantMOS := f.mos.GetOr(""),
                  applicantUnit := f.unit.GetOr(""));
    var p := if pkg.packageType == WarrantOfficer.Id
             then p.(targetBoard := Some(f.targetBoard.GetOr("")), targetMOS := Some(f.targetMOS.GetOr("")))
             else p;
    var p := if pkg.packageType == Recruiting.Id
             then p.(preferredDistrict := Some(f.preferredDistrict.GetOr("")))
             else p;
    p.(lastUpdated := now)
  }

  /** Submitting the same form twice is submitting it once, at the later time. */
  lemma UpdateIsIdempotent(pkg: Package, f: CoverForm, t1: string, t2: string)
    ensures WithCoverForm(WithCoverForm(pkg, f, t1), f, t2) == WithCoverForm(pkg, f, t2)
  {
  }

  /** After an update the sheet shows what the form held, or the blank for an
      empty input; the enclosures and the progress figures stay as they were. */
  lemma UpdateThenGenerate(pkg: Package, f: CoverForm, now: string, today: CalendarDate)
    ensures var c := GenerateCoverSheet(WithCoverForm(pkg, f, now), today);
      && c.rank == Field(f.rank.GetOr("")) && c.name == Field(f.name.GetOr(""))
      && c.edipi == Field(f.edipi.GetOr("")) && c.mos == Field(f.mos.GetOr(""))
      && c.unit == Field(f.unit.GetOr(""))
      && c.enclosures == GenerateCoverSheet(pkg, today).enclosures
      && c.program == GenerateCoverSheet(pkg, today).program
    ensures CalculateProgress(Some(WithCoverForm(pkg, f, now))) == CalculateProgress(Some(pkg))
  {
    var p := WithCoverForm(pkg, f, now);
    assert p.documents == pkg.documents && p.packageType == pkg.packageType;
  }

  /** `CoverSheetGenerator`: the package on screen. */
  class CoverSheetGenerator {
    var currentPackage: Option<Package>

    constructor()
      ensures currentPackage == None
    {
      currentPackage := None;
    }

    /** `init(pkg)`. */
    method Init(pkg: Package)
      modifies this
      ensures currentPackage == Some(pkg)
    {
      currentPackage := Some(pkg);
    }

    /** `updatePackageInfo()`: applies the form, stamps and saves the package,
        and returns the refreshed preview. */
    method UpdatePackageInfo(f: CoverForm, now: string, today: CalendarDate,
                             store: StorageUtil.Storage<Package>, accepted: bool)
      returns (preview: Sheet)
      requires currentPackage.Some? && store.Valid()
      modifies this, store
      ensures store.Valid()
      ensures currentPackage == Some(WithCoverForm(old(currentPackage.value), f, now))
      ensures preview == GenerateCoverSheet(currentPackage.value, today)
      ensures accepted ==> store.items == old(store.items)[StorageUtil.Prefix + old(currentPackage.value.id) := StorageUtil.Json(currentPackage.value)]
      ensures accepted ==> store.keys == StorageUtil.KeysAfterWrite(old(store.keys), StorageUtil.Prefix + old(currentPackage.value.id))
      ensures !accepted ==> store.keys == old(store.keys) && store.items == old(store.items)
    {
      var updated := WithCoverForm(currentPackage.value, f, now);
      currentPackage := Some(updated);
      var _ := store.Save(updated.id, updated, accepted);
      preview := GenerateCoverSheet(updated, today);
    }
  }
}
