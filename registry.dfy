/** The package registry: template lookup, package creation, and the progress
    figures every view derives from a package record. */
module PackageRegistry {
  import opened Wrappers
  import opened Seqs
  import opened PackageModel
  import WarrantOfficer
  import Recruiting

  datatype PackageType = WarrantOfficerType | RecruitingType

  // ---------------------------------------------------------------------------
  // Template lookup

  /** The names every plain JavaScript object inherits from Object.prototype. */
  const InheritedNames: set<string> := {
    "constructor", "hasOwnProperty", "isPrototypeOf", "propertyIsEnumerable",
    "toLocaleString", "toString", "valueOf", "__proto__",
    "__defineGetter__", "__defineSetter__", "__lookupGetter__", "__lookupSetter__"
  }

  /** What `this.types[id] || null` yields when `types` is an object literal: a
      template for its own two keys, an inherited (truthy) member for the names
      of Object.prototype, and null otherwise. */
  datatype Lookup = Found(t: PackageType) | InheritedMember(name: string) | Null

  /** `getTemplate` as written. */
  function GetTemplateAsWritten(id: string): (r: Lookup)
    ensures r.Found? <==> id == WarrantOfficer.Id || id == Recruiting.Id
    ensures r.InheritedMember? <==> id in InheritedNames
  {
    if id == WarrantOfficer.Id then Found(WarrantOfficerType)
    else if id == Recruiting.Id then Found(RecruitingType)
    else if id in InheritedNames then InheritedMember(id)
    else Null
  }

  /** `getTemplate("toString")` is not null although no template has that id;
      `createPackage("toString")` then fails calling a missing `createPackage`
      instead of reporting an unknown package type. */
  lemma InheritedNameIsNotNull()
    ensures GetTemplateAsWritten("toString") != Null
    ensures !GetTemplateAsWritten("toString").Found?
    ensures CreatePackageAsWritten("toString", ApplicantInfo(None, None, None, None, None, None, None, None, None), "p", "t")
            == Err(NotAFunction)
  {
  }

  /** `getTemplate` looking at the registry's own keys only: null for every id
      other than the two template ids. */
  function GetTemplate(id: string): (r: Option<PackageType>)
    ensures r == Some(WarrantOfficerType) <==> id == WarrantOfficer.Id
    ensures r == Some(RecruitingType) <==> id == Recruiting.Id
    ensures r == None <==> id != WarrantOfficer.Id && id != Recruiting.Id
  {
    if id == WarrantOfficer.Id then Some(WarrantOfficerType)
    else if id == Recruiting.Id then Some(RecruitingType)
    else None
  }

  /** The template's display name (`template?.name`). */
  function TemplateName(t: PackageType): string {
    match t
    case WarrantOfficerType => WarrantOfficer.Name
    case RecruitingType => Recruiting.Name
  }

  /** `template?.name || pkg.packageName`: the program name the cover sheet,
      the routing sheet and the exports print. */
  function DisplayName(pkg: Package): (r: string)
    ensures GetTemplate(pkg.packageType).Some? ==> r == TemplateName(GetTemplate(pkg.packageType).value)
    ensures GetTemplate(pkg.packageType).None? ==> r == pkg.packageName
  {
    match GetTemplate(pkg.packageType)
    case Some(t) => TemplateName(t)
    case None => pkg.packageName
  }

  /** The two ways `createPackage` fails: the thrown `Unknown package type` error,
      and the TypeError of calling a `createPackage` that an inherited member lacks. */
  datatype CreateError = UnknownPackageType(message: string) | NotAFunction

  /** `createPackage` as written, on the as-written lookup. */
  function CreatePackageAsWritten(id: string, info: ApplicantInfo, packageId: string, now: string)
    : (r: Result<Package, CreateError>)
    ensures r.Err? <==> !GetTemplateAsWritten(id).Found?
  {
    match GetTemplateAsWritten(id)
    case Null => Err(UnknownPackageType("Unknown package type: " + id))
    case InheritedMember(_) => Err(NotAFunction)
    case Found(t) => Ok(Instantiate(t, info, packageId, now))
  }

  function Instantiate(t: PackageType, info: ApplicantInfo, packageId: string, now: string): Package {
    match t
    case WarrantOfficerType => WarrantOfficer.CreatePackage(info, packageId, now)
    case RecruitingType => Recruiting.CreatePackage(info, packageId, now)
  }

  /** `createPackage(packageTypeId, applicantInfo)` on the corrected lookup: the
      `Unknown package type` error for every id but the two template ids, and
      otherwise a fresh package of that type. */
  function CreatePackage(id: string, info: ApplicantInfo, packageId: string, now: string)
    : (r: Result<Package, CreateError>)
    ensures r.Err? <==> id != WarrantOfficer.Id && id != Recruiting.Id
    ensures r.Err? ==> r.error == UnknownPackageType("Unknown package type: " + id)
    ensures r.Ok? ==> r.value.packageType == id && r.value.id == packageId
    ensures r.Ok? ==> r.value.lastUpdated == now && r.value.status == InProgress
    ensures r.Ok? && id == WarrantOfficer.Id ==>
      ClonedFrom(r.value.documents, WarrantOfficer.Documents, true) &&
      RoutingClonedFrom(r.value.routing, WarrantOfficer.DefaultRouting)
    ensures r.Ok? && id == Recruiting.Id ==>
      ClonedFrom(r.value.documents, Recruiting.Documents, false) &&
      RoutingClonedFrom(r.value.routing, Recruiting.DefaultRouting)
    ensures r.Ok? && id == WarrantOfficer.Id ==> r.value == WarrantOfficer.CreatePackage(info, packageId, now)
    ensures r.Ok? && id == Recruiting.Id ==> r.value == Recruiting.CreatePackage(info, packageId, now)
  {
    match GetTemplate(id)
    case None => Err(UnknownPackageType("Unknown package type: " + id))
    case Some(t) => Ok(Instantiate(t, info, packageId, now))
  }

  /** A created package prints the name it was created with, and that name is
      never empty. */
  lemma CreatedPackageDisplayName(id: string, info: ApplicantInfo, packageId: string, now: string)
    ensures var r := CreatePackage(id, info, packageId, now);
      r.Ok? ==> DisplayName(r.value) == r.value.packageName != ""
  {
  }

  // ---------------------------------------------------------------------------
  // Document progress

  predicate IsRequired(d: Document) { d.required }
  predicate IsDone(d: Document) { d.status == Complete || d.status == NotApplicable }
  predicate IsIncomplete(d: Document) { d.status == Incomplete }
  predicate NeedsWaiver(d: Document) { d.status == WaiverNeeded }
  /** A required document that counts as complete. */
  predicate IsRequiredDone(d: Document) { d.required && IsDone(d) }
  /** A required document that is still missing. */
  predicate IsMissing(d: Document) { d.required && d.status == Incomplete }

  datatype Progress = Progress(
    percentage: int,
    complete: nat,
    required: nat,
    missing: seq<Document>,
    waiverNeeded: seq<Document>)

  lemma MulLe(a: int, b: int, d: nat)
    ensures a <= b ==> a * d <= b * d
  {
    var k := b - a;
    assert b * d == a * d + k * d;
  }

  lemma DivIs(n: int, d: int, q: int)
    requires d > 0 && q * d <= n < (q + 1) * d
    ensures n / d == q
  {
    var q', r' := n / d, n % d;
    assert n == q' * d + r' && 0 <= r' < d;
    assert (q' + 1) * d == q' * d + d;
    assert (q + 1) * d == q * d + d;
    if q' < q {
      MulLe(q' + 1, q, d);
    } else if q' > q {
      MulLe(q + 1, q', d);
    }
  }

  /** `Math.round((part / whole) * 100)` in exact arithmetic, rounding halves up;
      0 when `whole` is 0. */
  function Percent(part: nat, whole: nat): (r: int)
    requires part <= whole
    ensures 0 <= r <= 100
    ensures part == 0 ==> r == 0
    ensures whole > 0 && part == whole ==> r == 100
    // r is the integer nearest to 100 * part / whole, halves rounded up
    ensures whole > 0 ==> 2 * whole * r <= 200 * part + whole < 2 * whole * (r + 1)
  {
    if whole == 0 then 0
    else
      PercentBounds(part, whole);
      (200 * part + whole) / (2 * whole)
  }

  lemma PercentBounds(part: nat, whole: nat)
    requires 0 < whole && part <= whole
    ensures var q := (200 * part + whole) / (2 * whole);
      && 0 <= q <= 100
      && (part == 0 ==> q == 0)
      && (part == whole ==> q == 100)
      && 2 * whole * q <= 200 * part + whole < 2 * whole * (q + 1)
  {
    var n, d := 200 * part + whole, 2 * whole;
    var q := n / d;
    assert q * d <= n < q * d + d;
    assert (q + 1) * d == q * d + d;
    assert 2 * whole * q == q * d;
    assert 2 * whole * (q + 1) == (q + 1) * d;
    if q > 100 {
      MulLe(101, q, d);
    }
    if part == whole {
      DivIs(n, d, 100);
    }
    if part == 0 {
      DivIs(n, d, 0);
    }
  }

  /** `calculateProgress(pkg)`; None is a null package. */
  function CalculateProgress(pkg: Option<Package>): (r: Progress)
    ensures pkg.None? ==> r == Progress(0, 0, 0, [], [])
    ensures pkg.Some? ==>
      var docs := pkg.value.documents;
      && r.required == |Filter(docs, IsRequired)|
      && r.complete == |Filter(docs, IsRequiredDone)|
      && r.missing == Filter(docs, IsMissing)
      && r.waiverNeeded == Filter(docs, NeedsWaiver)
    ensures r.complete <= r.required
    ensures r.complete + |r.missing| <= r.required
    ensures r.percentage == Percent(r.complete, r.required)
  {
    match pkg
    case None => Progress(0, 0, 0, [], [])
    case Some(p) =>
      var required := Filter(p.documents, IsRequired);
      var complete := Filter(required, IsDone);
      var missing := Filter(required, IsIncomplete);
      var waiverNeeded := Filter(p.documents, NeedsWaiver);
      FilterFilter(p.documents, IsRequired, IsDone, IsRequiredDone);
      FilterFilter(p.documents, IsRequired, IsIncomplete, IsMissing);
      FilterDisjoint(required, IsDone, IsIncomplete);
      Progress(
        if |required| > 0 then Percent(|complete|, |required|) else 0,
        |complete|, |required|, missing, waiverNeeded)
  }

  /** Which documents land in which figure: `missing` holds exactly the required
      incomplete documents, `waiverNeeded` every waiver-needed document whether
      required or not, and a required waiver-needed document counts neither as
      complete nor as missing. */
  lemma ProgressMembership(p: Package, i: nat)
    requires i < |p.documents|
    ensures var r, d := CalculateProgress(Some(p)), p.documents[i];
      && (d in r.missing <==> d.required && d.status == Incomplete)
      && (d in r.waiverNeeded <==> d.status == WaiverNeeded)
      && (d.required && d.status == WaiverNeeded ==> d !in r.missing && !IsRequiredDone(d))
  {
    var r, d := CalculateProgress(Some(p)), p.documents[i];
    assert IsMissing(d) ==> d in Filter(p.documents, IsMissing);
    assert NeedsWaiver(d) ==> d in Filter(p.documents, NeedsWaiver);
  }

  /** With between 1 and 199 documents to count, the rounded percentage is 100
      exactly when all of them are done and 0 exactly when none is. From 200 on,
      199 of 200 already rounds to 100. */
  lemma PercentExtremes(part: nat, whole: nat)
    requires 0 < whole < 200 && part <= whole
    ensures Percent(part, whole) == 100 <==> part == whole
    ensures Percent(part, whole) == 0 <==> part == 0
  {
    var q := Percent(part, whole);
    MulLe(100, q, 2 * whole);
    MulLe(q + 1, 1, 2 * whole);
  }

  /** For a package with between 1 and 199 required documents, progress shows
      100% exactly when every required document is complete or not applicable,
      and 0% exactly when none is. */
  lemma PercentageExtremes(pkg: Option<Package>)
    ensures var r := CalculateProgress(pkg);
      0 < r.required < 200 ==>
        (r.percentage == 100 <==> r.complete == r.required) &&
        (r.percentage == 0 <==> r.complete == 0)
  {
    var r := CalculateProgress(pkg);
    if 0 < r.required < 200 {
      PercentExtremes(r.complete, r.required);
    }
  }

  /** Changing the status of a document that is not required leaves the
      percentage, the complete count and the required count as they were. */
  lemma OptionalStatusChangeKeepsProgress(p: Package, i: nat, s: DocStatus)
    requires i < |p.documents| && !p.documents[i].required
    ensures var before := CalculateProgress(Some(p));
      var after := CalculateProgress(Some(p.(documents := p.documents[i := p.documents[i].(status := s)])));
      after.percentage == before.percentage && after.complete == before.complete
      && after.required == before.required
  {
    var d := p.documents[i].(status := s);
    FilterUpdateUnseen(p.documents, i, d, IsRequired);
    FilterUpdateUnseen(p.documents, i, d, IsRequiredDone);
  }

  /** Completing a required document that was missing raises the complete count
      by one and lowers the missing count by one. */
  lemma CompletingRequiredDocument(p: Package, i: nat, s: DocStatus)
    requires i < |p.documents| && p.documents[i].required && p.documents[i].status == Incomplete
    requires s == Complete || s == NotApplicable
    ensures var before := CalculateProgress(Some(p));
      var after := CalculateProgress(Some(p.(documents := p.documents[i := p.documents[i].(status := s)])));
      after.complete == before.complete + 1 && after.required == before.required
      && |after.missing| == |before.missing| - 1
  {
    var d := p.documents[i].(status := s);
    var p' := p.(documents := p.documents[i := d]);
    assert p'.documents == p.documents[i := d];
    FilterUpdateCount(p.documents, i, d, IsRequiredDone);
    FilterUpdateCount(p.documents, i, d, IsRequired);
    FilterUpdateCount(p.documents, i, d, IsMissing);
  }

  // ---------------------------------------------------------------------------
  // Routing progress

  predicate IsSigned(s: RoutingStep) { s.status == Signed }
  predicate IsUnsigned(s: RoutingStep) { s.status != Signed }

  datatype RoutingProgress = RoutingProgress(signed: nat, total: nat, pending: seq<RoutingStep>)

  /** `getRoutingProgress(pkg)`; None is a null package. */
  function GetRoutingProgress(pkg: Option<Package>): (r: RoutingProgress)
    ensures pkg.None? ==> r == RoutingProgress(0, 0, [])
    ensures pkg.Some? ==>
      && r.total == |pkg.value.routing|
      && r.signed == |Filter(pkg.value.routing, IsSigned)|
      && (forall i :: 0 <= i < |r.pending| ==> r.pending[i].status != Signed)
      && (forall i :: 0 <= i < |pkg.value.routing| && pkg.value.routing[i].status != Signed ==>
            pkg.value.routing[i] in r.pending)
    ensures pkg.Some? ==> r.pending == Filter(pkg.value.routing, IsUnsigned)
    ensures r.signed + |r.pending| == r.total
  {
    match pkg
    case None => RoutingProgress(0, 0, [])
    case Some(p) =>
      FilterComplement(p.routing, IsSigned, IsUnsigned);
      RoutingProgress(|Filter(p.routing, IsSigned)|, |p.routing|, Filter(p.routing, IsUnsigned))
  }

  // ---------------------------------------------------------------------------
  // Fresh packages

  /** A package whose documents are all fresh clones, `k` of them required: no
      document is done or needs a waiver, and all `k` required ones are missing. */
  lemma FreshDocumentsProgress(p: Package, ts: seq<TemplateDoc>, withAttachments: bool, k: nat)
    requires ClonedFrom(p.documents, ts, withAttachments)
    requires |Filter(p.documents, IsRequired)| == k
    ensures var r := CalculateProgress(Some(p));
      && r.required == k && r.complete == 0 && |r.missing| == k && r.percentage == 0
      && r.waiverNeeded == [] && r.missing == Filter(p.documents, IsRequired)
  {
    var ds := p.documents;
    assert forall j :: 0 <= j < |ds| ==> ds[j].status == Incomplete;
    FilterNone(ds, IsRequiredDone);
    FilterNone(ds, NeedsWaiver);
    FilterSame(ds, IsMissing, IsRequired);
  }

  /** A fresh routing chain has no signed step. */
  lemma FreshRoutingProgress(p: Package, rts: seq<RouteTemplate>)
    requires RoutingClonedFrom(p.routing, rts)
    ensures var rp := GetRoutingProgress(Some(p));
      rp.signed == 0 && rp.total == |rts| && |rp.pending| == |rts|
  {
    FilterNone(p.routing, IsSigned);
  }

  /** Documents cloned from the recruiting checklist: 17 of the 18 are required. */
  lemma RecruitingRequiredCount(ds: seq<Document>)
    requires ClonedFrom(ds, Recruiting.Documents, false)
    ensures |Filter(ds, IsRequired)| == 17
  {
    Recruiting.DocumentIdsAndOptionality();
    FilterPrefix(ds, IsRequired, 17);
  }

  /** A fresh recruiting package: 17 required documents (all but 18), all 17
      missing, nothing complete, 0%, and 3 unsigned routing steps.
      `Recruiting.CreatePackage` ensures the two cloning facts required here. */
  lemma FreshRecruitingProgress(p: Package)
    requires ClonedFrom(p.documents, Recruiting.Documents, false)
    requires RoutingClonedFrom(p.routing, Recruiting.DefaultRouting)
    ensures var r := CalculateProgress(Some(p));
      var rp := GetRoutingProgress(Some(p));
      && r.required == 17 && r.complete == 0 && |r.missing| == 17 && r.percentage == 0
      && r.waiverNeeded == []
      && rp.signed == 0 && rp.total == 3 && |rp.pending| == 3
  {
    RecruitingRequiredCount(p.documents);
    FreshDocumentsProgress(p, Recruiting.Documents, false, 17);
    FreshRoutingProgress(p, Recruiting.DefaultRouting);
  }

  /** Documents cloned from the warrant officer checklist: all but the 11th,
      18th and 19th, 16 in all, are required. */
  lemma WarrantOfficerRequiredCount(ds: seq<Document>)
    requires ClonedFrom(ds, WarrantOfficer.Documents, true)
    ensures |Filter(ds, IsRequired)| == 16
  {
    WarrantOfficer.OptionalDocuments();
    RequiredLayoutCount(ds);
  }

  lemma RequiredLayoutCount(ds: seq<Document>)
    requires |ds| == 19
    requires forall i :: 0 <= i < |ds| ==> (ds[i].required <==> !(i == 10 || i == 17 || i == 18))
    ensures |Filter(ds, IsRequired)| == 16
  {
    assert ds == ds[..11] + ds[11..];
    FilterAppend(ds[..11], ds[11..], IsRequired);
    FilterPrefix(ds[..11], IsRequired, 10);
    FilterPrefix(ds[11..], IsRequired, 6);
  }

  /** A fresh warrant officer package: 16 required documents, all 16 missing,
      nothing complete, 0%, and 4 unsigned routing steps.
      `WarrantOfficer.CreatePackage` ensures the two cloning facts required here. */
  lemma FreshWarrantOfficerProgress(p: Package)
    requires ClonedFrom(p.documents, WarrantOfficer.Documents, true)
    requires RoutingClonedFrom(p.routing, WarrantOfficer.DefaultRouting)
    ensures var r := CalculateProgress(Some(p));
      var rp := GetRoutingProgress(Some(p));
      && r.required == 16 && r.complete == 0 && |r.missing| == 16 && r.percentage == 0
      && r.waiverNeeded == []
      && rp.signed == 0 && rp.total == 4 && |rp.pending| == 4
  {
    WarrantOfficerRequiredCount(p.documents);
    FreshDocumentsProgress(p, WarrantOfficer.Documents, true, 16);
    FreshRoutingProgress(p, WarrantOfficer.DefaultRouting);
  }
}
