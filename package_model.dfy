/** The package record every view reads and writes: its documents, its
    routing chain and the template entries they are cloned from. */
module PackageModel {
  import opened Wrappers

  /** A document's status. `Unset` stands for any value outside the four the
      source names, in particular the `undefined` that the checklist editor
      stores when no status is selected. */
  datatype DocStatus = Incomplete | Complete | NotApplicable | WaiverNeeded | Unset

  /** A routing step's status; `OtherStep` is any value outside the three named ones. */
  datatype RoutingStatus = Pending | Signed | Returned | OtherStep

  /** The lifecycle values listed for a package's `status` field. */
  datatype PackageStatus = NotStarted | InProgress | Submitted | Selected | NotSelected

  /** A checklist entry of a package template. The guidance text (description,
      references, instructions, tips) carries no behaviour and is omitted.
      `category == ""` stands for a missing category; `phase` exists only in the
      warrant officer template. */
  datatype TemplateDoc = TemplateDoc(
    id: int,
    category: string,
    name: string,
    required: bool,
    conditionalRequired: Option<string>,
    phase: Option<int>)

  /** An entry of a template's default routing chain. */
  datatype RouteTemplate = RouteTemplate(level: string, required: bool, description: string)

  /** A document of a package: the template entry's fields plus its tracked state.
      `attachments` exists only in warrant officer packages. */
  datatype Document = Document(
    id: int,
    category: string,
    name: string,
    required: bool,
    conditionalRequired: Option<string>,
    phase: Option<int>,
    status: DocStatus,
    notes: string,
    dateCompleted: Option<string>,
    attachments: Option<seq<string>>)

  /** One endorsement level of a package's routing chain. */
  datatype RoutingStep = RoutingStep(
    id: int,
    level: string,
    required: bool,
    description: string,
    name: string,
    status: RoutingStatus,
    date: Option<string>,
    recommends: Option<bool>)

  datatype Waiver = Waiver(kind: string, reason: string)

  /** A package record. Fields that only one package type carries are Options:
      `targetBoard`, `targetMOS` and `currentPhase` (warrant officer) and
      `preferredDistrict` (recruiting). Timestamps are ISO strings. */
  datatype Package = Package(
    id: string,
    packageType: string,
    packageName: string,
    applicantName: string,
    applicantRank: string,
    applicantEDIPI: string,
    applicantMOS: string,
    applicantUnit: string,
    targetBoard: Option<string>,
    targetMOS: Option<string>,
    preferredDistrict: Option<string>,
    deadline: string,
    currentPhase: Option<int>,
    documents: seq<Document>,
    waivers: seq<Waiver>,
    routing: seq<RoutingStep>,
    created: string,
    lastUpdated: string,
    status: PackageStatus)

  /** The `applicantInfo` argument of `createPackage`; an absent property is None. */
  datatype ApplicantInfo = ApplicantInfo(
    name: Option<string>,
    rank: Option<string>,
    edipi: Option<string>,
    mos: Option<string>,
    unit: Option<string>,
    targetBoard: Option<string>,
    targetMOS: Option<string>,
    preferredDistrict: Option<string>,
    deadline: Option<string>)

  /** `{ ...doc, status: 'incomplete', notes: '', dateCompleted: null }`, plus
      `attachments: []` when the template adds it. */
  function CloneDocument(t: TemplateDoc, withAttachments: bool): Document
  {
    Document(t.id, t.category, t.name, t.required, t.conditionalRequired, t.phase,
             Incomplete, "", None, if withAttachments then Some([]) else None)
  }

  /** `{ ...step, id: index + 1, name: '', status: 'pending', date: null, recommends: null }`. */
  function CloneStep(t: RouteTemplate, index: nat): RoutingStep
  {
    RoutingStep(index + 1, t.level, t.required, t.description, "", Pending, None, None)
  }

  /** `ds` is a fresh clone of the template entries `ts`: same length and order,
      every template field carried over, status `incomplete`, empty notes, no
      completion date, and an empty attachment list when the template adds one. */
  ghost predicate ClonedFrom(ds: seq<Document>, ts: seq<TemplateDoc>, withAttachments: bool) {
    && |ds| == |ts|
    && forall i :: 0 <= i < |ts| ==>
      && ds[i].id == ts[i].id && ds[i].name == ts[i].name && ds[i].category == ts[i].category
      && ds[i].required == ts[i].required && ds[i].conditionalRequired == ts[i].conditionalRequired
      && ds[i].phase == ts[i].phase
      && ds[i].status == Incomplete && ds[i].notes == "" && ds[i].dateCompleted == None
      && ds[i].attachments == (if withAttachments then Some([]) else None)
  }

  /** `rs` is a fresh routing chain for `ts`: same length and order, ids 1..n,
      level, required flag and description carried over, no signer, status `pending`, no date, no recommendation. */
  ghost predicate RoutingClonedFrom(rs: seq<RoutingStep>, ts: seq<RouteTemplate>) {
    && |rs| == |ts|
    && forall i :: 0 <= i < |ts| ==>
      && rs[i].id == i + 1 && rs[i].level == ts[i].level && rs[i].required == ts[i].required
      && rs[i].description == ts[i].description
      && rs[i].name == "" && rs[i].status == Pending && rs[i].date == None && rs[i].recommends == None
  }

  /** `templates.map(doc => ...)` over the template's documents. */
  function CloneDocuments(ts: seq<TemplateDoc>, withAttachments: bool): (ds: seq<Document>)
    ensures ClonedFrom(ds, ts, withAttachments)
  {
    seq(|ts|, i requires 0 <= i < |ts| => CloneDocument(ts[i], withAttachments))
  }

  /** `defaultRouting.map((step, index) => ...)`. */
  function CloneRouting(ts: seq<RouteTemplate>): (rs: seq<RoutingStep>)
    ensures RoutingClonedFrom(rs, ts)
  {
    seq(|ts|, i requires 0 <= i < |ts| => CloneStep(ts[i], i))
  }
}
