/** The warrant officer package template: its checklist, its phases, its
    default routing chain, and the instantiation of a fresh package from them. */
module WarrantOfficer {
  import opened Wrappers
  import opened PackageModel

  const Id := "warrant_officer"
  const Name := "Warrant Officer"

  /** A processing phase and the ids of the documents it lists. */
  datatype Phase = Phase(id: int, name: string, documents: seq<int>, critical: bool)

  const Phases: seq<Phase> := [
    Phase(1, "Eligibility Check", [], false),
    Phase(2, "Medical Processing", [14, 15, 16, 17, 18, 19], true),
    Phase(3, "Records Verification", [5, 6, 7, 8, 9, 12], false),
    Phase(4, "Application Prep", [1, 3, 10, 11, 13], false),
    Phase(5, "Command Endorsement", [2, 4], false),
    Phase(6, "Submission", [], false)
  ]

  const DefaultRouting: seq<RouteTemplate> := [
    RouteTemplate("Company Commander", true, "Initial endorsement - first in chain"),
    RouteTemplate("Battalion Commander", true, "Intermediate endorsement"),
    RouteTemplate("First O-6 in Chain", true, "Required senior endorsement"),
    RouteTemplate("Submit to MCRC", true, "warrantofficerboard@marines.usmc.mil via DoD SAFE")
  ]

  const Documents: seq<TemplateDoc> := [
    TemplateDoc(1, "Application", "Application Letter", true, None, Some(4)),
    TemplateDoc(2, "Application", "CO Interview/Recommendation", true, None, Some(5)),
    TemplateDoc(3, "Application", "Command Screening Checklist", true, None, Some(4)),
    TemplateDoc(4, "Application", "First O-6 Endorsement", true, None, Some(5)),
    TemplateDoc(5, "Records", "BIR/BTR Screen", true, None, Some(3)),
    TemplateDoc(6, "Records", "Education Screen", true, None, Some(3)),
    TemplateDoc(7, "Records", "Awards Screen", true, None, Some(3)),
    TemplateDoc(8, "Records", "Chronological Page", true, None, Some(3)),
    TemplateDoc(9, "Records", "Test Score Screen (ASVAB)", true, None, Some(3)),
    TemplateDoc(10, "Admin", "NAVMC 941 Counseling Checklist", true, None, Some(4)),
    TemplateDoc(11, "Admin", "SAT/ACT Scores", false, None, Some(4)),
    TemplateDoc(12, "Admin", "Security Clearance Verification", true, None, Some(3)),
    TemplateDoc(13, "Admin", "Tattoo Documentation", true, None, Some(4)),
    TemplateDoc(14, "Medical", "DD Form 2807-1", true, None, Some(2)),
    TemplateDoc(15, "Medical", "DD Form 2808", true, None, Some(2)),
    TemplateDoc(16, "Medical", "IMR Screen", true, None, Some(2)),
    TemplateDoc(17, "Medical", "Audiogram", true, None, Some(2)),
    TemplateDoc(18, "Medical", "PAP Results (Female)", false, Some("female"), Some(2)),
    TemplateDoc(19, "Medical", "Surgical Documentation", false, None, Some(2))
  ]

  /** `WarrantOfficerPackage.createPackage(applicantInfo)`. The generated package
      id and the current time are parameters. */
  function CreatePackage(info: ApplicantInfo, packageId: string, now: string): (p: Package)
    ensures p.id == packageId && p.packageType == Id && p.packageName == Name
    ensures p.applicantName == info.name.GetOr("") && p.applicantRank == info.rank.GetOr("")
    ensures p.applicantEDIPI == info.edipi.GetOr("") && p.applicantMOS == info.mos.GetOr("")
    ensures p.applicantUnit == info.unit.GetOr("") && p.deadline == info.deadline.GetOr("")
    ensures p.targetBoard == Some(info.targetBoard.GetOr(""))
    ensures p.targetMOS == Some(info.targetMOS.GetOr(""))
    ensures p.preferredDistrict == None
    ensures p.currentPhase == Some(1) && p.waivers == [] && p.status == InProgress
    ensures p.created == now && p.lastUpdated == now
    ensures ClonedFrom(p.documents, Documents, true)
    ensures RoutingClonedFrom(p.routing, DefaultRouting)
  {
    Package(
      packageId, Id, Name,
      info.name.GetOr(""), info.rank.GetOr(""), info.edipi.GetOr(""),
      info.mos.GetOr(""), info.unit.GetOr(""),
      Some(info.targetBoard.GetOr("")), Some(info.targetMOS.GetOr("")), None,
      info.deadline.GetOr(""),
      Some(1),
      CloneDocuments(Documents, true),
      [],
      CloneRouting(DefaultRouting),
      now, now, InProgress)
  }

  /** The template's document ids are exactly 1..19, in order, each once. */
  lemma DocumentIdsAreOneToNineteen()
    ensures |Documents| == 19
    ensures forall i :: 0 <= i < |Documents| ==> Documents[i].id == i + 1
  {
  }

  // The three lemmas below together say that the phase lists partition the
  // documents 1..19.

  /** Every document is listed by the phase its `phase` field names. */
  lemma DocumentsListedByTheirPhase()
    ensures forall i :: 0 <= i < |Documents| ==>
      && Documents[i].phase.Some? && 1 <= Documents[i].phase.value <= |Phases|
      && Documents[i].id in Phases[Documents[i].phase.value - 1].documents
  {
  }

  /** Every id a phase lists is a document whose `phase` field is that phase, so
      no document is listed by two phases. */
  lemma PhaseListsAgreeWithDocuments()
    ensures forall k, id :: 0 <= k < |Phases| && id in Phases[k].documents ==>
      1 <= id <= |Documents| && Documents[id - 1].phase == Some(Phases[k].id)
  {
  }

  /** No phase lists an id twice. */
  lemma PhaseListsHaveNoRepeats()
    ensures forall k :: 0 <= k < |Phases| ==>
      forall a, b :: 0 <= a < b < |Phases[k].documents| ==>
        Phases[k].documents[a] != Phases[k].documents[b]
  {
  }

  /** Documents 11, 18 and 19 are the optional ones; document 18's
      `conditionalRequired: 'female'` leaves its `required` flag false. */
  lemma OptionalDocuments()
    ensures forall i :: 0 <= i < |Documents| ==>
      (!Documents[i].required <==> Documents[i].id in {11, 18, 19})
    ensures forall i :: 0 <= i < |Documents| ==>
      (Documents[i].required <==> !(i == 10 || i == 17 || i == 18))
    ensures Documents[17].conditionalRequired == Some("female") && !Documents[17].required
  {
  }
}
