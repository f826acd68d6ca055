/** The recruiting duty package template and the instantiation of a fresh
    package from it. */
module Recruiting {
  import opened Wrappers
  import opened PackageModel

  const Id := "recruiting"
  const Name := "Recruiting Duty"

  const DefaultRouting: seq<RouteTemplate> := [
    RouteTemplate("Company Commander", true, "Initial endorsement"),
    RouteTemplate("Battalion Commander", true, "Intermediate endorsement"),
    RouteTemplate("Submit to Recruiting District", true, "Via official channels")
  ]

  const Documents: seq<TemplateDoc> := [
    TemplateDoc(1, "Screening", "CO Screening/Interview Guide", true, None, None),
    TemplateDoc(2, "Screening", "HQMC Screening Certification", true, None, None),
    TemplateDoc(3, "Screening", "Volunteer Statement", true, None, None),
    TemplateDoc(4, "Records", "BIR/BTR Screen", true, None, None),
    TemplateDoc(5, "Records", "Awards Summary", true, None, None),
    TemplateDoc(6, "Records", "PFT/CFT Scores", true, None, None),
    TemplateDoc(7, "Records", "Height/Weight Record", true, None, None),
    TemplateDoc(8, "Medical", "Physical (within 2 years)", true, None, None),
    TemplateDoc(9, "Medical", "Dental Readiness", true, None, None),
    TemplateDoc(10, "Admin", "Credit Check Authorization", true, None, None),
    TemplateDoc(11, "Admin", "Credit Report", true, None, None),
    TemplateDoc(12, "Admin", "Driver's License Copy", true, None, None),
    TemplateDoc(13, "Admin", "Driving Record (MVR)", true, None, None),
    TemplateDoc(14, "Admin", "SGLI Form", true, None, None),
    TemplateDoc(15, "Admin", "Dependent Information", true, None, None),
    TemplateDoc(16, "Admin", "Emergency Contact Info", true, None, None),
    TemplateDoc(17, "Personal", "Photo (Official)", true, None, None),
    TemplateDoc(18, "Personal", "Biography/Resume", false, None, None)
  ]

  /** `RecruitingPackage.createPackage(applicantInfo)`. The generated package id
      and the current time are parameters. Unlike the warrant officer template it
      sets no target board, target MOS, current phase or attachment lists. */
  function CreatePackage(info: ApplicantInfo, packageId: string, now: string): (p: Package)
    ensures p.id == packageId && p.packageType == Id && p.packageName == Name
    ensures p.applicantName == info.name.GetOr("") && p.applicantRank == info.rank.GetOr("")
    ensures p.applicantEDIPI == info.edipi.GetOr("") && p.applicantMOS == info.mos.GetOr("")
    ensures p.applicantUnit == info.unit.GetOr("") && p.deadline == info.deadline.GetOr("")
    ensures p.preferredDistrict == Some(info.preferredDistrict.GetOr(""))
    ensures p.targetBoard == None && p.targetMOS == None && p.currentPhase == None
    ensures p.waivers == [] && p.status == InProgress
    ensures p.created == now && p.lastUpdated == now
    ensures ClonedFrom(p.documents, Documents, false)
    ensures RoutingClonedFrom(p.routing, DefaultRouting)
  {
    Package(
      packageId, Id, Name,
      info.name.GetOr(""), info.rank.GetOr(""), info.edipi.GetOr(""),
      info.mos.GetOr(""), info.unit.GetOr(""),
      None, None, Some(info.preferredDistrict.GetOr("")),
      info.deadline.GetOr(""),
      None,
      CloneDocuments(Documents, false),
      [],
      CloneRouting(DefaultRouting),
      now, now, InProgress)
  }

  /** The template's document ids are exactly 1..18, in order, each once, and
      document 18 is the only optional one. */
  lemma DocumentIdsAndOptionality()
    ensures |Documents| == 18
    ensures forall i :: 0 <= i < |Documents| ==> Documents[i].id == i + 1
    ensures forall i :: 0 <= i < |Documents| ==> (!Documents[i].required <==> Documents[i].id == 18)
    ensures forall i :: 0 <= i < 17 ==> Documents[i].required
    ensures !Documents[17].required
  {
  }
}
