/** The routing view: the endorsement chain's step editor, the sign and undo
    buttons, the status texts, and the printed routing sheet. */
module Routing {
  import opened Wrappers
  import opened Seqs
  import opened PackageModel
  import opened PackageRegistry
  import opened DateUtils
  import StorageUtil

  function StepHasId(id: int): RoutingStep -> bool {
    (s: RoutingStep) => s.id == id
  }

  /** `i` is the index of the first step whose id is `id`, the one `find` picks. */
  predicate FirstStepWithId(steps: seq<RoutingStep>, i: int, id: int) {
    && 0 <= i < |steps| && steps[i].id == id
    && forall j :: 0 <= j < i ==> steps[j].id != id
  }

  /** Two steps are the same link of the chain: id, level and required flag agree. */
  predicate SameLink(a: RoutingStep, b: RoutingStep) {
    a.id == b.id && a.level == b.level && a.required == b.required
  }

  lemma FindFirstStep(steps: seq<RoutingStep>, i: int, id: int)
    requires FirstStepWithId(steps, i, id)
    ensures FindIndex(steps, StepHasId(id)) == Some(i)
  {
    assert StepHasId(id)(steps[i]);
  }

  // ---------------------------------------------------------------------------
  // Signing and undoing

  /** `markSigned` on the step: signed, dated `now`. */
  function MarkedSigned(s: RoutingStep, now: string): (r: RoutingStep)
    ensures r.status == Signed && r.date == Some(now)
    ensures r.(status := s.status, date := s.date) == s
  {
    s.(status := Signed, date := Some(now))
  }

  /** `markUnsigned` on the step: pending, without a date. */
  function MarkedUnsigned(s: RoutingStep): (r: RoutingStep)
    ensures r.status == Pending && r.date == None
    ensures r.(status := s.status, date := s.date) == s
  {
    s.(status := Pending, date := None)
  }

  /** `markSigned(stepId)` on the chain; None when no step has the id. */
  function MarkSignedSpec(steps: seq<RoutingStep>, stepId: int, now: string): (r: Option<seq<RoutingStep>>)
    ensures r.None? <==> forall i :: 0 <= i < |steps| ==> steps[i].id != stepId
    ensures r.Some? ==>
      exists i :: FirstStepWithId(steps, i, stepId) && r.value == steps[i := MarkedSigned(steps[i], now)]
    ensures r.Some? ==> |r.value| == |steps| && forall j :: 0 <= j < |steps| ==> SameLink(r.value[j], steps[j])
  {
    match FindIndex(steps, StepHasId(stepId))
    case None => None
    case Some(i) => Some(steps[i := MarkedSigned(steps[i], now)])
  }

  /** `markUnsigned(stepId)` on the chain; None when no step has the id. */
  function MarkUnsignedSpec(steps: seq<RoutingStep>, stepId: int): (r: Option<seq<RoutingStep>>)
    ensures r.None? <==> forall i :: 0 <= i < |steps| ==> steps[i].id != stepId
    ensures r.Some? ==>
      exists i :: FirstStepWithId(steps, i, stepId) && r.value == steps[i := MarkedUnsigned(steps[i])]
    ensures r.Some? ==> |r.value| == |steps| && forall j :: 0 <= j < |steps| ==> SameLink(r.value[j], steps[j])
  {
    match FindIndex(steps, StepHasId(stepId))
    case None => None
    case Some(i) => Some(steps[i := MarkedUnsigned(steps[i])])
  }

  /** Undo takes back a signature: signing a pending, undated step and then
      undoing it gives the chain it started from. */
  lemma UndoRestoresChain(steps: seq<RoutingStep>, i: nat, stepId: int, now: string)
    requires FirstStepWithId(steps, i, stepId)
    requires steps[i].status == Pending && steps[i].date == None
    ensures MarkSignedSpec(steps, stepId, now).Some?
    ensures MarkUnsignedSpec(MarkSignedSpec(steps, stepId, now).value, stepId) == Some(steps)
  {
    FindFirstStep(steps, i, stepId);
    var signed := steps[i := MarkedSigned(steps[i], now)];
    assert FirstStepWithId(signed, i, stepId);
    FindFirstStep(signed, i, stepId);
    assert signed[i := MarkedUnsigned(signed[i])] == steps;
  }

  /** Signing a step counts one more signature unless it was already signed;
      the chain's length never changes. */
  lemma SigningProgress(p: Package, i: nat, now: string)
    requires i < |p.routing|
    ensures var before := GetRoutingProgress(Some(p));
      var after := GetRoutingProgress(Some(p.(routing := p.routing[i := MarkedSigned(p.routing[i], now)])));
      after.total == before.total
      && after.signed == before.signed + (if p.routing[i].status == Signed then 0 else 1)
  {
    FilterUpdateCount(p.routing, i, MarkedSigned(p.routing[i], now), IsSigned);
  }

  /** Undoing a step counts one signature fewer when it was signed. */
  lemma UnsigningProgress(p: Package, i: nat)
    requires i < |p.routing|
    ensures var before := GetRoutingProgress(Some(p));
      var after := GetRoutingProgress(Some(p.(routing := p.routing[i := MarkedUnsigned(p.routing[i])])));
      after.total == before.total
      && after.signed == before.signed - (if p.routing[i].status == Signed then 1 else 0)
  {
    FilterUpdateCount(p.routing, i, MarkedUnsigned(p.routing[i]), IsSigned);
  }

  // ---------------------------------------------------------------------------
  // The step editor

  /** The editor's fields: the hidden step id, the signer's name, the checked
      status radio (None when none is checked), the date input's value and the
      checked recommendation radio's value (None when none is checked). */
  datatype StepForm = StepForm(
    stepId: int,
    name: string,
    status: Option<RoutingStatus>,
    date: string,
    recommends: Option<string>)

  /** `recommends === 'yes' ? true : recommends === 'no' ? false : null`. */
  function RecommendsFrom(v: Option<string>): (r: Option<bool>)
    ensures r == Some(true) <==> v == Some("yes")
    ensures r == Some(false) <==> v == Some("no")
  {
    if v == Some("yes") then Some(true)
    else if v == Some("no") then Some(false)
    else None
  }

  /** The recommendation radio `openEditModal` checks: `''` for null, `yes`
      and `no` for true and false. Saving reads back what was shown. */
  function RecommendsRadio(rec: Option<bool>): (v: Option<string>)
    ensures RecommendsFrom(v) == rec
  {
    match rec
    case None => Some("")
    case Some(b) => if b then Some("yes") else Some("no")
  }

  /** The status radio `openEditModal` checks: the one whose value is the
      step's status, none for a status outside the three radios. */
  function StatusRadio(s: RoutingStatus): (v: Option<RoutingStatus>)
    ensures v.None? <==> s == OtherStep
    ensures v.Some? ==> v.value == s
  {
    if s == OtherStep then None else Some(s)
  }

  /** `openEditModal(stepId)`: the form filled from the first step with that
      id; None when there is none. */
  function OpenStepEditor(steps: seq<RoutingStep>, stepId: int, parse: string -> DateInput): (r: Option<StepForm>)
    ensures r.None? <==> forall i :: 0 <= i < |steps| ==> steps[i].id != stepId
    ensures r.Some? ==>
      exists i :: && FirstStepWithId(steps, i, stepId)
                  && r.value.stepId == stepId && r.value.name == steps[i].name
                  && r.value.status == StatusRadio(steps[i].status)
                  && r.value.date == FormatISO(StoredDate(steps[i].date, parse))
                  && r.value.recommends == RecommendsRadio(steps[i].recommends)
  {
    match FindIndex(steps, StepHasId(stepId))
    case None => None
    case Some(i) =>
      var s := steps[i];
      Some(StepForm(stepId, s.name, StatusRadio(s.status), FormatISO(StoredDate(s.date, parse)),
                    RecommendsRadio(s.recommends)))
  }

  /** The step as `saveStep` leaves it: no checked status means pending, an
      empty date input stores null. */
  function SavedStep(s: RoutingStep, f: StepForm): (r: RoutingStep)
    ensures r.name == f.name
    ensures f.status.None? ==> r.status == Pending
    ensures f.status.Some? ==> r.status == f.status.value
    ensures r.date.None? <==> f.date == ""
    ensures r.date.Some? ==> r.date.value == f.date
    ensures r.recommends == RecommendsFrom(f.recommends)
    ensures SameLink(r, s) && r.description == s.description
  {
    s.(name := f.name, status := f.status.GetOr(Pending),
       date := if f.date == "" then None else Some(f.date),
       recommends := RecommendsFrom(f.recommends))
  }

  /** `saveStep()` on the chain; None when no step has the form's id. */
  function SaveStepSpec(steps: seq<RoutingStep>, f: StepForm): (r: Option<seq<RoutingStep>>)
    ensures r.None? <==> forall i :: 0 <= i < |steps| ==> steps[i].id != f.stepId
    ensures r.Some? ==>
      exists i :: FirstStepWithId(steps, i, f.stepId) && r.value == steps[i := SavedStep(steps[i], f)]
    ensures r.Some? ==> |r.value| == |steps| && forall j :: 0 <= j < |steps| ==> SameLink(r.value[j], steps[j])
  {
    match FindIndex(steps, StepHasId(f.stepId))
    case None => None
    case Some(i) => Some(steps[i := SavedStep(steps[i], f)])
  }

  /** Opening the editor and saving it untouched keeps the step's name and
      recommendation; it keeps the status too, except that a status outside
      the three radios becomes pending; and it changes nothing at all for a
      step with a named status and a date that survives the date input. */
  lemma OpenThenSaveStep(steps: seq<RoutingStep>, i: nat, stepId: int, parse: string -> DateInput)
    requires FirstStepWithId(steps, i, stepId)
    ensures OpenStepEditor(steps, stepId, parse).Some?
    ensures var r := SaveStepSpec(steps, OpenStepEditor(steps, stepId, parse).value);
      && r.Some? && r.value[i].name == steps[i].name && r.value[i].recommends == steps[i].recommends
      && r.value[i].status == (if steps[i].status == OtherStep then Pending else steps[i].status)
      && (steps[i].status != OtherStep && SurvivesDateInput(steps[i].date, parse) ==> r.value == steps)
  {
    FindFirstStep(steps, i, stepId);
    var f := OpenStepEditor(steps, stepId, parse).value;
    if steps[i].status != OtherStep && SurvivesDateInput(steps[i].date, parse) {
      assert SavedStep(steps[i], f) == steps[i];
    }
  }

  // ---------------------------------------------------------------------------
  // Texts

  /** The status line of a step on the routing timeline. */
  function StatusText(s: RoutingStep, parse: string -> DateInput): (r: string)
    ensures s.status == Signed <==> |r| >= 8 && r[..8] == "Signed: "
    ensures s.status == Returned <==> r == "Returned for correction"
    ensures s.status == Pending <==> r == "Pending"
    ensures s.status == OtherStep <==> r == "Not started"
  {
    match s.status
    case Signed =>
      var t := "Signed: " + FormatMilitary(StoredDate(s.date, parse));
      assert t[..8] == "Signed: " && t[0] == 'S';
      t
    case Returned => assert "Returned for correction"[0] == 'R'; "Returned for correction"
    case Pending => assert "Pending"[0] == 'P'; "Pending"
    case OtherStep => assert "Not started"[0] == 'N'; "Not started"
  }

  /** The button offered beside Edit on the routing timeline. */
  datatype StepAction = MarkSignedButton | UndoButton

  function ActionButton(s: RoutingStep): (b: StepAction)
    ensures b == UndoButton <==> s.status == Signed
  {
    if s.status != Signed then MarkSignedButton else UndoButton
  }

  /** What a click on the button does to the chain. */
  function Press(steps: seq<RoutingStep>, stepId: int, b: StepAction, now: string): Option<seq<RoutingStep>> {
    match b
    case MarkSignedButton => MarkSignedSpec(steps, stepId, now)
    case UndoButton => MarkUnsignedSpec(steps, stepId)
  }

  /** Clicking the offered button of a step changes that step so that the
      other button is offered next: Mark Signed leads to Undo and back. */
  lemma PressingTheButtonSwapsIt(steps: seq<RoutingStep>, i: nat, stepId: int, now: string)
    requires FirstStepWithId(steps, i, stepId)
    ensures var r := Press(steps, stepId, ActionButton(steps[i]), now);
      r.Some? && |r.value| == |steps| && ActionButton(r.value[i]) != ActionButton(steps[i])
  {
    var r := Press(steps, stepId, ActionButton(steps[i]), now);
    var j :| FirstStepWithId(steps, j, stepId) &&
      r.value == steps[j := if steps[i].status != Signed then MarkedSigned(steps[j], now) else MarkedUnsigned(steps[j])];
    assert j == i;
  }

  /** The recommendation line: empty exactly when no recommendation is recorded. */
  function RecommendsText(rec: Option<bool>): (r: string)
    ensures r == "" <==> rec.None?
    ensures r == "&#9989; Recommends" <==> rec == Some(true)
    ensures r == "&#10060; Does not recommend" <==> rec == Some(false)
  {
    match rec
    case None => ""
    case Some(b) => if b then "&#9989; Recommends" else "&#10060; Does not recommend"
  }

  /** A row of the printed routing sheet: its number, the level, the signer
      and the formatted date. */
  datatype SheetRow = SheetRow(number: nat, level: string, name: string, date: string)

  /** The rows of `printRoutingSheet`, numbered from `first`. */
  function SheetRowsFrom(steps: seq<RoutingStep>, first: nat, parse: string -> DateInput): (rows: seq<SheetRow>)
    ensures |rows| == |steps|
    ensures forall i :: 0 <= i < |steps| ==>
      && rows[i].number == first + i && rows[i].level == steps[i].level && rows[i].name == steps[i].name
      && rows[i].date == FormatMilitary(StoredDate(steps[i].date, parse))
      && (steps[i].date.None? || steps[i].date == Some("") ==> rows[i].date == "")
  {
    if steps == [] then []
    else
      var s := steps[0];
      [SheetRow(first, s.level, s.name, FormatMilitary(StoredDate(s.date, parse)))]
        + SheetRowsFrom(steps[1..], first + 1, parse)
  }

  /** `pkg.routing.map((step, index) => ...)` in `printRoutingSheet`: one row
      per step, in chain order, numbered 1 to n. */
  function SheetRows(steps: seq<RoutingStep>, parse: string -> DateInput): (rows: seq<SheetRow>)
    ensures |rows| == |steps|
    ensures forall i :: 0 <= i < |steps| ==>
      && rows[i].number == i + 1 && rows[i].level == steps[i].level && rows[i].name == steps[i].name
      && rows[i].date == FormatMilitary(StoredDate(steps[i].date, parse))
      && (steps[i].date.None? || steps[i].date == Some("") ==> rows[i].date == "")
  {
    SheetRowsFrom(steps, 1, parse)
  }

  /** The printed routing sheet: its heading, the applicant block and the rows. */
  datatype RoutingSheet = RoutingSheet(title: string, rank: string, name: string, date: string, rows: seq<SheetRow>)

  const RankBlank: string := "_____"
  const NameBlank: string := "_____________________"

  /** `printRoutingSheet()` for the package on `today`: the package's display
      name as the heading, the applicant's rank and name or a blank line to write
      them on, today's date, and one row per routing step. */
  function PrintRoutingSheet(pkg: Package, today: CalendarDate, parse: string -> DateInput): (s: RoutingSheet)
    ensures s.title == DisplayName(pkg) + " Package<br>Routing Sheet"
    ensures s.rank != "" && s.name != ""
    ensures pkg.applicantRank != "" ==> s.rank == pkg.applicantRank
    ensures pkg.applicantRank == "" ==> s.rank == RankBlank && |s.rank| == 5
    ensures pkg.applicantName != "" ==> s.name == pkg.applicantName
    ensures pkg.applicantName == "" ==> s.name == NameBlank && |s.name| == 21
    ensures s.date == FormatMilitary(At(today))
    ensures s.rows == SheetRows(pkg.routing, parse)
  {
    RoutingSheet(
      DisplayName(pkg) + " Package<br>Routing Sheet",
      if pkg.applicantRank == "" then RankBlank else pkg.applicantRank,
      if pkg.applicantName == "" then NameBlank else pkg.applicantName,
      FormatMilitary(At(today)),
      SheetRows(pkg.routing, parse))
  }

  /** A freshly cloned routing chain prints one blank row per template step:
      the template's level, no signer and no date. */
  lemma FreshRoutingSheet(pkg: Package, rts: seq<RouteTemplate>, today: CalendarDate, parse: string -> DateInput)
    requires RoutingClonedFrom(pkg.routing, rts)
    ensures var s := PrintRoutingSheet(pkg, today, parse);
      |s.rows| == |rts| &&
      forall i :: 0 <= i < |rts| ==>
        s.rows[i] == SheetRow(i + 1, rts[i].level, "", "")
  {
    var s := PrintRoutingSheet(pkg, today, parse);
    forall i | 0 <= i < |rts|
      ensures s.rows[i] == SheetRow(i + 1, rts[i].level, "", "")
    {
      assert pkg.routing[i].date.None?;
    }
  }

  // ---------------------------------------------------------------------------
  // The manager

  /** `RoutingManager`: the package on screen. The current time and whether the
      browser accepts the write are parameters. */
  class RoutingManager {
    var currentPackage: Option<Package>

    constructor()
      ensures currentPackage == None
    {
      currentPackage := None;
    }

    /** `init(pkg)`. */
    method Init(pkg: Package)
      modifies this
      ensures currentPackage == Some(pkg)
    {
      currentPackage := Some(pkg);
    }

    /** Stamps the package with the new chain and saves it. */
    method Commit(routing: seq<RoutingStep>, now: string, store: StorageUtil.Storage<Package>, accepted: bool)
      requires currentPackage.Some? && store.Valid()
      modifies this, store
      ensures store.Valid()
      ensures currentPackage == Some(old(currentPackage.value).(routing := routing, lastUpdated := now))
      ensures accepted ==> store.items == old(store.items)[StorageUtil.Prefix + old(currentPackage.value.id) := StorageUtil.Json(currentPackage.value)]
      ensures accepted ==> store.keys == StorageUtil.KeysAfterWrite(old(store.keys), StorageUtil.Prefix + old(currentPackage.value.id))
      ensures !accepted ==> store.keys == old(store.keys) && store.items == old(store.items)
    {
      var updated := currentPackage.value.(routing := routing, lastUpdated := now);
      currentPackage := Some(updated);
      var _ := store.Save(updated.id, updated, accepted);
    }

    /** `markSigned(stepId)`. An unknown id changes nothing. */
    method MarkSigned(stepId: int, now: string, store: StorageUtil.Storage<Package>, accepted: bool)
      requires currentPackage.Some? && store.Valid()
      modifies this, store
      ensures store.Valid()
      ensures MarkSignedSpec(old(currentPackage.value.routing), stepId, now).None? ==>
        currentPackage == old(currentPackage) && store.keys == old(store.keys) && store.items == old(store.items)
      ensures MarkSignedSpec(old(currentPackage.value.routing), stepId, now).Some? ==>
        && currentPackage == Some(old(currentPackage.value).(
             routing := MarkSignedSpec(old(currentPackage.value.routing), stepId, now).value,
             lastUpdated := now))
        && (accepted ==> store.items == old(store.items)[StorageUtil.Prefix + old(currentPackage.value.id) := StorageUtil.Json(currentPackage.value)])
        && (accepted ==> store.keys == StorageUtil.KeysAfterWrite(old(store.keys), StorageUtil.Prefix + old(currentPackage.value.id)))
        && (!accepted ==> store.keys == old(store.keys) && store.items == old(store.items))
    {
      var r := MarkSignedSpec(currentPackage.value.routing, stepId, now);
      if r.Some? {
        Commit(r.value, now, store, accepted);
      }
    }

    /** `markUnsigned(stepId)`. An unknown id changes nothing. */
    method MarkUnsigned(stepId: int, now: string, store: StorageUtil.Storage<Package>, accepted: bool)
      requires currentPackage.Some? && store.Valid()
      modifies this, store
      ensures store.Valid()
      ensures MarkUnsignedSpec(old(currentPackage.value.routing), stepId).None? ==>
        currentPackage == old(currentPackage) && store.keys == old(store.keys) && store.items == old(store.items)
      ensures MarkUnsignedSpec(old(currentPackage.value.routing), stepId).Some? ==>
        && currentPackage == Some(old(currentPackage.value).(
             routing := MarkUnsignedSpec(old(currentPackage.value.routing), stepId).value,
             lastUpdated := now))
        && (accepted ==> store.items == old(store.items)[StorageUtil.Prefix + old(currentPackage.value.id) := StorageUtil.Json(currentPackage.value)])
        && (accepted ==> store.keys == StorageUtil.KeysAfterWrite(old(store.keys), StorageUtil.Prefix + old(currentPackage.value.id)))
        && (!accepted ==> store.keys == old(store.keys) && store.items == old(store.items))
    {
      var r := MarkUnsignedSpec(currentPackage.value.routing, stepId);
      if r.Some? {
        Commit(r.value, now, store, accepted);
      }
    }

    /** `saveStep()`. A form naming no step changes nothing. */
    method SaveStep(f: StepForm, now: string, store: StorageUtil.Storage<Package>, accepted: bool)
      requires currentPackage.Some? && store.Valid()
      modifies this, store
      ensures store.Valid()
      ensures SaveStepSpec(old(currentPackage.value.routing), f).None? ==>
        currentPackage == old(currentPackage) && store.keys == old(store.keys) && store.items == old(store.items)
      ensures SaveStepSpec(old(currentPackage.value.routing), f).Some? ==>
        && currentPackage == Some(old(currentPackage.value).(
             routing := SaveStepSpec(old(currentPackage.value.routing), f).value,
             lastUpdated := now))
        && (accepted ==> store.items == old(store.items)[StorageUtil.Prefix + old(currentPackage.value.id) := StorageUtil.Json(currentPackage.value)])
        && (accepted ==> store.keys == StorageUtil.KeysAfterWrite(old(store.keys), StorageUtil.Prefix + old(currentPackage.value.id)))
        && (!accepted ==> store.keys == old(store.keys) && store.items == old(store.items))
    {
      var r := SaveStepSpec(currentPackage.value.routing, f);
      if r.Some? {
        Commit(r.value, now, store, accepted);
      }
    }
  }
}
