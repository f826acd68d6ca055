/** The checklist view: the status filter, the grouping of documents by
    category, the status icons and labels, the document editor and the quick
    complete/incomplete toggle. */
module Checklist {
  import opened Wrappers
  import opened Seqs
  import opened PackageModel
  import opened PackageRegistry
  import opened DateUtils
  import StorageUtil

  // ---------------------------------------------------------------------------
  // Filtering

  /** The value of the filter select: `all`, or the one status a listed
      document must have. */
  datatype StatusFilter = All | Only(status: DocStatus)

  function HasStatus(s: DocStatus): Document -> bool {
    (d: Document) => d.status == s
  }

  /** `getFilteredDocuments()`; None is a null current package. */
  function FilteredDocuments(pkg: Option<Package>, f: StatusFilter): (r: seq<Document>)
    ensures pkg.None? ==> r == []
    ensures pkg.Some? && f.All? ==> r == pkg.value.documents
    ensures pkg.Some? && f.Only? ==> r == Filter(pkg.value.documents, HasStatus(f.status))
    ensures pkg.Some? && f.Only? ==>
      forall d :: d in r <==> d in pkg.value.documents && d.status == f.status
  {
    match pkg
    case None => []
    case Some(p) =>
      match f
      case All => p.documents
      case Only(s) =>
        FilterMembers(p.documents, HasStatus(s));
        Filter(p.documents, HasStatus(s))
  }

  /** The `waiver_needed` view lists exactly the documents the progress summary
      reports as needing a waiver, in the same order, and every document the
      summary reports missing is listed in the `incomplete` view. */
  lemma FilterViewsAgreeWithProgress(p: Package)
    ensures FilteredDocuments(Some(p), Only(WaiverNeeded)) == CalculateProgress(Some(p)).waiverNeeded
    ensures forall d :: d in CalculateProgress(Some(p)).missing ==> d in FilteredDocuments(Some(p), Only(Incomplete))
  {
    FilterSame(p.documents, HasStatus(WaiverNeeded), NeedsWaiver);
    FilterMembers(p.documents, IsMissing);
  }

  // ---------------------------------------------------------------------------
  // Grouping by category

  /** `doc.category || 'Other'`. */
  function CategoryOf(d: Document): (c: string)
    ensures c != ""
    ensures d.category != "" ==> c == d.category
  {
    if d.category == "" then "Other" else d.category
  }

  function InCategory(c: string): Document -> bool {
    (d: Document) => CategoryOf(d) == c
  }

  /** One entry of the object `groupByCategory` builds: a category and its documents. */
  datatype Group = Group(category: string, docs: seq<Document>)

  function HasCategory(c: string): Group -> bool {
    (g: Group) => g.category == c
  }

  /** `gs` groups `ds`: one group per category, each holding, in their order in
      `ds`, exactly the documents of that category, no group empty and no
      document left without its group. */
  ghost predicate GroupsOf(gs: seq<Group>, ds: seq<Document>) {
    && (forall i, j :: 0 <= i < j < |gs| ==> gs[i].category != gs[j].category)
    && (forall i :: 0 <= i < |gs| ==> gs[i].docs != [])
    && (forall i :: 0 <= i < |gs| ==> gs[i].docs == Filter(ds, InCategory(gs[i].category)))
    && (forall k :: 0 <= k < |ds| ==> exists i :: 0 <= i < |gs| && gs[i].category == CategoryOf(ds[k]))
  }

  /** One step of the `reduce`: push `d` onto its category's list, creating the
      list at the end when the category is new. */
  function AddTo(gs: seq<Group>, d: Document): (r: seq<Group>)
    ensures |r| <= |gs| + 1
  {
    match FindIndex(gs, HasCategory(CategoryOf(d)))
    case Some(i) => gs[i := gs[i].(docs := gs[i].docs + [d])]
    case None => gs + [Group(CategoryOf(d), [d])]
  }

  lemma FilterSnoc(ds: seq<Document>, d: Document, c: string)
    ensures Filter(ds + [d], InCategory(c)) ==
            Filter(ds, InCategory(c)) + (if CategoryOf(d) == c then [d] else [])
  {
    FilterAppend(ds, [d], InCategory(c));
    assert [d][1..] == [];
  }

  /** A document of a category that already has a group joins the end of that group. */
  lemma AddToExistingGroup(gs: seq<Group>, ds: seq<Document>, d: Document, n: nat)
    requires GroupsOf(gs, ds)
    requires n < |gs| && gs[n].category == CategoryOf(d)
    ensures GroupsOf(gs[n := gs[n].(docs := gs[n].docs + [d])], ds + [d])
  {
    var r := gs[n := gs[n].(docs := gs[n].docs + [d])];
    var ds' := ds + [d];
    forall i | 0 <= i < |r|
      ensures r[i].docs == Filter(ds', InCategory(r[i].category))
    {
      FilterSnoc(ds, d, r[i].category);
    }
    forall k | 0 <= k < |ds'|
      ensures exists i :: 0 <= i < |r| && r[i].category == CategoryOf(ds'[k])
    {
      if k < |ds| {
        var i :| 0 <= i < |gs| && gs[i].category == CategoryOf(ds[k]);
        assert r[i].category == CategoryOf(ds'[k]);
      } else {
        assert r[n].category == CategoryOf(ds'[k]);
      }
    }
  }

  /** A document of a category no group has opens a new group at the end. */
  lemma AddToNewGroup(gs: seq<Group>, ds: seq<Document>, d: Document)
    requires GroupsOf(gs, ds)
    requires forall j :: 0 <= j < |gs| ==> gs[j].category != CategoryOf(d)
    ensures GroupsOf(gs + [Group(CategoryOf(d), [d])], ds + [d])
  {
    var c := CategoryOf(d);
    var r := gs + [Group(c, [d])];
    var ds' := ds + [d];
    forall k | 0 <= k < |ds|
      ensures CategoryOf(ds[k]) != c
    {
      var i :| 0 <= i < |gs| && gs[i].category == CategoryOf(ds[k]);
    }
    FilterNone(ds, InCategory(c));
    forall i | 0 <= i < |r|
      ensures r[i].docs == Filter(ds', InCategory(r[i].category))
    {
      FilterSnoc(ds, d, r[i].category);
    }
    forall k | 0 <= k < |ds'|
      ensures exists i :: 0 <= i < |r| && r[i].category == CategoryOf(ds'[k])
    {
      if k < |ds| {
        var i :| 0 <= i < |gs| && gs[i].category == CategoryOf(ds[k]);
        assert r[i].category == CategoryOf(ds'[k]);
      } else {
        assert r[|gs|].category == CategoryOf(ds'[k]);
      }
    }
  }

  lemma AddToKeepsGroups(gs: seq<Group>, ds: seq<Document>, d: Document)
    requires GroupsOf(gs, ds)
    ensures GroupsOf(AddTo(gs, d), ds + [d])
  {
    match FindIndex(gs, HasCategory(CategoryOf(d)))
    case Some(n) => AddToExistingGroup(gs, ds, d, n);
    case None => AddToNewGroup(gs, ds, d);
  }

  /** Category `c` turns up in `ds` before any document of category `e`. */
  ghost predicate SeenBefore(ds: seq<Document>, c: string, e: string) {
    exists a :: 0 <= a < |ds| && CategoryOf(ds[a]) == c && forall b :: 0 <= b <= a ==> CategoryOf(ds[b]) != e
  }

  /** The groups come in the order their categories first turn up in `ds`, the
      order in which the `reduce` adds keys to the object. */
  ghost predicate InFirstSeenOrder(gs: seq<Group>, ds: seq<Document>) {
    forall i, j :: 0 <= i < j < |gs| ==> SeenBefore(ds, gs[i].category, gs[j].category)
  }

  lemma SeenBeforeSnoc(ds: seq<Document>, d: Document, c: string, e: string)
    requires SeenBefore(ds, c, e)
    ensures SeenBefore(ds + [d], c, e)
  {
    var a :| 0 <= a < |ds| && CategoryOf(ds[a]) == c && forall b :: 0 <= b <= a ==> CategoryOf(ds[b]) != e;
    assert (ds + [d])[a] == ds[a];
    forall b | 0 <= b <= a
      ensures CategoryOf((ds + [d])[b]) != e
    {
      assert (ds + [d])[b] == ds[b];
    }
  }

  /** Every grouped category turns up before a category that has no group yet. */
  lemma GroupSeenBeforeNewCategory(gs: seq<Group>, ds: seq<Document>, d: Document, i: nat)
    requires GroupsOf(gs, ds) && i < |gs|
    requires forall j :: 0 <= j < |gs| ==> gs[j].category != CategoryOf(d)
    ensures SeenBefore(ds + [d], gs[i].category, CategoryOf(d))
  {
    var c, ds' := gs[i].category, ds + [d];
    var x := gs[i].docs[0];
    FilterMembers(ds, InCategory(c));
    assert x in ds;
    var a :| 0 <= a < |ds| && ds[a] == x;
    assert ds'[a] == x;
    forall b | 0 <= b <= a
      ensures CategoryOf(ds'[b]) != CategoryOf(d)
    {
      assert ds'[b] == ds[b];
      var k :| 0 <= k < |gs| && gs[k].category == CategoryOf(ds[b]);
    }
  }

  lemma AddToKeepsOrder(gs: seq<Group>, ds: seq<Document>, d: Document)
    requires GroupsOf(gs, ds) && InFirstSeenOrder(gs, ds)
    ensures InFirstSeenOrder(AddTo(gs, d), ds + [d])
  {
    var r := AddTo(gs, d);
    match FindIndex(gs, HasCategory(CategoryOf(d)))
    case Some(n) =>
      forall i, j | 0 <= i < j < |r|
        ensures SeenBefore(ds + [d], r[i].category, r[j].category)
      {
        SeenBeforeSnoc(ds, d, gs[i].category, gs[j].category);
      }
    case None =>
      forall i, j | 0 <= i < j < |r|
        ensures SeenBefore(ds + [d], r[i].category, r[j].category)
      {
        if j < |gs| {
          SeenBeforeSnoc(ds, d, gs[i].category, gs[j].category);
        } else {
          GroupSeenBeforeNewCategory(gs, ds, d, i);
        }
      }
  }

  /** The number of documents across all groups. */
  function TotalDocs(gs: seq<Group>): nat {
    if gs == [] then 0 else |gs[0].docs| + TotalDocs(gs[1..])
  }

  lemma {:induction false} TotalDocsUpdate(gs: seq<Group>, i: nat, g: Group)
    requires i < |gs|
    ensures TotalDocs(gs[i := g]) == TotalDocs(gs) - |gs[i].docs| + |g.docs|
  {
    if i > 0 {
      assert gs[i := g][1..] == gs[1..][i - 1 := g];
      TotalDocsUpdate(gs[1..], i - 1, g);
    } else {
      assert gs[i := g][1..] == gs[1..];
    }
  }

  lemma {:induction false} TotalDocsAppend(gs: seq<Group>, g: Group)
    ensures TotalDocs(gs + [g]) == TotalDocs(gs) + |g.docs|
  {
    if gs != [] {
      assert (gs + [g])[1..] == gs[1..] + [g];
      TotalDocsAppend(gs[1..], g);
    }
  }

  lemma AddToCountsOne(gs: seq<Group>, d: Document)
    ensures TotalDocs(AddTo(gs, d)) == TotalDocs(gs) + 1
  {
    match FindIndex(gs, HasCategory(CategoryOf(d)))
    case Some(i) => TotalDocsUpdate(gs, i, gs[i].(docs := gs[i].docs + [d]));
    case None => TotalDocsAppend(gs, Group(CategoryOf(d), [d]));
  }

  /** `groupByCategory(documents)`, with the object's entries in insertion order. */
  function GroupByCategory(ds: seq<Document>): (gs: seq<Group>)
    ensures GroupsOf(gs, ds)
    ensures InFirstSeenOrder(gs, ds)
    ensures TotalDocs(gs) == |ds|
    ensures |gs| <= |ds|
  {
    if ds == [] then []
    else
      var init, last := ds[..|ds| - 1], ds[|ds| - 1];
      assert ds == init + [last];
      AddToKeepsGroups(GroupByCategory(init), init, last);
      AddToKeepsOrder(GroupByCategory(init), init, last);
      AddToCountsOne(GroupByCategory(init), last);
      AddTo(GroupByCategory(init), last)
  }

  // ---------------------------------------------------------------------------
  // Icons and labels

  /** `getStatusIcon(status)`: an unknown status falls back to the incomplete icon. */
  function StatusIcon(s: DocStatus): (r: string)
    ensures r == "&#11036;" <==> s == Incomplete || s == Unset
  {
    match s
    case Complete => "&#9989;"
    case Incomplete => "&#11036;"
    case NotApplicable => "&#10134;"
    case WaiverNeeded => "&#9888;"
    case Unset => "&#11036;"
  }

  /** `getStatusLabel(status)`: an unknown status reads "Unknown". */
  function StatusLabel(s: DocStatus): (r: string)
    ensures r == "Unknown" <==> s == Unset
  {
    match s
    case Complete => "Complete"
    case Incomplete => "Incomplete"
    case NotApplicable => "N/A"
    case WaiverNeeded => "Waiver Needed"
    case Unset => "Unknown"
  }

  /** Labels tell every two statuses apart; icons tell apart every two of the
      four named statuses, and show an unknown status as incomplete. */
  lemma IconsAndLabelsDistinguishStatuses(s: DocStatus, t: DocStatus)
    ensures StatusLabel(s) == StatusLabel(t) <==> s == t
    ensures s != Unset && t != Unset ==> (StatusIcon(s) == StatusIcon(t) <==> s == t)
    ensures StatusIcon(Unset) == StatusIcon(Incomplete)
  {
  }

  // ---------------------------------------------------------------------------
  // The document editor

  /** The editor's fields: the hidden document id, the checked status radio
      (`Unset` when none is checked), the notes and the date input's value. */
  datatype EditForm = EditForm(docId: int, status: DocStatus, notes: string, date: string)

  function HasId(id: int): Document -> bool {
    (d: Document) => d.id == id
  }

  /** `i` is the index of the first document whose id is `id`, the one
      `find` and `findIndex` pick. */
  predicate FirstWithId(docs: seq<Document>, i: int, id: int) {
    && 0 <= i < |docs| && docs[i].id == id
    && forall j :: 0 <= j < i ==> docs[j].id != id
  }

  /** Two documents are the same checklist entry: the template's fields agree. */
  predicate SameEntry(a: Document, b: Document) {
    a.id == b.id && a.category == b.category && a.name == b.name && a.required == b.required
  }

  /** `openEditModal(docId)`: the form filled from the first document with
      that id, None when there is none. Stored dates go through `new Date`,
      the parameter `parse`. */
  function OpenEditModal(docs: seq<Document>, docId: int, parse: string -> DateInput): (r: Option<EditForm>)
    ensures r.None? <==> forall i :: 0 <= i < |docs| ==> docs[i].id != docId
    ensures r.Some? ==>
      exists i :: && 0 <= i < |docs| && docs[i].id == docId
                  && (forall j :: 0 <= j < i ==> docs[j].id != docId)
                  && r.value.docId == docId && r.value.status == docs[i].status
                  && r.value.notes == docs[i].notes
                  && r.value.date == FormatISO(StoredDate(docs[i].dateCompleted, parse))
  {
    match FindIndex(docs, HasId(docId))
    case None => None
    case Some(i) =>
      var d := docs[i];
      Some(EditForm(docId, d.status, d.notes, FormatISO(StoredDate(d.dateCompleted, parse))))
  }

  /** The document as `saveDocument` leaves it: the form's status and notes,
      and its date, an empty date input storing `null`. */
  function Edited(d: Document, f: EditForm): (r: Document)
    ensures r.status == f.status && r.notes == f.notes
    ensures r.dateCompleted.None? <==> f.date == ""
    ensures r.dateCompleted.Some? ==> r.dateCompleted.value == f.date
    ensures r.(status := d.status, notes := d.notes, dateCompleted := d.dateCompleted) == d
  {
    d.(status := f.status, notes := f.notes, dateCompleted := if f.date == "" then None else Some(f.date))
  }

  /** `saveDocument()` on the documents: the first document with the form's
      id is edited and every other one is left alone; None when there is no
      such document. */
  function SaveDocumentSpec(docs: seq<Document>, f: EditForm): (r: Option<seq<Document>>)
    ensures r.None? <==> forall i :: 0 <= i < |docs| ==> docs[i].id != f.docId
    ensures r.Some? ==>
      exists i :: && 0 <= i < |docs| && docs[i].id == f.docId
                  && (forall j :: 0 <= j < i ==> docs[j].id != f.docId)
                  && r.value == docs[i := Edited(docs[i], f)]
    ensures r.Some? ==> |r.value| == |docs| && forall j :: 0 <= j < |docs| ==> SameEntry(r.value[j], docs[j])
  {
    match FindIndex(docs, HasId(f.docId))
    case None => None
    case Some(i) => Some(docs[i := Edited(docs[i], f)])
  }

  /** Opening the editor and saving without touching it keeps every
      document's status and notes, and leaves the documents exactly as they
      were when the opened document's date survives the editor. */
  lemma OpenThenSave(docs: seq<Document>, docId: int, parse: string -> DateInput)
    ensures var f := OpenEditModal(docs, docId, parse);
      f.Some? ==>
        var r := SaveDocumentSpec(docs, f.value);
        && r.Some? && |r.value| == |docs|
        && (forall i :: 0 <= i < |docs| ==> r.value[i].status == docs[i].status && r.value[i].notes == docs[i].notes)
        && (forall i :: FirstWithId(docs, i, docId) && SurvivesDateInput(docs[i].dateCompleted, parse) ==>
              r.value == docs)
  {
    var f := OpenEditModal(docs, docId, parse);
    if f.Some? {
      var k := FindIndex(docs, HasId(docId)).value;
      var r := SaveDocumentSpec(docs, f.value);
      assert r == Some(docs[k := Edited(docs[k], f.value)]);
      forall i | FirstWithId(docs, i, docId) && SurvivesDateInput(docs[i].dateCompleted, parse)
        ensures r.value == docs
      {
        assert i == k;
        assert Edited(docs[k], f.value) == docs[k];
      }
    }
  }

  // ---------------------------------------------------------------------------
  // The quick toggle

  /** `toggleStatus` on one document: complete becomes incomplete without a
      date; anything else becomes complete, dated `now`. */
  function Toggled(d: Document, now: string): (r: Document)
    ensures r.status == Complete <==> d.status != Complete
    ensures r.status == Complete ==> r.dateCompleted == Some(now)
    ensures r.status != Complete ==> r.status == Incomplete && r.dateCompleted == None
    ensures r.(status := d.status, dateCompleted := d.dateCompleted) == d
  {
    if d.status == Complete then d.(status := Incomplete, dateCompleted := None)
    else d.(status := Complete, dateCompleted := Some(now))
  }

  /** Toggling twice restores a complete document, with the second date, and
      turns any other document into an incomplete one without a date. */
  lemma ToggleTwice(d: Document, t1: string, t2: string)
    ensures Toggled(Toggled(d, t1), t2) ==
      if d.status == Complete then d.(dateCompleted := Some(t2))
      else d.(status := Incomplete, dateCompleted := None)
  {
  }

  /** `toggleStatus(docId)` on the documents; None when no document has the id. */
  function ToggleSpec(docs: seq<Document>, docId: int, now: string): (r: Option<seq<Document>>)
    ensures r.None? <==> forall i :: 0 <= i < |docs| ==> docs[i].id != docId
    ensures r.Some? ==>
      exists i :: && 0 <= i < |docs| && docs[i].id == docId
                  && (forall j :: 0 <= j < i ==> docs[j].id != docId)
                  && r.value == docs[i := Toggled(docs[i], now)]
    ensures r.Some? ==> |r.value| == |docs| && forall j :: 0 <= j < |docs| ==> SameEntry(r.value[j], docs[j])
  {
    match FindIndex(docs, HasId(docId))
    case None => None
    case Some(i) => Some(docs[i := Toggled(docs[i], now)])
  }

  /** Toggling a required document, by its status before the toggle:
      incomplete counts one more done and one fewer missing; complete does the
      reverse; not applicable already counted as done, so nothing moves;
      waiver needed or unknown counts one more done but was never missing.
      The required count never moves. */
  lemma ToggleRequiredProgress(p: Package, i: nat, now: string)
    requires i < |p.documents| && p.documents[i].required
    ensures var before := CalculateProgress(Some(p));
      var after := CalculateProgress(Some(p.(documents := p.documents[i := Toggled(p.documents[i], now)])));
      && after.required == before.required
      && (p.documents[i].status == Incomplete ==>
            after.complete == before.complete + 1 && |after.missing| == |before.missing| - 1)
      && (p.documents[i].status == Complete ==>
            after.complete == before.complete - 1 && |after.missing| == |before.missing| + 1)
      && (p.documents[i].status == NotApplicable ==>
            after.complete == before.complete && |after.missing| == |before.missing|)
      && (p.documents[i].status == WaiverNeeded || p.documents[i].status == Unset ==>
            after.complete == before.complete + 1 && |after.missing| == |before.missing|)
  {
    var d := Toggled(p.documents[i], now);
    var p' := p.(documents := p.documents[i := d]);
    assert p'.documents == p.documents[i := d];
    FilterUpdateCount(p.documents, i, d, IsRequiredDone);
    FilterUpdateCount(p.documents, i, d, IsRequired);
    FilterUpdateCount(p.documents, i, d, IsMissing);
  }

  /** Toggling a document that is not required leaves the percentage and the
      counts as they were. */
  lemma ToggleOptionalProgress(p: Package, i: nat, now: string)
    requires i < |p.documents| && !p.documents[i].required
    ensures var before := CalculateProgress(Some(p));
      var after := CalculateProgress(Some(p.(documents := p.documents[i := Toggled(p.documents[i], now)])));
      after.percentage == before.percentage && after.complete == before.complete
      && after.required == before.required && after.missing == before.missing
  {
    var d := Toggled(p.documents[i], now);
    FilterUpdateUnseen(p.documents, i, d, IsRequired);
    FilterUpdateUnseen(p.documents, i, d, IsRequiredDone);
    FilterUpdateUnseen(p.documents, i, d, IsMissing);
  }

  // ---------------------------------------------------------------------------
  // The manager

  /** `ChecklistManager`: the package on screen and the filter's value. The
      current time and whether the browser accepts the write are parameters;
      `Storage.save` is `StorageUtil.Storage.Save`. */
  class ChecklistManager {
    var currentPackage: Option<Package>
    var filterStatus: StatusFilter

    constructor()
      ensures currentPackage == None && filterStatus == All
    {
      currentPackage := None;
      filterStatus := All;
    }

    /** `init(pkg)`. */
    method Init(pkg: Package)
      modifies this
      ensures currentPackage == Some(pkg) && filterStatus == old(filterStatus)
    {
      currentPackage := Some(pkg);
    }

    /** The filter select's `change` handler. */
    method SetFilter(f: StatusFilter)
      modifies this
      ensures filterStatus == f && currentPackage == old(currentPackage)
    {
      filterStatus := f;
    }

    /** `saveDocument()`: edits the document, stamps the package and saves it.
        A form naming no document changes nothing. */
    method SaveDocument(f: EditForm, now: string, store: StorageUtil.Storage<Package>, accepted: bool)
      requires currentPackage.Some? && store.Valid()
      modifies this, store
      ensures store.Valid() && filterStatus == old(filterStatus)
      ensures SaveDocumentSpec(old(currentPackage.value.documents), f).None? ==>
        currentPackage == old(currentPackage) && store.keys == old(store.keys) && store.items == old(store.items)
      ensures SaveDocumentSpec(old(currentPackage.value.documents), f).Some? ==>
        && currentPackage == Some(old(currentPackage.value).(
             documents := SaveDocumentSpec(old(currentPackage.value.documents), f).value,
             lastUpdated := now))
        && (accepted ==> store.items == old(store.items)[StorageUtil.Prefix + old(currentPackage.value.id) := StorageUtil.Json(currentPackage.value)])
        && (accepted ==> store.keys == StorageUtil.KeysAfterWrite(old(store.keys), StorageUtil.Prefix + old(currentPackage.value.id)))
        && (!accepted ==> store.keys == old(store.keys) && store.items == old(store.items))
    {
      var pkg := currentPackage.value;
      var r := SaveDocumentSpec(pkg.documents, f);
      if r.Some? {
        var updated := pkg.(documents := r.value, lastUpdated := now);
        currentPackage := Some(updated);
        var _ := store.Save(updated.id, updated, accepted);
      }
    }

    /** `toggleStatus(docId)`: toggles the document, stamps the package and
        saves it. An unknown id changes nothing. */
    method ToggleStatus(docId: int, now: string, store: StorageUtil.Storage<Package>, accepted: bool)
      requires currentPackage.Some? && store.Valid()
      modifies this, store
      ensures store.Valid() && filterStatus == old(filterStatus)
      ensures ToggleSpec(old(currentPackage.value.documents), docId, now).None? ==>
        currentPackage == old(currentPackage) && store.keys == old(store.keys) && store.items == old(store.items)
      ensures ToggleSpec(old(currentPackage.value.documents), docId, now).Some? ==>
        && currentPackage == Some(old(currentPackage.value).(
             documents := ToggleSpec(old(currentPackage.value.documents), docId, now).value,
             lastUpdated := now))
        && (accepted ==> store.items == old(store.items)[StorageUtil.Prefix + old(currentPackage.value.id) := StorageUtil.Json(currentPackage.value)])
        && (accepted ==> store.keys == StorageUtil.KeysAfterWrite(old(store.keys), StorageUtil.Prefix + old(currentPackage.value.id)))
        && (!accepted ==> store.keys == old(store.keys) && store.items == old(store.items))
    {
      var pkg := currentPackage.value;
      var r := ToggleSpec(pkg.documents, docId, now);
      if r.Some? {
        var updated := pkg.(documents := r.value, lastUpdated := now);
        currentPackage := Some(updated);
        var _ := store.Save(updated.id, updated, accepted);
      }
    }
  }
}
