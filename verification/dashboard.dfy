/**
 * The dashboard's list of forms: the folders derived from the forms, the
 * folder and search filters, the sort, and the optimistic folder move after
 * a card is dropped on a folder.
 */
module Dashboard {
  import opened Options
  import opened JsValues
  import opened Strings
  import opened Seqs
  import opened Sorting
  import FormModel

  /** A form as the dashboard lists it; `updatedAt` is the time value of the stored date. */
  datatype FormSummary = FormSummary(
    id: string,
    title: string,
    description: Option<string>,
    updatedAt: int,
    responses: int,
    folderName: Option<string>,
    status: Option<string>)

  /** The folder filter value that shows every form. */
  const AllFolders: string := "all"

  /** The prefix of every folder drop target's id. */
  const FolderPrefix: string := "folder-"

  /** `folderName || 'Uncategorized'`. */
  function FolderOf(f: FormSummary): string {
    OrElse(f.folderName, FormModel.Uncategorized)
  }

  function FolderNames(forms: seq<FormSummary>): (r: seq<string>)
    ensures |r| == |forms| && forall i :: 0 <= i < |forms| ==> r[i] == FolderOf(forms[i])
  {
    seq(|forms|, i requires 0 <= i < |forms| => FolderOf(forms[i]))
  }

  /** `Array.from(new Set(forms.map(folderOf)))`. */
  function Folders(forms: seq<FormSummary>): (r: seq<string>)
    ensures NoDuplicates(r)
    ensures forall i :: 0 <= i < |forms| ==> FolderOf(forms[i]) in r
    ensures forall j :: 0 <= j < |r| ==> r[j] in FolderNames(forms)
  {
    Dedup(FolderNames(forms))
  }

  /** The folders come in the order in which the forms first use them. */
  lemma FoldersInFirstUseOrder(forms: seq<FormSummary>)
    ensures forall i, j :: 0 <= i < j < |Folders(forms)| ==>
      FirstIndex(FolderNames(forms), Folders(forms)[i]) < FirstIndex(FolderNames(forms), Folders(forms)[j])
  {
    DedupFirstOccurrenceOrder(FolderNames(forms));
  }

  predicate InFolder(f: FormSummary, activeFolder: string) {
    FolderOf(f) == activeFolder
  }

  function FolderFilter(forms: seq<FormSummary>, activeFolder: string): seq<FormSummary> {
    if activeFolder != AllFolders then Filter(forms, (f: FormSummary) => InFolder(f, activeFolder)) else forms
  }

  /** The lower-cased query occurs in the lower-cased title or description. */
  predicate MatchesSearch(f: FormSummary, search: string) {
    var query := Lower(search);
    Contains(Lower(f.title), query) || (f.description.Some? && Contains(Lower(f.description.value), query))
  }

  function SearchFilter(forms: seq<FormSummary>, search: string): seq<FormSummary> {
    if search != "" then Filter(forms, (f: FormSummary) => MatchesSearch(f, search)) else forms
  }

  /** `settings?.status || ""`. */
  function StatusKey(f: FormSummary): string {
    OrElse(f.status, "")
  }

  /** The comparator for a sort key; an unknown key compares everything equal. */
  function Compare(sortBy: string, a: FormSummary, b: FormSummary): int {
    if sortBy == "newest" then b.updatedAt - a.updatedAt
    else if sortBy == "oldest" then a.updatedAt - b.updatedAt
    else if sortBy == "responses" then b.responses - a.responses
    else if sortBy == "status" then CompareText(StatusKey(a), StatusKey(b))
    else 0
  }

  function Comparator(sortBy: string): (FormSummary, FormSummary) -> int {
    (a: FormSummary, b: FormSummary) => Compare(sortBy, a, b)
  }

  /** `filteredForms`: folder filter, then search filter, then the stable sort. */
  function Visible(forms: seq<FormSummary>, search: string, sortBy: string, activeFolder: string): seq<FormSummary> {
    Sort(SearchFilter(FolderFilter(forms, activeFolder), search), Comparator(sortBy))
  }

  predicate Kept(f: FormSummary, search: string, activeFolder: string) {
    (activeFolder == AllFolders || InFolder(f, activeFolder)) && (search == "" || MatchesSearch(f, search))
  }

  lemma FiltersKeep(forms: seq<FormSummary>, search: string, activeFolder: string)
    ensures multiset(SearchFilter(FolderFilter(forms, activeFolder), search)) <= multiset(forms)
    ensures forall f ::
      multiset(SearchFilter(FolderFilter(forms, activeFolder), search))[f] == (if Kept(f, search, activeFolder) then multiset(forms)[f] else 0)
    ensures forall i :: 0 <= i < |SearchFilter(FolderFilter(forms, activeFolder), search)| ==>
      Kept(SearchFilter(FolderFilter(forms, activeFolder), search)[i], search, activeFolder)
    ensures forall i :: 0 <= i < |forms| && Kept(forms[i], search, activeFolder) ==>
      forms[i] in SearchFilter(FolderFilter(forms, activeFolder), search)
  {
    var byFolder := FolderFilter(forms, activeFolder);
    var bySearch := SearchFilter(byFolder, search);
    forall f
      ensures multiset(bySearch)[f] == if Kept(f, search, activeFolder) then multiset(forms)[f] else 0
    {
      if activeFolder != AllFolders {
        FilterCount(forms, (g: FormSummary) => InFolder(g, activeFolder), f);
      }
      if search != "" {
        FilterCount(byFolder, (g: FormSummary) => MatchesSearch(g, search), f);
      }
    }
    forall i | 0 <= i < |bySearch|
      ensures Kept(bySearch[i], search, activeFolder)
    {
      assert bySearch[i] in byFolder;
    }
    forall i | 0 <= i < |forms| && Kept(forms[i], search, activeFolder)
      ensures forms[i] in bySearch
    {
      assert forms[i] in byFolder;
    }
  }

  /**
   * The visible list holds exactly the forms that pass both filters, each as
   * often as in the input: a permutation of a sub-multiset of the forms.
   */
  lemma VisibleIsFilteredPermutation(forms: seq<FormSummary>, search: string, sortBy: string, activeFolder: string)
    ensures multiset(Visible(forms, search, sortBy, activeFolder)) <= multiset(forms)
    ensures forall f ::
      multiset(Visible(forms, search, sortBy, activeFolder))[f] == (if Kept(f, search, activeFolder) then multiset(forms)[f] else 0)
    ensures forall i :: 0 <= i < |Visible(forms, search, sortBy, activeFolder)| ==>
      Kept(Visible(forms, search, sortBy, activeFolder)[i], search, activeFolder)
    ensures forall i :: 0 <= i < |forms| && Kept(forms[i], search, activeFolder) ==>
      forms[i] in Visible(forms, search, sortBy, activeFolder)
  {
    var kept := SearchFilter(FolderFilter(forms, activeFolder), search);
    FiltersKeep(forms, search, activeFolder);
    SortPermutes(kept, Comparator(sortBy));
    var r := Visible(forms, search, sortBy, activeFolder);
    forall i | 0 <= i < |r|
      ensures Kept(r[i], search, activeFolder)
    {
      assert r[i] in multiset(kept);
    }
    forall i | 0 <= i < |forms| && Kept(forms[i], search, activeFolder)
      ensures forms[i] in r
    {
      assert forms[i] in multiset(kept);
    }
  }

  /** No folder filter and no search: the visible list is a reordering of all forms. */
  lemma NoFiltersShowsEverything(forms: seq<FormSummary>, sortBy: string)
    ensures multiset(Visible(forms, "", sortBy, AllFolders)) == multiset(forms)
  {
    SortPermutes(forms, Comparator(sortBy));
  }

  lemma ComparatorIsPreorder(sortBy: string)
    ensures IsPreorder(Comparator(sortBy))
  {
    var cmp := Comparator(sortBy);
    if sortBy == "status" {
      forall a: FormSummary, b: FormSummary | cmp(a, b) >= 0
        ensures cmp(b, a) <= 0
      {
        CompareTextAntisymmetric(StatusKey(a), StatusKey(b));
      }
      forall a: FormSummary, b: FormSummary, c: FormSummary | cmp(a, b) <= 0 && cmp(b, c) <= 0
        ensures cmp(a, c) <= 0
      {
        CompareTextTransitive(StatusKey(a), StatusKey(b), StatusKey(c));
      }
    }
  }

  /** What each known key promises about the order of a list. */
  predicate OrderedFor(r: seq<FormSummary>, sortBy: string) {
    && (sortBy == "newest" ==> forall i, j :: 0 <= i < j < |r| ==> r[i].updatedAt >= r[j].updatedAt)
    && (sortBy == "oldest" ==> forall i, j :: 0 <= i < j < |r| ==> r[i].updatedAt <= r[j].updatedAt)
    && (sortBy == "responses" ==> forall i, j :: 0 <= i < j < |r| ==> r[i].responses >= r[j].responses)
    && (sortBy == "status" ==> forall i, j :: 0 <= i < j < |r| ==> CompareText(StatusKey(r[i]), StatusKey(r[j])) <= 0)
  }

  lemma SortedByComparatorIsOrdered(r: seq<FormSummary>, sortBy: string)
    requires SortedBy(r, Comparator(sortBy))
    ensures OrderedFor(r, sortBy)
  {
    forall i, j | 0 <= i < j < |r|
      ensures Compare(sortBy, r[i], r[j]) <= 0
    {
      assert Comparator(sortBy)(r[i], r[j]) <= 0;
    }
  }

  /** Each known key orders the visible list as its name says. */
  lemma VisibleIsOrdered(forms: seq<FormSummary>, search: string, sortBy: string, activeFolder: string)
    ensures OrderedFor(Visible(forms, search, sortBy, activeFolder), sortBy)
  {
    ComparatorIsPreorder(sortBy);
    SortSorted(SearchFilter(FolderFilter(forms, activeFolder), search), Comparator(sortBy));
    SortedByComparatorIsOrdered(Visible(forms, search, sortBy, activeFolder), sortBy);
  }

  /** An unknown sort key keeps the filtered forms in their original order. */
  lemma UnknownKeyKeepsOrder(forms: seq<FormSummary>, search: string, sortBy: string, activeFolder: string)
    requires sortBy !in ["newest", "oldest", "responses", "status"]
    ensures Visible(forms, search, sortBy, activeFolder) == SearchFilter(FolderFilter(forms, activeFolder), search)
  {
    var kept := SearchFilter(FolderFilter(forms, activeFolder), search);
    var cmp := Comparator(sortBy);
    assert sortBy != "newest" && sortBy != "oldest" && sortBy != "responses" && sortBy != "status";
    assert forall a, b :: cmp(a, b) == 0;
    SortKeepsOrderWhenNothingPrecedes(kept, cmp);
  }

  /** The drop target of a drag, when there is one: its id and the `folderName` in its data. */
  datatype DropTarget = DropTarget(id: string, folderName: Option<string>)

  /** The request that persists a move. */
  datatype MoveRequest = MoveRequest(url: string, folderName: string)

  datatype DropEffect =
    | Ignored
    | Moved(forms: seq<FormSummary>, request: MoveRequest)

  /** `f._id === formId ? { ...f, folderName } : f`. */
  function MoveOne(f: FormSummary, formId: string, folderName: string): FormSummary {
    if f.id == formId then f.(folderName := Some(folderName)) else f
  }

  /** `handleDragEnd`, up to the optimistic update and the PATCH it sends. */
  function HandleDragEnd(forms: seq<FormSummary>, activeId: string, over: Option<DropTarget>): (r: DropEffect)
    ensures r.Moved? <==>
      over.Some? && StartsWith(over.value.id, FolderPrefix) &&
      over.value.folderName.Some? && over.value.folderName.value != ""
    ensures r.Moved? ==> r.request == MoveRequest("/api/forms/" + activeId, over.value.folderName.value)
    ensures r.Moved? ==> |r.forms| == |forms|
    ensures r.Moved? ==> forall i :: 0 <= i < |forms| && forms[i].id != activeId ==> r.forms[i] == forms[i]
    ensures r.Moved? ==> forall i :: 0 <= i < |forms| && forms[i].id == activeId ==>
      r.forms[i] == forms[i].(folderName := Some(over.value.folderName.value))
  {
    if over.Some? && StartsWith(over.value.id, FolderPrefix) then
      match over.value.folderName
      case Some(name) =>
        if name != "" then
          Moved(seq(|forms|, i requires 0 <= i < |forms| => MoveOne(forms[i], activeId, name)),
                MoveRequest("/api/forms/" + activeId, name))
        else Ignored
      case None => Ignored
    else Ignored
  }

  /** After a move, the moved form files under the target folder, and that folder is listed. */
  lemma MoveFilesUnderTarget(forms: seq<FormSummary>, activeId: string, over: DropTarget, k: int)
    requires HandleDragEnd(forms, activeId, Some(over)).Moved?
    requires 0 <= k < |forms| && forms[k].id == activeId
    ensures FolderOf(HandleDragEnd(forms, activeId, Some(over)).forms[k]) == over.folderName.value
    ensures over.folderName.value in Folders(HandleDragEnd(forms, activeId, Some(over)).forms)
  {
  }

  /** When the ids are distinct, a move changes at most one form. */
  lemma MoveChangesAtMostOne(forms: seq<FormSummary>, activeId: string, over: Option<DropTarget>, i: int, j: int)
    requires forall a, b :: 0 <= a < b < |forms| ==> forms[a].id != forms[b].id
    requires HandleDragEnd(forms, activeId, over).Moved?
    requires 0 <= i < j < |forms|
    ensures HandleDragEnd(forms, activeId, over).forms[i] == forms[i] ||
            HandleDragEnd(forms, activeId, over).forms[j] == forms[j]
  {
  }
}
