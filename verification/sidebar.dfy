/**
 * The dashboard sidebar: the Overview entry and the folder list, each folder
 * being a drop target for form cards.
 */
module Sidebar {
  import opened Options
  import opened Strings
  import opened Seqs
  import opened Dashboard
  import FormModel

  /** One folder entry: its name, whether it is highlighted, and its drop target. */
  datatype Item = Item(name: string, active: bool, target: DropTarget)

  /** `useDroppable({ id: 'folder-' + name, data: { folderName: name } })`. */
  function TargetOf(name: string): (t: DropTarget)
    ensures StartsWith(t.id, FolderPrefix) && t.id[|FolderPrefix|..] == name
    ensures t.folderName == Some(name)
  {
    DropTarget(FolderPrefix + name, Some(name))
  }

  function ItemOf(name: string, activeFolder: string): Item {
    Item(name, activeFolder == name, TargetOf(name))
  }

  predicate NotUncategorized(f: string) {
    f != FormModel.Uncategorized
  }

  /** The names listed: "Uncategorized" first, then the other folders in their given order. */
  function FolderList(folders: seq<string>): seq<string> {
    [FormModel.Uncategorized] + Filter(folders, NotUncategorized)
  }

  function Items(folders: seq<string>, activeFolder: string): (r: seq<Item>)
    ensures |r| == |FolderList(folders)|
    ensures forall i :: 0 <= i < |r| ==> r[i] == ItemOf(FolderList(folders)[i], activeFolder)
  {
    var names := FolderList(folders);
    seq(|names|, i requires 0 <= i < |names| => ItemOf(names[i], activeFolder))
  }

  /** The Overview entry is highlighted exactly when no folder is selected. */
  predicate OverviewActive(activeFolder: string) {
    activeFolder == AllFolders
  }

  /** "Uncategorized" is listed first and exactly once, whether or not the folders name it. */
  lemma UncategorizedFirstAndOnce(folders: seq<string>)
    ensures FolderList(folders)[0] == FormModel.Uncategorized
    ensures Count(FolderList(folders), FormModel.Uncategorized) == 1
  {
    var rest := Filter(folders, NotUncategorized);
    assert FormModel.Uncategorized !in rest;
    CountAbsent(rest, FormModel.Uncategorized);
    assert FolderList(folders)[1..] == rest;
  }

  /** The other folders follow in their given order, every one of them listed. */
  lemma OtherFoldersInOrder(folders: seq<string>)
    ensures IsSubsequence(FolderList(folders)[1..], folders)
    ensures forall i :: 0 <= i < |folders| ==> folders[i] in FolderList(folders)
  {
    FilterIsSubsequence(folders, NotUncategorized);
    assert FolderList(folders)[1..] == Filter(folders, NotUncategorized);
  }

  /** Folders without repeats are listed without repeats. */
  lemma FolderListDistinct(folders: seq<string>)
    requires NoDuplicates(folders)
    ensures NoDuplicates(FolderList(folders))
  {
    var rest := Filter(folders, NotUncategorized);
    var list := FolderList(folders);
    FilterKeepsDistinct(folders, NotUncategorized);
    assert forall k :: 1 <= k < |list| ==> list[k] == rest[k - 1];
    assert forall k :: 0 <= k < |rest| ==> rest[k] != FormModel.Uncategorized;
  }

  /** Listing the dashboard's folders shows each name exactly once. */
  lemma DashboardFoldersListedOnce(forms: seq<FormSummary>)
    ensures NoDuplicates(FolderList(Folders(forms)))
  {
    FolderListDistinct(Folders(forms));
  }

  /** Dropping a card on any listed folder with a non-empty name moves it into that folder. */
  lemma DropOnListedFolderMoves(forms: seq<FormSummary>, activeId: string, folders: seq<string>,
                                activeFolder: string, i: int, k: int)
    requires 0 <= i < |Items(folders, activeFolder)|
    requires Items(folders, activeFolder)[i].name != ""
    requires 0 <= k < |forms| && forms[k].id == activeId
    ensures HandleDragEnd(forms, activeId, Some(Items(folders, activeFolder)[i].target)).Moved?
    ensures FolderOf(HandleDragEnd(forms, activeId, Some(Items(folders, activeFolder)[i].target)).forms[k]) ==
      Items(folders, activeFolder)[i].name
  {
    var item := Items(folders, activeFolder)[i];
    MoveFilesUnderTarget(forms, activeId, item.target, k);
  }

  /** An entry is highlighted exactly when its name is the selected folder. */
  lemma ActiveIffSelected(folders: seq<string>, activeFolder: string, i: int)
    requires 0 <= i < |Items(folders, activeFolder)|
    ensures Items(folders, activeFolder)[i].active <==> Items(folders, activeFolder)[i].name == activeFolder
  {
  }
}
