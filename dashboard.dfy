/**
 * The dashboard page: the signed-in user's worksheets, a search box that filters
 * them by title, inline renaming and deletion. Deletion and renaming first ask the
 * database; the local list changes only when that request succeeds, which the
 * model takes as a boolean input.
 */
module DashboardPage {
  import opened Wrappers
  import opened JsText
  import opened Worksheets

  /** The search test: the lower-cased title contains the lower-cased query. */
  predicate MatchesQuery(w: Worksheet, query: string) {
    Includes(ToLower(w.title), ToLower(query))
  }

  /** The worksheets the list shows: those matching the query, in their original order. */
  function FilterWorksheets(ws: seq<Worksheet>, query: string): (r: seq<Worksheet>)
    ensures |r| <= |ws|
    ensures forall w :: w in r <==> w in ws && MatchesQuery(w, query)
    decreases |ws|
  {
    if ws == [] then []
    else (if MatchesQuery(ws[0], query) then [ws[0]] else []) + FilterWorksheets(ws[1..], query)
  }

  /** Filtering distributes over concatenation, so it keeps the relative order of what it keeps. */
  lemma {:induction false} FilterAppend(a: seq<Worksheet>, b: seq<Worksheet>, query: string)
    ensures FilterWorksheets(a + b, query) == FilterWorksheets(a, query) + FilterWorksheets(b, query)
    decreases |a|
  {
    if a != [] {
      assert (a + b)[1..] == a[1..] + b;
      FilterAppend(a[1..], b, query);
    } else {
      assert a + b == b;
    }
  }

  /** When every worksheet matches, the list is shown whole and in order. */
  lemma {:induction false} FilterAllMatch(ws: seq<Worksheet>, query: string)
    requires forall w :: w in ws ==> MatchesQuery(w, query)
    ensures FilterWorksheets(ws, query) == ws
    decreases |ws|
  {
    if ws != [] {
      assert forall w :: w in ws[1..] ==> w in ws;
      FilterAllMatch(ws[1..], query);
    }
  }

  /** An empty search box shows every worksheet, in order. */
  lemma EmptyQueryShowsAll(ws: seq<Worksheet>)
    ensures FilterWorksheets(ws, "") == ws
  {
    assert ToLower("") == "";
    forall w | w in ws ensures MatchesQuery(w, "") {
      assert OccursAt(ToLower(w.title), "", 0);
    }
    FilterAllMatch(ws, "");
  }

  /** Upper- or lower-casing the query changes nothing about the result. */
  lemma QueryCaseInsensitive(ws: seq<Worksheet>, query: string)
    ensures FilterWorksheets(ws, ToUpper(query)) == FilterWorksheets(ws, query)
    ensures FilterWorksheets(ws, ToLower(query)) == FilterWorksheets(ws, query)
  {
    assert ToLower(ToUpper(query)) == ToLower(query);
    ToLowerIdempotent(query);
    SameMatchesSameFilter(ws, ToUpper(query), query);
    SameMatchesSameFilter(ws, ToLower(query), query);
  }

  lemma {:induction false} SameMatchesSameFilter(ws: seq<Worksheet>, q1: string, q2: string)
    requires ToLower(q1) == ToLower(q2)
    ensures FilterWorksheets(ws, q1) == FilterWorksheets(ws, q2)
    decreases |ws|
  {
    if ws != [] {
      SameMatchesSameFilter(ws[1..], q1, q2);
    }
  }

  /** Filtering the shown list again with the same query shows the same list. */
  lemma FilterIdempotent(ws: seq<Worksheet>, query: string)
    ensures FilterWorksheets(FilterWorksheets(ws, query), query) == FilterWorksheets(ws, query)
  {
    FilterAllMatch(FilterWorksheets(ws, query), query);
  }

  /** The list after a successful delete: every worksheet with that id is gone, the rest keep their order. */
  function RemoveById(ws: seq<Worksheet>, id: string): (r: seq<Worksheet>)
    ensures |r| <= |ws|
    ensures forall w :: w in r <==> w in ws && w.id != id
    decreases |ws|
  {
    if ws == [] then []
    else (if ws[0].id != id then [ws[0]] else []) + RemoveById(ws[1..], id)
  }

  lemma {:induction false} RemoveByIdAppend(a: seq<Worksheet>, b: seq<Worksheet>, id: string)
    ensures RemoveById(a + b, id) == RemoveById(a, id) + RemoveById(b, id)
    decreases |a|
  {
    if a != [] {
      assert (a + b)[1..] == a[1..] + b;
      RemoveByIdAppend(a[1..], b, id);
    } else {
      assert a + b == b;
    }
  }

  /** Deleting an id no worksheet carries leaves the list as it was; deleting twice is deleting once. */
  lemma {:induction false} RemoveByIdAbsent(ws: seq<Worksheet>, id: string)
    requires forall w :: w in ws ==> w.id != id
    ensures RemoveById(ws, id) == ws
    decreases |ws|
  {
    if ws != [] {
      assert forall w :: w in ws[1..] ==> w in ws;
      RemoveByIdAbsent(ws[1..], id);
    }
  }

  lemma RemoveByIdIdempotent(ws: seq<Worksheet>, id: string)
    ensures RemoveById(RemoveById(ws, id), id) == RemoveById(ws, id)
  {
    RemoveByIdAbsent(RemoveById(ws, id), id);
  }

  /** The list after a successful rename: the matching entries take the new title and keep everything else. */
  function RenameById(ws: seq<Worksheet>, id: string, title: string): (r: seq<Worksheet>)
    ensures |r| == |ws|
    ensures forall k :: 0 <= k < |ws| ==>
      && r[k].id == ws[k].id && r[k].description == ws[k].description && r[k].sections == ws[k].sections
      && r[k].generalInstructions == ws[k].generalInstructions && r[k].userId == ws[k].userId
      && r[k].title == (if ws[k].id == id then title else ws[k].title)
  {
    seq(|ws|, k requires 0 <= k < |ws| => if ws[k].id == id then ws[k].(title := title) else ws[k])
  }

  /** A renamed worksheet is found by searching for its new title. */
  lemma RenamedIsFound(ws: seq<Worksheet>, id: string, title: string, k: nat)
    requires k < |ws| && ws[k].id == id
    ensures RenameById(ws, id, title)[k] in FilterWorksheets(RenameById(ws, id, title), title)
  {
    var r := RenameById(ws, id, title);
    assert OccursAt(ToLower(r[k].title), ToLower(title), 0);
  }

  /** Renaming does not change which worksheets a delete removes. */
  lemma {:induction false} RenameThenRemove(ws: seq<Worksheet>, id: string, title: string)
    ensures RemoveById(RenameById(ws, id, title), id) == RemoveById(ws, id)
    decreases |ws|
  {
    if ws != [] {
      assert RenameById(ws, id, title)[1..] == RenameById(ws[1..], id, title);
      RenameThenRemove(ws[1..], id, title);
    }
  }

  class Dashboard {
    var worksheets: seq<Worksheet>
    /** The worksheet whose title is being edited inline, if any (null in the page). */
    var editingId: Option<string>
    var editingTitle: string
    var searchQuery: string

    /** The page as first shown, before the worksheets arrive. */
    constructor ()
      ensures worksheets == [] && editingId == None && editingTitle == "" && searchQuery == ""
    {
      worksheets := [];
      editingId := None;
      editingTitle := "";
      searchQuery := "";
    }

    /** The rows the table shows. */
    function Filtered(): (r: seq<Worksheet>)
      reads this
      ensures forall w :: w in r <==> w in worksheets && MatchesQuery(w, searchQuery)
      ensures searchQuery == "" ==> r == worksheets
    {
      EmptyQueryShowsAll(worksheets);
      FilterWorksheets(worksheets, searchQuery)
    }

    /** Typing into the search box. */
    method SetSearchQuery(query: string)
      modifies this
      ensures searchQuery == query
      ensures worksheets == old(worksheets) && editingId == old(editingId) && editingTitle == old(editingTitle)
    {
      searchQuery := query;
    }

    /** Opens the inline title editor on `w`, prefilled with its current title. */
    method StartEditing(w: Worksheet)
      modifies this
      ensures editingId == Some(w.id) && editingTitle == w.title
      ensures worksheets == old(worksheets) && searchQuery == old(searchQuery)
    {
      editingId := Some(w.id);
      editingTitle := w.title;
    }

    /** Typing into the inline title editor. */
    method SetEditingTitle(title: string)
      modifies this
      ensures editingTitle == title
      ensures worksheets == old(worksheets) && editingId == old(editingId) && searchQuery == old(searchQuery)
    {
      editingTitle := title;
    }

    method CancelEditing()
      modifies this
      ensures editingId == None && editingTitle == ""
      ensures worksheets == old(worksheets) && searchQuery == old(searchQuery)
    {
      editingId := None;
      editingTitle := "";
    }

    /** Deletes a worksheet; `remoteOk` says whether the database delete succeeded. */
    method HandleDelete(worksheetId: string, remoteOk: bool)
      modifies this
      ensures worksheets == if remoteOk then RemoveById(old(worksheets), worksheetId) else old(worksheets)
      ensures editingId == old(editingId) && editingTitle == old(editingTitle) && searchQuery == old(searchQuery)
    {
      if remoteOk {
        worksheets := RemoveById(worksheets, worksheetId);
      }
    }

    /**
     * Saves the edited title under `worksheetId`; `remoteOk` says whether the database update
     * succeeded. Only then does the list change and the editor close.
     */
    method SaveTitle(worksheetId: string, remoteOk: bool)
      modifies this
      ensures remoteOk ==>
        worksheets == RenameById(old(worksheets), worksheetId, old(editingTitle))
        && editingId == None && editingTitle == ""
      ensures !remoteOk ==>
        worksheets == old(worksheets) && editingId == old(editingId) && editingTitle == old(editingTitle)
      ensures searchQuery == old(searchQuery)
    {
      if remoteOk {
        worksheets := RenameById(worksheets, worksheetId, editingTitle);
        editingId := None;
        editingTitle := "";
      }
    }
  }
}
