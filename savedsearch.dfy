/**
 * Saved searches: a named query with the time it was last saved, kept in
 * an in-memory list that is loaded lazily from the saved-search file,
 * updated or extended by name, and written back after every change.
 */
module SavedSearches {
  import opened Wrappers
  import opened Sorting

  /** SavedSearch; the timestamp is the instant it was saved, as a count of time units. */
  datatype SavedSearch = SavedSearch(name: string, query: string, timestamp: int)

  /** The first position holding a search of that name, if any. */
  function FirstNamed(s: seq<SavedSearch>, name: string): (r: Option<nat>)
    ensures r.Some? ==> r.value < |s| && s[r.value].name == name && forall j :: 0 <= j < r.value ==> s[j].name != name
    ensures r.None? <==> forall j :: 0 <= j < |s| ==> s[j].name != name
  {
    if s == [] then None
    else if s[0].name == name then Some(0)
    else
      match FirstNamed(s[1..], name)
      case None => None
      case Some(i) => Some(i + 1)
  }

  /** A search of the name with none before it is the first named. */
  lemma FirstNamedAt(s: seq<SavedSearch>, name: string, i: nat)
    requires i < |s| && s[i].name == name && forall j :: 0 <= j < i ==> s[j].name != name
    ensures FirstNamed(s, name) == Some(i)
  {
    var r := FirstNamed(s, name);
    assert r.Some?;
  }

  /**
   * What AddOrUpdateSavedSearch makes of the list: the first search of
   * that name gets the new query and time in place; without one, a new
   * search is appended.
   */
  function AddOrUpdated(s: seq<SavedSearch>, name: string, query: string, now: int): seq<SavedSearch> {
    match FirstNamed(s, name)
    case Some(i) => s[i := SavedSearch(name, query, now)]
    case None => s + [SavedSearch(name, query, now)]
  }

  /** The searches whose name differs from `name`, in their order. */
  function WithoutName(s: seq<SavedSearch>, name: string): seq<SavedSearch> {
    if s == [] then []
    else
      var last := s[|s| - 1];
      WithoutName(s[..|s| - 1], name) + (if last.name != name then [last] else [])
  }

  /** The searches kept are those of `s` with another name: none is added, none of another name is lost. */
  lemma {:induction false} WithoutNameMembers(s: seq<SavedSearch>, name: string)
    ensures |WithoutName(s, name)| <= |s|
    ensures forall x :: x in WithoutName(s, name) <==> x in s && x.name != name
  {
    if s != [] {
      var init := s[..|s| - 1];
      WithoutNameMembers(init, name);
      assert s == init + [s[|s| - 1]];
    }
  }

  /** Most recent first: the order sort.Slice is given, After on timestamps, with ties allowed either way. */
  predicate NewestFirst(a: SavedSearch, b: SavedSearch) {
    !(b.timestamp > a.timestamp)
  }

  /** Some search carries the name. */
  predicate HasName(s: seq<SavedSearch>, name: string) {
    exists i :: 0 <= i < |s| && s[i].name == name
  }

  /**
   * An update keeps the length and changes only the first search of that
   * name; an addition appends one search and changes none.
   */
  lemma AddOrUpdateShape(s: seq<SavedSearch>, name: string, query: string, now: int)
    ensures var r := AddOrUpdated(s, name, query, now);
      HasName(s, name) ==> (|r| == |s| &&
        exists i :: 0 <= i < |s| && s[i].name == name && r[i] == SavedSearch(name, query, now) &&
          (forall j :: 0 <= j < i ==> s[j].name != name) &&
          (forall j :: 0 <= j < |s| && j != i ==> r[j] == s[j]))
    ensures var r := AddOrUpdated(s, name, query, now);
      !HasName(s, name) ==> (|r| == |s| + 1 && r[|s|] == SavedSearch(name, query, now) && r[..|s|] == s)
  {
    var r := AddOrUpdated(s, name, query, now);
    match FirstNamed(s, name)
    case Some(i) =>
      assert s[i].name == name;
    case None =>
      assert r[..|s|] == s;
  }

  /** Saving the same search twice in a row is saving it once. */
  lemma AddOrUpdateIdempotent(s: seq<SavedSearch>, name: string, query: string, now: int)
    ensures AddOrUpdated(AddOrUpdated(s, name, query, now), name, query, now) == AddOrUpdated(s, name, query, now)
  {
    var r := AddOrUpdated(s, name, query, now);
    var e := SavedSearch(name, query, now);
    match FirstNamed(s, name)
    case Some(i) =>
      FirstNamedAt(r, name, i);
    case None =>
      FirstNamedAt(r, name, |s|);
  }

  /** After saving, the search of that name holds the new query, and no other name appears or disappears. */
  lemma AddOrUpdateNames(s: seq<SavedSearch>, name: string, query: string, now: int, other: string)
    ensures HasName(AddOrUpdated(s, name, query, now), name)
    ensures other != name ==> (HasName(AddOrUpdated(s, name, query, now), other) <==> HasName(s, other))
  {
    var r := AddOrUpdated(s, name, query, now);
    match FirstNamed(s, name)
    case Some(i) =>
      assert r[i].name == name;
      if other != name {
        if HasName(s, other) {
          var j :| 0 <= j < |s| && s[j].name == other;
          assert r[j] == s[j];
        }
        if HasName(r, other) {
          var j :| 0 <= j < |r| && r[j].name == other;
          assert s[j] == r[j];
        }
      }
    case None =>
      assert r[|s|].name == name;
      if other != name {
        if HasName(s, other) {
          var j :| 0 <= j < |s| && s[j].name == other;
          assert r[j] == s[j];
        }
        if HasName(r, other) {
          var j :| 0 <= j < |r| && r[j].name == other;
          assert j < |s| && s[j] == r[j];
        }
      }
  }

  /** Removing a name again changes nothing, and a list without the name is left as it is. */
  lemma {:induction false} WithoutNameUnchanged(s: seq<SavedSearch>, name: string)
    requires forall i :: 0 <= i < |s| ==> s[i].name != name
    ensures WithoutName(s, name) == s
  {
    if s != [] {
      var init := s[..|s| - 1];
      WithoutNameUnchanged(init, name);
      assert s == init + [s[|s| - 1]];
    }
  }

  /**
   * DeleteSavedSearch as written writes the list without the name but
   * keeps it in memory, so the next save of another search, which writes
   * the in-memory list, writes the deleted search again.
   */
  lemma DeletedSearchReturns(s: seq<SavedSearch>, name: string, other: string, query: string, now: int)
    requires HasName(s, name) && other != name
    ensures !HasName(WithoutName(s, name), name)
    ensures HasName(AddOrUpdated(s, other, query, now), name)
  {
    WithoutNameMembers(s, name);
    AddOrUpdateNames(s, other, query, now, name);
  }

  /** With the in-memory list updated too, a deleted search stays deleted when another is saved. */
  lemma DeletedSearchStaysDeleted(s: seq<SavedSearch>, name: string, other: string, query: string, now: int)
    requires other != name
    ensures !HasName(AddOrUpdated(WithoutName(s, name), other, query, now), name)
  {
    WithoutNameMembers(s, name);
    AddOrUpdateNames(WithoutName(s, name), other, query, now, name);
  }

  /** The loaded list: the file's searches, most recent first. */
  lemma LoadedOrder(stored: seq<SavedSearch>)
    ensures SortedBy(SortBy(stored, NewestFirst), NewestFirst)
    ensures multiset(SortBy(stored, NewestFirst)) == multiset(stored)
    ensures forall i, j :: 0 <= i < j < |stored| ==>
      SortBy(stored, NewestFirst)[i].timestamp >= SortBy(stored, NewestFirst)[j].timestamp
  {
    assert TotalPreorder(NewestFirst);
    SortBySorted(stored, NewestFirst);
    var sorted := SortBy(stored, NewestFirst);
    forall i, j | 0 <= i < j < |stored| ensures sorted[i].timestamp >= sorted[j].timestamp {
      assert NewestFirst(sorted[i], sorted[j]);
    }
  }

  /** The first-named search of the loop: the position the update loop stops at. */
  method FindNamed(s: seq<SavedSearch>, name: string) returns (found: bool, index: nat)
    ensures found <==> FirstNamed(s, name).Some?
    ensures found ==> index == FirstNamed(s, name).value
  {
    found, index := false, 0;
    var i := 0;
    while i < |s|
      invariant 0 <= i <= |s|
      invariant forall j :: 0 <= j < i ==> s[j].name != name
    {
      if s[i].name == name {
        found, index := true, i;
        return;
      }
      i := i + 1;
    }
  }

  /** The loop of DeleteSavedSearch: every search whose name differs, appended in order. */
  method CollectOthers(s: seq<SavedSearch>, name: string) returns (updated: seq<SavedSearch>)
    ensures updated == WithoutName(s, name)
  {
    updated := [];
    var i := 0;
    while i < |s|
      invariant 0 <= i <= |s| && updated == WithoutName(s[..i], name)
    {
      assert s[..i + 1][..i] == s[..i];
      if s[i].name != name {
        updated := updated + [s[i]];
      }
      i := i + 1;
    }
    assert s[..i] == s;
  }

  /**
   * The package's saved-search state: whether the file was loaded, the
   * in-memory list, and the saved-search file (None when it does not
   * exist; each save writes it).
   */
  class SavedSearchStore {
    var loaded: bool
    var searches: seq<SavedSearch>
    var file: Option<seq<SavedSearch>>

    /** Without a file nothing was ever saved, so the in-memory list is empty. */
    predicate Valid()
      reads this
    {
      file.None? ==> searches == []
    }

    constructor (stored: Option<seq<SavedSearch>>)
      ensures !loaded && searches == [] && file == stored
      ensures Valid()
    {
      loaded := false;
      searches := [];
      file := stored;
    }

    /** The list the next change starts from: loaded from the file first when it was not loaded yet and the file exists. */
    function Current(): seq<SavedSearch>
      reads this
    {
      if !loaded && file.Some? then SortBy(file.value, NewestFirst) else searches
    }

    /**
     * LoadSavedSearches: without a file, an empty list and nothing
     * changes; otherwise the file's searches, most recent first, become
     * the in-memory list and it counts as loaded.
     */
    method Load() returns (r: seq<SavedSearch>)
      modifies this`searches, this`loaded
      ensures old(file).None? ==> r == [] && searches == old(searches) && loaded == old(loaded)
      ensures old(file).Some? ==> r == searches == SortBy(old(file).value, NewestFirst) && loaded
    {
      if file.None? {
        return [];
      }
      searches := file.value;
      searches := SortBy(searches, NewestFirst);
      loaded := true;
      r := searches;
    }

    /** Load when not loaded yet, as every change does first. */
    method EnsureLoaded()
      modifies this`searches, this`loaded
      ensures searches == old(Current())
      ensures loaded == (old(loaded) || old(file).Some?)
    {
      if !loaded {
        var _ := Load();
      }
    }

    /**
     * AddOrUpdateSavedSearch: the first search of that name gets the new
     * query and the time `now`, or a new search is appended; the list is
     * then written to the file.
     */
    method AddOrUpdate(name: string, query: string, now: int)
      modifies this
      ensures searches == AddOrUpdated(old(Current()), name, query, now)
      ensures file == Some(searches)
      ensures loaded == (old(loaded) || old(file).Some?)
      ensures Valid()
    {
      EnsureLoaded();
      var found, i := FindNamed(searches, name);
      if found {
        searches := searches[i := searches[i].(query := query, timestamp := now)];
      } else {
        searches := searches + [SavedSearch(name, query, now)];
      }
      file := Some(searches);
    }

    /** DeleteSavedSearch as written: the file gets the list without the name; the in-memory list keeps it. */
    method DeleteAsWritten(name: string)
      modifies this
      ensures searches == old(Current())
      ensures file == Some(WithoutName(searches, name))
      ensures loaded == (old(loaded) || old(file).Some?)
      ensures Valid()
    {
      EnsureLoaded();
      var updated := CollectOthers(searches, name);
      file := Some(updated);
    }

    /** DeleteSavedSearch as intended: the list without the name replaces the in-memory list and is written. */
    method Delete(name: string)
      modifies this
      ensures searches == WithoutName(old(Current()), name)
      ensures file == Some(searches)
      ensures loaded == (old(loaded) || old(file).Some?)
      ensures Valid()
    {
      EnsureLoaded();
      var updated := CollectOthers(searches, name);
      searches := updated;
      file := Some(updated);
    }

    /**
     * Deleting a search as written and then saving another one writes the
     * deleted search back to the file.
     */
    method DeleteThenSaveAsWritten(name: string, other: string, query: string, now: int)
      requires Valid() && HasName(Current(), name) && other != name
      modifies this
      ensures file.Some? && HasName(file.value, name)
    {
      ghost var before := Current();
      DeleteAsWritten(name);
      assert loaded && searches == before;
      AddOrUpdate(other, query, now);
      DeletedSearchReturns(before, name, other, query, now);
    }

    /** With the intended delete, the deleted search stays out of the file when another is saved. */
    method DeleteThenSave(name: string, other: string, query: string, now: int)
      requires Valid() && other != name
      modifies this
      ensures file.Some? && !HasName(file.value, name)
    {
      ghost var before := Current();
      Delete(name);
      assert Current() == WithoutName(before, name);
      AddOrUpdate(other, query, now);
      DeletedSearchStaysDeleted(before, name, other, query, now);
    }
  }
}
