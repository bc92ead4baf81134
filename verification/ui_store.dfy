/**
 * The client's selection and filter store: two nullable account ids and the
 * three setters that change them.
 */
module UiStore {
  import opened Wrappers

  /** `selectedAccountId` and `filterAccountId`; None stands for `null`. */
  datatype UiState = UiState(selectedAccountId: Option<int>, filterAccountId: Option<int>)

  /** The state the store is created with. */
  function Initial(): (s: UiState)
    ensures s.selectedAccountId.None? && s.filterAccountId.None?
  {
    UiState(None, None)
  }

  /** `setSelectedAccount(id)`: the selection becomes `id`; the filter is kept. */
  function SetSelectedAccount(s: UiState, id: Option<int>): (r: UiState)
    ensures r.selectedAccountId == id
    ensures r.filterAccountId == s.filterAccountId
  {
    s.(selectedAccountId := id)
  }

  /** `setFilterAccount(id)`: the filter becomes `id`, possibly null; the selection is kept. */
  function SetFilterAccount(s: UiState, id: Option<int>): (r: UiState)
    ensures r.filterAccountId == id
    ensures r.selectedAccountId == s.selectedAccountId
  {
    s.(filterAccountId := id)
  }

  /** `clearFilters()`: the filter becomes null; the selection is kept. */
  function ClearFilters(s: UiState): (r: UiState)
    ensures r.filterAccountId.None?
    ensures r.selectedAccountId == s.selectedAccountId
  {
    s.(filterAccountId := None)
  }

  /** Clearing the filters twice leaves the same state as clearing them once. */
  lemma ClearFiltersIdempotent(s: UiState)
    ensures ClearFilters(ClearFilters(s)) == ClearFilters(s)
  {
  }

  /** Setting the filter to null is exactly clearing the filters. */
  lemma SetFilterNullIsClear(s: UiState)
    ensures SetFilterAccount(s, None) == ClearFilters(s)
  {
  }

  /** Selecting an account and filtering by it, in either order, leaves both ids equal to it. */
  lemma SelectAndFilterCommute(s: UiState, id: Option<int>)
    ensures SetFilterAccount(SetSelectedAccount(s, id), id) == UiState(id, id)
    ensures SetSelectedAccount(SetFilterAccount(s, id), id) == UiState(id, id)
  {
  }
}
