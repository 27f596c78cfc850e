/** The filter chips of components/search-filters.tsx. */
module SearchFilters {
  import opened Seqs
  import opened Types
  import opened Gallery

  /** A chip click: an unselected value is appended, a selected one is
      removed everywhere it occurs, the rest keeping their order. */
  function Toggle<T(==,!new)>(selected: seq<T>, x: T): (r: seq<T>)
    ensures x !in selected ==> r == selected + [x]
    ensures x in selected ==> x !in r && IsSubsequence(r, selected)
    ensures x in selected ==> forall y :: y != x ==> (y in r <==> y in selected)
    ensures x in selected ==> forall y :: multiset(r)[y] == if y == x then 0 else multiset(selected)[y]
  {
    if x in selected then RemoveAll(selected, x) else selected + [x]
  }

  /** `toggleCategory`. */
  function ToggleCategory(selected: seq<Category>, c: Category): (r: seq<Category>)
    ensures c in r <==> c !in selected
  {
    Toggle(selected, c)
  }

  /** `toggleStatus`. */
  function ToggleStatus(selected: seq<Status>, s: Status): (r: seq<Status>)
    ensures s in r <==> s !in selected
  {
    Toggle(selected, s)
  }

  /** Clicking an unselected chip twice gives the original selection back. */
  lemma ToggleTwiceRestores<T(!new)>(selected: seq<T>, x: T)
    requires x !in selected
    ensures Toggle(Toggle(selected, x), x) == selected
  {
    RemoveAppended(selected, x);
  }

  /** A selection without duplicates stays without duplicates. */
  lemma ToggleKeepsNoDuplicates<T(!new)>(selected: seq<T>, x: T)
    requires NoDuplicates(selected)
    ensures NoDuplicates(Toggle(selected, x))
  {
    if x in selected {
      SubsequenceNoDuplicates(Toggle(selected, x), selected);
    } else {
      AppendFreshNoDuplicates(selected, x);
    }
  }

  /** Whether the "Clear all" button shows. */
  predicate HasActiveFilters(query: string, categories: seq<Category>, statuses: seq<Status>) {
    query != "" || |categories| > 0 || |statuses| > 0
  }

  /** With no active filter the search shows every agent. */
  lemma InactiveFiltersShowAll(all: seq<Agent>, query: string, categories: seq<Category>, statuses: seq<Status>)
    requires !HasActiveFilters(query, categories, statuses)
    ensures Search(all, query) == all
    ensures categories == [] && statuses == []
  {
  }

  /** Selecting a chip always makes a filter active. */
  lemma SelectingActivates(query: string, categories: seq<Category>, c: Category, statuses: seq<Status>)
    requires c !in categories
    ensures HasActiveFilters(query, ToggleCategory(categories, c), statuses)
  {
  }
}
