/** The public gallery of app/page.tsx: the catalog followed by the
    locally stored custom agents, narrowed by the search box. */
module Gallery {
  import opened Text
  import opened Seqs
  import opened Types
  import opened Data

  /** `[...agents, ...customAgents]`: the seed records, unmerged, then the
      custom ones. */
  function AllAgents(custom: seq<Agent>): (all: seq<Agent>)
    ensures |all| == |Seed| + |custom|
    ensures all[..|Seed|] == Seed && all[|Seed|..] == custom
  {
    Seed + custom
  }

  /** Whether the lowercased query occurs in the lowercased name,
      description, some tag, or category. */
  predicate Matches(a: Agent, query: string) {
    || Contains(Lower(a.name), query)
    || Contains(Lower(a.description), query)
    || (exists t :: t in a.tags && Contains(Lower(t), query))
    || Contains(Lower(CategoryName(a.category)), query)
  }

  lemma MatchesEmpty(a: Agent)
    ensures Matches(a, "")
  {
    ContainsEmpty(Lower(a.name));
  }

  /** `filteredAgents`: the list itself for an empty query, otherwise the
      agents that match, in their order. */
  function Search(all: seq<Agent>, searchQuery: string): (found: seq<Agent>)
    ensures searchQuery == "" ==> found == all
    ensures IsSubsequence(found, all)
    ensures forall a :: a in found <==> a in all && Matches(a, Lower(searchQuery))
    ensures forall a :: multiset(found)[a] == if Matches(a, Lower(searchQuery)) then multiset(all)[a] else 0
  {
    var keep := (a: Agent) => Matches(a, Lower(searchQuery));
    if searchQuery == "" then
      assert forall a :: a in all ==> keep(a) by {
        forall a | a in all
          ensures keep(a)
        {
          MatchesEmpty(a);
        }
      }
      FilterKeepsAll(all, keep);
      assert Filter(all, keep) == all;
      all
    else
      FilterCounts(all, keep);
      Filter(all, keep)
  }

  /** Searching ignores the case of the query. */
  lemma {:induction false} SearchIgnoresQueryCase(all: seq<Agent>, searchQuery: string)
    ensures Search(all, searchQuery) == Search(all, Lower(searchQuery))
  {
    LowerIdempotent(searchQuery);
  }

  /** The empty query is the only one that skips matching, and it loses
      nothing by doing so: matching everything against `""` keeps all. */
  lemma EmptyQueryShortcutAgrees(all: seq<Agent>)
    ensures Search(all, "") == Filter(all, (a: Agent) => Matches(a, ""))
  {
    forall a | a in all
      ensures Matches(a, "")
    {
      MatchesEmpty(a);
    }
    FilterKeepsAll(all, (a: Agent) => Matches(a, ""));
  }
}
