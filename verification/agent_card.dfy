/** The tag row and button of components/agent-card.tsx. */
module AgentCard {
  import opened Wrappers
  import opened Types

  const MaxVisibleTags := 3
  const FallbackButtonLabel := "Open Agent"

  /** `tags.slice(0, 3)`. */
  function VisibleTags(tags: seq<string>): (visible: seq<string>)
    ensures |visible| == if |tags| < MaxVisibleTags then |tags| else MaxVisibleTags
    ensures visible == tags[..|visible|]
  {
    if |tags| < MaxVisibleTags then tags else tags[..MaxVisibleTags]
  }

  /** `tags.length - 3`, negative for short lists. */
  function RemainingCount(tags: seq<string>): int {
    |tags| - MaxVisibleTags
  }

  /** Whether the "+N more" chip is drawn. */
  predicate ShowsMoreChip(tags: seq<string>) {
    RemainingCount(tags) > 0
  }

  /** The chip shows exactly when some tag is hidden, and then the visible
      tags and the count account for every tag. */
  lemma TagRowAccountsForAll(tags: seq<string>)
    ensures ShowsMoreChip(tags) <==> |tags| > MaxVisibleTags
    ensures ShowsMoreChip(tags) ==>
      |VisibleTags(tags)| + RemainingCount(tags) == |tags|
      && VisibleTags(tags) + tags[MaxVisibleTags..] == tags
    ensures !ShowsMoreChip(tags) ==> VisibleTags(tags) == tags
  {
  }

  /** `agent.primaryActionLabel || "Open Agent"`: never empty. */
  function ButtonLabel(a: Agent): (caption: string)
    ensures Truthy(a.primaryActionLabel) ==> caption == a.primaryActionLabel.value
    ensures !Truthy(a.primaryActionLabel) ==> caption == FallbackButtonLabel
    ensures caption != ""
  {
    OrElse(a.primaryActionLabel, FallbackButtonLabel)
  }
}
