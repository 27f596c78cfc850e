/** The agent record of lib/types.ts and its partial (override / update)
    counterpart. */
module Types {
  import opened Wrappers

  datatype Category = Planning | Tracking | Intelligence | Finance | ControlTower | Other

  datatype Status = Live | Beta | Experimental

  /** The string literal each category is written as. */
  function CategoryName(c: Category): string {
    match c
    case Planning => "Planning"
    case Tracking => "Tracking"
    case Intelligence => "Intelligence"
    case Finance => "Finance"
    case ControlTower => "Control Tower"
    case Other => "Other"
  }

  function StatusName(s: Status): string {
    match s
    case Live => "Live"
    case Beta => "Beta"
    case Experimental => "Experimental"
  }

  lemma CategoryNamesDistinct(a: Category, b: Category)
    ensures CategoryName(a) == CategoryName(b) ==> a == b
  {
  }

  lemma StatusNamesDistinct(a: Status, b: Status)
    ensures StatusName(a) == StatusName(b) ==> a == b
  {
  }

  /** A complete agent record. `vercelUrl` is the address the modal embeds.
      `primaryActionLabel` is the one optional field. */
  datatype Agent = Agent(
    id: string,
    name: string,
    slug: string,
    description: string,
    category: Category,
    tags: seq<string>,
    status: Status,
    vercelUrl: string,
    imageUrl: string,
    lastUpdated: string,
    primaryActionLabel: Option<string>)

  /** The eight editable fields, each present or absent: an override of a
      default agent, a create request body, or the settings form state.
      It has no `id`, `slug` or `lastUpdated`. */
  datatype PartialAgent = PartialAgent(
    name: Option<string>,
    description: Option<string>,
    category: Option<Category>,
    tags: Option<seq<string>>,
    status: Option<Status>,
    vercelUrl: Option<string>,
    imageUrl: Option<string>,
    primaryActionLabel: Option<string>)

  const NoFields := PartialAgent(None, None, None, None, None, None, None, None)

  /** The editable fields of a complete record, all present except an absent
      `primaryActionLabel`. */
  function Fields(a: Agent): (p: PartialAgent)
    ensures p.name == Some(a.name) && p.description == Some(a.description)
    ensures p.category == Some(a.category) && p.tags == Some(a.tags)
    ensures p.status == Some(a.status) && p.vercelUrl == Some(a.vercelUrl)
    ensures p.imageUrl == Some(a.imageUrl) && p.primaryActionLabel == a.primaryActionLabel
  {
    PartialAgent(Some(a.name), Some(a.description), Some(a.category), Some(a.tags),
                 Some(a.status), Some(a.vercelUrl), Some(a.imageUrl), a.primaryActionLabel)
  }

  /** `top` laid over `base`: each field present in `top` wins, every other
      field keeps its `base` value. */
  function Overlay(base: PartialAgent, top: PartialAgent): PartialAgent {
    PartialAgent(
      Coalesce(top.name, base.name),
      Coalesce(top.description, base.description),
      Coalesce(top.category, base.category),
      Coalesce(top.tags, base.tags),
      Coalesce(top.status, base.status),
      Coalesce(top.vercelUrl, base.vercelUrl),
      Coalesce(top.imageUrl, base.imageUrl),
      Coalesce(top.primaryActionLabel, base.primaryActionLabel))
  }

  lemma OverlayLaws(a: PartialAgent, b: PartialAgent, c: PartialAgent)
    ensures Overlay(a, NoFields) == a && Overlay(NoFields, a) == a
    ensures Overlay(a, a) == a
    ensures Overlay(Overlay(a, b), c) == Overlay(a, Overlay(b, c))
    ensures Overlay(Overlay(a, b), b) == Overlay(a, b)
  {
  }

  /** `Fields` forgets only the three fields it does not carry. */
  lemma FieldsDetermineRecord(a: Agent, b: Agent)
    requires a.id == b.id && a.slug == b.slug && a.lastUpdated == b.lastUpdated
    requires Fields(a) == Fields(b)
    ensures a == b
  {
  }
}
