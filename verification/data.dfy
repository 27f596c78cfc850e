/** The seed catalog of lib/data.ts and the category and status lists the
    filter chips offer. */
module Data {
  import opened Wrappers
  import opened Text
  import opened Types
  import opened Slug

  /** The nine built-in agents, in catalog order. */
  const Seed: seq<Agent> := [
    Agent("1", "Dispatch Compliance Validator", "dispatch-compliance-validator",
      "Automated validation system that ensures all dispatch operations comply with regulatory requirements and company policies. Flags non-compliant dispatches before they occur.",
      Other, [], Live, "https://freight-intelligence-hub.vercel.app", "/agents/rate-intelligence.svg", "Nov 2025", Some("See it in action")),
    Agent("2", "Red Zone Alert Agent", "red-zone-alert",
      "Real-time monitoring system that identifies high-risk delivery zones and sends proactive alerts. Helps prevent delays and security issues in critical areas.",
      Tracking, [], Live, "https://red-zone-demo.vercel.app", "/agents/exception-sentinel.svg", "Nov 2025", Some("See it in action")),
    Agent("3", "Delay Forecasting", "delay-forecasting",
      "Predictive AI that forecasts potential delays before they happen. Analyzes weather, traffic, and historical patterns to provide early warnings and alternative solutions.",
      Intelligence, [], Live, "https://delay-forecasting-demo.vercel.app", "/agents/capacity-predictor.svg", "Nov 2025", Some("See it in action")),
    Agent("4", "Load Assignment", "load-assignment",
      "Smart load assignment system that optimally matches loads with available vehicles and drivers. Considers capacity, location, driver schedules, and cost efficiency.",
      Planning, [], Live, "https://load-assignment-demo.vercel.app", "/agents/fleetedge.svg", "Nov 2025", Some("See it in action")),
    Agent("5", "Load Planning", "load-planning",
      "Advanced load planning tool that optimizes cargo consolidation and vehicle utilization. Maximizes space efficiency while minimizing transportation costs.",
      Planning, [], Live, "https://load-planning-demo.vercel.app", "/agents/route-oracle.svg", "Nov 2025", Some("See it in action")),
    Agent("6", "Ops Genie", "ops-genie",
      "Unified operations control center that provides real-time visibility across all logistics operations. Centralizes alerts, KPIs, and operational metrics in one dashboard.",
      ControlTower, [], Live, "https://ops-genie-demo.vercel.app", "/agents/command-center.svg", "Nov 2025", Some("See it in action")),
    Agent("7", "Indent Placement", "indent-placement",
      "Automated indent placement system that intelligently routes freight requests to the best available transporters. Optimizes for cost, reliability, and delivery time.",
      Planning, [], Beta, "https://indent-placement-demo.vercel.app", "/agents/cargovision.svg", "Nov 2025", Some("See it in action")),
    Agent("8", "Price Negotiator", "price-negotiator",
      "AI-powered negotiation assistant that helps secure the best freight rates. Analyzes market data, historical prices, and transporter performance to recommend optimal pricing strategies.",
      Finance, [], Experimental, "https://price-negotiator-demo.vercel.app", "/agents/customs-copilot.svg", "Nov 2025", Some("See it in action")),
    Agent("9", "Freight Benchmarking", "freight-benchmarking",
      "Comprehensive benchmarking platform that compares your freight rates and performance against market standards. Identifies cost-saving opportunities and optimization areas.",
      Intelligence, [], Live, "https://freight-intelligence-hub.vercel.app/", "/agents/rate-intelligence.svg", "Nov 2025", Some("See it in action"))
  ]

  const Categories: seq<Category> := [Planning, Tracking, Intelligence, Finance, ControlTower, Other]

  const Statuses: seq<Status> := [Live, Beta, Experimental]

  /** Whether `id` names a seed record. */
  predicate IsSeedId(id: string) {
    exists i :: 0 <= i < |Seed| && Seed[i].id == id
  }

  /** Nine records, with ids `"1"` to `"9"` in order. */
  lemma SeedIds()
    ensures |Seed| == 9
    ensures Seed[0].id == "1" && Seed[1].id == "2" && Seed[2].id == "3"
    ensures Seed[3].id == "4" && Seed[4].id == "5" && Seed[5].id == "6"
    ensures Seed[6].id == "7" && Seed[7].id == "8" && Seed[8].id == "9"
  {
  }

  lemma SeedIdsDistinct()
    ensures forall i, j :: 0 <= i < j < |Seed| ==> Seed[i].id != Seed[j].id
  {
    SeedIds();
  }

  /** Every seed id is one character long. */
  lemma SeedIdLength(i: int)
    requires 0 <= i < |Seed|
    ensures |Seed[i].id| == 1
  {
  }

  /** A seed id is a single digit, so it never carries the `custom-` prefix
      the create handler puts on every id it generates. */
  lemma SeedIdsNotCustom(id: string)
    requires IsSeedId(id)
    ensures !IsPrefix("custom-", id)
  {
    var i :| 0 <= i < |Seed| && Seed[i].id == id;
    SeedIdLength(i);
  }

  /** The six categories and three statuses, each listed once and every one
      of them listed. */
  lemma ChipLists()
    ensures |Categories| == 6 && |Statuses| == 3
    ensures forall c: Category :: c in Categories
    ensures forall s: Status :: s in Statuses
    ensures forall i, j :: 0 <= i < j < |Categories| ==> Categories[i] != Categories[j]
    ensures forall i, j :: 0 <= i < j < |Statuses| ==> Statuses[i] != Statuses[j]
  {
    forall c: Category
      ensures c in Categories
    {
      match c
      case Planning => assert Categories[0] == c;
      case Tracking => assert Categories[1] == c;
      case Intelligence => assert Categories[2] == c;
      case Finance => assert Categories[3] == c;
      case ControlTower => assert Categories[4] == c;
      case Other => assert Categories[5] == c;
    }
    forall s: Status
      ensures s in Statuses
    {
      match s
      case Live => assert Statuses[0] == s;
      case Beta => assert Statuses[1] == s;
      case Experimental => assert Statuses[2] == s;
    }
  }

  lemma SeedInChipLists()
    ensures forall i :: 0 <= i < |Seed| ==> Seed[i].category in Categories && Seed[i].status in Statuses
  {
    ChipLists();
  }

  /** The stored slug of seed record "2" is not the slug of its name, so the
      derived-slug rule holds for created records only. */
  lemma RedZoneSlugNotDerived()
    ensures Seed[1].name == "Red Zone Alert Agent" && Seed[1].slug == "red-zone-alert"
    ensures Slugify(Seed[1].name) != Seed[1].slug
  {
    RedZoneNameSlugDiffers(Seed[1].name, Seed[1].slug);
  }

  /** "Red Zone Alert Agent" has no adjacent whitespace, so its derived slug
      keeps all 20 characters, while the stored slug has 14. */
  lemma RedZoneNameSlugDiffers(name: string, slug: string)
    requires name == "Red Zone Alert Agent" && slug == "red-zone-alert"
    ensures Slugify(name) != slug
  {
    NameSingleSpaced(name);
    SlugifyLengthSingleSpaced(name);
  }

  lemma NameSingleSpaced(name: string)
    requires name == "Red Zone Alert Agent"
    ensures SingleSpaced(name)
  {
    forall i | 0 <= i < |name| - 1
      ensures !(IsSpace(name[i]) && IsSpace(name[i + 1]))
    {
      assert name[i] == ' ' ==> i in {3, 8, 14};
    }
  }
}
