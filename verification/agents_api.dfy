/** The `/api/agents` handlers of app/api/agents/route.ts, each a pure
    transformer of the two tables. The clock is a parameter: `now` is
    `Date.now()` and `today` the formatted month and year. */
module AgentsApi {
  import opened Wrappers
  import opened Text
  import opened Seqs
  import opened Types
  import opened Slug
  import opened Data
  import opened Db

  /** The persistent tables; the seed catalog is the constant `Seed`. */
  datatype State = State(overrides: map<string, OverrideRow>, custom: seq<CustomRow>)

  const EmptyState := State(map[], [])

  /** An HTTP reply: 200 with or without the created record, 400 or 500
      with the handler's error text. */
  datatype Response =
    | Ok
    | Created(agent: Agent)
    | BadRequest(error: string)
    | ServerError(error: string)

  datatype Step = Step(response: Response, state: State)

  const MissingFieldsError := "Missing required fields (name, description, vercelUrl)"
  const MissingIdOrUpdatesError := "Missing id or updates"
  const MissingIdError := "Agent ID is required"
  const AddFailedError := "Failed to add agent"

  const DefaultImageUrl := "/agents/rate-intelligence.svg"
  const DefaultActionLabel := "See it in action"
  const CustomIdPrefix := "custom-"

  // ------------------------------------------------------------------ GET

  function Lookup(overrides: map<string, PartialAgent>, id: string): Option<PartialAgent> {
    if id in overrides then Some(overrides[id]) else None
  }

  /** `{ ...agent, ...override }`: the override's present fields replace the
      record's, the rest are kept, and `id`, `slug` and `lastUpdated` never
      change because an override does not carry them. */
  function MergeAgent(a: Agent, o: Option<PartialAgent>): (r: Agent)
    ensures r.id == a.id && r.slug == a.slug && r.lastUpdated == a.lastUpdated
    ensures Fields(r) == Overlay(Fields(a), o.GetOr(NoFields))
    ensures o.None? ==> r == a
  {
    match o
    case None => a
    case Some(p) =>
      a.(name := p.name.GetOr(a.name),
         description := p.description.GetOr(a.description),
         category := p.category.GetOr(a.category),
         tags := p.tags.GetOr(a.tags),
         status := p.status.GetOr(a.status),
         vercelUrl := p.vercelUrl.GetOr(a.vercelUrl),
         imageUrl := p.imageUrl.GetOr(a.imageUrl),
         primaryActionLabel := Coalesce(p.primaryActionLabel, a.primaryActionLabel))
  }

  /** Merging twice in a row is merging the overlaid overrides once. */
  lemma MergeAgentTwice(a: Agent, p: PartialAgent, q: PartialAgent)
    ensures MergeAgent(MergeAgent(a, Some(p)), Some(q)) == MergeAgent(a, Some(Overlay(p, q)))
  {
    var lhs, rhs := MergeAgent(MergeAgent(a, Some(p)), Some(q)), MergeAgent(a, Some(Overlay(p, q)));
    OverlayLaws(Fields(a), p, q);
    FieldsDetermineRecord(lhs, rhs);
  }

  /** `catalog.map(agent => ({ ...agent, ...overrides[agent.id] }))`: each
      record merged with its own override, in catalog order. */
  function MergeCatalog(catalog: seq<Agent>, overrides: map<string, PartialAgent>): (r: seq<Agent>)
    ensures |r| == |catalog|
    ensures forall i :: 0 <= i < |catalog| ==> r[i].id == catalog[i].id
    ensures forall i :: 0 <= i < |catalog| ==> r[i] == MergeAgent(catalog[i], Lookup(overrides, catalog[i].id))
  {
    seq(|catalog|, i requires 0 <= i < |catalog| => MergeAgent(catalog[i], Lookup(overrides, catalog[i].id)))
  }

  /** With no override for any catalog id the catalog is shown as it is. */
  lemma MergeWithoutOverrides(catalog: seq<Agent>, overrides: map<string, PartialAgent>)
    requires forall i :: 0 <= i < |catalog| ==> catalog[i].id !in overrides
    ensures MergeCatalog(catalog, overrides) == catalog
  {
  }

  /** The body of a `GET` reply. */
  datatype Listing = Listing(
    agents: seq<Agent>,
    customAgents: seq<Agent>,
    agentOverrides: map<string, PartialAgent>)

  /** The `GET` reply over a catalog: the merged catalog records in order,
      then the custom agents newest first, plus both raw stores. */
  function ListAgents(catalog: seq<Agent>, st: State): (l: Listing)
    ensures l.customAgents == GetCustomAgents(st.custom)
    ensures l.agentOverrides == GetAgentOverrides(st.overrides)
    ensures |l.agents| == |catalog| + |st.custom|
    ensures l.agents[..|catalog|] == MergeCatalog(catalog, l.agentOverrides)
    ensures l.agents[|catalog|..] == l.customAgents
  {
    var overrides := GetAgentOverrides(st.overrides);
    var custom := GetCustomAgents(st.custom);
    var merged := MergeCatalog(catalog, overrides);
    assert (merged + custom)[..|catalog|] == merged;
    assert (merged + custom)[|catalog|..] == custom;
    Listing(merged + custom, custom, overrides)
  }

  /** `GET`: the listing over the seed catalog. */
  function Get(st: State): Listing {
    ListAgents(Seed, st)
  }

  /** With both tables empty a catalog is listed as it is, and nothing else. */
  lemma EmptyListing(catalog: seq<Agent>)
    ensures ListAgents(catalog, EmptyState) == Listing(catalog, [], map[])
  {
    var l := ListAgents(catalog, EmptyState);
    MergeWithoutOverrides(catalog, l.agentOverrides);
    assert l.agents == l.agents[..|catalog|] + l.agents[|catalog|..];
  }

  /** A fresh database answers `GET` with the nine seed agents unchanged. */
  lemma GetEmpty()
    ensures Get(EmptyState) == Listing(Seed, [], map[])
  {
    EmptyListing(Seed);
  }

  /** The listed record of catalog entry `i`: the entry itself when it has no
      override row, otherwise the read-back override laid over it. */
  lemma ListedRecord(catalog: seq<Agent>, st: State, i: int)
    requires 0 <= i < |catalog|
    ensures catalog[i].id !in st.overrides ==> ListAgents(catalog, st).agents[i] == catalog[i]
    ensures catalog[i].id in st.overrides ==>
      ListAgents(catalog, st).agents[i] == MergeAgent(catalog[i], Some(ReadOverrideRow(st.overrides[catalog[i].id])))
  {
    var l := ListAgents(catalog, st);
    assert l.agents[i] == l.agents[..|catalog|][i];
  }

  // ----------------------------------------------------------------- POST

  /** The create handler's 400 check: `name`, `description` and `vercelUrl`
      must all be truthy. */
  predicate HasRequiredFields(body: PartialAgent) {
    Truthy(body.name) && Truthy(body.description) && Truthy(body.vercelUrl)
  }

  /** The id generated for a create at time `now`. */
  function CustomId(now: nat): (id: string)
    ensures IsPrefix(CustomIdPrefix, id)
    ensures |id| > |CustomIdPrefix|
  {
    CustomIdPrefix + Decimal(now)
  }

  /** The record the create handler builds: slug from the name, a default
      for each falsy optional field, every other field copied. */
  function NewAgent(body: PartialAgent, now: nat, today: string): (a: Agent)
    requires HasRequiredFields(body)
    ensures a.id == CustomId(now) && a.lastUpdated == today
    ensures a.name == body.name.value && a.slug == Slugify(a.name)
    ensures a.description == body.description.value && a.vercelUrl == body.vercelUrl.value
    ensures body.category.Some? ==> a.category == body.category.value
    ensures body.category.None? ==> a.category == Other
    ensures body.tags.Some? ==> a.tags == body.tags.value
    ensures body.tags.None? ==> a.tags == []
    ensures body.status.Some? ==> a.status == body.status.value
    ensures body.status.None? ==> a.status == Live
    ensures Truthy(body.imageUrl) ==> a.imageUrl == body.imageUrl.value
    ensures !Truthy(body.imageUrl) ==> a.imageUrl == DefaultImageUrl
    ensures Truthy(body.primaryActionLabel) ==> a.primaryActionLabel == body.primaryActionLabel
    ensures !Truthy(body.primaryActionLabel) ==> a.primaryActionLabel == Some(DefaultActionLabel)
  {
    var name := body.name.value;
    Agent(CustomId(now), name, Slugify(name), body.description.value,
          body.category.GetOr(Other), body.tags.GetOr([]), body.status.GetOr(Live),
          body.vercelUrl.value, OrElse(body.imageUrl, DefaultImageUrl), today,
          Some(OrElse(body.primaryActionLabel, DefaultActionLabel)))
  }

  /** `POST`: 400 and no change without the required fields; 500 and no
      change when the generated id is already taken; otherwise the new
      record becomes the newest custom row and is returned as stored. */
  function Post(st: State, body: PartialAgent, now: nat, today: string): (s: Step)
    ensures s.response.BadRequest? <==> !HasRequiredFields(body)
    ensures s.response.BadRequest? ==> s.response.error == MissingFieldsError
    ensures !s.response.Created? ==> s.state == st
    ensures s.response.ServerError? <==> HasRequiredFields(body) && HasId(st.custom, CustomId(now))
    ensures s.response.Created? ==>
      && s.response.agent == NewAgent(body, now, today)
      && s.state == st.(custom := [InsertedRow(s.response.agent)] + st.custom)
      && ReadCustomRow(s.state.custom[0]) == s.response.agent
    ensures !s.response.Ok?
  {
    if !HasRequiredFields(body) then Step(BadRequest(MissingFieldsError), st)
    else
      var agent := NewAgent(body, now, today);
      match AddCustomAgent(st.custom, agent)
      case None => Step(ServerError(AddFailedError), st)
      case Some(rows) => Step(Created(agent), st.(custom := rows))
  }

  /** A created record is listed right after the catalog records, and
      deleting its id restores the custom table exactly. */
  lemma PostThenGetThenDelete(catalog: seq<Agent>, st: State, body: PartialAgent, now: nat, today: string)
    requires Post(st, body, now, today).response.Created?
    ensures var s := Post(st, body, now, today);
      && ListAgents(catalog, s.state).agents[|catalog|] == s.response.agent
      && ListAgents(catalog, s.state).customAgents == [s.response.agent] + ListAgents(catalog, st).customAgents
      && Delete(s.state, DeleteQuery(Some(s.response.agent.id), None)).state == st
  {
    var s := Post(st, body, now, today);
    var a := s.response.agent;
    var l := ListAgents(catalog, s.state);
    assert l.agents[|catalog|] == l.agents[|catalog|..][0];
    DeleteUndoesInsert(st.custom, InsertedRow(a));
  }

  lemma DeleteUndoesInsert(rows: seq<CustomRow>, row: CustomRow)
    requires !HasId(rows, row.id)
    ensures DeleteCustomAgent([row] + rows, row.id) == rows
  {
    var keep := (r: CustomRow) => r.id != row.id;
    FilterAppend([row], rows, keep);
    assert Filter([row], keep) == [];
    assert DeleteCustomAgent(rows, row.id) == rows;
  }

  // ------------------------------------------------------------------ PUT

  /** The body of a `PUT`; an absent or falsy `isDefault` is `false`. */
  datatype PutRequest = PutRequest(id: Option<string>, updates: Option<Updates>, isDefault: bool)

  /** `PUT`: 400 without an id or updates; otherwise `isDefault` routes the
      update to the override table and its absence to the custom table,
      leaving the other table as it was. Both branches report success, also
      for a custom id that matches no row. */
  function Put(st: State, req: PutRequest): (s: Step)
    ensures s.response.BadRequest? <==> !Truthy(req.id) || req.updates.None?
    ensures s.response.BadRequest? ==> s.response.error == MissingIdOrUpdatesError && s.state == st
    ensures !s.response.BadRequest? ==> s.response.Ok?
    ensures s.response.Ok? && req.isDefault ==>
      s.state == st.(overrides := UpsertAgentOverride(st.overrides, req.id.value, req.updates.value.fields))
    ensures s.response.Ok? && !req.isDefault ==>
      s.state == st.(custom := UpdateCustomAgent(st.custom, req.id.value, req.updates.value))
    ensures req.isDefault ==> s.state.custom == st.custom
    ensures !req.isDefault ==> s.state.overrides == st.overrides
  {
    if !Truthy(req.id) || req.updates.None? then Step(BadRequest(MissingIdOrUpdatesError), st)
    else if req.isDefault then
      Step(Ok, st.(overrides := UpsertAgentOverride(st.overrides, req.id.value, req.updates.value.fields)))
    else
      Step(Ok, st.(custom := UpdateCustomAgent(st.custom, req.id.value, req.updates.value)))
  }

  function DefaultEdit(id: string, fields: PartialAgent): PutRequest {
    PutRequest(Some(id), Some(Updates(fields, None)), true)
  }

  /** Successive edits of a default agent accumulate: editing the status
      and then the category leaves both in the listed record. */
  lemma OverrideEditsAccumulate(catalog: seq<Agent>, st: State, i: int, status: Status, category: Category)
    requires 0 <= i < |catalog| && catalog[i].id != ""
    ensures var id := catalog[i].id;
      var st1 := Put(st, DefaultEdit(id, NoFields.(status := Some(status)))).state;
      var st2 := Put(st1, DefaultEdit(id, NoFields.(category := Some(category)))).state;
      var a := ListAgents(catalog, st2).agents[i];
      a.status == status && a.category == category
  {
    var id := catalog[i].id;
    var st1 := Put(st, DefaultEdit(id, NoFields.(status := Some(status)))).state;
    var st2 := Put(st1, DefaultEdit(id, NoFields.(category := Some(category)))).state;
    ListedRecord(catalog, st2, i);
  }

  /** Tags do not accumulate: an edit without tags drops the tags an earlier
      edit stored, and the listed record shows the catalog's tags again. */
  lemma OverrideTagsReplaced(catalog: seq<Agent>, st: State, i: int, tags: seq<string>, status: Status)
    requires 0 <= i < |catalog| && catalog[i].id != ""
    ensures var id := catalog[i].id;
      var st1 := Put(st, DefaultEdit(id, NoFields.(tags := Some(tags)))).state;
      var st2 := Put(st1, DefaultEdit(id, NoFields.(status := Some(status)))).state;
      ListAgents(catalog, st1).agents[i].tags == tags && ListAgents(catalog, st2).agents[i].tags == catalog[i].tags
  {
    var id := catalog[i].id;
    var st1 := Put(st, DefaultEdit(id, NoFields.(tags := Some(tags)))).state;
    var st2 := Put(st1, DefaultEdit(id, NoFields.(status := Some(status)))).state;
    ListedRecord(catalog, st1, i);
    ListedRecord(catalog, st2, i);
  }

  // --------------------------------------------------------------- DELETE

  /** The `id` and `reset` query parameters of a `DELETE`. */
  datatype DeleteQuery = DeleteQuery(id: Option<string>, reset: Option<string>)

  /** `DELETE`: 400 without an id; `reset=true` (exactly that text) removes
      only the override, any other `reset` removes only the custom row.
      Both succeed when nothing matches. */
  function Delete(st: State, q: DeleteQuery): (s: Step)
    ensures s.response.BadRequest? <==> !Truthy(q.id)
    ensures s.response.BadRequest? ==> s.response.error == MissingIdError && s.state == st
    ensures !s.response.BadRequest? ==> s.response.Ok?
    ensures s.response.Ok? && q.reset == Some("true") ==>
      s.state == st.(overrides := DeleteAgentOverride(st.overrides, q.id.value))
    ensures s.response.Ok? && q.reset != Some("true") ==>
      s.state == st.(custom := DeleteCustomAgent(st.custom, q.id.value))
  {
    if !Truthy(q.id) then Step(BadRequest(MissingIdError), st)
    else if q.reset == Some("true") then
      Step(Ok, st.(overrides := DeleteAgentOverride(st.overrides, q.id.value)))
    else
      Step(Ok, st.(custom := DeleteCustomAgent(st.custom, q.id.value)))
  }

  /** Resetting a default agent twice succeeds both times, the second reset
      changes nothing, and after either the record is listed as in the
      catalog. */
  lemma ResetIdempotent(catalog: seq<Agent>, st: State, i: int)
    requires 0 <= i < |catalog| && catalog[i].id != ""
    ensures var q := DeleteQuery(Some(catalog[i].id), Some("true"));
      var s1 := Delete(st, q);
      var s2 := Delete(s1.state, q);
      && s1.response == Ok && s2.response == Ok
      && s2.state == s1.state
      && ListAgents(catalog, s1.state).agents[i] == catalog[i]
  {
    var q := DeleteQuery(Some(catalog[i].id), Some("true"));
    ListedRecord(catalog, Delete(st, q).state, i);
  }

  // ------------------------------------------------------------ invariant

  /** What every write through these handlers keeps true of the custom
      table: ids are unique (the primary key), carry the `custom-` prefix,
      and each slug is derived from its name. */
  predicate Valid(st: State) {
    && DistinctIds(st.custom)
    && (forall row :: row in st.custom ==> IsPrefix(CustomIdPrefix, row.id))
    && (forall row :: row in st.custom ==> row.slug == Slugify(row.name))
  }

  predicate DistinctIds(rows: seq<CustomRow>) {
    forall i, j :: 0 <= i < j < |rows| ==> rows[i].id != rows[j].id
  }

  lemma EmptyStateValid()
    ensures Valid(EmptyState)
  {
  }

  /** Seed ids and custom ids never meet, so a custom-table delete never
      touches a seed id and an override-table reset never a custom one. */
  lemma SeedAndCustomIdsDisjoint(st: State, i: int)
    requires Valid(st)
    requires 0 <= i < |Seed|
    ensures !HasId(st.custom, Seed[i].id)
    ensures Delete(st, DeleteQuery(Some(Seed[i].id), None)).state == st
  {
    assert IsSeedId(Seed[i].id);
    SeedIdsNotCustom(Seed[i].id);
  }

  lemma PostKeepsValid(st: State, body: PartialAgent, now: nat, today: string)
    requires Valid(st)
    ensures Valid(Post(st, body, now, today).state)
  {
    var s := Post(st, body, now, today);
    if s.response.Created? {
      InsertKeepsValid(st, InsertedRow(s.response.agent));
    }
  }

  /** Putting a row with a fresh `custom-` id and a derived slug in front
      keeps the invariant. */
  lemma InsertKeepsValid(st: State, row: CustomRow)
    requires Valid(st) && !HasId(st.custom, row.id)
    requires IsPrefix(CustomIdPrefix, row.id) && row.slug == Slugify(row.name)
    ensures Valid(st.(custom := [row] + st.custom))
  {
    var rows := [row] + st.custom;
    forall i, j | 0 <= i < j < |rows|
      ensures rows[i].id != rows[j].id
    {
      assert rows[j] == st.custom[j - 1];
      if i > 0 {
        assert rows[i] == st.custom[i - 1];
      }
    }
  }

  lemma DeleteKeepsValid(st: State, q: DeleteQuery)
    requires Valid(st)
    ensures Valid(Delete(st, q).state)
  {
    var s := Delete(st, q);
    if s.response.Ok? && q.reset != Some("true") {
      DeleteKeepsDistinctIds(st.custom, q.id.value);
    }
  }

  lemma {:induction false} DeleteKeepsDistinctIds(rows: seq<CustomRow>, id: string)
    requires DistinctIds(rows)
    ensures DistinctIds(DeleteCustomAgent(rows, id))
  {
    if rows != [] {
      var tail := DeleteCustomAgent(rows[1..], id);
      DeleteKeepsDistinctIds(rows[1..], id);
      DeleteCons(rows, id);
      if rows[0].id != id {
        HeadIdNotInTail(rows);
        forall j | 0 <= j < |tail|
          ensures tail[j].id != rows[0].id
        {
          assert tail[j] in tail;
        }
        PrependKeepsDistinctIds(rows[0], tail);
      }
    }
  }

  /** Deleting from a non-empty table handles the first row, then the rest. */
  lemma DeleteCons(rows: seq<CustomRow>, id: string)
    requires rows != []
    ensures DeleteCustomAgent(rows, id) ==
      (if rows[0].id != id then [rows[0]] else []) + DeleteCustomAgent(rows[1..], id)
  {
    assert rows == [rows[0]] + rows[1..];
    FilterAppend([rows[0]], rows[1..], (row: CustomRow) => row.id != id);
  }

  lemma PrependKeepsDistinctIds(row: CustomRow, rows: seq<CustomRow>)
    requires DistinctIds(rows)
    requires forall j :: 0 <= j < |rows| ==> rows[j].id != row.id
    ensures DistinctIds([row] + rows)
  {
    var r := [row] + rows;
    forall i, j | 0 <= i < j < |r|
      ensures r[i].id != r[j].id
    {
      assert r[j] == rows[j - 1];
      if i > 0 {
        assert r[i] == rows[i - 1];
      }
    }
  }

  lemma HeadIdNotInTail(rows: seq<CustomRow>)
    requires rows != [] && DistinctIds(rows)
    ensures forall row :: row in rows[1..] ==> row.id != rows[0].id
  {
    forall row | row in rows[1..]
      ensures row.id != rows[0].id
    {
      var k :| 0 <= k < |rows[1..]| && rows[1..][k] == row;
      assert rows[k + 1] == row;
    }
  }

  /** An update that sends no `slug` of its own, or sends a name, keeps the
      invariant; the settings page only sends such updates. */
  predicate NoBareSlug(req: PutRequest) {
    req.updates.None? || req.updates.value.slug.None? || req.updates.value.fields.name.Some?
  }

  lemma PutKeepsValid(st: State, req: PutRequest)
    requires Valid(st)
    requires NoBareSlug(req)
    ensures Valid(Put(st, req).state)
  {
    var s := Put(st, req);
    if s.response.Ok? && !req.isDefault {
      var rows := s.state.custom;
      forall i | 0 <= i < |rows|
        ensures rows[i].slug == Slugify(rows[i].name)
      {
        if st.custom[i].id == req.id.value {
          assert rows[i] == ApplyUpdates(st.custom[i], req.updates.value);
        }
      }
    }
  }

  /** A `slug` sent without a `name` is written as it is, so the derived
      slug rule can be broken through the update endpoint. */
  lemma BareSlugBreaksValid(row: CustomRow)
    requires IsPrefix(CustomIdPrefix, row.id) && row.slug == Slugify(row.name)
    requires row.name == "A"
    ensures var st := State(map[], [row]);
      var req := PutRequest(Some(row.id), Some(Updates(NoFields, Some("b"))), false);
      Valid(st) && !Valid(Put(st, req).state)
  {
    var st := State(map[], [row]);
    var req := PutRequest(Some(row.id), Some(Updates(NoFields, Some("b"))), false);
    var r := Put(st, req).state.custom[0];
    assert r.slug == "b" && r.name == "A";
    assert Slugify("A") == "a";
  }
}
