/** The two tables behind lib/db.ts and the queries run against them.
    A nullable column is an `Option`; `None` is SQL NULL. The `jsonb` tags
    column is an `Option<Jsonb>`, because `'null'::jsonb` (a JSON null) is
    a non-NULL value that `COALESCE` does not skip. */
module Db {
  import opened Wrappers
  import opened Types
  import opened Slug
  import opened Seqs

  datatype Jsonb = JsonNull | JsonArray(items: seq<string>)

  /** A row of `agent_overrides`, keyed by `agent_id` in the table map.
      `updated_at` is not modelled. */
  datatype OverrideRow = OverrideRow(
    name: Option<string>,
    description: Option<string>,
    category: Option<Category>,
    tags: Option<Jsonb>,
    status: Option<Status>,
    vercelUrl: Option<string>,
    imageUrl: Option<string>,
    primaryActionLabel: Option<string>)

  /** A row of `custom_agents`. The table is kept as a sequence in
      `created_at DESC` order, the order every read uses. */
  datatype CustomRow = CustomRow(
    id: string,
    name: string,
    slug: string,
    description: string,
    category: Category,
    tags: Option<Jsonb>,
    status: Status,
    vercelUrl: string,
    imageUrl: string,
    lastUpdated: string,
    primaryActionLabel: Option<string>)

  /** The `updates` object of an update request: the eight editable fields
      and, if the client sent one, a `slug`. */
  datatype Updates = Updates(fields: PartialAgent, slug: Option<string>)

  /** The bound parameter `JSON.stringify(tags || null)::jsonb`. An array,
      even an empty one, is truthy. */
  function TagsParam(tags: Option<seq<string>>): (j: Jsonb)
    ensures ArrayIn(Some(j)) == tags
  {
    if tags.Some? then JsonArray(tags.value) else JsonNull
  }

  /** The array held in a tags column, if it holds one. */
  function ArrayIn(tags: Option<Jsonb>): (r: Option<seq<string>>)
    ensures r.Some? <==> tags.Some? && tags.value.JsonArray?
    ensures r.Some? ==> r.value == tags.value.items
  {
    if tags.Some? && tags.value.JsonArray? then Some(tags.value.items) else None
  }

  // ---------------------------------------------------------------- reads

  /** One custom row as returned by `getCustomAgents`: `row.tags || []`. */
  function ReadCustomRow(row: CustomRow): (a: Agent)
    ensures a.id == row.id && a.name == row.name && a.slug == row.slug
    ensures a.description == row.description && a.category == row.category
    ensures a.status == row.status && a.vercelUrl == row.vercelUrl && a.imageUrl == row.imageUrl
    ensures a.lastUpdated == row.lastUpdated && a.primaryActionLabel == row.primaryActionLabel
    ensures a.tags == ArrayIn(row.tags).GetOr([])
  {
    Agent(row.id, row.name, row.slug, row.description, row.category,
          ArrayIn(row.tags).GetOr([]), row.status, row.vercelUrl, row.imageUrl,
          row.lastUpdated, row.primaryActionLabel)
  }

  /** `getCustomAgents`: every row, newest first, with a NULL or JSON-null
      tags column read as the empty list. */
  function GetCustomAgents(rows: seq<CustomRow>): (agents: seq<Agent>)
    ensures |agents| == |rows|
    ensures forall i :: 0 <= i < |rows| ==> agents[i] == ReadCustomRow(rows[i])
  {
    seq(|rows|, i requires 0 <= i < |rows| => ReadCustomRow(rows[i]))
  }

  /** One override row as returned by `getAgentOverrides`: exactly the
      non-null columns, with no `id`. */
  function ReadOverrideRow(row: OverrideRow): (p: PartialAgent)
    ensures p.name == row.name && p.description == row.description
    ensures p.category == row.category && p.status == row.status
    ensures p.vercelUrl == row.vercelUrl && p.imageUrl == row.imageUrl
    ensures p.primaryActionLabel == row.primaryActionLabel
    ensures p.tags == ArrayIn(row.tags)
  {
    PartialAgent(row.name, row.description, row.category, ArrayIn(row.tags),
                 row.status, row.vercelUrl, row.imageUrl, row.primaryActionLabel)
  }

  /** `getAgentOverrides`: one entry per row, keyed by `agent_id`. */
  function GetAgentOverrides(rows: map<string, OverrideRow>): (overrides: map<string, PartialAgent>)
    ensures overrides.Keys == rows.Keys
    ensures forall k :: k in rows ==> overrides[k] == ReadOverrideRow(rows[k])
  {
    map k | k in rows :: ReadOverrideRow(rows[k])
  }

  // -------------------------------------------------------- custom agents

  /** The row `addCustomAgent` inserts for a complete record. */
  function InsertedRow(a: Agent): (row: CustomRow)
    ensures ReadCustomRow(row) == a
  {
    CustomRow(a.id, a.name, a.slug, a.description, a.category, Some(JsonArray(a.tags)),
              a.status, a.vercelUrl, a.imageUrl, a.lastUpdated, a.primaryActionLabel)
  }

  /** Reading a row and writing the agent back gives the row again, except
      that a NULL or JSON-null tags column comes back as the array `[]`. */
  lemma ReadThenInsert(row: CustomRow)
    ensures InsertedRow(ReadCustomRow(row)) == row.(tags := Some(JsonArray(ReadCustomRow(row).tags)))
    ensures InsertedRow(ReadCustomRow(row)) == row <==> row.tags.Some? && row.tags.value.JsonArray?
    ensures row.tags.None? || row.tags == Some(JsonNull) ==> ReadCustomRow(row).tags == []
  {
  }

  predicate HasId(rows: seq<CustomRow>, id: string) {
    exists i :: 0 <= i < |rows| && rows[i].id == id
  }

  /** `addCustomAgent`: the insert fails (`None`) on a primary-key clash;
      otherwise the new row is the newest. */
  function AddCustomAgent(rows: seq<CustomRow>, a: Agent): (r: Option<seq<CustomRow>>)
    ensures r.None? <==> HasId(rows, a.id)
    ensures r.Some? ==> r.value == [InsertedRow(a)] + rows
    ensures r.Some? ==> GetCustomAgents(r.value) == [a] + GetCustomAgents(rows)
  {
    if HasId(rows, a.id) then None
    else
      var rows' := [InsertedRow(a)] + rows;
      assert GetCustomAgents(rows') == [a] + GetCustomAgents(rows) by {
        assert forall i :: 1 <= i < |rows'| ==> rows'[i] == rows[i - 1];
      }
      Some(rows')
  }

  /** The `UPDATE … SET col = COALESCE(${updates.col}, col)` of
      `updateCustomAgent` on one matching row. Only an absent field keeps the
      stored value; an empty string is written. The slug is re-derived when a
      name is given, and otherwise taken from the payload's own `slug` if it
      has one. The tags parameter is never SQL NULL, so tags are always
      overwritten. */
  function ApplyUpdates(row: CustomRow, u: Updates): (r: CustomRow)
    ensures r.id == row.id && r.lastUpdated == row.lastUpdated
    ensures r.name == u.fields.name.GetOr(row.name)
    ensures u.fields.name.Some? ==> r.slug == Slugify(u.fields.name.value)
    ensures u.fields.name.None? && u.slug.None? ==> r.slug == row.slug
    ensures u.fields.name.None? && u.slug.Some? ==> r.slug == u.slug.value
    ensures r.description == u.fields.description.GetOr(row.description)
    ensures r.category == u.fields.category.GetOr(row.category)
    ensures ReadCustomRow(r).tags == u.fields.tags.GetOr([])
    ensures r.status == u.fields.status.GetOr(row.status)
    ensures r.vercelUrl == u.fields.vercelUrl.GetOr(row.vercelUrl)
    ensures r.imageUrl == u.fields.imageUrl.GetOr(row.imageUrl)
    ensures r.primaryActionLabel == Coalesce(u.fields.primaryActionLabel, row.primaryActionLabel)
  {
    var f := u.fields;
    var slug := if f.name.Some? then Some(Slugify(f.name.value)) else u.slug;
    row.(name := f.name.GetOr(row.name),
         slug := slug.GetOr(row.slug),
         description := f.description.GetOr(row.description),
         category := f.category.GetOr(row.category),
         tags := Coalesce(Some(TagsParam(f.tags)), row.tags),
         status := f.status.GetOr(row.status),
         vercelUrl := f.vercelUrl.GetOr(row.vercelUrl),
         imageUrl := f.imageUrl.GetOr(row.imageUrl),
         primaryActionLabel := Coalesce(f.primaryActionLabel, row.primaryActionLabel))
  }

  /** `updateCustomAgent(id, updates)`: the row with that id is updated in
      place; every other row, and the order, stay as they were. An id that
      matches no row changes nothing. */
  function UpdateCustomAgent(rows: seq<CustomRow>, id: string, u: Updates): (r: seq<CustomRow>)
    ensures |r| == |rows|
    ensures forall i :: 0 <= i < |rows| ==> r[i].id == rows[i].id
    ensures forall i :: 0 <= i < |rows| && rows[i].id != id ==> r[i] == rows[i]
    ensures forall i :: 0 <= i < |rows| && rows[i].id == id ==> r[i] == ApplyUpdates(rows[i], u)
    ensures !HasId(rows, id) ==> r == rows
  {
    seq(|rows|, i requires 0 <= i < |rows| => if rows[i].id == id then ApplyUpdates(rows[i], u) else rows[i])
  }

  /** `deleteCustomAgent(id)`: the rows with that id are gone, the others
      stay in order. */
  function DeleteCustomAgent(rows: seq<CustomRow>, id: string): (r: seq<CustomRow>)
    ensures !HasId(r, id)
    ensures forall row :: row in r <==> row in rows && row.id != id
    ensures IsSubsequence(r, rows)
    ensures !HasId(rows, id) ==> r == rows
  {
    var r := Filter(rows, (row: CustomRow) => row.id != id);
    assert !HasId(r, id) by {
      forall i | 0 <= i < |r|
        ensures r[i].id != id
      {
        assert r[i] in r;
      }
    }
    assert !HasId(rows, id) ==> r == rows by {
      if !HasId(rows, id) {
        forall row | row in rows
          ensures row.id != id
        {
          var i :| 0 <= i < |rows| && rows[i] == row;
        }
        FilterKeepsAll(rows, (row: CustomRow) => row.id != id);
      }
    }
    r
  }

  lemma DeleteCustomAgentIdempotent(rows: seq<CustomRow>, id: string)
    ensures DeleteCustomAgent(DeleteCustomAgent(rows, id), id) == DeleteCustomAgent(rows, id)
  {
  }

  // ------------------------------------------------------------ overrides

  /** The partial record an override upsert writes for `updates`
      (`updates.field || null`): the truthy strings, the enums and tags
      that are present. */
  function TruthyFields(u: PartialAgent): (p: PartialAgent)
    ensures p.name.Some? <==> Truthy(u.name)
    ensures p.description.Some? <==> Truthy(u.description)
    ensures p.vercelUrl.Some? <==> Truthy(u.vercelUrl)
    ensures p.imageUrl.Some? <==> Truthy(u.imageUrl)
    ensures p.primaryActionLabel.Some? <==> Truthy(u.primaryActionLabel)
    ensures p.category == u.category && p.status == u.status && p.tags == u.tags
    ensures Overlay(u, p) == u
  {
    PartialAgent(OrNull(u.name), OrNull(u.description), u.category, u.tags, u.status,
                 OrNull(u.vercelUrl), OrNull(u.imageUrl), OrNull(u.primaryActionLabel))
  }

  /** The `VALUES (…)` row of the upsert, the `EXCLUDED` row on conflict. */
  function ExcludedRow(u: PartialAgent): (row: OverrideRow)
    ensures ReadOverrideRow(row) == TruthyFields(u)
  {
    OverrideRow(OrNull(u.name), OrNull(u.description), u.category, Some(TagsParam(u.tags)),
                u.status, OrNull(u.vercelUrl), OrNull(u.imageUrl), OrNull(u.primaryActionLabel))
  }

  /** `ON CONFLICT (agent_id) DO UPDATE SET col = COALESCE(EXCLUDED.col, col)`. */
  function CoalesceRows(excluded: OverrideRow, stored: OverrideRow): OverrideRow {
    OverrideRow(
      Coalesce(excluded.name, stored.name),
      Coalesce(excluded.description, stored.description),
      Coalesce(excluded.category, stored.category),
      Coalesce(excluded.tags, stored.tags),
      Coalesce(excluded.status, stored.status),
      Coalesce(excluded.vercelUrl, stored.vercelUrl),
      Coalesce(excluded.imageUrl, stored.imageUrl),
      Coalesce(excluded.primaryActionLabel, stored.primaryActionLabel))
  }

  /** What a reader saw for `id` before an upsert, minus the tags: an
      upsert always overwrites the tags column. */
  function KeptByUpsert(rows: map<string, OverrideRow>, id: string): PartialAgent {
    if id in rows then ReadOverrideRow(rows[id]).(tags := None) else NoFields
  }

  /** `upsertAgentOverride(id, updates)`. Read back, the entry for `id` is
      the truthy fields of `updates` laid over what was stored before, except
      that the tags are those of `updates` or none. On a new key that is just
      the truthy fields. Every other key is untouched. */
  function UpsertAgentOverride(rows: map<string, OverrideRow>, id: string, u: PartialAgent)
    : (r: map<string, OverrideRow>)
    ensures r.Keys == rows.Keys + {id}
    ensures forall k :: k in rows && k != id ==> r[k] == rows[k]
    ensures ReadOverrideRow(r[id]) == Overlay(KeptByUpsert(rows, id), TruthyFields(u))
    ensures id !in rows ==> ReadOverrideRow(r[id]) == TruthyFields(u)
  {
    var excluded := ExcludedRow(u);
    rows[id := if id in rows then CoalesceRows(excluded, rows[id]) else excluded]
  }

  /** `deleteAgentOverride(id)`: only that key goes; absent is fine. */
  function DeleteAgentOverride(rows: map<string, OverrideRow>, id: string): (r: map<string, OverrideRow>)
    ensures r.Keys == rows.Keys - {id}
    ensures forall k :: k in r ==> r[k] == rows[k]
    ensures id !in rows ==> r == rows
  {
    rows - {id}
  }

  lemma DeleteAgentOverrideIdempotent(rows: map<string, OverrideRow>, id: string)
    ensures DeleteAgentOverride(DeleteAgentOverride(rows, id), id) == DeleteAgentOverride(rows, id)
  {
  }
}
