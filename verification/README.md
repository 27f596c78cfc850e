# Agent directory model

A Dafny model of the agent directory at the centre of FT Agent Studio. The
directory has three parts:

- a fixed seed catalog of nine agents (`lib/data.ts`);
- an override table keyed by seed id, which holds an edited copy of some
  fields of a seed agent;
- a custom-agent table, which holds agents created through the settings page.

Four HTTP handlers under `/api/agents` read and write these tables.

- `GET` lists every seed agent with its override spread on top, followed by
  the custom agents, newest first.
- `POST` validates a new agent, fills in defaults and derives its slug.
- `PUT` routes an update either to the override table or to the custom table.
- `DELETE` removes a custom agent or, with `reset=true`, an override.

Around the handlers sit the client-side helpers:

- the settings page's form, tag editor, request checks, display merge and
  image check;
- the gallery's `allAgents` concatenation and search filter;
- the filter-chip toggles;
- the agent card's tag truncation and button label.

Each handler is a pure function from the tables to a response and new tables
(`AgentsApi.State`, `AgentsApi.Step`). The listing is defined over any
catalog (`AgentsApi.ListAgents`), and `GET` is that listing over the seed
catalog (`AgentsApi.Get`). The lemmas about listed records are stated for
every catalog whose ids are non-empty, so they hold for the seed catalog in
particular (`Data.SeedIdLength`). The two tables are modelled at the
level of SQL rows (module `Db`):

- A nullable column is an `Option`.
- The `tags` column is an `Option<Jsonb>`. It tells apart SQL `NULL` (`None`)
  from the JSON value `null` (`Some(JsonNull)`), because the code writes
  `JSON.stringify(x || null)::jsonb`. A missing tag list therefore reaches the
  database as a non-NULL JSON `null`, and `COALESCE` never falls back for
  `tags`. The model follows the code: an override upsert or a custom-agent
  update always replaces the stored tags, and a missing list reads back as
  absent (override) or as `[]` (custom agent). This differs from the
  "merge on top" the other columns get (`AgentsApi.OverrideTagsReplaced`).
- An update of a custom id that matches no row changes nothing and still
  reports success, as the code does.
- The clock is a pair of parameters: `now` stands for `Date.now()` and
  `today` for the formatted month and year.
- The created id is `"custom-"` followed by the decimal digits of `now`. When
  that id is already taken, the primary key rejects the insert and `POST`
  answers 500 "Failed to add agent".

Modules, in dependency order:

- `Wrappers`: `Option` and JavaScript's `||` on strings.
- `Text`: ASCII lowercase, whitespace, trimming and substring search.
- `Seqs`: `Array.prototype.filter` and its laws.
- `Types`: the `Agent` record, its partial counterpart, and the field-wise
  overlay.
- `Slug`: the slug derivation.
- `Data`: the seed catalog.
- `Db`: the SQL statements of `lib/db.ts`.
- `AgentsApi`: the route handlers and the custom-table invariant.
- `Gallery`: the public gallery.
- `SearchFilters`: the filter chips.
- `AgentCard`: the agent card.
- `Settings`: the settings page.

## Model

| member | source | states |
|---|---|---|
| Types.CategoryNamesDistinct | lib/types.ts:6 | the six category literals are pairwise different, so a category is identified by its text |
| Types.StatusNamesDistinct | lib/types.ts:8 | the three status literals are pairwise different |
| Types.FieldsDetermineRecord | lib/types.ts:1-13 | two records with the same `id`, `slug`, `lastUpdated` and editable fields are equal, so nothing else is hidden in a record |
| Types.OverlayLaws | app/api/agents/route.ts:34-37 | object spread of partial records: an empty overlay is the identity on either side, overlaying is idempotent and associative, and repeating the top layer changes nothing |
| Slug.SlugifyShape | app/api/agents/route.ts:72 | a slug is never longer than the name and contains no whitespace and no upper-case letter |
| Slug.SlugifyTwoWords | app/api/agents/route.ts:72 | two words separated by a whitespace run of any length give the two lowercased words joined by one `-` |
| Slug.SlugifyAppend | app/api/agents/route.ts:72 | the slug of a concatenation is the concatenation of the slugs, as long as the cut does not split a whitespace run |
| Slug.SlugifyIdempotent | app/api/agents/route.ts:72 | deriving a slug from a slug gives the same slug |
| Slug.SlugifyLengthSingleSpaced | app/api/agents/route.ts:72 | with no two adjacent whitespace characters, the slug has exactly the name's length |
| Data.SeedIds | lib/data.ts:3-121 | the catalog has nine records whose ids are `"1"` to `"9"`, in order |
| Data.SeedIdsDistinct | lib/data.ts:3-121 | no two seed records share an id |
| Data.SeedIdLength | lib/data.ts:3-121 | every seed id is one character long, so it is never empty and every catalog lemma that needs a non-empty id applies to the seed |
| Data.SeedIdsNotCustom | lib/data.ts:3-121 | no seed id starts with `custom-`, so seed ids and created ids never meet |
| Data.ChipLists | lib/data.ts:123-132 | `categories` lists all six categories in a fixed order and `statuses` all three statuses, each once |
| Data.SeedInChipLists | lib/data.ts:3-132 | every seed record's category and status appear in the chip lists |
| Data.RedZoneSlugNotDerived | lib/data.ts:17-29 | the seed record "Red Zone Alert Agent" stores slug `red-zone-alert`, which is not its derived slug, so the derived-slug rule is stated for created records only |
| Data.RedZoneNameSlugDiffers | lib/data.ts:17-29 | the name "Red Zone Alert Agent" has no adjacent whitespace, so its derived slug keeps all 20 characters and differs from the 14-character stored slug |
| Db.TagsParam | lib/db.ts:176 | reading the tags parameter back gives the list that was given, and no list when none was: a missing list is stored as JSON `null`, never as SQL NULL |
| Db.GetCustomAgents | lib/db.ts:48-65 | the listing has one agent per stored row, in table order (newest first) |
| Db.ExcludedRow | lib/db.ts:172-180 | the row the upsert writes reads back, through `getAgentOverrides`, as exactly the truthy fields of the update: an empty or absent text field is absent, and a missing tag list, stored as JSON null in a non-NULL column, is read as absent too |
| Db.GetAgentOverrides | lib/db.ts:72-96 | the override map has exactly the stored agent ids as keys, each mapped to its row read back |
| Db.InsertedRow | lib/db.ts:103-114 | the row written for an agent reads back as that same agent |
| Db.ReadThenInsert | lib/db.ts:53-65 | writing back an agent read from a row gives the row again exactly when its tags column holds an array; a NULL or JSON-null tags column is read as `[]` |
| Db.AddCustomAgent | lib/db.ts:103-119 | the insert fails exactly when the id is already stored; otherwise the row becomes the newest, and the listing gains the agent at its head |
| Db.ApplyUpdates | lib/db.ts:127-141 | each given field replaces the stored one and each absent field is kept; the slug is re-derived when a name is given, taken from a given slug otherwise, else kept; tags are always replaced; `id` and `lastUpdated` never change |
| Db.UpdateCustomAgent | lib/db.ts:122-145 | only rows with that id are changed, all other rows and the order are untouched, and an unknown id changes nothing |
| Db.DeleteCustomAgent | lib/db.ts:152-157 | afterwards no row has that id, every other row is still there in order, and an unknown id changes nothing |
| Db.DeleteCustomAgentIdempotent | lib/db.ts:152-157 | deleting the same id twice is the same as deleting it once |
| Db.TruthyFields | lib/db.ts:172-180 | a text field of the update is kept exactly when it is non-empty, and then with the update's own value, so laying the result over the update changes nothing; category, status and tags pass as given |
| Db.UpsertAgentOverride | lib/db.ts:164-194 | the upsert touches only that key; a new key stores exactly the truthy fields; an existing key gets the truthy fields laid over what it held, except tags, which are replaced |
| Db.DeleteAgentOverride | lib/db.ts:201-206 | only that key is removed, every other override is kept, and an absent key changes nothing |
| Db.DeleteAgentOverrideIdempotent | lib/db.ts:201-206 | resetting the same key twice is the same as resetting it once |
| AgentsApi.MergeAgent | app/api/agents/route.ts:34-37 | the merged record's editable fields are the override laid over the seed's, `id`, `slug` and `lastUpdated` are the seed's, and no override leaves the record unchanged |
| AgentsApi.MergeAgentTwice | app/api/agents/route.ts:34-37 | spreading two overrides in turn equals spreading their overlay once |
| AgentsApi.MergeCatalog | app/api/agents/route.ts:34-37 | the merged catalog keeps the catalog's order and ids, each record merged with its own override |
| AgentsApi.MergeWithoutOverrides | app/api/agents/route.ts:34-37 | when no catalog id has an override, the merged catalog is the catalog itself |
| AgentsApi.ListAgents | app/api/agents/route.ts:26-43 | the listing is the merged catalog records followed by the custom agents, its length the catalog's plus the number of custom rows, alongside both stores as read |
| AgentsApi.EmptyListing | app/api/agents/route.ts:26-43 | with both tables empty, a catalog is listed exactly as it is, with no custom agents and no overrides |
| AgentsApi.GetEmpty | app/api/agents/route.ts:26-43 | a fresh database answers `GET` with the seed agents unchanged and nothing else |
| AgentsApi.ListedRecord | app/api/agents/route.ts:30-40 | a catalog record without an override row is listed unchanged, and with one it is listed with the row read back and laid on top |
| AgentsApi.CustomId | app/api/agents/route.ts:70 | every generated id starts with `custom-` and has something after it |
| AgentsApi.NewAgent | app/api/agents/route.ts:69-81 | the created record copies name, description and URL, derives the slug from the name, and falls back to `Other`, `[]`, `Live`, the default image and "See it in action" only for missing or empty inputs |
| AgentsApi.Post | app/api/agents/route.ts:54-100 | 400 exactly when name, description or URL is missing or empty; 500 exactly on an id clash; both leave the tables unchanged; otherwise the created record is returned and stored as the newest row |
| AgentsApi.PostThenGetThenDelete | app/api/agents/route.ts:83-86 | a created agent is listed right after the catalog records, and deleting its id restores the custom table exactly |
| AgentsApi.DeleteUndoesInsert | lib/db.ts:152-157 | deleting the id of a row just put in front of a table without that id gives the table back |
| AgentsApi.Put | app/api/agents/route.ts:103-140 | 400 exactly when the id is missing or empty or the updates are missing; otherwise `isDefault` sends the update to the override table only and its absence to the custom table only |
| AgentsApi.OverrideEditsAccumulate | lib/db.ts:182-190 | two edits of a default agent, one of the status and one of the category, both show in the listing |
| AgentsApi.OverrideTagsReplaced | lib/db.ts:176-186 | an edit of a default agent that sends no tags drops the tags an earlier edit stored, and the listing shows the catalog's tags again |
| AgentsApi.Delete | app/api/agents/route.ts:143-165 | 400 exactly when the id is missing or empty; `reset` equal to the text `true` removes only the override, any other value removes only the custom row |
| AgentsApi.ResetIdempotent | app/api/agents/route.ts:159-161 | resetting a default agent succeeds both times, the second reset changes nothing, and the agent is listed as in the catalog |
| AgentsApi.EmptyStateValid | app/api/agents/route.ts:69-72 | the empty tables satisfy the custom-table invariant: ids unique and prefixed by `custom-`, slugs derived from names |
| AgentsApi.SeedAndCustomIdsDisjoint | app/api/agents/route.ts:70 | under the invariant no custom row has a seed id, so deleting a seed id from the custom table changes nothing |
| AgentsApi.PostKeepsValid | app/api/agents/route.ts:69-86 | every `POST` keeps the invariant |
| AgentsApi.InsertKeepsValid | lib/db.ts:103-114 | putting a row with a fresh `custom-` id and a derived slug in front of a valid table keeps it valid |
| AgentsApi.DeleteKeepsValid | app/api/agents/route.ts:143-165 | every `DELETE` keeps the invariant |
| AgentsApi.DeleteKeepsDistinctIds | lib/db.ts:152-157 | deleting rows from a table with unique ids leaves unique ids |
| AgentsApi.PutKeepsValid | lib/db.ts:127-134 | every `PUT` that does not send a slug without a name keeps the invariant |
| AgentsApi.BareSlugBreaksValid | lib/db.ts:127-134 | a `PUT` that sends a slug but no name writes that slug verbatim and breaks the derived-slug rule |
| Gallery.AllAgents | app/page.tsx:25-27 | the gallery list is the seed catalog followed by the custom agents |
| Gallery.MatchesEmpty | app/page.tsx:33-38 | every agent matches the empty query |
| Gallery.Search | app/page.tsx:29-41 | an empty query shows every agent; otherwise the result keeps the list's order and every copy of each agent whose lowercased name, description, some tag or category contains the lowercased query, and no copy of any other agent |
| Gallery.SearchIgnoresQueryCase | app/page.tsx:33 | a query and its lowercase give the same result |
| Gallery.EmptyQueryShortcutAgrees | app/page.tsx:30-32 | skipping the filter for the empty query gives what filtering with it would give |
| SearchFilters.Toggle | components/search-filters.tsx:28-34 | an unselected value is appended at the end; a selected one loses every copy while every other value keeps its order and its number of copies |
| SearchFilters.ToggleCategory | components/search-filters.tsx:28-34 | a category is selected after the click exactly when it was not before |
| SearchFilters.ToggleStatus | components/search-filters.tsx:36-42 | a status is selected after the click exactly when it was not before |
| SearchFilters.ToggleTwiceRestores | components/search-filters.tsx:28-34 | clicking an unselected chip twice gives the original selection back |
| SearchFilters.ToggleKeepsNoDuplicates | components/search-filters.tsx:28-42 | a selection without repeats stays without repeats |
| SearchFilters.InactiveFiltersShowAll | components/search-filters.tsx:44-47 | when no filter is active the query is empty, nothing is selected, and the search shows every agent |
| SearchFilters.SelectingActivates | components/search-filters.tsx:44-47 | selecting a category chip makes the filters active |
| AgentCard.VisibleTags | components/agent-card.tsx:18 | the card shows the first three tags, or all of them when there are fewer, in order |
| AgentCard.TagRowAccountsForAll | components/agent-card.tsx:18-19 | the "+N more" chip shows exactly when there are more than three tags, and then the shown tags and N together are all the tags |
| AgentCard.ButtonLabel | components/agent-card.tsx:94 | the button shows the action label when it is non-empty and "Open Agent" otherwise, so it is never blank |
| Settings.EditForm | app/settings/page.tsx:126-131 | opening a record clears the tag box and loads a complete form, with the action label present exactly when the record has one, that laid over the record gives the record back |
| Settings.FormsComplete | app/settings/page.tsx:22-31 | the blank form and every loaded form carry a category, a status and a tag list, and the blank form lacks the required fields |
| Settings.AddTag | app/settings/page.tsx:109-117 | the editor changes exactly when the trimmed input is non-empty, the form has a tag list and the list lacks it; then the box is cleared, no other field changes, and the tags gain exactly one copy of the trimmed input |
| Settings.AddedTagIsTrimmedInput | app/settings/page.tsx:109-117 | an added tag goes at the end, is non-empty, starts with no whitespace, and is a piece of what was typed |
| Settings.AddTagKeepsNoDuplicates | app/settings/page.tsx:109-117 | adding keeps a tag list free of repeats and changes no other field |
| Settings.RemoveTag | app/settings/page.tsx:119-124 | removing drops every copy of the tag, keeps every other tag with its number of copies and in order, and changes no other field |
| Settings.RemoveTagKeepsNoDuplicates | app/settings/page.tsx:119-124 | removing keeps a tag list free of repeats |
| Settings.RemoveUndoesAdd | app/settings/page.tsx:109-124 | removing the tag just added gives back the earlier form |
| Settings.SubmitAddAgreesWithServer | app/settings/page.tsx:53-56 | the page refuses exactly the forms the server would answer with 400, and a sent form is created or fails only on an id clash |
| Settings.UpdatePayload | app/settings/page.tsx:146-155 | the update carries the form's eight editable fields and no slug, so applying it to any custom row re-derives the slug from the form's name, or keeps the stored slug when there is no name |
| Settings.SubmitUpdateKeepsValid | app/settings/page.tsx:133-157 | an update the page sends is accepted exactly when the edited id is non-empty, and keeps the custom-table invariant |
| Settings.SubmitUpdateCustom | app/settings/page.tsx:143-155 | saving a custom agent stores the form's name with its derived slug, and its tags, category, status and description |
| Settings.SubmitUpdateDefault | app/settings/page.tsx:143-155 | saving a default agent makes the listing show the form's name, description, URL, tags, category and status |
| Settings.DeleteRequest | app/settings/page.tsx:89-92 | the delete button sends the agent's id without `reset=true`, so the server removes that custom row and leaves the overrides alone (400 for an empty id) |
| Settings.ResetRequest | app/settings/page.tsx:200-203 | the reset button makes the server remove exactly that agent's override row and nothing else (400 for an empty id) |
| Settings.DisplayDefaultAgents | app/settings/page.tsx:221-224 | the settings list has one record per catalog agent, with the catalog ids in order |
| Settings.DisplayMatchesListing | app/settings/page.tsx:221-224 | the settings page shows the default agents exactly as the `GET` listing does |
| Settings.ModifiedBadge | app/settings/page.tsx:723-746 | the "Modified" badge and the reset button show exactly when an override row exists; saving a default agent makes them appear and resetting makes them go |
| Settings.CheckImage | app/settings/page.tsx:243-258 | no file is ignored; a type outside the six image types is rejected first; then a size over 5·1024·1024 bytes; everything else is accepted |

## Left out

- Rendering, hooks, `alert`/`confirm`, the `fetch` round trips and the success or failure messages are left out. They are UI and I/O. The reset of the form after a save is also left out.
- The gallery reads its custom agents from `localStorage`. Here they are a parameter of `Gallery.AllAgents`; parsing them is I/O.
- The database driver, `initDB`, `ensureDB` and the table definitions are left out. The tables are a map and a sequence.
- The only storage failure modelled is the primary-key clash on insert. Other database errors lead to 500 replies, and the readers fall back to `[]` and `{}` on error; both are left out.
- `created_at` and `updated_at` are left out. The "newest first" order is the position in the custom-table sequence.
- `Date.now()` and `toLocaleDateString` are parameters, not computed.
- The upload request to `/api/upload-image` is left out. Only the check before it is modelled, as `Settings.CheckImage`.
- Lowercasing and whitespace are ASCII only (space, tab, line feed, vertical tab, form feed, carriage return). JavaScript's Unicode case mapping and whitespace classes are not modelled. This affects the slug, the search and the tag trimming.
- JSON bodies hold only well-typed values. Category and status are the enumerated literals. A JSON `null` or a non-string value inside a request body is not modelled. An absent property is assumed to reach SQL as NULL.
- Concurrent requests and last-write-wins are left out. They are the database's concern.
- `components/agent-modal.tsx` and `components/header.tsx` are not part of this model. They hold fullscreen, theme and iframe behaviour only.
- SearchFilters.HasActiveFilters: it is the source's condition itself, so no lemma restates it. Its consequences are stated in `SearchFilters.InactiveFiltersShowAll` and `SearchFilters.SelectingActivates`.
