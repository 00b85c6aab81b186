# News importer — a Dafny model of the recursive tree import

`news_importer.rb` reads a JSON array of news categories and writes it to two
SQLite tables. A category has an `id`, a `name`, an optional `active` flag, a
list of news items (`news`) and a list of subcategories. The `category` table
declares `id` and `name` UNIQUE. The `material` table declares `id` UNIQUE and
stores each news item with the `category_id` of the category it sits under.
Two switches, `--only-active-cats` and `--only-active-news`, drop categories
(with their whole subtree) or single news items whose `active` is exactly
`false`. A failing INSERT is reported and skipped; it never stops the walk.
Two counters record the successful inserts and are printed at the end.

The project has these files:

- `wrappers.dfy` holds `Option`, used for fields that may be missing or null.
- `feed.dfy` (module `Feed`) holds the parsed input tree (`Category`,
  `Material`), the two options, and the "explicitly inactive" test.
- `store.dfy` (module `Store`) holds the two tables as append-only sequences of
  rows. A `Database` class has one INSERT method per table. Each INSERT
  succeeds exactly when the row breaks no UNIQUE rule.
- `import_spec.dfy` (module `ImportSpec`) is the specification of a run:
  - `CategoryAttempts` and `ForestAttempts` give the pre-order sequence of
    INSERT attempts the walk makes.
  - `Step` and `Run` give the effect of those attempts on the tables, the
    counters and the printed status lines (an abstract `Event` log).
  - `Visited` and `PruneInactive` are reference definitions used to state
    pre-order and subtree exclusion.
- `properties.dfy` (module `ImportProperties`) holds the lemmas about that
  specification.
- `importer.dfy` (module `Importer`) holds the `NewsImporter` class. Its fields
  are the store, the options, the two counters and the output. Its recursive
  `ImportOneCategory` method and its `ImportOneMaterial` method update those
  fields in place. Each method is proved to leave the object in
  `Run(old state, attempts)`.

## Model

| member | source | states |
|---|---|---|
| `Store.Database.Open` | news_importer.rb:44-45 | The store opens with the rows it already holds from earlier runs; those rows satisfy the UNIQUE rules. |
| `Store.Database.InsertCategory` | news_importer.rb:48-49 | A category insert succeeds iff neither its id nor its name is already in the table. On success the row is appended. On failure neither table changes. |
| `Store.Database.InsertMaterial` | news_importer.rb:54 | A material insert succeeds iff its id is not already in the table. On success the row is appended. On failure neither table changes. |
| `Importer.NewsImporter.constructor` | news_importer.rb:33-42 | The importer starts with the opened store, both success counters at zero and no output. |
| `Importer.NewsImporter.Import` | news_importer.rb:24-28 | Both counters are reset to zero. Then every root category is imported in order. The reported totals equal the rows added to each table and the success lines printed. The tables only grow and stay UNIQUE-valid. |
| `Importer.NewsImporter.ImportOneCategory` | news_importer.rb:74-91 | The new state is the old state run through this category's pre-order attempts. A filtered-out category changes nothing. Otherwise the walk tries the category row, then its news under its id, then each subcategory, whatever the outcome of the category insert. |
| `Importer.NewsImporter.ImportOneMaterial` | news_importer.rb:93-110 | The new state is the old state run through this news item's attempt. A filtered-out item changes nothing. Otherwise there is one insert with the parent's id, counted only when it succeeds. |
| `ImportProperties.CategoryInsertOutcome` | news_importer.rb:79-85 | The category counter goes up by one iff the insert succeeds. A failed insert changes nothing but adds one status line. |
| `ImportProperties.MaterialInsertOutcome` | news_importer.rb:98-109 | The news counter goes up by one iff the insert succeeds. A failed insert changes nothing but adds one status line. |
| `ImportProperties.RunAppend` | news_importer.rb:87-90 | Running attempts one after another, with no failure stopping the run, composes over concatenation. |
| `ImportProperties.CountersMatchRows` | news_importer.rb:79-109 | Over any run, the tables keep their old rows as a prefix. Each counter grows by exactly the number of rows added to its table and the number of success lines printed. |
| `ImportProperties.AddedRowsWereAttempted` | news_importer.rb:79-109 | Every row a run adds to either table is the row of one of its attempts. |
| `ImportProperties.RunKeepsTablesUnique` | news_importer.rb:47-61 | No run breaks the UNIQUE rules on `category.id`, `category.name` or `material.id`. |
| `ImportProperties.AllBlockedAfterRun` | news_importer.rb:47-61 | After a run, every attempt of that run would fail if tried again. |
| `ImportProperties.CleanRunStoresEveryRow` | news_importer.rb:79-109 | Suppose no attempt clashes with the stored rows and no two attempts clash with each other. Then every insert succeeds, and each table ends with exactly the attempted rows appended, in order. |
| `ImportProperties.FreshImportStoresEveryRow` | news_importer.rb:24-28 | Importing into an empty store a forest whose rows do not clash inserts every attempted row exactly once, in pre-order. Each counter equals the number of its rows. |
| `ImportProperties.ReimportAddsNothing` | news_importer.rb:46-62 | Importing the same document again into the resulting store adds no row and counts no success. |
| `ImportProperties.ActiveCategoryIsAttempted` | news_importer.rb:75-88 | A category whose `active` is missing, null or true, or any category when the filter is off, is attempted first, immediately followed by its news attempts. |
| `ImportProperties.SkippedCategoryChangesNothing` | news_importer.rb:75-78 | With the category filter on, a category with `active` false makes no attempt, whatever it contains, and so leaves the state unchanged. |
| `ImportProperties.CategoryFilterPrunesSubtrees` | news_importer.rb:74-91 | With the category filter on, importing a forest equals importing, without the filter, the forest with every inactive category and its subtree cut out at any depth. The pruned forest has no inactive node. |
| `ImportProperties.InactiveMaterialSkippedAlone` | news_importer.rb:87-97 | With the news filter on, an inactive news item is skipped on its own. The attempts for the list equal those for the list without that item. |
| `ImportProperties.ActiveMaterialIsAttempted` | news_importer.rb:87-102 | A news item that is not filtered out (including one with no `active` flag) is attempted with its parent category's id. |
| `ImportProperties.PreOrder` | news_importer.rb:79-90 | The attempts of a forest are, visited node after visited node in pre-order, the category row followed by that category's news. |
| `ImportProperties.PreOrderFrom` | news_importer.rb:74-91 | The attempts of one category are the node attempts of its pre-order visit. A filtered-out category has no visit. |
| `ImportProperties.VisitedAreActiveNodes` | news_importer.rb:75-78 | Every visited node is a node of the input forest and is not filtered out. |
| `ImportProperties.VisitedReachesEveryNode` | news_importer.rb:87-90 | When the category filter is off, or no category of the forest is inactive (as in a pruned forest), the walk visits every node of the forest at any depth. |
| `ImportProperties.MaterialAttemptsCarryId` | news_importer.rb:87-88 | Every attempt for a category's news inserts one of those items, with `category_id` equal to that category's id. |
| `ImportProperties.ImportedMaterialsCarryParentId` | news_importer.rb:87-103 | Every material row an import adds carries the id of the visited category it is nested directly under, even when that category's own insert failed. |
| `ImportProperties.TechScenario` | news_importer.rb:93-105 | Input: category 1 "Tech" with news 10 (active) and 11 (inactive), the news filter on, and an empty store. Result: one category, one news item, and only news 10 stored with `category_id` 1. |

## Left out

- Command-line parsing and option handling (news_importer.rb:5-12, 119) are left out. The two options are an `Options` value.
- Reading the file and parsing JSON (news_importer.rb:66-72) are I/O and a foreign library, so they are left out. The model starts from a typed tree. That tree always has `id`, `name`, `news` and `subcategories`, and its `active` is missing, null, `true` or `false`. A document where `news` or `subcategories` is missing would make the source raise from `each` outside any rescue. The model does not capture that crash.
- The SQLite connection and the `CREATE TABLE` statements (news_importer.rb:44-63) are replaced by the abstract `Database` class. SQLite details are not modelled. Such details include NULL ids or names never colliding under UNIQUE, and type affinity.
- The fatal paths that end the process with `Process.exit!` (news_importer.rb:20-23, 36-39) are process termination, so they are left out.
- The text of the status messages (news_importer.rb:82, 84, 105, 107, 113) is left out. Each message is one `Event`, which carries the category name or news title. The failure cause is not recorded.
- Insert failures other than UNIQUE violations, which the source's `rescue Exception` would also swallow (news_importer.rb:83, 106), are left out. An insert fails only on a uniqueness clash.
- The `false` and `nil` return values of the import methods (news_importer.rb:77, 96, 108) are never used, so they are left out.
- `Importer.NewsImporter.Import` models one `import` call on an already-open store. The source re-opens the store in `additional_initialize` on every call (news_importer.rb:15, 35). Only the counter reset of that routine is inside `Import`.
