/**
 * What one run of the importer does, stated without the store: the pre-order
 * sequence of INSERT attempts that the walk makes, and the effect of each attempt
 * on the tables, the two success counters and the status output.
 */
module ImportSpec {
  import opened Wrappers
  import opened Feed
  import opened Store

  /** One INSERT the importer tries. */
  datatype Attempt =
    | InsertCategory(categoryRow: CategoryRow)
    | InsertMaterial(materialRow: MaterialRow)

  /** One status line printed for an attempt. */
  datatype Event =
    | CategoryCreated(name: string)
    | CategoryExists(name: string)
    | NewsImported(title: Option<string>)
    | NewsNotImported(title: Option<string>)

  /** The tables, the counters `@count_category_success` / `@count_news_success`, and the output so far. */
  datatype ImportState = ImportState(
    categories: seq<CategoryRow>,
    materials: seq<MaterialRow>,
    categoryCount: nat,
    newsCount: nat,
    log: seq<Event>)

  function CategoryRowOf(c: Category): CategoryRow {
    CategoryRow(c.id, c.name)
  }

  /** The material row, tagged with the id of the category the item is nested under. */
  function MaterialRowOf(m: Material, categoryId: int): MaterialRow {
    MaterialRow(m.id, categoryId, m.title, m.image, m.description, m.text, m.date)
  }

  /** The attempts made for one news item of the category `categoryId`. */
  function MaterialAttempt(m: Material, categoryId: int, opts: Options): seq<Attempt> {
    if MaterialSkipped(m, opts) then [] else [InsertMaterial(MaterialRowOf(m, categoryId))]
  }

  /** The attempts made for the news items of one category, in order. */
  function MaterialAttempts(news: seq<Material>, categoryId: int, opts: Options): seq<Attempt> {
    if news == [] then []
    else MaterialAttempt(news[0], categoryId, opts) + MaterialAttempts(news[1..], categoryId, opts)
  }

  /**
   * The attempts made for a category: nothing when it is filtered out; otherwise the
   * category itself, then its news, then each subcategory in turn.
   */
  function CategoryAttempts(c: Category, opts: Options): seq<Attempt>
    decreases c
  {
    if CategorySkipped(c, opts) then []
    else [InsertCategory(CategoryRowOf(c))]
         + MaterialAttempts(c.news, c.id, opts)
         + ForestAttempts(c.subcategories, opts)
  }

  /** The attempts made for a sequence of sibling categories, in order. */
  function ForestAttempts(cs: seq<Category>, opts: Options): seq<Attempt>
    decreases cs
  {
    if cs == [] then []
    else CategoryAttempts(cs[0], opts) + ForestAttempts(cs[1..], opts)
  }

  /**
   * One attempt against the store: a row that breaks no UNIQUE rule is appended and
   * its counter goes up; a failing row is reported and changes nothing else.
   */
  function Step(s: ImportState, a: Attempt): ImportState {
    match a
    case InsertCategory(row) =>
      if CategoryInsertable(s.categories, row) then
        s.(categories := s.categories + [row], categoryCount := s.categoryCount + 1,
           log := s.log + [CategoryCreated(row.name)])
      else
        s.(log := s.log + [CategoryExists(row.name)])
    case InsertMaterial(row) =>
      if MaterialInsertable(s.materials, row) then
        s.(materials := s.materials + [row], newsCount := s.newsCount + 1,
           log := s.log + [NewsImported(row.title)])
      else
        s.(log := s.log + [NewsNotImported(row.title)])
  }

  /** The attempts carried out one after the other; no failure stops the run. */
  function Run(s: ImportState, attempts: seq<Attempt>): ImportState
    decreases |attempts|
  {
    if attempts == [] then s else Run(Step(s, attempts[0]), attempts[1..])
  }

  /** The attempt can only fail: its row clashes with a row already in the table. */
  predicate Blocked(s: ImportState, a: Attempt) {
    match a
    case InsertCategory(row) => !CategoryInsertable(s.categories, row)
    case InsertMaterial(row) => !MaterialInsertable(s.materials, row)
  }

  /** The two attempts would break a UNIQUE rule if both rows were stored. */
  predicate Clashes(a: Attempt, b: Attempt) {
    match (a, b)
    case (InsertCategory(x), InsertCategory(y)) => x.id == y.id || x.name == y.name
    case (InsertMaterial(x), InsertMaterial(y)) => x.id == y.id
    case _ => false
  }

  /** No two attempts of the sequence clash with each other. */
  predicate PairwiseDistinct(attempts: seq<Attempt>) {
    forall i, j :: 0 <= i < j < |attempts| ==> !Clashes(attempts[i], attempts[j])
  }

  /** The category rows of the attempts, in order. */
  function CategoryRows(attempts: seq<Attempt>): seq<CategoryRow> {
    if attempts == [] then []
    else (if attempts[0].InsertCategory? then [attempts[0].categoryRow] else []) + CategoryRows(attempts[1..])
  }

  /** The material rows of the attempts, in order. */
  function MaterialRows(attempts: seq<Attempt>): seq<MaterialRow> {
    if attempts == [] then []
    else (if attempts[0].InsertMaterial? then [attempts[0].materialRow] else []) + MaterialRows(attempts[1..])
  }

  /** Number of "category created" lines in the output. */
  function CategoriesCreated(log: seq<Event>): nat {
    if log == [] then 0
    else CategoriesCreated(log[..|log| - 1]) + (if log[|log| - 1].CategoryCreated? then 1 else 0)
  }

  /** Number of "news imported" lines in the output. */
  function NewsItemsImported(log: seq<Event>): nat {
    if log == [] then 0
    else NewsItemsImported(log[..|log| - 1]) + (if log[|log| - 1].NewsImported? then 1 else 0)
  }

  /**
   * The category nodes the walk visits, in pre-order: a filtered-out category is
   * dropped together with everything below it.
   */
  function Visited(cs: seq<Category>, opts: Options): seq<Category>
    decreases cs
  {
    if cs == [] then [] else VisitedFrom(cs[0], opts) + Visited(cs[1..], opts)
  }

  function VisitedFrom(c: Category, opts: Options): seq<Category>
    decreases c
  {
    if CategorySkipped(c, opts) then [] else [c] + Visited(c.subcategories, opts)
  }

  /** The attempts made at one visited node: the category row, then its news. */
  function NodeAttempts(c: Category, opts: Options): seq<Attempt> {
    [InsertCategory(CategoryRowOf(c))] + MaterialAttempts(c.news, c.id, opts)
  }

  /** The node attempts of a sequence of visited nodes, one node after the other. */
  function ConcatNodeAttempts(nodes: seq<Category>, opts: Options): seq<Attempt> {
    if nodes == [] then [] else NodeAttempts(nodes[0], opts) + ConcatNodeAttempts(nodes[1..], opts)
  }

  /** `c` is a node of the forest `cs`, at any depth. */
  ghost predicate Occurs(c: Category, cs: seq<Category>)
    decreases cs
  {
    exists i :: 0 <= i < |cs| && (cs[i] == c || Occurs(c, cs[i].subcategories))
  }

  /** The forest with every explicitly inactive category removed together with its subtree. */
  function PruneInactive(cs: seq<Category>): seq<Category>
    decreases cs
  {
    if cs == [] then []
    else
      (if IsInactive(cs[0].active) then []
       else [cs[0].(subcategories := PruneInactive(cs[0].subcategories))])
      + PruneInactive(cs[1..])
  }

  /** No category of the forest, at any depth, is explicitly inactive. */
  ghost predicate NoInactive(cs: seq<Category>)
    decreases cs
  {
    forall i :: 0 <= i < |cs| ==> !IsInactive(cs[i].active) && NoInactive(cs[i].subcategories)
  }
}
