/**
 * The input document, already parsed and typed: a forest of categories, each
 * holding its own news items and its subcategories.
 */
module Feed {
  import opened Wrappers

  /** A news item. `active` is None when the field is missing or null. */
  datatype Material = Material(
    id: int,
    title: Option<string>,
    image: Option<string>,
    description: Option<string>,
    text: Option<string>,
    date: Option<string>,
    active: Option<bool>)

  /** A category node; `news` and `subcategories` keep the document's order. */
  datatype Category = Category(
    id: int,
    name: string,
    active: Option<bool>,
    news: seq<Material>,
    subcategories: seq<Category>)

  /** The two command-line switches `--only-active-cats` and `--only-active-news`. */
  datatype Options = Options(onlyActiveCats: bool, onlyActiveNews: bool)

  /** Only an explicit `false` marks a node inactive; a missing or null flag does not. */
  predicate IsInactive(active: Option<bool>) {
    active == Some(false)
  }

  /** The category, and everything below it, is left out of the import. */
  predicate CategorySkipped(c: Category, opts: Options) {
    opts.onlyActiveCats && IsInactive(c.active)
  }

  /** This one news item is left out of the import. */
  predicate MaterialSkipped(m: Material, opts: Options) {
    opts.onlyActiveNews && IsInactive(m.active)
  }
}
