/**
 * The importer object: it holds the open store, the two options and the success
 * counters, and walks the category tree, updating them in place.
 */
module Importer {
  import opened Feed
  import opened Store
  import opened ImportSpec
  import opened ImportProperties

  class NewsImporter {
    const options: Options
    const db: Database
    var countCategorySuccess: nat
    var countNewsSuccess: nat
    /** The status lines printed so far. */
    var log: seq<Event>

    /** The importer's state as ImportSpec sees it. */
    function State(): ImportState
      reads this, db
    {
      ImportState(db.categories, db.materials, countCategorySuccess, countNewsSuccess, log)
    }

    /** Opens the store, which may already hold the rows of an earlier run. */
    constructor (options: Options, categories: seq<CategoryRow>, materials: seq<MaterialRow>)
      requires CategoriesUnique(categories) && MaterialsUnique(materials)
      ensures this.options == options && fresh(db) && db.Valid()
      ensures State() == ImportState(categories, materials, 0, 0, [])
    {
      this.options := options;
      db := new Database.Open(categories, materials);
      countCategorySuccess, countNewsSuccess := 0, 0;
      log := [];
    }

    /**
     * Imports every root category in order, with both counters starting from zero,
     * and returns the two totals of the final report.
     */
    method Import(forest: seq<Category>) returns (categoriesImported: nat, newsImported: nat)
      requires db.Valid()
      modifies this, db
      ensures db.Valid()
      ensures State() == Run(old(State()).(categoryCount := 0, newsCount := 0), ForestAttempts(forest, options))
      ensures old(db.categories) <= db.categories && old(db.materials) <= db.materials
      ensures categoriesImported == countCategorySuccess == |db.categories| - |old(db.categories)|
      ensures newsImported == countNewsSuccess == |db.materials| - |old(db.materials)|
      ensures CategoriesCreated(log) == CategoriesCreated(old(log)) + categoriesImported
      ensures NewsItemsImported(log) == NewsItemsImported(old(log)) + newsImported
    {
      countCategorySuccess, countNewsSuccess := 0, 0;
      ghost var start := State();
      var i := 0;
      while i < |forest|
        invariant 0 <= i <= |forest|
        invariant db.Valid()
        invariant State() == Run(start, ForestAttempts(forest[..i], options))
      {
        ImportOneCategory(forest[i]);
        ForestAttemptsStep(forest, i, options);
        RunAppend(start, ForestAttempts(forest[..i], options), CategoryAttempts(forest[i], options));
        i := i + 1;
      }
      assert forest[..i] == forest;
      CountersMatchRows(start, ForestAttempts(forest, options));
      categoriesImported, newsImported := countCategorySuccess, countNewsSuccess;
    }

    /**
     * Imports one category: nothing at all when the category filter drops it; otherwise
     * the category row (a failure is reported and the walk goes on), then its news with
     * its own id as parent id, then each subcategory.
     */
    method ImportOneCategory(c: Category)
      requires db.Valid()
      modifies this, db
      ensures db.Valid()
      ensures State() == Run(old(State()), CategoryAttempts(c, options))
      decreases c
    {
      if CategorySkipped(c, options) {
        return;
      }
      var row := CategoryRowOf(c);
      var ok := db.InsertCategory(row);
      if ok {
        countCategorySuccess := countCategorySuccess + 1;
        log := log + [CategoryCreated(c.name)];
      } else {
        log := log + [CategoryExists(c.name)];
      }
      ghost var head := [InsertCategory(row)];
      assert State() == Run(old(State()), head) by {
        assert head[1..] == [];
      }

      ghost var afterCategory := State();
      var i := 0;
      while i < |c.news|
        invariant 0 <= i <= |c.news|
        invariant db.Valid()
        invariant State() == Run(afterCategory, MaterialAttempts(c.news[..i], c.id, options))
      {
        ImportOneMaterial(c.news[i], c.id);
        MaterialAttemptsStep(c.news, i, c.id, options);
        RunAppend(afterCategory, MaterialAttempts(c.news[..i], c.id, options), MaterialAttempt(c.news[i], c.id, options));
        i := i + 1;
      }
      assert c.news[..i] == c.news;

      ghost var afterNews := State();
      var j := 0;
      while j < |c.subcategories|
        invariant 0 <= j <= |c.subcategories|
        invariant db.Valid()
        invariant State() == Run(afterNews, ForestAttempts(c.subcategories[..j], options))
      {
        ImportOneCategory(c.subcategories[j]);
        ForestAttemptsStep(c.subcategories, j, options);
        RunAppend(afterNews, ForestAttempts(c.subcategories[..j], options), CategoryAttempts(c.subcategories[j], options));
        j := j + 1;
      }
      assert c.subcategories[..j] == c.subcategories;

      ghost var news := MaterialAttempts(c.news, c.id, options);
      ghost var subs := ForestAttempts(c.subcategories, options);
      RunAppend(old(State()), head, news);
      RunAppend(old(State()), head + news, subs);
    }

    /**
     * Imports one news item under the category `categoryId`: nothing when the news
     * filter drops it; otherwise one insert, counted only when it succeeds.
     */
    method ImportOneMaterial(m: Material, categoryId: int)
      requires db.Valid()
      modifies this, db
      ensures db.Valid()
      ensures State() == Run(old(State()), MaterialAttempt(m, categoryId, options))
    {
      if MaterialSkipped(m, options) {
        return;
      }
      var row := MaterialRowOf(m, categoryId);
      var ok := db.InsertMaterial(row);
      if ok {
        countNewsSuccess := countNewsSuccess + 1;
        log := log + [NewsImported(m.title)];
      } else {
        log := log + [NewsNotImported(m.title)];
      }
      assert [InsertMaterial(row)][1..] == [];
    }
  }

  /** One more root category extends the attempts of the roots before it. */
  lemma ForestAttemptsStep(cs: seq<Category>, i: nat, opts: Options)
    requires i < |cs|
    ensures ForestAttempts(cs[..i + 1], opts) == ForestAttempts(cs[..i], opts) + CategoryAttempts(cs[i], opts)
  {
    assert cs[..i + 1] == cs[..i] + [cs[i]];
    ForestAttemptsAppend(cs[..i], [cs[i]], opts);
    assert [cs[i]][1..] == [];
  }

  /** One more news item extends the attempts of the items before it. */
  lemma MaterialAttemptsStep(news: seq<Material>, i: nat, categoryId: int, opts: Options)
    requires i < |news|
    ensures MaterialAttempts(news[..i + 1], categoryId, opts)
         == MaterialAttempts(news[..i], categoryId, opts) + MaterialAttempt(news[i], categoryId, opts)
  {
    assert news[..i + 1] == news[..i] + [news[i]];
    MaterialAttemptsAppend(news[..i], [news[i]], categoryId, opts);
    assert [news[i]][1..] == [];
  }
}
