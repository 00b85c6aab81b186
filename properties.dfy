/** Properties of the import run stated in ImportSpec. */
module ImportProperties {
  import opened Wrappers
  import opened Feed
  import opened Store
  import opened ImportSpec

  // ---------------------------------------------------------------------------
  // Composition of runs and of attempt sequences

  /** Running two attempt sequences one after the other is running their concatenation. */
  lemma {:induction false} RunAppend(s: ImportState, a: seq<Attempt>, b: seq<Attempt>)
    ensures Run(s, a + b) == Run(Run(s, a), b)
    decreases |a|
  {
    if a == [] {
      assert a + b == b;
    } else {
      assert (a + b)[0] == a[0];
      assert (a + b)[1..] == a[1..] + b;
      RunAppend(Step(s, a[0]), a[1..], b);
    }
  }

  lemma {:induction false} MaterialAttemptsAppend(xs: seq<Material>, ys: seq<Material>, categoryId: int, opts: Options)
    ensures MaterialAttempts(xs + ys, categoryId, opts)
         == MaterialAttempts(xs, categoryId, opts) + MaterialAttempts(ys, categoryId, opts)
    decreases |xs|
  {
    if xs == [] {
      assert xs + ys == ys;
    } else {
      assert (xs + ys)[0] == xs[0];
      assert (xs + ys)[1..] == xs[1..] + ys;
      MaterialAttemptsAppend(xs[1..], ys, categoryId, opts);
    }
  }

  lemma {:induction false} ForestAttemptsAppend(xs: seq<Category>, ys: seq<Category>, opts: Options)
    ensures ForestAttempts(xs + ys, opts) == ForestAttempts(xs, opts) + ForestAttempts(ys, opts)
    decreases |xs|
  {
    if xs == [] {
      assert xs + ys == ys;
    } else {
      assert (xs + ys)[0] == xs[0];
      assert (xs + ys)[1..] == xs[1..] + ys;
      ForestAttemptsAppend(xs[1..], ys, opts);
    }
  }

  lemma {:induction false} ConcatNodeAttemptsAppend(xs: seq<Category>, ys: seq<Category>, opts: Options)
    ensures ConcatNodeAttempts(xs + ys, opts) == ConcatNodeAttempts(xs, opts) + ConcatNodeAttempts(ys, opts)
    decreases |xs|
  {
    if xs == [] {
      assert xs + ys == ys;
    } else {
      assert (xs + ys)[0] == xs[0];
      assert (xs + ys)[1..] == xs[1..] + ys;
      ConcatNodeAttemptsAppend(xs[1..], ys, opts);
    }
  }

  // ---------------------------------------------------------------------------
  // One INSERT

  /**
   * A category insert succeeds exactly when neither its id nor its name is taken;
   * the counter goes up by one exactly then, and a failure only adds a status line.
   */
  lemma CategoryInsertOutcome(s: ImportState, row: CategoryRow)
    ensures var r := Step(s, InsertCategory(row));
      && (r.categoryCount == s.categoryCount + 1 <==> CategoryInsertable(s.categories, row))
      && (CategoryInsertable(s.categories, row) ==> r.categories == s.categories + [row])
      && (!CategoryInsertable(s.categories, row) ==> r == s.(log := s.log + [CategoryExists(row.name)]))
      && r.materials == s.materials && r.newsCount == s.newsCount
  {
  }

  /**
   * A material insert succeeds exactly when its id is not taken; the counter goes up
   * by one exactly then, and a failure only adds a status line.
   */
  lemma MaterialInsertOutcome(s: ImportState, row: MaterialRow)
    ensures var r := Step(s, InsertMaterial(row));
      && (r.newsCount == s.newsCount + 1 <==> MaterialInsertable(s.materials, row))
      && (MaterialInsertable(s.materials, row) ==> r.materials == s.materials + [row])
      && (!MaterialInsertable(s.materials, row) ==> r == s.(log := s.log + [NewsNotImported(row.title)]))
      && r.categories == s.categories && r.categoryCount == s.categoryCount
  {
  }

  // ---------------------------------------------------------------------------
  // Counters, rows and status lines

  /**
   * The tables only grow, and over any run each counter goes up by exactly the number
   * of rows added to its table and the number of success lines printed for it.
   */
  lemma {:induction false} CountersMatchRows(s: ImportState, attempts: seq<Attempt>)
    ensures var r := Run(s, attempts);
      && s.categories <= r.categories && s.materials <= r.materials
      && r.categoryCount == s.categoryCount + (|r.categories| - |s.categories|)
      && r.newsCount == s.newsCount + (|r.materials| - |s.materials|)
      && s.log <= r.log && |r.log| == |s.log| + |attempts|
      && CategoriesCreated(r.log) == CategoriesCreated(s.log) + (r.categoryCount - s.categoryCount)
      && NewsItemsImported(r.log) == NewsItemsImported(s.log) + (r.newsCount - s.newsCount)
    decreases |attempts|
  {
    if attempts != [] {
      var t := Step(s, attempts[0]);
      assert t.log[..|t.log| - 1] == s.log;
      CountersMatchRows(t, attempts[1..]);
    }
  }

  /** Every row a run adds to a table is the row of one of its attempts. */
  lemma {:induction false} AddedRowsWereAttempted(s: ImportState, attempts: seq<Attempt>)
    ensures var r := Run(s, attempts);
      && (forall k :: |s.categories| <= k < |r.categories| ==> InsertCategory(r.categories[k]) in attempts)
      && (forall k :: |s.materials| <= k < |r.materials| ==> InsertMaterial(r.materials[k]) in attempts)
    decreases |attempts|
  {
    if attempts != [] {
      var t := Step(s, attempts[0]);
      var r := Run(s, attempts);
      AddedRowsWereAttempted(t, attempts[1..]);
      CountersMatchRows(t, attempts[1..]);
      forall k | |s.categories| <= k < |r.categories|
        ensures InsertCategory(r.categories[k]) in attempts
      {
        if k < |t.categories| {
          assert r.categories[k] == t.categories[k] == attempts[0].categoryRow;
          assert attempts[0] == InsertCategory(r.categories[k]);
        } else {
          assert InsertCategory(r.categories[k]) in attempts[1..];
        }
      }
      forall k | |s.materials| <= k < |r.materials|
        ensures InsertMaterial(r.materials[k]) in attempts
      {
        if k < |t.materials| {
          assert r.materials[k] == t.materials[k] == attempts[0].materialRow;
          assert attempts[0] == InsertMaterial(r.materials[k]);
        } else {
          assert InsertMaterial(r.materials[k]) in attempts[1..];
        }
      }
    }
  }

  /** No run breaks the UNIQUE rules of either table. */
  lemma {:induction false} RunKeepsTablesUnique(s: ImportState, attempts: seq<Attempt>)
    requires CategoriesUnique(s.categories) && MaterialsUnique(s.materials)
    ensures CategoriesUnique(Run(s, attempts).categories) && MaterialsUnique(Run(s, attempts).materials)
    decreases |attempts|
  {
    if attempts != [] {
      RunKeepsTablesUnique(Step(s, attempts[0]), attempts[1..]);
    }
  }

  /**
   * When no attempt clashes with the store or with another attempt, every attempt
   * succeeds: each table ends with exactly the attempted rows appended, in order.
   */
  lemma {:induction false} CleanRunStoresEveryRow(s: ImportState, attempts: seq<Attempt>)
    requires forall a :: a in attempts ==> !Blocked(s, a)
    requires PairwiseDistinct(attempts)
    ensures Run(s, attempts).categories == s.categories + CategoryRows(attempts)
    ensures Run(s, attempts).materials == s.materials + MaterialRows(attempts)
    decreases |attempts|
  {
    if attempts != [] {
      var a0, rest := attempts[0], attempts[1..];
      assert a0 in attempts;
      var t := Step(s, a0);
      forall j | 0 <= j < |rest| ensures !Blocked(t, rest[j]) {
        assert rest[j] == attempts[j + 1] && rest[j] in attempts;
        StepKeepsOthersUnblocked(s, a0, rest[j]);
      }
      forall i, j | 0 <= i < j < |rest| ensures !Clashes(rest[i], rest[j]) {
        assert rest[i] == attempts[i + 1] && rest[j] == attempts[j + 1];
      }
      CleanRunStoresEveryRow(t, rest);
      assert CategoryRows(attempts) == (if a0.InsertCategory? then [a0.categoryRow] else []) + CategoryRows(rest);
      assert MaterialRows(attempts) == (if a0.InsertMaterial? then [a0.materialRow] else []) + MaterialRows(rest);
    }
  }

  /** Storing one attempt's row does not block another attempt it does not clash with. */
  lemma StepKeepsOthersUnblocked(s: ImportState, a0: Attempt, a: Attempt)
    requires !Blocked(s, a0) && !Blocked(s, a) && !Clashes(a0, a)
    ensures !Blocked(Step(s, a0), a)
  {
  }

  /**
   * Importing a forest whose rows are all distinct into an empty store inserts every
   * attempted row exactly once, in pre-order, and counts each of them.
   */
  lemma FreshImportStoresEveryRow(cs: seq<Category>, opts: Options)
    requires PairwiseDistinct(ForestAttempts(cs, opts))
    ensures var attempts := ForestAttempts(cs, opts);
      var r := Run(ImportState([], [], 0, 0, []), attempts);
      && r.categories == CategoryRows(attempts) && r.categoryCount == |CategoryRows(attempts)|
      && r.materials == MaterialRows(attempts) && r.newsCount == |MaterialRows(attempts)|
  {
    var s := ImportState([], [], 0, 0, []);
    var attempts := ForestAttempts(cs, opts);
    CleanRunStoresEveryRow(s, attempts);
    CountersMatchRows(s, attempts);
  }

  // ---------------------------------------------------------------------------
  // Re-importing

  /** An attempt whose row clashes with the tables still clashes after any further run. */
  lemma BlockedStaysBlocked(s: ImportState, a: Attempt, attempts: seq<Attempt>)
    requires Blocked(s, a)
    ensures Blocked(Run(s, attempts), a)
  {
    var r := Run(s, attempts);
    CountersMatchRows(s, attempts);
    match a
    case InsertCategory(row) =>
      var i :| 0 <= i < |s.categories| && !(s.categories[i].id != row.id && s.categories[i].name != row.name);
      assert r.categories[i] == s.categories[i];
    case InsertMaterial(row) =>
      var i :| 0 <= i < |s.materials| && s.materials[i].id == row.id;
      assert r.materials[i] == s.materials[i];
  }

  /** After a run, every one of its attempts would fail if tried again. */
  lemma {:induction false} AllBlockedAfterRun(s: ImportState, attempts: seq<Attempt>)
    ensures forall a :: a in attempts ==> Blocked(Run(s, attempts), a)
    decreases |attempts|
  {
    if attempts != [] {
      var t := Step(s, attempts[0]);
      AllBlockedAfterRun(t, attempts[1..]);
      match attempts[0] {
        case InsertCategory(row) =>
          if CategoryInsertable(s.categories, row) {
            assert t.categories[|s.categories|] == row;
          }
        case InsertMaterial(row) =>
          if MaterialInsertable(s.materials, row) {
            assert t.materials[|s.materials|] == row;
          }
      }
      BlockedStaysBlocked(t, attempts[0], attempts[1..]);
      forall a | a in attempts ensures Blocked(Run(s, attempts), a) {
        if a != attempts[0] {
          assert a in attempts[1..];
        }
      }
    }
  }

  /** Attempts that all clash with the tables add no row and leave the counters alone. */
  lemma {:induction false} BlockedRunChangesNoRow(s: ImportState, attempts: seq<Attempt>)
    requires forall a :: a in attempts ==> Blocked(s, a)
    ensures var r := Run(s, attempts);
      r.categories == s.categories && r.materials == s.materials
      && r.categoryCount == s.categoryCount && r.newsCount == s.newsCount
    decreases |attempts|
  {
    if attempts != [] {
      assert attempts[0] in attempts;
      var t := Step(s, attempts[0]);
      assert t == s.(log := t.log);
      forall a | a in attempts[1..] ensures Blocked(t, a) {
        assert a in attempts;
      }
      BlockedRunChangesNoRow(t, attempts[1..]);
    }
  }

  /**
   * Importing the same document a second time adds no row and counts no success:
   * every row of the first run now clashes with itself, and every row that failed
   * then still clashes with the row that made it fail.
   */
  lemma ReimportAddsNothing(s: ImportState, cs: seq<Category>, opts: Options)
    ensures var first := Run(s, ForestAttempts(cs, opts));
      var second := Run(first, ForestAttempts(cs, opts));
      && second.categories == first.categories && second.materials == first.materials
      && second.categoryCount == first.categoryCount && second.newsCount == first.newsCount
  {
    var attempts := ForestAttempts(cs, opts);
    AllBlockedAfterRun(s, attempts);
    BlockedRunChangesNoRow(Run(s, attempts), attempts);
  }

  // ---------------------------------------------------------------------------
  // Filters

  /** Only an explicit `false` filters a category out; a missing or null flag is imported. */
  lemma ActiveCategoryIsAttempted(c: Category, opts: Options)
    requires !CategorySkipped(c, opts)
    ensures var attempts := CategoryAttempts(c, opts);
      && |attempts| >= 1 + |MaterialAttempts(c.news, c.id, opts)|
      && attempts[0] == InsertCategory(CategoryRowOf(c))
      && attempts[1..1 + |MaterialAttempts(c.news, c.id, opts)|] == MaterialAttempts(c.news, c.id, opts)
  {
  }


  /** A filtered-out category yields no attempt, whatever lies below it, and so changes nothing. */
  lemma SkippedCategoryChangesNothing(s: ImportState, c: Category, opts: Options)
    requires CategorySkipped(c, opts)
    ensures CategoryAttempts(c, opts) == [] && Run(s, CategoryAttempts(c, opts)) == s
  {
  }

  /**
   * With the category filter on, importing a forest is the same as importing, without
   * the filter, the forest from which every inactive category has been cut together
   * with its whole subtree, at any depth.
   */
  lemma {:induction false} CategoryFilterPrunesSubtrees(cs: seq<Category>, opts: Options)
    requires opts.onlyActiveCats
    ensures NoInactive(PruneInactive(cs))
    ensures ForestAttempts(cs, opts) == ForestAttempts(PruneInactive(cs), opts.(onlyActiveCats := false))
    decreases cs
  {
    var plain := opts.(onlyActiveCats := false);
    if cs != [] {
      var c := cs[0];
      var head := if IsInactive(c.active) then [] else [c.(subcategories := PruneInactive(c.subcategories))];
      assert PruneInactive(cs) == head + PruneInactive(cs[1..]);
      CategoryFilterPrunesSubtrees(cs[1..], opts);
      ForestAttemptsAppend(head, PruneInactive(cs[1..]), plain);
      if !IsInactive(c.active) {
        CategoryFilterPrunesSubtrees(c.subcategories, opts);
        var c' := head[0];
        assert ForestAttempts(head, plain) == CategoryAttempts(c', plain) + ForestAttempts([], plain);
        MaterialAttemptsSameFilter(c.news, c.id, opts, plain);
        assert CategoryAttempts(c', plain) == CategoryAttempts(c, opts);
        NoInactiveAppend(head, PruneInactive(cs[1..]));
      } else {
        assert head + PruneInactive(cs[1..]) == PruneInactive(cs[1..]);
      }
    }
  }

  /** The category filter plays no part in the attempts made for news items. */
  lemma {:induction false} MaterialAttemptsSameFilter(news: seq<Material>, categoryId: int, opts: Options, opts': Options)
    requires opts.onlyActiveNews == opts'.onlyActiveNews
    ensures MaterialAttempts(news, categoryId, opts) == MaterialAttempts(news, categoryId, opts')
    decreases |news|
  {
    if news != [] {
      MaterialAttemptsSameFilter(news[1..], categoryId, opts, opts');
    }
  }

  lemma NoInactiveAppend(xs: seq<Category>, ys: seq<Category>)
    requires NoInactive(xs) && NoInactive(ys)
    ensures NoInactive(xs + ys)
  {
  }


  /**
   * With the news filter on, an inactive news item is skipped on its own: the attempts
   * for its siblings are exactly those made when it is left out of the list.
   */
  lemma InactiveMaterialSkippedAlone(news: seq<Material>, i: nat, categoryId: int, opts: Options)
    requires i < |news| && MaterialSkipped(news[i], opts)
    ensures MaterialAttempts(news, categoryId, opts) == MaterialAttempts(news[..i] + news[i + 1..], categoryId, opts)
  {
    assert news == news[..i] + ([news[i]] + news[i + 1..]);
    MaterialAttemptsAppend(news[..i], [news[i]] + news[i + 1..], categoryId, opts);
    MaterialAttemptsAppend(news[..i], news[i + 1..], categoryId, opts);
    assert MaterialAttempts([news[i]] + news[i + 1..], categoryId, opts) == MaterialAttempts(news[i + 1..], categoryId, opts) by {
      assert ([news[i]] + news[i + 1..])[1..] == news[i + 1..];
    }
  }

  /** A news item that is not filtered out, including one with no `active` flag, is attempted with its parent's id. */
  lemma {:induction false} ActiveMaterialIsAttempted(news: seq<Material>, i: nat, categoryId: int, opts: Options)
    requires i < |news| && !MaterialSkipped(news[i], opts)
    ensures InsertMaterial(MaterialRowOf(news[i], categoryId)) in MaterialAttempts(news, categoryId, opts)
    decreases i
  {
    if i > 0 {
      ActiveMaterialIsAttempted(news[1..], i - 1, categoryId, opts);
    }
  }

  // ---------------------------------------------------------------------------
  // Pre-order and parent ids

  /**
   * The walk is a pre-order traversal: its attempts are, node after visited node,
   * the category row followed by that category's news.
   */
  lemma {:induction false} PreOrder(cs: seq<Category>, opts: Options)
    ensures ForestAttempts(cs, opts) == ConcatNodeAttempts(Visited(cs, opts), opts)
    decreases cs
  {
    if cs != [] {
      PreOrderFrom(cs[0], opts);
      PreOrder(cs[1..], opts);
      ConcatNodeAttemptsAppend(VisitedFrom(cs[0], opts), Visited(cs[1..], opts), opts);
    }
  }

  lemma {:induction false} PreOrderFrom(c: Category, opts: Options)
    ensures CategoryAttempts(c, opts) == ConcatNodeAttempts(VisitedFrom(c, opts), opts)
    decreases c
  {
    if !CategorySkipped(c, opts) {
      PreOrder(c.subcategories, opts);
      ConcatNodeAttemptsAppend([c], Visited(c.subcategories, opts), opts);
      assert ConcatNodeAttempts([c], opts) == NodeAttempts(c, opts) + ConcatNodeAttempts([], opts);
    }
  }

  /** Every visited node is a node of the input forest and is not filtered out. */
  lemma {:induction false} VisitedAreActiveNodes(cs: seq<Category>, opts: Options)
    ensures forall d :: d in Visited(cs, opts) ==> Occurs(d, cs) && !CategorySkipped(d, opts)
    decreases cs
  {
    if cs != [] {
      VisitedAreActiveNodes(cs[0].subcategories, opts);
      VisitedAreActiveNodes(cs[1..], opts);
      forall d | d in Visited(cs, opts) ensures Occurs(d, cs) && !CategorySkipped(d, opts) {
        if d in VisitedFrom(cs[0], opts) {
          if d != cs[0] {
            assert d in Visited(cs[0].subcategories, opts);
            assert Occurs(d, cs[0].subcategories);
          }
        } else {
          assert d in Visited(cs[1..], opts);
          var i :| 0 <= i < |cs[1..]| && (cs[1..][i] == d || Occurs(d, cs[1..][i].subcategories));
          assert cs[i + 1] == cs[1..][i];
        }
      }
    }
  }

  lemma {:induction false} VisitedAppend(xs: seq<Category>, ys: seq<Category>, opts: Options)
    ensures Visited(xs + ys, opts) == Visited(xs, opts) + Visited(ys, opts)
    decreases |xs|
  {
    if xs == [] {
      assert xs + ys == ys;
    } else {
      assert (xs + ys)[0] == xs[0];
      assert (xs + ys)[1..] == xs[1..] + ys;
      VisitedAppend(xs[1..], ys, opts);
    }
  }

  /**
   * The walk reaches every node of the forest, at any depth, when no category of it
   * is filtered out: the filter is off, or no category is explicitly inactive (as in
   * a forest pruned by PruneInactive).
   */
  lemma {:induction false} VisitedReachesEveryNode(cs: seq<Category>, d: Category, opts: Options)
    requires Occurs(d, cs)
    requires !opts.onlyActiveCats || NoInactive(cs)
    ensures d in Visited(cs, opts)
    decreases cs
  {
    var i :| 0 <= i < |cs| && (cs[i] == d || Occurs(d, cs[i].subcategories));
    var c := cs[i];
    assert cs == cs[..i] + ([c] + cs[i + 1..]);
    VisitedAppend(cs[..i], [c] + cs[i + 1..], opts);
    VisitedAppend([c], cs[i + 1..], opts);
    assert Visited([c], opts) == VisitedFrom(c, opts) + Visited([], opts);
    assert !CategorySkipped(c, opts);
    if c != d {
      VisitedReachesEveryNode(c.subcategories, d, opts);
    }
  }

  /** Every material attempt at one node carries that node's id as `category_id`. */
  lemma {:induction false} MaterialAttemptsCarryId(news: seq<Material>, categoryId: int, opts: Options)
    ensures forall a :: a in MaterialAttempts(news, categoryId, opts) ==>
      a.InsertMaterial? && a.materialRow.categoryId == categoryId
      && exists m :: m in news && a.materialRow == MaterialRowOf(m, categoryId)
    decreases |news|
  {
    if news != [] {
      MaterialAttemptsCarryId(news[1..], categoryId, opts);
      forall a | a in MaterialAttempts(news, categoryId, opts)
        ensures a.InsertMaterial? && a.materialRow.categoryId == categoryId
             && exists m :: m in news && a.materialRow == MaterialRowOf(m, categoryId)
      {
        if a in MaterialAttempt(news[0], categoryId, opts) {
          assert news[0] in news;
        } else {
          assert a in MaterialAttempts(news[1..], categoryId, opts);
          var m :| m in news[1..] && a.materialRow == MaterialRowOf(m, categoryId);
          assert m in news;
        }
      }
    }
  }

  /**
   * Every material row the import of a forest adds carries, as `category_id`, the id of
   * the visited category under which that news item is nested directly, whether or not
   * that category's own row could be inserted.
   */
  lemma ImportedMaterialsCarryParentId(s: ImportState, cs: seq<Category>, opts: Options)
    ensures var r := Run(s, ForestAttempts(cs, opts));
      forall k :: |s.materials| <= k < |r.materials| ==>
        exists d, m :: d in Visited(cs, opts) && m in d.news && r.materials[k] == MaterialRowOf(m, d.id)
  {
    var attempts := ForestAttempts(cs, opts);
    var r := Run(s, attempts);
    AddedRowsWereAttempted(s, attempts);
    PreOrder(cs, opts);
    forall k | |s.materials| <= k < |r.materials|
      ensures exists d, m :: d in Visited(cs, opts) && m in d.news && r.materials[k] == MaterialRowOf(m, d.id)
    {
      var a := InsertMaterial(r.materials[k]);
      assert a in ConcatNodeAttempts(Visited(cs, opts), opts);
      var d := VisitedNodeOf(Visited(cs, opts), a, opts);
      MaterialAttemptsCarryId(d.news, d.id, opts);
      var m :| m in d.news && r.materials[k] == MaterialRowOf(m, d.id);
    }
  }

  /** The visited node whose news attempts hold the material attempt `a`. */
  lemma {:induction false} VisitedNodeOf(nodes: seq<Category>, a: Attempt, opts: Options) returns (d: Category)
    requires a.InsertMaterial? && a in ConcatNodeAttempts(nodes, opts)
    ensures d in nodes && a in MaterialAttempts(d.news, d.id, opts)
    decreases |nodes|
  {
    if a in NodeAttempts(nodes[0], opts) {
      d := nodes[0];
    } else {
      d := VisitedNodeOf(nodes[1..], a, opts);
    }
  }

  // ---------------------------------------------------------------------------
  // A worked case

  /**
   * Category 1 "Tech" holding news 10 (active) and 11 (inactive), imported with the
   * news filter on into an empty store: one category, one news item, and only
   * news 10 is stored.
   */
  lemma TechScenario()
    ensures var ten := Material(10, Some("A"), None, None, None, None, Some(true));
      var eleven := Material(11, Some("B"), None, None, None, None, Some(false));
      var tech := Category(1, "Tech", None, [ten, eleven], []);
      var r := Run(ImportState([], [], 0, 0, []), ForestAttempts([tech], Options(false, true)));
      r.categoryCount == 1 && r.newsCount == 1
      && r.categories == [CategoryRow(1, "Tech")]
      && r.materials == [MaterialRow(10, 1, Some("A"), None, None, None, None)]
  {
    var ten := Material(10, Some("A"), None, None, None, None, Some(true));
    var eleven := Material(11, Some("B"), None, None, None, None, Some(false));
    var tech := Category(1, "Tech", None, [ten, eleven], []);
    var opts := Options(false, true);
    var a10 := InsertMaterial(MaterialRowOf(ten, 1));
    assert MaterialAttempts([eleven], 1, opts) == [] by {
      assert MaterialSkipped(eleven, opts);
      assert [eleven][1..] == [];
    }
    assert MaterialAttempts([ten, eleven], 1, opts) == [a10] by {
      assert !MaterialSkipped(ten, opts);
      assert [ten, eleven][1..] == [eleven];
    }
    var attempts := [InsertCategory(CategoryRow(1, "Tech")), a10];
    assert ForestAttempts([tech], opts) == attempts by {
      assert CategoryAttempts(tech, opts) == attempts;
      assert [tech][1..] == [];
    }
    var s0 := ImportState([], [], 0, 0, []);
    var s1 := Step(s0, attempts[0]);
    assert s1.categories == [CategoryRow(1, "Tech")] && s1.categoryCount == 1;
    var s2 := Step(s1, a10);
    assert s2.materials == [MaterialRow(10, 1, Some("A"), None, None, None, None)] && s2.newsCount == 1;
    assert Run(s0, attempts) == Run(s1, [a10]) by { assert attempts[1..] == [a10]; }
    assert Run(s1, [a10]) == s2 by { assert [a10][1..] == []; }
  }
}
