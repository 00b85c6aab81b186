/**
 * The relational store: two append-only tables, `category(id UNIQUE, name UNIQUE)`
 * and `material(id UNIQUE, category_id, title, image, description, text, date)`.
 * An INSERT succeeds exactly when the new row breaks no UNIQUE rule.
 */
module Store {
  import opened Wrappers

  datatype CategoryRow = CategoryRow(id: int, name: string)

  datatype MaterialRow = MaterialRow(
    id: int,
    categoryId: int,
    title: Option<string>,
    image: Option<string>,
    description: Option<string>,
    text: Option<string>,
    date: Option<string>)

  /** `row` clashes with no existing row on `id` nor on `name`. */
  predicate CategoryInsertable(rows: seq<CategoryRow>, row: CategoryRow) {
    forall i :: 0 <= i < |rows| ==> rows[i].id != row.id && rows[i].name != row.name
  }

  /** `row` clashes with no existing row on `id`. */
  predicate MaterialInsertable(rows: seq<MaterialRow>, row: MaterialRow) {
    forall i :: 0 <= i < |rows| ==> rows[i].id != row.id
  }

  /** The UNIQUE constraints of the category table hold. */
  predicate CategoriesUnique(rows: seq<CategoryRow>) {
    forall i, j :: 0 <= i < j < |rows| ==> rows[i].id != rows[j].id && rows[i].name != rows[j].name
  }

  /** The UNIQUE constraint of the material table holds. */
  predicate MaterialsUnique(rows: seq<MaterialRow>) {
    forall i, j :: 0 <= i < j < |rows| ==> rows[i].id != rows[j].id
  }

  /** The open database file with its two tables. */
  class Database {
    var categories: seq<CategoryRow>
    var materials: seq<MaterialRow>

    ghost predicate Valid()
      reads this
    {
      CategoriesUnique(categories) && MaterialsUnique(materials)
    }

    /** Opens a store that may already hold rows from an earlier run. */
    constructor Open(categories: seq<CategoryRow>, materials: seq<MaterialRow>)
      requires CategoriesUnique(categories) && MaterialsUnique(materials)
      ensures Valid()
      ensures this.categories == categories && this.materials == materials
    {
      this.categories := categories;
      this.materials := materials;
    }

    /** `INSERT INTO category (id, name)`: fails, changing nothing, on a duplicate id or name. */
    method InsertCategory(row: CategoryRow) returns (ok: bool)
      requires Valid()
      modifies this
      ensures Valid()
      ensures ok <==> CategoryInsertable(old(categories), row)
      ensures categories == if ok then old(categories) + [row] else old(categories)
      ensures materials == old(materials)
    {
      ok := CategoryInsertable(categories, row);
      if ok {
        categories := categories + [row];
      }
    }

    /** `INSERT INTO material (...)`: fails, changing nothing, on a duplicate id. */
    method InsertMaterial(row: MaterialRow) returns (ok: bool)
      requires Valid()
      modifies this
      ensures Valid()
      ensures ok <==> MaterialInsertable(old(materials), row)
      ensures materials == if ok then old(materials) + [row] else old(materials)
      ensures categories == old(categories)
    {
      ok := MaterialInsertable(materials, row);
      if ok {
        materials := materials + [row];
      }
    }
  }
}
