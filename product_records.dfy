/**
 * Product rows, the Products page's list filter and category extraction, and
 * the three writes the page sends to the `products` table, modelled on an
 * in-memory table (a sequence of rows, newest first).
 */
module ProductRecords {
  import opened Seqs
  import opened Strings

  /** A row of the `products` table. `updatedAt` is an opaque timestamp. */
  datatype Product = Product(
    id: nat,
    name: string,
    category: string,
    productionDate: string,
    farmerId: string,
    updatedAt: string)

  /** The page's `formData`: the three fields the modal edits. */
  datatype Form = Form(name: string, category: string, productionDate: string)

  const EmptyForm := Form("", "", "")

  /** The form fields copied out of a product. */
  function FormOf(p: Product): Form
  {
    Form(p.name, p.category, p.productionDate)
  }

  // ---------------------------------------------------------------- filtering

  /**
   * The list filter's test: the lower-cased name contains the lower-cased
   * search term, and either no category is selected or the category is the
   * selected one exactly.
   */
  predicate Matches(p: Product, searchTerm: string, selectedCategory: string)
    ensures Matches(p, searchTerm, selectedCategory) ==> selectedCategory == "" || p.category == selectedCategory
    ensures searchTerm == "" ==>
              (Matches(p, searchTerm, selectedCategory) <==> selectedCategory == "" || p.category == selectedCategory)
  {
    Contains(Lower(p.name), Lower(searchTerm)) &&
    (selectedCategory == "" || p.category == selectedCategory)
  }

  /** `filteredProducts`: the products that pass the filter, in list order. */
  function Filter(products: seq<Product>, searchTerm: string, selectedCategory: string): (shown: seq<Product>)
    ensures |shown| <= |products|
    ensures forall p :: p in shown <==> p in products && Matches(p, searchTerm, selectedCategory)
  {
    Keep(products, p => Matches(p, searchTerm, selectedCategory))
  }

  /**
   * The filter keeps exactly the matching products, every copy of each, and
   * in their original order.
   */
  lemma FilterKeepsExactlyMatches(products: seq<Product>, searchTerm: string, selectedCategory: string)
    ensures forall p :: p in Filter(products, searchTerm, selectedCategory) <==>
              p in products && Matches(p, searchTerm, selectedCategory)
    ensures forall p :: multiset(Filter(products, searchTerm, selectedCategory))[p] ==
              if Matches(p, searchTerm, selectedCategory) then multiset(products)[p] else 0
    ensures IsSubsequence(Filter(products, searchTerm, selectedCategory), products)
  {
    var f := p => Matches(p, searchTerm, selectedCategory);
    KeepIsSubsequence(products, f);
    forall p
      ensures multiset(Filter(products, searchTerm, selectedCategory))[p] ==
              if Matches(p, searchTerm, selectedCategory) then multiset(products)[p] else 0
    {
      KeepCount(products, f, p);
    }
  }

  /** With an empty search term and no category selected, every product is shown. */
  lemma FilterUnfilteredIsIdentity(products: seq<Product>)
    ensures Filter(products, "", "") == products
  {
    assert Lower("") == "";
    forall p | p in products
      ensures Matches(p, "", "")
    {
      ContainsEmpty(Lower(p.name));
    }
    KeepAll(products, p => Matches(p, "", ""));
  }

  /** Filtering the filtered list again with the same inputs changes nothing. */
  lemma FilterIdempotent(products: seq<Product>, searchTerm: string, selectedCategory: string)
    ensures Filter(Filter(products, searchTerm, selectedCategory), searchTerm, selectedCategory) ==
            Filter(products, searchTerm, selectedCategory)
  {
    KeepIdempotent(products, p => Matches(p, searchTerm, selectedCategory));
  }

  /** A search term and its lower-cased form show the same list. */
  lemma FilterIgnoresSearchCase(products: seq<Product>, searchTerm: string, selectedCategory: string)
    ensures Filter(products, Lower(searchTerm), selectedCategory) ==
            Filter(products, searchTerm, selectedCategory)
  {
    LowerIdempotent(searchTerm);
    KeepCongruent(products,
      p => Matches(p, Lower(searchTerm), selectedCategory),
      p => Matches(p, searchTerm, selectedCategory));
  }

  /** Search terms that agree up to ASCII case show the same list. */
  lemma FilterCaseInsensitive(products: seq<Product>, term1: string, term2: string, selectedCategory: string)
    requires Lower(term1) == Lower(term2)
    ensures Filter(products, term1, selectedCategory) == Filter(products, term2, selectedCategory)
  {
    KeepCongruent(products,
      p => Matches(p, term1, selectedCategory),
      p => Matches(p, term2, selectedCategory));
  }

  // --------------------------------------------------------------- categories

  /** `data.map((product) => product.category)` */
  function CategoriesOf(products: seq<Product>): (cs: seq<string>)
    ensures |cs| == |products|
    ensures forall i :: 0 <= i < |products| ==> cs[i] == products[i].category
    ensures forall c :: c in cs <==> exists p :: p in products && p.category == c
  {
    if |products| == 0 then []
    else
      assert forall p :: p in products <==> p == products[0] || p in products[1..];
      [products[0].category] + CategoriesOf(products[1..])
  }

  /** `[...new Set(data.map((product) => product.category))]` */
  function UniqueCategories(products: seq<Product>): (cs: seq<string>)
    ensures NoDuplicates(cs)
    ensures forall c :: c in cs <==> exists p :: p in products && p.category == c
  {
    Distinct(CategoriesOf(products))
  }

  /**
   * The category list keeps the order in which the categories first occur in
   * the products.
   */
  lemma UniqueCategoriesInFirstOccurrenceOrder(products: seq<Product>)
    ensures forall i, j :: 0 <= i < j < |UniqueCategories(products)| ==>
              FirstIndex(CategoriesOf(products), UniqueCategories(products)[i]) <
              FirstIndex(CategoriesOf(products), UniqueCategories(products)[j])
  {
    DistinctInFirstOccurrenceOrder(CategoriesOf(products));
  }

  // ------------------------------------------------------------ table writes

  /** Ids are a key of the table. */
  predicate UniqueIds(table: seq<Product>)
  {
    forall i, j :: 0 <= i < j < |table| ==> table[i].id != table[j].id
  }

  /** The row filter `.eq("id", id).eq("farmer_id", owner)` selects this row. */
  predicate Targets(row: Product, id: nat, owner: string)
  {
    row.id == id && row.farmerId == owner
  }

  /** The row a new product becomes: the form's fields and the signed-in user as farmer. */
  function NewRow(id: nat, form: Form, owner: string, now: string): (row: Product)
    ensures FormOf(row) == form && row.farmerId == owner && row.id == id
  {
    Product(id, form.name, form.category, form.productionDate, owner, now)
  }

  /** Inserting a row under a fresh id keeps ids a key, all below the advanced sequence. */
  lemma InsertPreservesUniqueIds(table: seq<Product>, row: Product, nextId: nat)
    requires UniqueIds(table) && (forall r :: r in table ==> r.id < nextId)
    requires row.id == nextId
    ensures UniqueIds([row] + table)
    ensures forall r :: r in [row] + table ==> r.id < nextId + 1
  {
  }

  /** A row after `.update({ name, category, production_date, updated_at })`. */
  function Revised(row: Product, form: Form, now: string): (r: Product)
    ensures FormOf(r) == form && r.updatedAt == now
    ensures r.id == row.id && r.farmerId == row.farmerId
  {
    row.(name := form.name, category := form.category, productionDate := form.productionDate, updatedAt := now)
  }

  /** `update(...).eq("id", id).eq("farmer_id", owner)` applied to the table. */
  function UpdateOwned(table: seq<Product>, id: nat, owner: string, form: Form, now: string): (r: seq<Product>)
    ensures |r| == |table|
    ensures forall i :: 0 <= i < |table| ==> r[i].id == table[i].id && r[i].farmerId == table[i].farmerId
    ensures forall i :: 0 <= i < |table| ==> r[i] == table[i] || Targets(table[i], id, owner)
    ensures forall i :: 0 <= i < |table| && Targets(table[i], id, owner) ==> FormOf(r[i]) == form
    ensures forall i :: 0 <= i < |table| && Targets(table[i], id, owner) ==> r[i] == Revised(table[i], form, now)
  {
    seq(|table|, i requires 0 <= i < |table| =>
      if Targets(table[i], id, owner) then Revised(table[i], form, now) else table[i])
  }

  /** An update aimed at a row the owner does not own affects no row. */
  lemma UpdateForeignIsNoop(table: seq<Product>, id: nat, owner: string, form: Form, now: string)
    requires forall row :: row in table ==> !Targets(row, id, owner)
    ensures UpdateOwned(table, id, owner, form, now) == table
  {
  }

  /** An update keeps ids a key of the table. */
  lemma UpdatePreservesUniqueIds(table: seq<Product>, id: nat, owner: string, form: Form, now: string)
    requires UniqueIds(table)
    ensures UniqueIds(UpdateOwned(table, id, owner, form, now))
  {
  }

  /** `delete().eq("id", id).eq("farmer_id", owner)` applied to the table. */
  function DeleteOwned(table: seq<Product>, id: nat, owner: string): (r: seq<Product>)
    ensures |r| <= |table|
    ensures forall row :: row in r <==> row in table && !Targets(row, id, owner)
  {
    Keep(table, row => !Targets(row, id, owner))
  }

  /**
   * A delete removes every copy of the targeted rows and nothing else, and
   * keeps the remaining rows in order.
   */
  lemma DeleteRemovesOnlyTargets(table: seq<Product>, id: nat, owner: string)
    ensures forall row :: row in DeleteOwned(table, id, owner) <==> row in table && !Targets(row, id, owner)
    ensures forall row :: multiset(DeleteOwned(table, id, owner))[row] ==
              if Targets(row, id, owner) then 0 else multiset(table)[row]
    ensures IsSubsequence(DeleteOwned(table, id, owner), table)
  {
    var f := row => !Targets(row, id, owner);
    KeepIsSubsequence(table, f);
    forall row
      ensures multiset(DeleteOwned(table, id, owner))[row] ==
              if Targets(row, id, owner) then 0 else multiset(table)[row]
    {
      KeepCount(table, f, row);
    }
  }

  /** A delete aimed at a row the owner does not own affects no row. */
  lemma DeleteForeignIsNoop(table: seq<Product>, id: nat, owner: string)
    requires forall row :: row in table ==> !Targets(row, id, owner)
    ensures DeleteOwned(table, id, owner) == table
  {
    KeepAll(table, row => !Targets(row, id, owner));
  }

  /** With ids a key, a delete removes at most one row. */
  lemma {:induction false} DeleteRemovesAtMostOne(table: seq<Product>, id: nat, owner: string)
    requires UniqueIds(table)
    ensures |DeleteOwned(table, id, owner)| >= |table| - 1
  {
    if |table| > 0 {
      var rest := table[1..];
      assert UniqueIds(rest) by {
        forall i, j | 0 <= i < j < |rest|
          ensures rest[i].id != rest[j].id
        {
          assert rest[i] == table[i + 1] && rest[j] == table[j + 1];
        }
      }
      if Targets(table[0], id, owner) {
        forall row | row in rest
          ensures !Targets(row, id, owner)
        {
          var k :| 0 <= k < |rest| && rest[k] == row;
          assert table[k + 1] == row;
        }
        DeleteForeignIsNoop(rest, id, owner);
      } else {
        DeleteRemovesAtMostOne(rest, id, owner);
      }
    }
  }

  /** A delete keeps ids a key of the table. */
  lemma {:induction false} DeletePreservesUniqueIds(table: seq<Product>, id: nat, owner: string)
    requires UniqueIds(table)
    ensures UniqueIds(DeleteOwned(table, id, owner))
  {
    if |table| > 0 {
      var rest := table[1..];
      assert UniqueIds(rest) by {
        forall i, j | 0 <= i < j < |rest|
          ensures rest[i].id != rest[j].id
        {
          assert rest[i] == table[i + 1] && rest[j] == table[j + 1];
        }
      }
      DeletePreservesUniqueIds(rest, id, owner);
      var tail := DeleteOwned(rest, id, owner);
      if !Targets(table[0], id, owner) {
        var r := DeleteOwned(table, id, owner);
        assert r == [table[0]] + tail;
        forall j | 0 < j < |r|
          ensures r[0].id != r[j].id
        {
          assert r[j] in rest;
          var k :| 0 <= k < |rest| && rest[k] == r[j];
          assert table[k + 1] == r[j];
        }
      }
    }
  }
}
