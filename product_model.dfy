/** The product model: each operation is a single statement.  Product reads
    are left-joined with the category table to add the category's title; the
    category picker is read here too.  The model does not check a category
    id itself: a dangling one is rejected by the store's foreign key. */
module ProductStore {
  import opened Wrappers
  import opened Records
  import opened Queries
  import opened Db

  /** `LEFT JOIN categories c ON p.category_id = c.id`, `c.title as category_name`. */
  function Joined(p: Product, categories: map<int, Category>): ProductView
  {
    ProductView(p, if p.categoryId.Some? && p.categoryId.value in categories
                   then Some(categories[p.categoryId.value].title) else None)
  }

  /** The meaning of a left join, stated over the category rows' own id
      column: the view names a category exactly when some category row has
      the product's category id, and then it is that row's title. */
  ghost predicate LeftJoined(v: ProductView, categories: map<int, Category>)
  {
    && (v.categoryName.Some? <==> exists k :: k in categories && Some(categories[k].id) == v.product.categoryId)
    && (forall k :: k in categories && Some(categories[k].id) == v.product.categoryId ==>
          v.categoryName == Some(categories[k].title))
  }

  lemma JoinedIsLeftJoin(p: Product, categories: map<int, Category>)
    requires forall k :: k in categories ==> categories[k].id == k
    ensures LeftJoined(Joined(p, categories), categories)
  {
    if p.categoryId.Some? && p.categoryId.value in categories {
      var k := p.categoryId.value;
      assert Some(categories[k].id) == p.categoryId;
    }
  }

  /** While the foreign key holds, a product has a category name exactly
      when it has a category id. */
  lemma JoinedNameUnderForeignKey(p: Product, categories: map<int, Category>)
    requires p.categoryId.Some? ==> p.categoryId.value in categories
    ensures Joined(p, categories).categoryName.Some? <==> p.categoryId.Some?
  {
  }

  /** The joined rows of a product listing, one view per row, in order. */
  function JoinAll(rows: seq<Product>, categories: map<int, Category>): (views: seq<ProductView>)
    ensures |views| == |rows|
    ensures forall i :: 0 <= i < |rows| ==> views[i].product == rows[i]
  {
    if rows == [] then [] else [Joined(rows[0], categories)] + JoinAll(rows[1..], categories)
  }

  /** Every view of a joined listing is the left join of its product. */
  lemma {:induction false} JoinAllLeftJoined(rows: seq<Product>, categories: map<int, Category>)
    requires forall k :: k in categories ==> categories[k].id == k
    ensures forall i :: 0 <= i < |rows| ==> LeftJoined(JoinAll(rows, categories)[i], categories)
  {
    if rows != [] {
      JoinedIsLeftJoin(rows[0], categories);
      JoinAllLeftJoined(rows[1..], categories);
      var views := JoinAll(rows, categories);
      assert views == [Joined(rows[0], categories)] + JoinAll(rows[1..], categories);
      forall i | 0 < i < |rows|
        ensures LeftJoined(views[i], categories)
      {
        assert views[i] == JoinAll(rows[1..], categories)[i - 1];
      }
    }
  }

  /** A category id the foreign key rejects. */
  predicate Dangling(categoryId: Option<int>, categories: map<int, Category>)
  {
    categoryId.Some? && categoryId.value !in categories
  }

  /** The joined newest-first listing holds every product of the table
      once, and nothing else. */
  lemma ProductListing(products: map<int, Product>, serial: int, clock: int, categories: map<int, Category>)
    requires ProductTable(products, serial, clock)
    ensures var views := JoinAll(Select(products, IdsDescending(products.Keys, serial - 1)), categories);
      && |views| == |products|
      && (forall p :: (exists i :: 0 <= i < |views| && views[i].product == p) <==>
                      p.id in products && products[p.id] == p)
  {
    ListingCount(products.Keys, serial - 1);
    assert |products.Keys| == |products|;
    forall p
      ensures var views := JoinAll(Select(products, IdsDescending(products.Keys, serial - 1)), categories);
        (exists i :: 0 <= i < |views| && views[i].product == p) <==> p.id in products && products[p.id] == p
    {
      ListedProduct(products, serial, clock, categories, p);
    }
  }

  /** The joined listing is in strictly decreasing creation order. */
  lemma JoinedNewestFirst(products: map<int, Product>, serial: int, clock: int, categories: map<int, Category>)
    requires ProductTable(products, serial, clock)
    ensures var views := JoinAll(Select(products, IdsDescending(products.Keys, serial - 1)), categories);
      forall i, j :: 0 <= i < j < |views| ==> views[i].product.createdAt > views[j].product.createdAt
  {
    var rows := Select(products, IdsDescending(products.Keys, serial - 1));
    var views := JoinAll(rows, categories);
    ProductsNewestFirst(products, serial, clock);
    forall i, j | 0 <= i < j < |views|
      ensures views[i].product.createdAt > views[j].product.createdAt
    {
      assert views[i].product == rows[i] && views[j].product == rows[j];
    }
  }

  lemma ProductsNewestFirst(products: map<int, Product>, serial: int, clock: int)
    requires ProductTable(products, serial, clock)
    ensures var rows := Select(products, IdsDescending(products.Keys, serial - 1));
      forall i, j :: 0 <= i < j < |rows| ==> rows[i].createdAt > rows[j].createdAt
  {
    var ids := IdsDescending(products.Keys, serial - 1);
    var rows := Select(products, ids);
    forall i, j | 0 <= i < j < |rows|
      ensures rows[i].createdAt > rows[j].createdAt
    {
      assert ids[i] > ids[j];
    }
  }

  lemma ListedProduct(products: map<int, Product>, serial: int, clock: int, categories: map<int, Category>, p: Product)
    requires ProductTable(products, serial, clock)
    ensures var views := JoinAll(Select(products, IdsDescending(products.Keys, serial - 1)), categories);
      (exists i :: 0 <= i < |views| && views[i].product == p) <==> p.id in products && products[p.id] == p
  {
    var ids := IdsDescending(products.Keys, serial - 1);
    var rows := Select(products, ids);
    var views := JoinAll(rows, categories);
    if p.id in products && products[p.id] == p {
      assert p.id in ids;
      var i :| 0 <= i < |ids| && ids[i] == p.id;
      assert views[i].product == rows[i];
    }
    if exists i :: 0 <= i < |views| && views[i].product == p {
      var i :| 0 <= i < |views| && views[i].product == p;
      assert views[i].product == rows[i];
      assert rows[i] == products[ids[i]];
    }
  }

  /** The (id, title) pair of each category row, in order. */
  function Options(rows: seq<Category>): (opts: seq<CategoryOption>)
    ensures |opts| == |rows|
    ensures forall i :: 0 <= i < |rows| ==> opts[i] == CategoryOption(rows[i].id, rows[i].title)
  {
    seq(|rows|, i requires 0 <= i < |rows| => CategoryOption(rows[i].id, rows[i].title))
  }

  /** Every category row is listed as its (id, title) pair. */
  lemma CategoryListedAsOption(categories: map<int, Category>, hi: int, k: int)
    requires forall k :: k in categories ==> 1 <= k <= hi && categories[k].id == k
    requires k in categories
    ensures CategoryOption(k, categories[k].title) in Options(Select(categories, IdsDescending(categories.Keys, hi)))
  {
    var ids := IdsDescending(categories.Keys, hi);
    var rows := Select(categories, ids);
    assert k in ids;
    var i :| 0 <= i < |ids| && ids[i] == k;
    assert rows[i] == categories[k];
    assert Options(rows)[i] == CategoryOption(k, categories[k].title);
  }

  /** Every listed pair is the (id, title) of a category row. */
  lemma OptionNamesCategory(categories: map<int, Category>, hi: int, o: CategoryOption)
    requires forall k :: k in categories ==> 1 <= k <= hi && categories[k].id == k
    requires o in Options(Select(categories, IdsDescending(categories.Keys, hi)))
    ensures o.id in categories && categories[o.id].title == o.title
  {
    var ids := IdsDescending(categories.Keys, hi);
    var rows := Select(categories, ids);
    var opts := Options(rows);
    var i :| 0 <= i < |opts| && opts[i] == o;
    assert rows[i] == categories[ids[i]];
  }

  /** Listing every category as a pair gives one pair per category, and a
      pair is listed exactly when it matches a category row. */
  lemma OptionsCover(categories: map<int, Category>, hi: int)
    requires forall k :: k in categories ==> 1 <= k <= hi && categories[k].id == k
    ensures var opts := Options(Select(categories, IdsDescending(categories.Keys, hi)));
      && |opts| == |categories|
      && forall o :: o in opts <==> o.id in categories && categories[o.id].title == o.title
  {
    ListingCount(categories.Keys, hi);
    assert |categories.Keys| == |categories|;
    forall o
      ensures o in Options(Select(categories, IdsDescending(categories.Keys, hi))) <==>
              o.id in categories && categories[o.id].title == o.title
    {
      if o.id in categories && categories[o.id].title == o.title {
        CategoryListedAsOption(categories, hi, o.id);
      }
      if o in Options(Select(categories, IdsDescending(categories.Keys, hi))) {
        OptionNamesCategory(categories, hi, o);
      }
    }
  }

  /** Sorting the pairs by title keeps exactly the same pairs. */
  lemma DropdownOptions(categories: map<int, Category>, hi: int)
    requires forall k :: k in categories ==> 1 <= k <= hi && categories[k].id == k
    ensures var sorted := SortByTitle(Options(Select(categories, IdsDescending(categories.Keys, hi))));
      && SortedByTitle(sorted)
      && |sorted| == |categories|
      && forall o :: o in sorted <==> o.id in categories && categories[o.id].title == o.title
  {
    var opts := Options(Select(categories, IdsDescending(categories.Keys, hi)));
    OptionsCover(categories, hi);
    var sorted := SortByTitle(opts);
    assert |sorted| == |multiset(sorted)| == |multiset(opts)| == |opts|;
    forall o
      ensures o in sorted <==> o in opts
    {
      assert o in sorted <==> o in multiset(sorted);
      assert o in opts <==> o in multiset(opts);
    }
  }

  class ProductModel {
    const db: Database

    constructor (db: Database)
      ensures this.db == db
    {
      this.db := db;
    }

    /** Every product once, newest first, with its category name. */
    method FindAll() returns (r: Result<seq<ProductView>, StoreError>)
      requires db.Valid()
      ensures r.Failure? <==> !db.online
      ensures r.Failure? ==> r.error == Unavailable
      ensures r.Success? ==>
        && |r.value| == |db.products|
        && (forall p :: (exists i :: 0 <= i < |r.value| && r.value[i].product == p) <==>
                        p.id in db.products && db.products[p.id] == p)
        && (forall i :: 0 <= i < |r.value| ==> LeftJoined(r.value[i], db.categories))
        && (forall i, j :: 0 <= i < j < |r.value| ==> r.value[i].product.createdAt > r.value[j].product.createdAt)
    {
      if !db.online {
        return Failure(Unavailable);
      }
      var ids := IdsDescending(db.products.Keys, db.productSerial - 1);
      var views := JoinAll(Select(db.products, ids), db.categories);
      ProductListing(db.products, db.productSerial, db.clock, db.categories);
      JoinedNewestFirst(db.products, db.productSerial, db.clock, db.categories);
      JoinAllLeftJoined(Select(db.products, ids), db.categories);
      r := Success(views);
    }

    /** The joined row with that id, or nothing; an id outside `INTEGER`
        is refused when it is bound. */
    method FindById(id: int) returns (r: Result<Option<ProductView>, StoreError>)
      requires db.Valid()
      ensures r.Failure? <==> !db.online || !IsInteger(id)
      ensures !db.online ==> r == Failure(Unavailable)
      ensures db.online && !IsInteger(id) ==> r == Failure(OutOfRange(id))
      ensures r.Success? ==> (r.value.Some? <==> id in db.products)
      ensures r.Success? && r.value.Some? ==>
        r.value.value.product == db.products[id] && LeftJoined(r.value.value, db.categories)
    {
      if !db.online {
        return Failure(Unavailable);
      }
      if !IsInteger(id) {
        return Failure(OutOfRange(id));
      }
      if id !in db.products {
        return Success(None);
      }
      JoinedIsLeftJoin(db.products[id], db.categories);
      r := Success(Some(Joined(db.products[id], db.categories)));
    }

    /** `INSERT ... RETURNING *`.  A title or description holding U+0000,
        then a category id outside `INTEGER`, is refused when it is bound,
        and a title too wide for its column while the statement is planned,
        all before an id is drawn; the foreign
        key is checked after the id is drawn, so a dangling category still
        uses one up. */
    method Create(data: ProductData) returns (r: Result<Product, StoreError>)
      requires db.Valid()
      modifies db`products, db`productSerial, db`clock
      ensures db.Valid()
      ensures !db.online ==> r == Failure(Unavailable) && unchanged(db)
      ensures db.online && !ProductTextsBind(data) ==> r == Failure(InvalidByteSequence) && unchanged(db)
      ensures db.online && ProductTextsBind(data) && !BindsAsInteger(data.categoryId) ==>
        r == Failure(OutOfRange(data.categoryId.value)) && unchanged(db)
      ensures db.online && ProductTextsBind(data) && BindsAsInteger(data.categoryId) && ProductColumns(data).Failure? ==>
        r == Failure(ValueTooLong(TitleWidth)) && unchanged(db)
      ensures db.online && ProductTextsBind(data) && BindsAsInteger(data.categoryId) && ProductColumns(data).Success?
              && old(db.productSerial) > IntMax ==>
        r == Failure(SequenceExhausted(ProductSequence)) && unchanged(db)
      ensures db.online && ProductTextsBind(data) && BindsAsInteger(data.categoryId) && ProductColumns(data).Success?
              && old(db.productSerial) <= IntMax && Dangling(data.categoryId, db.categories) ==>
        && r == Failure(ForeignKeyViolation)
        && db.products == old(db.products)
        && db.productSerial == old(db.productSerial) + 1
        && db.clock == old(db.clock)
      ensures db.online && ProductTextsBind(data) && ProductColumns(data).Success? && old(db.productSerial) <= IntMax
              && !Dangling(data.categoryId, db.categories) ==>
        var stored := ProductColumns(data).value;
        && r == Success(Product(old(db.productSerial), stored.title, stored.description, data.categoryId, old(db.clock)))
        && r.value.id !in old(db.products)
        && db.products == old(db.products)[r.value.id := r.value]
        && |db.products| == old(|db.products|) + 1
        && db.productSerial == old(db.productSerial) + 1
        && db.clock == old(db.clock) + 1
    {
      if !db.online {
        return Failure(Unavailable);
      }
      if !ProductTextsBind(data) {
        return Failure(InvalidByteSequence);
      }
      if !BindsAsInteger(data.categoryId) {
        return Failure(OutOfRange(data.categoryId.value));
      }
      var stored := ProductColumns(data);
      if stored.Failure? {
        return Failure(stored.error);
      }
      if db.productSerial > IntMax {
        return Failure(SequenceExhausted(ProductSequence));
      }
      var id := db.productSerial;
      db.productSerial := db.productSerial + 1;
      if Dangling(data.categoryId, db.categories) {
        return Failure(ForeignKeyViolation);
      }
      var row := Product(id, stored.value.title, stored.value.description, data.categoryId, db.clock);
      assert id !in db.products;
      db.products := db.products[id := row];
      db.clock := db.clock + 1;
      r := Success(row);
    }

    /** `UPDATE products SET title, description, category_id WHERE id = $4
        RETURNING *`: an omitted category id is written as NULL.  The
        texts, the category id and then the id are checked when they are
        bound, and
        the title cut while the statement is planned, all before a row is
        matched; the foreign key is only checked when a row is updated. */
    method Update(id: int, data: ProductData) returns (r: Result<Option<Product>, StoreError>)
      requires db.Valid()
      modifies db`products
      ensures db.Valid()
      ensures !db.online ==> r == Failure(Unavailable) && unchanged(db)
      ensures db.online && !ProductTextsBind(data) ==> r == Failure(InvalidByteSequence) && unchanged(db)
      ensures db.online && ProductTextsBind(data) && !BindsAsInteger(data.categoryId) ==>
        r == Failure(OutOfRange(data.categoryId.value)) && unchanged(db)
      ensures db.online && ProductTextsBind(data) && BindsAsInteger(data.categoryId) && !IsInteger(id) ==>
        r == Failure(OutOfRange(id)) && unchanged(db)
      ensures db.online && ProductTextsBind(data) && BindsAsInteger(data.categoryId) && IsInteger(id)
              && ProductColumns(data).Failure? ==>
        r == Failure(ValueTooLong(TitleWidth)) && unchanged(db)
      ensures db.online && ProductTextsBind(data) && BindsAsInteger(data.categoryId) && IsInteger(id)
              && ProductColumns(data).Success? && id !in old(db.products) ==>
        r == Success(None) && unchanged(db)
      ensures db.online && ProductTextsBind(data) && BindsAsInteger(data.categoryId) && ProductColumns(data).Success?
              && id in old(db.products) && Dangling(data.categoryId, db.categories) ==>
        r == Failure(ForeignKeyViolation) && unchanged(db)
      ensures db.online && ProductTextsBind(data) && ProductColumns(data).Success? && id in old(db.products)
              && !Dangling(data.categoryId, db.categories) ==>
        var stored := ProductColumns(data).value;
        var updated := old(db.products)[id].(title := stored.title, description := stored.description,
                                              categoryId := data.categoryId);
        && r == Success(Some(updated))
        && db.products == old(db.products)[id := updated]
    {
      if !db.online {
        return Failure(Unavailable);
      }
      if !ProductTextsBind(data) {
        return Failure(InvalidByteSequence);
      }
      if !BindsAsInteger(data.categoryId) {
        return Failure(OutOfRange(data.categoryId.value));
      }
      if !IsInteger(id) {
        return Failure(OutOfRange(id));
      }
      var stored := ProductColumns(data);
      if stored.Failure? {
        return Failure(stored.error);
      }
      if id !in db.products {
        return Success(None);
      }
      if Dangling(data.categoryId, db.categories) {
        return Failure(ForeignKeyViolation);
      }
      var updated := db.products[id].(title := stored.value.title, description := stored.value.description,
                                      categoryId := data.categoryId);
      db.products := db.products[id := updated];
      r := Success(Some(updated));
    }

    /** `DELETE FROM products WHERE id = $1 RETURNING *`. */
    method Delete(id: int) returns (r: Result<Option<Product>, StoreError>)
      requires db.Valid()
      modifies db`products
      ensures db.Valid()
      ensures !db.online ==> r == Failure(Unavailable) && unchanged(db)
      ensures db.online && !IsInteger(id) ==> r == Failure(OutOfRange(id)) && unchanged(db)
      ensures db.online && IsInteger(id) && id !in old(db.products) ==> r == Success(None) && unchanged(db)
      ensures db.online && id in old(db.products) ==>
        && r == Success(Some(old(db.products)[id]))
        && db.products == old(db.products) - {id}
        && |db.products| == old(|db.products|) - 1
    {
      if !db.online {
        return Failure(Unavailable);
      }
      if !IsInteger(id) {
        return Failure(OutOfRange(id));
      }
      if id !in db.products {
        return Success(None);
      }
      var row := db.products[id];
      db.products := db.products - {id};
      assert db.products.Keys == old(db.products).Keys - {id};
      r := Success(Some(row));
    }

    /** `SELECT COUNT(*) FROM products`. */
    method Count() returns (r: Result<int, StoreError>)
      ensures !db.online ==> r == Failure(Unavailable)
      ensures db.online ==> r == Success(|db.products|)
    {
      if !db.online {
        return Failure(Unavailable);
      }
      r := Success(|db.products|);
    }

    /** `SELECT id, title FROM categories ORDER BY title`: one option per
        category, in title order. */
    method GetCategoriesForDropdown() returns (r: Result<seq<CategoryOption>, StoreError>)
      requires db.Valid()
      ensures r.Failure? <==> !db.online
      ensures r.Failure? ==> r.error == Unavailable
      ensures r.Success? ==>
        && SortedByTitle(r.value)
        && |r.value| == |db.categories|
        && (forall o :: o in r.value <==> o.id in db.categories && db.categories[o.id].title == o.title)
    {
      if !db.online {
        return Failure(Unavailable);
      }
      DropdownOptions(db.categories, db.categorySerial - 1);
      var sorted := SortByTitle(Options(Select(db.categories, IdsDescending(db.categories.Keys, db.categorySerial - 1))));
      r := Success(sorted);
    }
  }
}
