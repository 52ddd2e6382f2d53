/** The category model: each operation is one statement on `categories`,
    except `Delete`, which first counts the products that reference the
    category and refuses to delete a referenced one. */
module CategoryStore {
  import opened Wrappers
  import opened Records
  import opened Queries
  import opened Db

  /** The error `Delete` throws for a referenced category: a refusal
      followed by the reason. */
  const CannotDelete := "Impossible de supprimer : "
  const CategoryInUse := CannotDelete + "des produits utilisent cette catégorie"

  datatype DeleteError = InUse(message: string) | StoreFailure(cause: StoreError)

  /** The `message` of what `Delete` throws. */
  function DeleteErrorMessage(e: DeleteError): string
  {
    match e
    case InUse(m) => m
    case StoreFailure(cause) => StoreMessage(cause)
  }

  /** `SELECT COUNT(*) FROM products WHERE category_id = $1`. */
  function ReferenceCount(products: map<int, Product>, id: int): (n: nat)
    ensures n > 0 <==> Referenced(products, id)
  {
    var refs := set k | k in products && products[k].categoryId == Some(id);
    assert Referenced(products, id) ==> |refs| > 0 by {
      if Referenced(products, id) {
        var k :| k in products && products[k].categoryId == Some(id);
        assert k in refs;
      }
    }
    assert !Referenced(products, id) ==> refs == {} by {
      if !Referenced(products, id) {
        forall k
          ensures k !in refs
        {
        }
      }
    }
    |refs|
  }

  class CategoryModel {
    const db: Database

    constructor (db: Database)
      ensures this.db == db
    {
      this.db := db;
    }

    /** `SELECT * FROM categories ORDER BY created_at DESC`. */
    method FindAll() returns (r: Result<seq<Category>, StoreError>)
      requires db.Valid()
      ensures r.Failure? <==> !db.online
      ensures r.Failure? ==> r.error == Unavailable
      ensures r.Success? ==>
        && |r.value| == |db.categories|
        && (forall c :: c in r.value <==> c.id in db.categories && db.categories[c.id] == c)
        && (forall i, j :: 0 <= i < j < |r.value| ==> r.value[i].createdAt > r.value[j].createdAt)
    {
      if !db.online {
        return Failure(Unavailable);
      }
      var ids := IdsDescending(db.categories.Keys, db.categorySerial - 1);
      var rows := Select(db.categories, ids);
      ListingCovers(db.categories, db.categorySerial - 1);
      r := Success(rows);
    }

    /** `SELECT * FROM categories WHERE id = $1`: the row or nothing; an id
        outside `INTEGER` is refused when it is bound. */
    method FindById(id: int) returns (r: Result<Option<Category>, StoreError>)
      requires db.Valid()
      ensures r.Failure? <==> !db.online || !IsInteger(id)
      ensures !db.online ==> r == Failure(Unavailable)
      ensures db.online && !IsInteger(id) ==> r == Failure(OutOfRange(id))
      ensures r.Success? ==> (r.value.Some? <==> id in db.categories)
      ensures r.Success? && r.value.Some? ==> r.value.value == db.categories[id] && r.value.value.id == id
    {
      if !db.online {
        return Failure(Unavailable);
      }
      if !IsInteger(id) {
        return Failure(OutOfRange(id));
      }
      if id in db.categories {
        r := Success(Some(db.categories[id]));
      } else {
        r := Success(None);
      }
    }

    /** `INSERT ... RETURNING *`: a fresh id from the serial and the current
        stamp; every other table is untouched.  The bound title is cut to
        its column while the statement is planned, so a title the column
        rejects fails before an id is drawn; a sequence at its maximum fails
        when the id is drawn. */
    method Create(data: CategoryData) returns (r: Result<Category, StoreError>)
      requires db.Valid()
      modifies db`categories, db`categorySerial, db`clock
      ensures db.Valid()
      ensures !db.online ==> r == Failure(Unavailable) && unchanged(db)
      ensures db.online && !CategoryTextsBind(data) ==> r == Failure(InvalidByteSequence) && unchanged(db)
      ensures db.online && CategoryTextsBind(data) && CategoryColumns(data).Failure? ==>
        r == Failure(ValueTooLong(TitleWidth)) && unchanged(db)
      ensures db.online && CategoryTextsBind(data) && CategoryColumns(data).Success? && old(db.categorySerial) > IntMax ==>
        r == Failure(SequenceExhausted(CategorySequence)) && unchanged(db)
      ensures db.online && CategoryTextsBind(data) && CategoryColumns(data).Success? && old(db.categorySerial) <= IntMax ==>
        var stored := CategoryColumns(data).value;
        && r == Success(Category(old(db.categorySerial), stored.title, stored.description, old(db.clock)))
        && r.value.id !in old(db.categories)
        && db.categories == old(db.categories)[r.value.id := r.value]
        && |db.categories| == old(|db.categories|) + 1
        && db.categorySerial == old(db.categorySerial) + 1
        && db.clock == old(db.clock) + 1
    {
      if !db.online {
        return Failure(Unavailable);
      }
      if !CategoryTextsBind(data) {
        return Failure(InvalidByteSequence);
      }
      var stored := CategoryColumns(data);
      if stored.Failure? {
        return Failure(stored.error);
      }
      if db.categorySerial > IntMax {
        return Failure(SequenceExhausted(CategorySequence));
      }
      var id := db.categorySerial;
      db.categorySerial := db.categorySerial + 1;
      var row := Category(id, stored.value.title, stored.value.description, db.clock);
      assert id !in db.categories;
      db.categories := db.categories[id := row];
      db.clock := db.clock + 1;
      r := Success(row);
    }

    /** `UPDATE categories SET title, description WHERE id = $3 RETURNING *`:
        only title and description change.  The texts and then the id are
        checked when they are bound and the title cut while the statement is
        planned, all before any row is matched; an absent id then matches
        none. */
    method Update(id: int, data: CategoryData) returns (r: Result<Option<Category>, StoreError>)
      requires db.Valid()
      modifies db`categories
      ensures db.Valid()
      ensures !db.online ==> r == Failure(Unavailable) && unchanged(db)
      ensures db.online && !CategoryTextsBind(data) ==> r == Failure(InvalidByteSequence) && unchanged(db)
      ensures db.online && CategoryTextsBind(data) && !IsInteger(id) ==> r == Failure(OutOfRange(id)) && unchanged(db)
      ensures db.online && CategoryTextsBind(data) && IsInteger(id) && CategoryColumns(data).Failure? ==>
        r == Failure(ValueTooLong(TitleWidth)) && unchanged(db)
      ensures db.online && CategoryTextsBind(data) && IsInteger(id) && CategoryColumns(data).Success?
              && id !in old(db.categories) ==>
        r == Success(None) && unchanged(db)
      ensures db.online && CategoryTextsBind(data) && CategoryColumns(data).Success? && id in old(db.categories) ==>
        var stored := CategoryColumns(data).value;
        var updated := old(db.categories)[id].(title := stored.title, description := stored.description);
        && r == Success(Some(updated))
        && db.categories == old(db.categories)[id := updated]
    {
      if !db.online {
        return Failure(Unavailable);
      }
      if !CategoryTextsBind(data) {
        return Failure(InvalidByteSequence);
      }
      if !IsInteger(id) {
        return Failure(OutOfRange(id));
      }
      var stored := CategoryColumns(data);
      if stored.Failure? {
        return Failure(stored.error);
      }
      if id !in db.categories {
        return Success(None);
      }
      var updated := db.categories[id].(title := stored.value.title, description := stored.value.description);
      db.categories := db.categories[id := updated];
      r := Success(Some(updated));
    }

    /** Count the referencing products; throw when there are any; otherwise
        `DELETE ... RETURNING *`, which also runs the store's set-null action
        on products.  An id outside `INTEGER` fails the first query. */
    method Delete(id: int) returns (r: Result<Option<Category>, DeleteError>)
      requires db.Valid()
      modifies db`categories, db`products
      ensures db.Valid()
      ensures !db.online ==> r == Failure(StoreFailure(Unavailable)) && unchanged(db)
      ensures db.online && !IsInteger(id) ==> r == Failure(StoreFailure(OutOfRange(id))) && unchanged(db)
      ensures db.online && IsInteger(id) && Referenced(old(db.products), id) ==>
        r == Failure(InUse(CategoryInUse)) && unchanged(db)
      ensures db.online && IsInteger(id) && !Referenced(old(db.products), id) && id !in old(db.categories) ==>
        r == Success(None) && unchanged(db)
      ensures db.online && !Referenced(old(db.products), id) && id in old(db.categories) ==>
        && r == Success(Some(old(db.categories)[id]))
        && db.categories == old(db.categories) - {id}
        && |db.categories| == old(|db.categories|) - 1
        && db.products == old(db.products)
    {
      if !db.online {
        return Failure(StoreFailure(Unavailable));
      }
      if !IsInteger(id) {
        return Failure(StoreFailure(OutOfRange(id)));
      }
      var productsCount := ReferenceCount(db.products, id);
      if productsCount > 0 {
        return Failure(InUse(CategoryInUse));
      }
      if id !in db.categories {
        return Success(None);
      }
      var row := db.categories[id];
      SetNullUnreferenced(db.products, id);
      db.categories := db.categories - {id};
      db.products := SetNullReferences(db.products, id);
      assert db.categories.Keys == old(db.categories).Keys - {id};
      r := Success(Some(row));
    }

    /** `SELECT COUNT(*) FROM categories`. */
    method Count() returns (r: Result<int, StoreError>)
      ensures !db.online ==> r == Failure(Unavailable)
      ensures db.online ==> r == Success(|db.categories|)
    {
      if !db.online {
        return Failure(Unavailable);
      }
      r := Success(|db.categories|);
    }
  }
}
