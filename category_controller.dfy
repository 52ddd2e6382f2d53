/** The category controller: request handling on top of the category model,
    turning each outcome into a status and a body.  The minimum-count check
    runs first, here, before the model's reference check. */
module CategoryApi {
  import opened Wrappers
  import opened Records
  import opened Http
  import opened Db
  import opened CategoryStore

  const ListFailed := "Erreur lors de la récupération des catégories"
  const NotFound := "Catégorie non trouvée"
  const FetchFailed := "Erreur lors de la récupération de la catégorie"
  const Created := "Catégorie créée avec succès"
  const CreateFailed := "Erreur lors de la création de la catégorie"
  const Updated := "Catégorie mise à jour avec succès"
  const UpdateFailed := "Erreur lors de la mise à jour de la catégorie"
  const LastCategory := "Impossible de supprimer : vous devez avoir au moins 1 catégorie"
  const Deleted := "Catégorie supprimée avec succès"
  const DeleteFailed := "Erreur lors de la suppression de la catégorie"
  const CountFailed := "Erreur lors du comptage des catégories"
  /** What the delete handler looks for in a thrown message. */
  const InUseMarker := "des produits utilisent cette catégorie"

  /** The model's in-use error carries the marker the handler looks for. */
  lemma InUseErrorMarked()
    ensures Contains(DeleteErrorMessage(InUse(CategoryInUse)), InUseMarker)
  {
    ContainsSuffix(CannotDelete, InUseMarker);
  }

  /** The marker has a character outside ASCII, the `é` of "catégorie". */
  lemma MarkerNotAscii()
    ensures InUseMarker[32] == 'é'
  {
  }

  /** Neither store failure the delete can meet carries the marker: not
      the connection error, and not the out-of-range error, whose only
      variable part is the id's digits. */
  lemma StoreFailureUnmarked(id: int)
    ensures !Contains(DeleteErrorMessage(StoreFailure(Unavailable)), InUseMarker)
    ensures !Contains(DeleteErrorMessage(StoreFailure(OutOfRange(id))), InUseMarker)
  {
    ShorterDoesNotContain(StoreMessage(Unavailable), InUseMarker);
    OutOfRangeMessageAscii(id);
    MarkerNotAscii();
    MissingCharDoesNotContain(StoreMessage(OutOfRange(id)), InUseMarker, 'é');
  }

  /** Success replies carry the category; errors carry a fixed message. */
  class CategoryController {
    const model: CategoryModel

    constructor (db: Database)
      ensures model.db == db
    {
      model := new CategoryModel(db);
    }

    method GetAllCategories() returns (res: Response<seq<Category>>)
      requires model.db.Valid()
      ensures !model.db.online ==> res == Response(500, ErrorBody(ListFailed))
      ensures model.db.online ==>
        && res.status == 200 && res.body.DataBody? && res.body.message == None
        && |res.body.data| == |model.db.categories|
        && (forall c :: c in res.body.data <==> c.id in model.db.categories && model.db.categories[c.id] == c)
        && (forall i, j :: 0 <= i < j < |res.body.data| ==> res.body.data[i].createdAt > res.body.data[j].createdAt)
    {
      var categories := model.FindAll();
      if categories.Failure? {
        return Response(500, ErrorBody(ListFailed));
      }
      res := Response(200, DataBody(None, categories.value));
    }

    method GetCategory(id: int) returns (res: Response<Category>)
      requires model.db.Valid()
      ensures !model.db.online || !IsInteger(id) ==> res == Response(500, ErrorBody(FetchFailed))
      ensures model.db.online && IsInteger(id) && id !in model.db.categories ==> res == Response(404, ErrorBody(NotFound))
      ensures model.db.online && id in model.db.categories ==>
        res == Response(200, DataBody(None, model.db.categories[id]))
    {
      var category := model.FindById(id);
      if category.Failure? {
        return Response(500, ErrorBody(FetchFailed));
      }
      if category.value.None? {
        return Response(404, ErrorBody(NotFound));
      }
      res := Response(200, DataBody(None, category.value.value));
    }

    method CreateCategory(data: CategoryData) returns (res: Response<Category>)
      requires model.db.Valid()
      modifies model.db`categories, model.db`categorySerial, model.db`clock
      ensures model.db.Valid()
      ensures !model.db.online ==> res == Response(500, ErrorBody(CreateFailed)) && unchanged(model.db)
      ensures model.db.online
              && (!CategoryTextsBind(data) || CategoryColumns(data).Failure? || old(model.db.categorySerial) > IntMax) ==>
        res == Response(500, ErrorBody(CreateFailed)) && unchanged(model.db)
      ensures model.db.online && CategoryTextsBind(data) && CategoryColumns(data).Success?
              && old(model.db.categorySerial) <= IntMax ==>
        var stored := CategoryColumns(data).value;
        var row := Category(old(model.db.categorySerial), stored.title, stored.description, old(model.db.clock));
        && res == Response(201, DataBody(Some(Created), row))
        && model.db.categories == old(model.db.categories)[row.id := row]
        && |model.db.categories| == old(|model.db.categories|) + 1
        && model.db.categorySerial == old(model.db.categorySerial) + 1
        && model.db.clock == old(model.db.clock) + 1
    {
      var category := model.Create(data);
      if category.Failure? {
        return Response(500, ErrorBody(CreateFailed));
      }
      res := Response(201, DataBody(Some(Created), category.value));
    }

    method UpdateCategory(id: int, data: CategoryData) returns (res: Response<Category>)
      requires model.db.Valid()
      modifies model.db`categories
      ensures model.db.Valid()
      ensures !model.db.online ==> res == Response(500, ErrorBody(UpdateFailed)) && unchanged(model.db)
      ensures model.db.online && (!CategoryTextsBind(data) || !IsInteger(id) || CategoryColumns(data).Failure?) ==>
        res == Response(500, ErrorBody(UpdateFailed)) && unchanged(model.db)
      ensures model.db.online && CategoryTextsBind(data) && IsInteger(id) && CategoryColumns(data).Success?
              && id !in old(model.db.categories) ==>
        res == Response(404, ErrorBody(NotFound)) && unchanged(model.db)
      ensures model.db.online && CategoryTextsBind(data) && CategoryColumns(data).Success? && id in old(model.db.categories) ==>
        var stored := CategoryColumns(data).value;
        var updated := old(model.db.categories)[id].(title := stored.title, description := stored.description);
        && res == Response(200, DataBody(Some(Updated), updated))
        && model.db.categories == old(model.db.categories)[id := updated]
    {
      var category := model.Update(id, data);
      if category.Failure? {
        return Response(500, ErrorBody(UpdateFailed));
      }
      if category.value.None? {
        return Response(404, ErrorBody(NotFound));
      }
      res := Response(200, DataBody(Some(Updated), category.value.value));
    }

    /** Count gate, then the model's delete, then the mapping of what it
        threw: the in-use message is shown as a 400, anything else is a
        generic 500.  A referenced id is a stored category's, so it is
        always in `INTEGER` range. */
    method DeleteCategory(id: int) returns (res: Response<Category>)
      requires model.db.Valid()
      modifies model.db`categories, model.db`products
      ensures model.db.Valid()
      ensures !model.db.online ==> res == Response(500, ErrorBody(DeleteFailed)) && unchanged(model.db)
      ensures model.db.online && old(|model.db.categories|) <= 1 ==>
        res == Response(400, ErrorBody(LastCategory)) && unchanged(model.db)
      ensures model.db.online && old(|model.db.categories|) > 1 && Referenced(old(model.db.products), id) ==>
        res == Response(400, ErrorBody(CategoryInUse)) && unchanged(model.db)
      ensures model.db.online && old(|model.db.categories|) > 1 && !IsInteger(id) ==>
        res == Response(500, ErrorBody(DeleteFailed)) && unchanged(model.db)
      ensures model.db.online && old(|model.db.categories|) > 1 && IsInteger(id) && !Referenced(old(model.db.products), id)
              && id !in old(model.db.categories) ==>
        res == Response(404, ErrorBody(NotFound)) && unchanged(model.db)
      ensures model.db.online && old(|model.db.categories|) > 1 && !Referenced(old(model.db.products), id)
              && id in old(model.db.categories) ==>
        && res == Response(200, DataBody(Some(Deleted), old(model.db.categories)[id]))
        && model.db.categories == old(model.db.categories) - {id}
        && model.db.products == old(model.db.products)
      ensures res.status == 200 <==> model.db.categories != old(model.db.categories)
      ensures res.status == 200 ==> |model.db.categories| == old(|model.db.categories|) - 1 >= 1
    {
      var count := model.Count();
      if count.Failure? {
        return Response(500, ErrorBody(DeleteFailed));
      }
      if count.value <= 1 {
        return Response(400, ErrorBody(LastCategory));
      }
      var category := model.Delete(id);
      if category.Failure? {
        InUseErrorMarked();
        StoreFailureUnmarked(id);
        var message := DeleteErrorMessage(category.error);
        if Contains(message, InUseMarker) {
          return Response(400, ErrorBody(message));
        }
        return Response(500, ErrorBody(DeleteFailed));
      }
      if category.value.None? {
        return Response(404, ErrorBody(NotFound));
      }
      res := Response(200, DataBody(Some(Deleted), category.value.value));
    }

    method GetCategoriesCount() returns (res: Response<int>)
      ensures !model.db.online ==> res == Response(500, ErrorBody(CountFailed))
      ensures model.db.online ==> res == Response(200, DataBody(None, |model.db.categories|))
    {
      var count := model.Count();
      if count.Failure? {
        return Response(500, ErrorBody(CountFailed));
      }
      res := Response(200, DataBody(None, count.value));
    }
  }
}
