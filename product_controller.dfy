/** The product controller: request handling on top of the product model.
    The delete handler refuses to remove the last product; a store failure
    of any kind (including the foreign key rejecting an unknown category id)
    becomes a generic 500. */
module ProductApi {
  import opened Wrappers
  import opened Records
  import opened Http
  import opened Db
  import opened Queries
  import opened ProductStore

  const ListFailed := "Erreur lors de la récupération des produits"
  const NotFound := "Produit non trouvé"
  const FetchFailed := "Erreur lors de la récupération du produit"
  const Created := "Produit créé avec succès"
  const CreateFailed := "Erreur lors de la création du produit"
  const Updated := "Produit mis à jour avec succès"
  const UpdateFailed := "Erreur lors de la mise à jour du produit"
  const LastProduct := "Impossible de supprimer : vous devez avoir au moins 1 produit"
  const Deleted := "Produit supprimé avec succès"
  const DeleteFailed := "Erreur lors de la suppression du produit"
  const CountFailed := "Erreur lors du comptage des produits"
  const DropdownFailed := "Erreur lors de la récupération des catégories"

  class ProductController {
    const model: ProductModel

    constructor (db: Database)
      ensures model.db == db
    {
      model := new ProductModel(db);
    }

    method GetAllProducts() returns (res: Response<seq<ProductView>>)
      requires model.db.Valid()
      ensures !model.db.online ==> res == Response(500, ErrorBody(ListFailed))
      ensures model.db.online ==>
        && res.status == 200 && res.body.DataBody? && res.body.message == None
        && |res.body.data| == |model.db.products|
        && (forall p :: (exists i :: 0 <= i < |res.body.data| && res.body.data[i].product == p) <==>
                        p.id in model.db.products && model.db.products[p.id] == p)
        && (forall i :: 0 <= i < |res.body.data| ==> LeftJoined(res.body.data[i], model.db.categories))
        && (forall i, j :: 0 <= i < j < |res.body.data| ==>
              res.body.data[i].product.createdAt > res.body.data[j].product.createdAt)
    {
      var products := model.FindAll();
      if products.Failure? {
        return Response(500, ErrorBody(ListFailed));
      }
      res := Response(200, DataBody(None, products.value));
    }

    method GetProduct(id: int) returns (res: Response<ProductView>)
      requires model.db.Valid()
      ensures !model.db.online || !IsInteger(id) ==> res == Response(500, ErrorBody(FetchFailed))
      ensures model.db.online && IsInteger(id) && id !in model.db.products ==> res == Response(404, ErrorBody(NotFound))
      ensures model.db.online && id in model.db.products ==>
        && res.status == 200 && res.body.DataBody? && res.body.message == None
        && res.body.data.product == model.db.products[id]
        && LeftJoined(res.body.data, model.db.categories)
    {
      var product := model.FindById(id);
      if product.Failure? {
        return Response(500, ErrorBody(FetchFailed));
      }
      if product.value.None? {
        return Response(404, ErrorBody(NotFound));
      }
      res := Response(200, DataBody(None, product.value.value));
    }

    /** No category check of its own: an unknown category id reaches the
        store, whose foreign key rejects it, and the reply is a 500, as it is
        for a text holding U+0000, a category id outside `INTEGER` and a
        title too wide for its column. */
    method CreateProduct(data: ProductData) returns (res: Response<Product>)
      requires model.db.Valid()
      modifies model.db`products, model.db`productSerial, model.db`clock
      ensures model.db.Valid()
      ensures !model.db.online ==> res == Response(500, ErrorBody(CreateFailed)) && unchanged(model.db)
      ensures model.db.online
              && (!ProductTextsBind(data) || !BindsAsInteger(data.categoryId) || ProductColumns(data).Failure?
                  || old(model.db.productSerial) > IntMax) ==>
        res == Response(500, ErrorBody(CreateFailed)) && unchanged(model.db)
      ensures model.db.online && ProductTextsBind(data) && BindsAsInteger(data.categoryId) && ProductColumns(data).Success?
              && old(model.db.productSerial) <= IntMax && Dangling(data.categoryId, model.db.categories) ==>
        && res == Response(500, ErrorBody(CreateFailed))
        && model.db.products == old(model.db.products)
        && model.db.productSerial == old(model.db.productSerial) + 1
        && model.db.clock == old(model.db.clock)
      ensures model.db.online && ProductTextsBind(data) && ProductColumns(data).Success? && old(model.db.productSerial) <= IntMax
              && !Dangling(data.categoryId, model.db.categories) ==>
        var stored := ProductColumns(data).value;
        var row := Product(old(model.db.productSerial), stored.title, stored.description, data.categoryId, old(model.db.clock));
        && res == Response(201, DataBody(Some(Created), row))
        && model.db.products == old(model.db.products)[row.id := row]
        && |model.db.products| == old(|model.db.products|) + 1
        && model.db.productSerial == old(model.db.productSerial) + 1
        && model.db.clock == old(model.db.clock) + 1
    {
      var product := model.Create(data);
      if product.Failure? {
        return Response(500, ErrorBody(CreateFailed));
      }
      res := Response(201, DataBody(Some(Created), product.value));
    }

    method UpdateProduct(id: int, data: ProductData) returns (res: Response<Product>)
      requires model.db.Valid()
      modifies model.db`products
      ensures model.db.Valid()
      ensures !model.db.online ==> res == Response(500, ErrorBody(UpdateFailed)) && unchanged(model.db)
      ensures model.db.online
              && (!ProductTextsBind(data) || !BindsAsInteger(data.categoryId) || !IsInteger(id) || ProductColumns(data).Failure?) ==>
        res == Response(500, ErrorBody(UpdateFailed)) && unchanged(model.db)
      ensures model.db.online && ProductTextsBind(data) && BindsAsInteger(data.categoryId) && IsInteger(id)
              && ProductColumns(data).Success? && id !in old(model.db.products) ==>
        res == Response(404, ErrorBody(NotFound)) && unchanged(model.db)
      ensures model.db.online && id in old(model.db.products) && Dangling(data.categoryId, model.db.categories) ==>
        res == Response(500, ErrorBody(UpdateFailed)) && unchanged(model.db)
      ensures model.db.online && ProductTextsBind(data) && id in old(model.db.products)
              && ProductColumns(data).Success? && !Dangling(data.categoryId, model.db.categories) ==>
        var stored := ProductColumns(data).value;
        var updated := old(model.db.products)[id].(title := stored.title, description := stored.description,
                                                    categoryId := data.categoryId);
        && res == Response(200, DataBody(Some(Updated), updated))
        && model.db.products == old(model.db.products)[id := updated]
    {
      var product := model.Update(id, data);
      if product.Failure? {
        return Response(500, ErrorBody(UpdateFailed));
      }
      if product.value.None? {
        return Response(404, ErrorBody(NotFound));
      }
      res := Response(200, DataBody(Some(Updated), product.value.value));
    }

    /** Count gate, then the model's delete. */
    method DeleteProduct(id: int) returns (res: Response<Product>)
      requires model.db.Valid()
      modifies model.db`products
      ensures model.db.Valid()
      ensures !model.db.online ==> res == Response(500, ErrorBody(DeleteFailed)) && unchanged(model.db)
      ensures model.db.online && old(|model.db.products|) <= 1 ==>
        res == Response(400, ErrorBody(LastProduct)) && unchanged(model.db)
      ensures model.db.online && old(|model.db.products|) > 1 && !IsInteger(id) ==>
        res == Response(500, ErrorBody(DeleteFailed)) && unchanged(model.db)
      ensures model.db.online && old(|model.db.products|) > 1 && IsInteger(id) && id !in old(model.db.products) ==>
        res == Response(404, ErrorBody(NotFound)) && unchanged(model.db)
      ensures model.db.online && old(|model.db.products|) > 1 && id in old(model.db.products) ==>
        && res == Response(200, DataBody(Some(Deleted), old(model.db.products)[id]))
        && model.db.products == old(model.db.products) - {id}
      ensures res.status == 200 <==> model.db.products != old(model.db.products)
      ensures res.status == 200 ==> |model.db.products| == old(|model.db.products|) - 1 >= 1
    {
      var count := model.Count();
      if count.Failure? {
        return Response(500, ErrorBody(DeleteFailed));
      }
      if count.value <= 1 {
        return Response(400, ErrorBody(LastProduct));
      }
      var product := model.Delete(id);
      if product.Failure? {
        return Response(500, ErrorBody(DeleteFailed));
      }
      if product.value.None? {
        return Response(404, ErrorBody(NotFound));
      }
      res := Response(200, DataBody(Some(Deleted), product.value.value));
    }

    method GetProductsCount() returns (res: Response<int>)
      ensures !model.db.online ==> res == Response(500, ErrorBody(CountFailed))
      ensures model.db.online ==> res == Response(200, DataBody(None, |model.db.products|))
    {
      var count := model.Count();
      if count.Failure? {
        return Response(500, ErrorBody(CountFailed));
      }
      res := Response(200, DataBody(None, count.value));
    }

    method GetCategoriesForDropdown() returns (res: Response<seq<CategoryOption>>)
      requires model.db.Valid()
      ensures !model.db.online ==> res == Response(500, ErrorBody(DropdownFailed))
      ensures model.db.online ==>
        && res.status == 200 && res.body.DataBody? && res.body.message == None
        && SortedByTitle(res.body.data)
        && |res.body.data| == |model.db.categories|
        && (forall o :: o in res.body.data <==> o.id in model.db.categories && model.db.categories[o.id].title == o.title)
    {
      var categories := model.GetCategoriesForDropdown();
      if categories.Failure? {
        return Response(500, ErrorBody(DropdownFailed));
      }
      res := Response(200, DataBody(None, categories.value));
    }
  }
}
