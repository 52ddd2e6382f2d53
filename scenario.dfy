/** The seeded catalog (two categories, one product in each) run through
    the delete guards, and one account run through registration and login. */
module Scenario {
  import opened Wrappers
  import opened Records
  import opened Credentials
  import opened Http
  import opened Db
  import opened CategoryStore
  import opened CategoryApi
  import opened ProductApi
  import opened AuthApi

  /** The seed rows of `init-db.js` and the account registered below.  The
      longer descriptions are written as two joined pieces, so that each
      piece's NUL-freedom is shown on its own. */
  const Electronics := CategoryData("Électronique", "Smartphones, ordinateurs, " + "accessoires tech")
  const Clothing := CategoryData("Vêtements", "Habits pour hommes, " + "femmes et enfants")
  const Phone := ProductData("iPhone 14 Pro", "Smartphone Apple 128GB " + "avec écran Dynamic Island", Some(1))
  const Shirt := ProductData("T-shirt Blanc", "T-shirt coton 100% qualité " + "premium, toutes tailles", Some(2))
  const Admin := NewUser("Admin", "User", "admin@myapp.com", Some("+2250102030405"), "password123")

  /** No seed text holds U+0000, so each binds as a parameter. */
  lemma SeedCategoriesBind()
    ensures CategoryTextsBind(Electronics) && CategoryTextsBind(Clothing)
  {
    NulFreeAppend("Smartphones, ordinateurs, ", "accessoires tech");
    NulFreeAppend("Habits pour hommes, ", "femmes et enfants");
  }

  lemma SeedProductsBind()
    ensures ProductTextsBind(Phone) && ProductTextsBind(Shirt)
  {
    NulFreeAppend("Smartphone Apple 128GB ", "avec écran Dynamic Island");
    NulFreeAppend("T-shirt coton 100% qualité ", "premium, toutes tailles");
  }

  lemma AdminBinds()
    ensures UserTextsBind(Admin) && NulFree("nobody@myapp.com")
  {
  }

  /** The seeded categories: 1 and 2, no product yet.  `init-db.js` inserts
      both in one statement, so there they share one `CURRENT_TIMESTAMP`
      and their newest-first order is not fixed; here they are inserted one
      after the other, and each gets its own stamp. */
  method SeedCategories() returns (db: Database)
    ensures fresh(db) && db.Valid() && db.online
    ensures db.categories.Keys == {1, 2} && |db.categories| == 2
    ensures db.products == map[] && db.productSerial == 1
  {
    db := new Database(true);
    var categories := new CategoryController(db);
    SeedCategoriesBind();
    var electronics := categories.CreateCategory(Electronics);
    var clothing := categories.CreateCategory(Clothing);
  }

  /** The seed rows: two categories and one product filed under each.  As
      with the categories, the two products share one insert, and one stamp,
      in `init-db.js`, but get one each here. */
  method Seed() returns (db: Database)
    ensures fresh(db) && db.Valid() && db.online
    ensures db.categories.Keys == {1, 2} && |db.categories| == 2
    ensures db.products.Keys == {1, 2} && |db.products| == 2
    ensures db.products[1].categoryId == Some(1) && db.products[2].categoryId == Some(2)
  {
    db := SeedCategories();
    var products := new ProductController(db);
    SeedProductsBind();
    assert ProductColumns(Phone) == Success(Phone) && ProductColumns(Shirt) == Success(Shirt);
    var phone := products.CreateProduct(Phone);
    var shirt := products.CreateProduct(Shirt);
    assert db.products.Keys == {1, 2};
  }

  /** On the seed, deleting category 1 is refused because product 1 uses
      it; deleting product 1 then goes through. */
  method ReleaseCategory() returns (db: Database, first: Response<Category>, second: Response<Product>)
    ensures fresh(db) && db.Valid() && db.online
    ensures first == Response(400, ErrorBody(CategoryInUse))
    ensures second.status == 200
    ensures db.categories.Keys == {1, 2} && |db.categories| == 2
    ensures db.products.Keys == {2} && db.products[2].categoryId == Some(2)
  {
    db := Seed();
    var categories := new CategoryController(db);
    var products := new ProductController(db);
    assert Referenced(db.products, 1) by { assert db.products[1].categoryId == Some(1); }
    first := categories.DeleteCategory(1);
    second := products.DeleteProduct(1);
    assert db.products.Keys == {2};
  }

  /** Deleting a used category is refused; once its product is gone the
      delete goes through; the last category then cannot be deleted. */
  method DeleteGuardsOnSeed() returns (first: Response<Category>, second: Response<Product>,
                                       third: Response<Category>, fourth: Response<Category>, left: int)
    ensures first == Response(400, ErrorBody(CategoryInUse))
    ensures second.status == 200
    ensures third.status == 200 && left == 1
    ensures fourth == Response(400, ErrorBody(LastCategory))
  {
    var db;
    db, first, second := ReleaseCategory();
    var categories := new CategoryController(db);
    assert !Referenced(db.products, 1);
    third := categories.DeleteCategory(1);
    left := |db.categories|;
    fourth := categories.DeleteCategory(2);
  }

  /** The seeded password's credential refuses a shorter password. */
  lemma WrongPasswordRejected()
    ensures !CheckPassword("password", Hash("password123", 7))
  {
    AsciiPasswordExact("password123", "password", 7);
  }

  /** A second registration with the same email is refused; an unknown
      email and a wrong password get the same reply at login. */
  method RegistrationAndLogin() returns (registered: Response<Session>, again: Response<Session>,
                                         unknown: Response<Session>, wrong: Response<Session>,
                                         right: Response<Session>)
    ensures registered.status == 201 && again == Response(400, ErrorBody(EmailInUse))
    ensures unknown == wrong == Response(401, ErrorBody(BadCredentials))
    ensures right.status == 200 && right.body.DataBody? && right.body.data.token.claims.userId == 1
  {
    var db := new Database(true);
    var auth := new AuthController(db, "secret");
    AdminBinds();
    registered := auth.Register(Admin, 7, 1000);
    again := auth.Register(Admin, 8, 1001);
    unknown := auth.Login("nobody@myapp.com", "password123", 1002);
    WrongPasswordRejected();
    assert forall k :: k in db.users ==> k == 1;
    wrong := auth.Login("admin@myapp.com", "password", 1003);
    CheckPasswordExact("password123", "password123", 7);
    assert db.users[1].email == "admin@myapp.com";
    right := auth.Login("admin@myapp.com", "password123", 1004);
  }
}
