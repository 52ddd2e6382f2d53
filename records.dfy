/** Rows of the three tables, the request data the controllers pass to the
    models, and the shapes the queries return. */
module Records {
  import opened Wrappers
  import opened Credentials

  /** A row of `categories`; `createdAt` is the store's creation stamp. */
  datatype Category = Category(id: int, title: string, description: string, createdAt: int)

  /** The title and description a create or update request carries. */
  datatype CategoryData = CategoryData(title: string, description: string)

  /** A row of `products`; `categoryId` is the nullable foreign key. */
  datatype Product = Product(id: int, title: string, description: string, categoryId: Option<int>, createdAt: int)

  /** A create or update request; an omitted category id is `None` and is
      written as NULL. */
  datatype ProductData = ProductData(title: string, description: string, categoryId: Option<int>)

  /** A product row left-joined with the title of its category
      (`category_name`), NULL when no category matches. */
  datatype ProductView = ProductView(product: Product, categoryName: Option<string>)

  /** An `(id, title)` pair of the category picker. */
  datatype CategoryOption = CategoryOption(id: int, title: string)

  /** A row of `users`: the password column holds a credential, never the
      plaintext. */
  datatype User = User(id: int, nom: string, prenom: string, email: string,
                       telephone: Option<string>, password: PasswordHash, createdAt: int)

  /** What registration submits. */
  datatype NewUser = NewUser(nom: string, prenom: string, email: string,
                             telephone: Option<string>, password: string)

  /** The columns `create` returns and `findById` selects: there is no
      password field at all. */
  datatype PublicUser = PublicUser(id: int, nom: string, prenom: string, email: string,
                                   telephone: Option<string>, createdAt: int)

  function Public(u: User): PublicUser
  {
    PublicUser(u.id, u.nom, u.prenom, u.email, u.telephone, u.createdAt)
  }
}
