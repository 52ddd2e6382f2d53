/** The relational store the models query: three tables, one serial
    sequence per table, a clock for the `created_at` default, and whether the
    store can be reached.  The constraints the schema declares (primary keys,
    NOT NULL via the row types, the widths of the VARCHAR columns, the
    foreign key from products to categories, the UNIQUE email) are part of
    `Valid`. */
module Db {
  import opened Wrappers
  import opened Records
  import opened Utf8

  /** Widths of the `VARCHAR(n)` columns: `nom`, `prenom`, `email`,
      `telephone`, and the `title` of categories and of products. */
  const NameWidth: nat := 100
  const EmailWidth: nat := 255
  const PhoneWidth: nat := 20
  const TitleWidth: nat := 255

  /** The range of PostgreSQL's `INTEGER`, the type of every id column,
      of `category_id` and of the SERIAL sequences. */
  const IntMin: int := -0x8000_0000
  const IntMax: int := 0x7FFF_FFFF

  /** A nullable integer parameter binds when it is NULL or in range. */
  predicate BindsAsInteger(v: Option<int>)
  {
    v.None? || IsInteger(v.value)
  }

  /** The sequences behind the three `SERIAL` ids. */
  const CategorySequence := "categories_id_seq"
  const ProductSequence := "products_id_seq"
  const UserSequence := "users_id_seq"

  predicate IsInteger(v: int)
  {
    IntMin <= v <= IntMax
  }

  /** A text parameter travels as UTF-8, and the server refuses one holding
      a zero byte; only U+0000 encodes to one (`NulFreeWithoutZeroByte`). */
  predicate NulFree(s: string)
  {
    forall i :: 0 <= i < |s| ==> s[i] != '\0'
  }

  /** The server's test on a text parameter's bytes agrees with `NulFree`
      on its characters. */
  lemma NulFreeWithoutZeroByte(s: string)
    ensures NulFree(s) <==> forall i :: 0 <= i < |Encode(s)| ==> Encode(s)[i] != 0
  {
    if NulFree(s) {
      NoZeroByte(s);
    } else {
      var k :| 0 <= k < |s| && s[k] == '\0';
      NulEncodesToZero(s, k);
    }
  }

  /** Joining two NUL-free texts gives a NUL-free text. */
  lemma NulFreeAppend(a: string, b: string)
    requires NulFree(a) && NulFree(b)
    ensures NulFree(a + b)
  {
    forall i | 0 <= i < |a + b|
      ensures (a + b)[i] != '\0'
    {
      if i >= |a| {
        assert (a + b)[i] == b[i - |a|];
      }
    }
  }

  /** The text parameters of a category statement, `$1` and `$2`, bind. */
  predicate CategoryTextsBind(data: CategoryData)
  {
    NulFree(data.title) && NulFree(data.description)
  }

  /** The text parameters of a product statement, `$1` and `$2`, bind. */
  predicate ProductTextsBind(data: ProductData)
  {
    NulFree(data.title) && NulFree(data.description)
  }

  /** The text parameters of the user insert, `$1` to `$4`, bind; the fifth
      is the hash, whose text never holds U+0000. */
  predicate UserTextsBind(data: NewUser)
  {
    && NulFree(data.nom) && NulFree(data.prenom) && NulFree(data.email)
    && (data.telephone.Some? ==> NulFree(data.telephone.value))
  }

  /** The failures of a statement, in the order the server meets them: the
      connection; binding the parameters one by one in their order, where a
      text holding a zero byte (`InvalidByteSequence`) or an integer outside
      `INTEGER` (`OutOfRange`) is refused; planning, which folds the
      `VARCHAR(n)` cut of each bound text (`ValueTooLong`); and executing,
      which draws the serial (`SequenceExhausted`) and checks the foreign key
      and UNIQUE. */
  datatype StoreError =
    | Unavailable
    | InvalidByteSequence
    | OutOfRange(value: int)
    | ValueTooLong(width: nat)
    | SequenceExhausted(sequence: string)
    | ForeignKeyViolation
    | UniqueViolation

  /** The text of the error the driver raises. */
  function StoreMessage(e: StoreError): string
  {
    match e
    case Unavailable => "Connection terminated unexpectedly"
    case InvalidByteSequence => "invalid byte sequence for encoding \"UTF8\": 0x00"
    case ForeignKeyViolation => "insert or update on table \"products\" violates foreign key constraint \"products_category_id_fkey\""
    case UniqueViolation => "duplicate key value violates unique constraint \"users_email_key\""
    case ValueTooLong(width) => "value too long for type character varying(" + Decimal(width) + ")"
    case OutOfRange(v) => "value \"" + IntText(v) + "\" is out of range for type integer"
    case SequenceExhausted(name) =>
      "nextval: reached maximum value of sequence \"" + name + "\" (" + Decimal(IntMax) + ")"
  }

  /** An out-of-range error's text is plain ASCII: fixed words around the
      value's digits. */
  lemma OutOfRangeMessageAscii(v: int)
    ensures forall i :: 0 <= i < |StoreMessage(OutOfRange(v))| ==> StoreMessage(OutOfRange(v))[i] as int < 0x80
  {
    var head, digits, tail := "value \"", IntText(v), "\" is out of range for type integer";
    var message := StoreMessage(OutOfRange(v));
    assert message == head + digits + tail;
    assert forall j :: 0 <= j < |tail| ==> tail[j] as int < 0x80;
    forall i | 0 <= i < |message|
      ensures message[i] as int < 0x80
    {
      if i < |head| {
        assert message[i] == head[i];
      } else if i < |head| + |digits| {
        assert message[i] == digits[i - |head|];
      } else {
        assert message[i] == tail[i - |head| - |digits|];
      }
    }
  }

  /** The decimal text of an integer, with a minus sign when negative. */
  function IntText(v: int): (s: string)
    ensures forall i :: 0 <= i < |s| ==> s[i] == '-' || '0' <= s[i] <= '9'
  {
    if v < 0 then "-" + Decimal(-v) else Decimal(v)
  }

  /** The decimal digits of `n`. */
  function Decimal(n: nat): (s: string)
    ensures forall i :: 0 <= i < |s| ==> '0' <= s[i] <= '9'
  {
    if n < 10 then [(n + '0' as int) as char] else Decimal(n / 10) + Decimal(n % 10)
  }

  /** Whether a `VARCHAR(n)` column accepts a text: it is at most `n`
      characters long, or only spaces follow its `n`-th character. */
  predicate Fits(n: nat, s: string)
  {
    |s| <= n || forall i :: n <= i < |s| ==> s[i] == ' '
  }

  /** Assigning a text to a `VARCHAR(n)` column: a text of at most `n`
      characters is stored as it is; a longer one is cut to `n` characters
      when everything past the `n`-th is a space, and rejected otherwise. */
  function VarChar(n: nat, s: string): (r: Option<string>)
    ensures r.Some? <==> Fits(n, s)
    ensures r.Some? ==> r.value <= s && |r.value| == (if |s| <= n then |s| else n)
    ensures r.Some? ==> forall i :: |r.value| <= i < |s| ==> s[i] == ' '
    ensures |s| <= n ==> r == Some(s)
  {
    if |s| <= n then Some(s)
    else if forall i :: n <= i < |s| ==> s[i] == ' ' then Some(s[..n])
    else None
  }

  /** The values a category row stores for a request: the title goes
      through its column's width. */
  function CategoryColumns(data: CategoryData): (r: Result<CategoryData, StoreError>)
    ensures r.Success? <==> Fits(TitleWidth, data.title)
    ensures r.Success? ==> r.value == data.(title := VarChar(TitleWidth, data.title).value)
    ensures r.Success? ==> |r.value.title| <= TitleWidth && r.value.description == data.description
    ensures r.Failure? ==> r.error == ValueTooLong(TitleWidth)
    ensures |data.title| <= TitleWidth ==> r == Success(data)
  {
    match VarChar(TitleWidth, data.title)
    case None => Failure(ValueTooLong(TitleWidth))
    case Some(title) => Success(data.(title := title))
  }

  /** The values a product row stores for a request. */
  function ProductColumns(data: ProductData): (r: Result<ProductData, StoreError>)
    ensures r.Success? <==> Fits(TitleWidth, data.title)
    ensures r.Success? ==> r.value == data.(title := VarChar(TitleWidth, data.title).value)
    ensures r.Success? ==>
      && |r.value.title| <= TitleWidth
      && r.value.description == data.description && r.value.categoryId == data.categoryId
    ensures r.Failure? ==> r.error == ValueTooLong(TitleWidth)
    ensures |data.title| <= TitleWidth ==> r == Success(data)
  {
    match VarChar(TitleWidth, data.title)
    case None => Failure(ValueTooLong(TitleWidth))
    case Some(title) => Success(data.(title := title))
  }

  /** Whether a user's texts fit the widths of their columns. */
  predicate UserFits(nom: string, prenom: string, email: string, telephone: Option<string>)
  {
    && |nom| <= NameWidth && |prenom| <= NameWidth && |email| <= EmailWidth
    && (telephone.Some? ==> |telephone.value| <= PhoneWidth)
  }

  /** The values a user row stores for a registration.  The columns are
      assigned in table order, so the first one that rejects its value
      names the error. */
  function UserColumns(data: NewUser): (r: Result<NewUser, StoreError>)
    ensures r.Success? ==>
      && UserFits(r.value.nom, r.value.prenom, r.value.email, r.value.telephone)
      && r.value.password == data.password
      && r.value.telephone.Some? == data.telephone.Some?
    ensures r.Success? <==>
      && Fits(NameWidth, data.nom) && Fits(NameWidth, data.prenom) && Fits(EmailWidth, data.email)
      && (data.telephone.Some? ==> Fits(PhoneWidth, data.telephone.value))
    ensures !Fits(NameWidth, data.nom) || !Fits(NameWidth, data.prenom) ==> r == Failure(ValueTooLong(NameWidth))
    ensures Fits(NameWidth, data.nom) && Fits(NameWidth, data.prenom) && !Fits(EmailWidth, data.email) ==>
      r == Failure(ValueTooLong(EmailWidth))
    ensures && Fits(NameWidth, data.nom) && Fits(NameWidth, data.prenom) && Fits(EmailWidth, data.email)
            && data.telephone.Some? && !Fits(PhoneWidth, data.telephone.value) ==>
      r == Failure(ValueTooLong(PhoneWidth))
    ensures r.Success? ==>
      && r.value.nom == VarChar(NameWidth, data.nom).value
      && r.value.prenom == VarChar(NameWidth, data.prenom).value
      && r.value.email == VarChar(EmailWidth, data.email).value
      && (data.telephone.Some? ==> r.value.telephone == Some(VarChar(PhoneWidth, data.telephone.value).value))
    ensures r.Failure? ==> r.error.ValueTooLong?
    ensures UserFits(data.nom, data.prenom, data.email, data.telephone) ==> r == Success(data)
  {
    var nom := VarChar(NameWidth, data.nom);
    var prenom := VarChar(NameWidth, data.prenom);
    var email := VarChar(EmailWidth, data.email);
    var telephone := if data.telephone.None? then Some(None) else
                       match VarChar(PhoneWidth, data.telephone.value)
                       case None => None
                       case Some(t) => Some(Some(t));
    if nom.None? || prenom.None? then Failure(ValueTooLong(NameWidth))
    else if email.None? then Failure(ValueTooLong(EmailWidth))
    else if telephone.None? then Failure(ValueTooLong(PhoneWidth))
    else Success(NewUser(nom.value, prenom.value, email.value, telephone.value, data.password))
  }

  /** Rows are stored under their id, ids come from the serial (which
      stops at the largest `INTEGER`), a row with a larger id was created
      later, and every title fits its column. */
  ghost predicate CategoryTable(m: map<int, Category>, serial: int, clock: int)
  {
    && 1 <= serial <= IntMax + 1
    && (forall k :: k in m ==> m[k].id == k && 1 <= k < serial && m[k].createdAt < clock && |m[k].title| <= TitleWidth)
    && (forall a, b :: a in m && b in m && a < b ==> m[a].createdAt < m[b].createdAt)
  }

  ghost predicate ProductTable(m: map<int, Product>, serial: int, clock: int)
  {
    && 1 <= serial <= IntMax + 1
    && (forall k :: k in m ==> m[k].id == k && 1 <= k < serial && m[k].createdAt < clock && |m[k].title| <= TitleWidth)
    && (forall a, b :: a in m && b in m && a < b ==> m[a].createdAt < m[b].createdAt)
  }

  /** Every stored text fits its column, and `email` is UNIQUE. */
  ghost predicate UserTable(m: map<int, User>, serial: int, clock: int)
  {
    && 1 <= serial <= IntMax + 1
    && (forall k :: k in m ==> m[k].id == k && 1 <= k < serial && m[k].createdAt < clock)
    && (forall k :: k in m ==> UserFits(m[k].nom, m[k].prenom, m[k].email, m[k].telephone))
    && (forall a, b :: a in m && b in m && m[a].email == m[b].email ==> a == b)
  }

  /** `category_id INTEGER REFERENCES categories(id)`. */
  ghost predicate ForeignKeys(products: map<int, Product>, categories: map<int, Category>)
  {
    forall k :: k in products && products[k].categoryId.Some? ==> products[k].categoryId.value in categories
  }

  /** Some product references category `id`. */
  ghost predicate Referenced(products: map<int, Product>, id: int)
  {
    exists k :: k in products && products[k].categoryId == Some(id)
  }

  /** Some stored user has exactly this email. */
  ghost predicate EmailTaken(users: map<int, User>, email: string)
  {
    exists k :: k in users && users[k].email == email
  }

  /** `ON DELETE SET NULL`: what deleting category `id` does to products. */
  function SetNullReferences(products: map<int, Product>, id: int): (r: map<int, Product>)
    ensures r.Keys == products.Keys
  {
    map k | k in products :: if products[k].categoryId == Some(id) then products[k].(categoryId := None) else products[k]
  }

  /** The set-null action touches nothing when nothing references the row. */
  lemma SetNullUnreferenced(products: map<int, Product>, id: int)
    requires !Referenced(products, id)
    ensures SetNullReferences(products, id) == products
  {
    var r := SetNullReferences(products, id);
    forall k | k in products
      ensures r[k] == products[k]
    {
    }
  }

  /** After the set-null action no product references the deleted id, and
      every other reference is kept. */
  lemma SetNullClearsReferences(products: map<int, Product>, id: int)
    ensures !Referenced(SetNullReferences(products, id), id)
    ensures forall k :: k in products && products[k].categoryId != Some(id) ==>
              SetNullReferences(products, id)[k] == products[k]
  {
  }

  class Database {
    var categories: map<int, Category>
    var products: map<int, Product>
    var users: map<int, User>
    var categorySerial: int
    var productSerial: int
    var userSerial: int
    var clock: int
    var online: bool

    ghost predicate Valid()
      reads this
    {
      && CategoryTable(categories, categorySerial, clock)
      && ProductTable(products, productSerial, clock)
      && UserTable(users, userSerial, clock)
      && ForeignKeys(products, categories)
    }

    /** An empty store whose sequences start at 1. */
    constructor (online: bool)
      ensures Valid()
      ensures categories == map[] && products == map[] && users == map[]
      ensures categorySerial == 1 && productSerial == 1 && userSerial == 1
      ensures clock == 0 && this.online == online
    {
      categories, products, users := map[], map[], map[];
      categorySerial, productSerial, userSerial := 1, 1, 1;
      clock := 0;
      this.online := online;
    }
  }
}
