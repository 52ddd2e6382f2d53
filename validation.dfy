/** The request-body rules run before the controllers, and the step that
    stops the request when any rule failed.  A body is the set of fields the
    client sent, each read as text; a field that was not sent reads as the
    empty text, as the rules see it.  Each rule contributes at most one
    error, in the order the rules are listed. */
module Validation {
  import opened Http

  type RequestBody = map<string, string>

  const NomRequired := "Le nom est requis"
  const PrenomRequired := "Le prénom est requis"
  const InvalidEmail := "Email invalide"
  const PasswordTooShort := "Le mot de passe doit contenir au moins 6 caractères"
  const InvalidPhone := "Numéro de téléphone invalide"
  const PasswordRequired := "Le mot de passe est requis"
  const TitleRequired := "Le titre est requis"
  const DescriptionRequired := "La description est requise"
  const InvalidCategoryId := "ID de catégorie invalide"
  const InvalidData := "Données invalides"

  /** The text a rule checks for a field. */
  function Field(body: RequestBody, name: string): string
  {
    if name in body then body[name] else ""
  }

  /** One rule: no error when `ok`, otherwise the rule's message for the field. */
  function Rule(ok: bool, name: string, msg: string): (errs: seq<FieldError>)
    ensures FieldError(name, msg) in errs <==> !ok
    ensures forall e :: e in errs ==> e.path == name
  {
    if ok then [] else [FieldError(name, msg)]
  }

  /** A signed run of decimal digits (leading zeros allowed). */
  predicate IsIntText(s: string)
  {
    var digits := if |s| > 0 && (s[0] == '+' || s[0] == '-') then s[1..] else s;
    |digits| > 0 && forall i :: 0 <= i < |digits| ==> '0' <= digits[i] <= '9'
  }

  /** The two variation selectors, U+FE0E and U+FE0F, that only choose how
      the character before them is drawn. */
  predicate IsVariationSelector(c: char)
  {
    c == '\U{FE0E}' || c == '\U{FE0F}'
  }

  /** The length `isLength` measures: one per character (a character beyond
      U+FFFF counts once), and nothing for a variation selector. */
  function MeasuredLength(s: string): (n: nat)
    ensures n <= |s|
    ensures (forall i :: 0 <= i < |s| ==> !IsVariationSelector(s[i])) ==> n == |s|
    ensures (forall i :: 0 <= i < |s| ==> IsVariationSelector(s[i])) ==> n == 0
  {
    if s == [] then 0
    else (if IsVariationSelector(s[0]) then 0 else 1) + MeasuredLength(s[1..])
  }

  /** The measured length of a joined text is the sum of its parts'. */
  lemma {:induction false} MeasuredLengthAppend(s: string, t: string)
    ensures MeasuredLength(s + t) == MeasuredLength(s) + MeasuredLength(t)
    decreases |s|
  {
    if s == [] {
      assert s + t == t;
    } else {
      assert (s + t)[0] == s[0] && (s + t)[1..] == s[1..] + t;
      MeasuredLengthAppend(s[1..], t);
    }
  }

  /** Registration: names non-empty, a well-formed email (as judged by
      `isEmail`), a password of at least 6 measured characters, and a
      telephone of at least 8 when one is sent. */
  function RegisterErrors(body: RequestBody, isEmail: string -> bool): (errs: seq<FieldError>)
    ensures errs == [] <==>
      && Field(body, "nom") != ""
      && Field(body, "prenom") != ""
      && isEmail(Field(body, "email"))
      && MeasuredLength(Field(body, "password")) >= 6
      && ("telephone" in body ==> MeasuredLength(body["telephone"]) >= 8)
    ensures FieldError("nom", NomRequired) in errs <==> Field(body, "nom") == ""
    ensures FieldError("prenom", PrenomRequired) in errs <==> Field(body, "prenom") == ""
    ensures FieldError("email", InvalidEmail) in errs <==> !isEmail(Field(body, "email"))
    ensures FieldError("password", PasswordTooShort) in errs <==> MeasuredLength(Field(body, "password")) < 6
    ensures FieldError("telephone", InvalidPhone) in errs <==> "telephone" in body && MeasuredLength(body["telephone"]) < 8
  {
    Rule(Field(body, "nom") != "", "nom", NomRequired)
    + Rule(Field(body, "prenom") != "", "prenom", PrenomRequired)
    + Rule(isEmail(Field(body, "email")), "email", InvalidEmail)
    + Rule(MeasuredLength(Field(body, "password")) >= 6, "password", PasswordTooShort)
    + Rule("telephone" !in body || MeasuredLength(body["telephone"]) >= 8, "telephone", InvalidPhone)
  }

  /** Login: a well-formed email and a non-empty password. */
  function LoginErrors(body: RequestBody, isEmail: string -> bool): (errs: seq<FieldError>)
    ensures errs == [] <==> isEmail(Field(body, "email")) && Field(body, "password") != ""
    ensures FieldError("email", InvalidEmail) in errs <==> !isEmail(Field(body, "email"))
    ensures FieldError("password", PasswordRequired) in errs <==> Field(body, "password") == ""
  {
    Rule(isEmail(Field(body, "email")), "email", InvalidEmail)
    + Rule(Field(body, "password") != "", "password", PasswordRequired)
  }

  /** Category: title and description both non-empty. */
  function CategoryErrors(body: RequestBody): (errs: seq<FieldError>)
    ensures errs == [] <==> Field(body, "title") != "" && Field(body, "description") != ""
    ensures FieldError("title", TitleRequired) in errs <==> Field(body, "title") == ""
    ensures FieldError("description", DescriptionRequired) in errs <==> Field(body, "description") == ""
  {
    Rule(Field(body, "title") != "", "title", TitleRequired)
    + Rule(Field(body, "description") != "", "description", DescriptionRequired)
  }

  /** Product: title and description non-empty, and a category id, when
      sent, written as an integer. */
  function ProductErrors(body: RequestBody): (errs: seq<FieldError>)
    ensures errs == [] <==>
      && Field(body, "title") != ""
      && Field(body, "description") != ""
      && ("category_id" in body ==> IsIntText(body["category_id"]))
    ensures FieldError("title", TitleRequired) in errs <==> Field(body, "title") == ""
    ensures FieldError("description", DescriptionRequired) in errs <==> Field(body, "description") == ""
    ensures FieldError("category_id", InvalidCategoryId) in errs <==>
      "category_id" in body && !IsIntText(body["category_id"])
  {
    Rule(Field(body, "title") != "", "title", TitleRequired)
    + Rule(Field(body, "description") != "", "description", DescriptionRequired)
    + Rule("category_id" !in body || IsIntText(body["category_id"]), "category_id", InvalidCategoryId)
  }

  /** Either the request goes on to the next handler, or it stops here with
      this response. */
  datatype Step = Next | Halt(response: Response<()>)

  /** Stop with a 400 listing every error when there is one; go on exactly
      when there is none. */
  function HandleValidationErrors(errors: seq<FieldError>): (s: Step)
    ensures s.Next? <==> errors == []
    ensures s.Halt? ==> s.response.status == 400 && s.response.body == InvalidBody(InvalidData, errors)
  {
    if errors != [] then Halt(Response(400, InvalidBody(InvalidData, errors))) else Next
  }

  /** A category body with an empty title never reaches the controller. */
  lemma EmptyTitleHalts(body: RequestBody)
    requires Field(body, "title") == ""
    ensures HandleValidationErrors(CategoryErrors(body)).Halt?
    ensures FieldError("title", TitleRequired) in HandleValidationErrors(CategoryErrors(body)).response.body.details
  {
  }
}
