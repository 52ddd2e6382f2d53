/** The authentication controller: registration (email check, then insert,
    then a token), login (lookup, then password check, then a token),
    the public email check and the profile of the authenticated user.
    Login answers an unknown email and a wrong password with the same 401,
    so a caller cannot tell which of the two happened. */
module AuthApi {
  import opened Wrappers
  import opened Records
  import opened Credentials
  import opened Http
  import opened Db
  import opened UserStore

  const EmailInUse := "Cet email est déjà utilisé"
  const Registered := "Utilisateur créé avec succès"
  const RegisterFailed := "Erreur lors de l inscription"
  const BadCredentials := "Email ou mot de passe incorrect"
  const LoggedIn := "Connexion réussie"
  const LoginFailed := "Erreur lors de la connexion"
  const CheckFailed := "Erreur lors de la vérification"
  const UserNotFound := "Utilisateur non trouvé"
  const ProfileFailed := "Erreur lors de la récupération du profil"

  /** The `{token, user}` part of a registration or login reply; the user
      object has no password field. */
  datatype Session = Session(token: Token, user: PublicUser)

  /** Some account has this email and accepts this password. */
  ghost predicate Authenticates(users: map<int, User>, email: string, password: string)
  {
    exists k :: k in users && users[k].email == email && CheckPassword(password, users[k].password)
  }

  class AuthController {
    const model: UserModel

    constructor (db: Database, jwtSecret: string)
      ensures model.db == db && model.jwtSecret == jwtSecret
    {
      model := new UserModel(db, jwtSecret);
    }

    /** Check the email, then insert; the reply carries a token for the new
        id.  `salt` is bcrypt's random salt and `now` the signing time. */
    method Register(data: NewUser, salt: int, now: int) returns (res: Response<Session>)
      requires model.db.Valid()
      modifies model.db`users, model.db`userSerial, model.db`clock
      ensures model.db.Valid()
      ensures !model.db.online ==> res == Response(500, ErrorBody(RegisterFailed)) && unchanged(model.db)
      ensures model.db.online && !NulFree(data.email) ==> res == Response(500, ErrorBody(RegisterFailed)) && unchanged(model.db)
      ensures model.db.online && NulFree(data.email) && EmailTaken(old(model.db.users), data.email) ==>
        res == Response(400, ErrorBody(EmailInUse)) && unchanged(model.db)
      ensures model.db.online && !EmailTaken(old(model.db.users), data.email)
              && (!UserTextsBind(data) || UserColumns(data).Failure? || old(model.db.userSerial) > IntMax) ==>
        res == Response(500, ErrorBody(RegisterFailed)) && unchanged(model.db)
      ensures model.db.online && !EmailTaken(old(model.db.users), data.email) && UserTextsBind(data)
              && UserColumns(data).Success? && old(model.db.userSerial) <= IntMax
              && EmailTaken(old(model.db.users), UserColumns(data).value.email) ==>
        && res == Response(500, ErrorBody(RegisterFailed))
        && model.db.users == old(model.db.users)
        && model.db.userSerial == old(model.db.userSerial) + 1
        && model.db.clock == old(model.db.clock)
      ensures model.db.online && !EmailTaken(old(model.db.users), data.email) && UserTextsBind(data)
              && UserColumns(data).Success? && old(model.db.userSerial) <= IntMax && !EmailTaken(old(model.db.users), UserColumns(data).value.email) ==>
        var stored := UserColumns(data).value;
        var row := User(old(model.db.userSerial), stored.nom, stored.prenom, stored.email, stored.telephone,
                        Hash(data.password, salt), old(model.db.clock));
        && res == Response(201, DataBody(Some(Registered),
                                         Session(GenerateToken(row.id, now, model.jwtSecret), Public(row))))
        && model.db.users == old(model.db.users)[row.id := row]
        && model.db.userSerial == old(model.db.userSerial) + 1
        && model.db.clock == old(model.db.clock) + 1
      ensures model.db.online && UserTextsBind(data) && UserColumns(data) == Success(data)
              && old(model.db.userSerial) <= IntMax ==>
        EmailTaken(model.db.users, data.email)
    {
      var taken := model.EmailExists(data.email);
      if taken.Failure? {
        return Response(500, ErrorBody(RegisterFailed));
      }
      if taken.value {
        return Response(400, ErrorBody(EmailInUse));
      }
      var user := model.Create(data, salt);
      if user.Failure? {
        return Response(500, ErrorBody(RegisterFailed));
      }
      var token := GenerateToken(user.value.id, now, model.jwtSecret);
      res := Response(201, DataBody(Some(Registered), Session(token, user.value)));
    }

    /** Find the account by email, compare the password, issue a token. */
    method Login(email: string, password: string, now: int) returns (res: Response<Session>)
      requires model.db.Valid()
      ensures !model.db.online || !NulFree(email) ==> res == Response(500, ErrorBody(LoginFailed))
      ensures model.db.online && NulFree(email) && !Authenticates(model.db.users, email, password) ==>
        res == Response(401, ErrorBody(BadCredentials))
      ensures model.db.online && NulFree(email) && Authenticates(model.db.users, email, password) ==>
        exists k :: k in model.db.users && model.db.users[k].email == email &&
          res == Response(200, DataBody(Some(LoggedIn),
                                        Session(GenerateToken(k, now, model.jwtSecret), Public(model.db.users[k]))))
    {
      var user := model.FindByEmail(email);
      if user.Failure? {
        return Response(500, ErrorBody(LoginFailed));
      }
      if user.value.None? {
        return Response(401, ErrorBody(BadCredentials));
      }
      var found := user.value.value;
      var isPasswordValid := CheckPassword(password, found.password);
      if !isPasswordValid {
        return Response(401, ErrorBody(BadCredentials));
      }
      var token := GenerateToken(found.id, now, model.jwtSecret);
      res := Response(200, DataBody(Some(LoggedIn), Session(token, Public(found))));
    }

    /** `{exists}`: whether the email is taken; nothing is written. */
    method CheckEmail(email: string) returns (res: Response<bool>)
      ensures !model.db.online || !NulFree(email) ==> res == Response(500, ErrorBody(CheckFailed))
      ensures model.db.online && NulFree(email) ==> res == Response(200, DataBody(None, EmailTaken(model.db.users, email)))
    {
      var taken := model.EmailExists(email);
      if taken.Failure? {
        return Response(500, ErrorBody(CheckFailed));
      }
      res := Response(200, DataBody(None, taken.value));
    }

    /** The profile of the user id the token resolved to. */
    method GetProfile(userId: int) returns (res: Response<PublicUser>)
      requires model.db.Valid()
      ensures !model.db.online || !IsInteger(userId) ==> res == Response(500, ErrorBody(ProfileFailed))
      ensures model.db.online && IsInteger(userId) && userId !in model.db.users ==> res == Response(404, ErrorBody(UserNotFound))
      ensures model.db.online && userId in model.db.users ==>
        res == Response(200, DataBody(None, Public(model.db.users[userId])))
    {
      var user := model.FindById(userId);
      if user.Failure? {
        return Response(500, ErrorBody(ProfileFailed));
      }
      if user.value.None? {
        return Response(404, ErrorBody(UserNotFound));
      }
      res := Response(200, DataBody(None, user.value.value));
    }
  }
}
