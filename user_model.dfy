/** The account directory: registration inserts a row holding the hash of
    the password, and lookups by email or id.  Only `FindByEmail` returns the
    stored credential; `Create` and `FindById` return the public columns. */
module UserStore {
  import opened Wrappers
  import opened Records
  import opened Credentials
  import opened Db

  /** `SELECT COUNT(*) FROM users WHERE email = $1`. */
  function EmailCount(users: map<int, User>, email: string): (n: nat)
    ensures n > 0 <==> EmailTaken(users, email)
  {
    var matches := set k | k in users && users[k].email == email;
    assert EmailTaken(users, email) ==> |matches| > 0 by {
      if EmailTaken(users, email) {
        var k :| k in users && users[k].email == email;
        assert k in matches;
      }
    }
    assert !EmailTaken(users, email) ==> matches == {} by {
      if !EmailTaken(users, email) {
        forall k
          ensures k !in matches
        {
        }
      }
    }
    |matches|
  }

  class UserModel {
    const db: Database
    /** The signing key, read once from the environment. */
    const jwtSecret: string

    constructor (db: Database, jwtSecret: string)
      ensures this.db == db && this.jwtSecret == jwtSecret
    {
      this.db := db;
      this.jwtSecret := jwtSecret;
    }

    /** Hash the password under the given salt, then `INSERT ... RETURNING`
        the public columns.  A text holding U+0000 is refused when it is
        bound and a text too wide for its column while the statement is
        planned, both before the id is drawn; the id is drawn
        next, so it is used up when the UNIQUE email constraint rejects a
        second account with the same stored email. */
    method Create(data: NewUser, salt: int) returns (r: Result<PublicUser, StoreError>)
      requires db.Valid()
      modifies db`users, db`userSerial, db`clock
      ensures db.Valid()
      ensures !db.online ==> r == Failure(Unavailable) && unchanged(db)
      ensures db.online && !UserTextsBind(data) ==> r == Failure(InvalidByteSequence) && unchanged(db)
      ensures db.online && UserTextsBind(data) && UserColumns(data).Failure? ==>
        r == Failure(UserColumns(data).error) && unchanged(db)
      ensures db.online && UserTextsBind(data) && UserColumns(data).Success? && old(db.userSerial) > IntMax ==>
        r == Failure(SequenceExhausted(UserSequence)) && unchanged(db)
      ensures db.online && UserTextsBind(data) && UserColumns(data).Success? && old(db.userSerial) <= IntMax
              && EmailTaken(old(db.users), UserColumns(data).value.email) ==>
        && r == Failure(UniqueViolation)
        && db.users == old(db.users)
        && db.userSerial == old(db.userSerial) + 1
        && db.clock == old(db.clock)
      ensures db.online && UserTextsBind(data) && UserColumns(data).Success? && old(db.userSerial) <= IntMax
              && !EmailTaken(old(db.users), UserColumns(data).value.email) ==>
        var stored := UserColumns(data).value;
        var row := User(old(db.userSerial), stored.nom, stored.prenom, stored.email, stored.telephone,
                        Hash(data.password, salt), old(db.clock));
        && r == Success(Public(row))
        && row.id !in old(db.users)
        && db.users == old(db.users)[row.id := row]
        && db.userSerial == old(db.userSerial) + 1
        && db.clock == old(db.clock) + 1
      ensures db.online && UserTextsBind(data) && UserColumns(data).Success? && old(db.userSerial) <= IntMax ==>
        EmailTaken(db.users, UserColumns(data).value.email)
    {
      if !db.online {
        return Failure(Unavailable);
      }
      var hashedPassword := Hash(data.password, salt);
      if !UserTextsBind(data) {
        return Failure(InvalidByteSequence);
      }
      var stored := UserColumns(data);
      if stored.Failure? {
        return Failure(stored.error);
      }
      if db.userSerial > IntMax {
        return Failure(SequenceExhausted(UserSequence));
      }
      var id := db.userSerial;
      db.userSerial := db.userSerial + 1;
      var values := stored.value;
      if EmailCount(db.users, values.email) > 0 {
        return Failure(UniqueViolation);
      }
      var row := User(id, values.nom, values.prenom, values.email, values.telephone, hashedPassword, db.clock);
      assert id !in db.users;
      db.users := db.users[id := row];
      db.clock := db.clock + 1;
      assert db.users[id].email == values.email;
      r := Success(Public(row));
    }

    /** `SELECT * FROM users WHERE email = $1`: the whole row, credential
        included, or nothing. */
    method FindByEmail(email: string) returns (r: Result<Option<User>, StoreError>)
      requires db.Valid()
      ensures r.Failure? <==> !db.online || !NulFree(email)
      ensures !db.online ==> r == Failure(Unavailable)
      ensures db.online && !NulFree(email) ==> r == Failure(InvalidByteSequence)
      ensures r.Success? ==> (r.value.Some? <==> EmailTaken(db.users, email))
      ensures r.Success? && r.value.Some? ==>
        r.value.value.email == email && r.value.value.id in db.users && db.users[r.value.value.id] == r.value.value
    {
      if !db.online {
        return Failure(Unavailable);
      }
      if !NulFree(email) {
        return Failure(InvalidByteSequence);
      }
      if EmailCount(db.users, email) == 0 {
        return Success(None);
      }
      var k :| k in db.users && db.users[k].email == email;
      r := Success(Some(db.users[k]));
    }

    /** `SELECT id, nom, prenom, email, telephone, created_at ... WHERE id = $1`. */
    method FindById(id: int) returns (r: Result<Option<PublicUser>, StoreError>)
      requires db.Valid()
      ensures r.Failure? <==> !db.online || !IsInteger(id)
      ensures !db.online ==> r == Failure(Unavailable)
      ensures db.online && !IsInteger(id) ==> r == Failure(OutOfRange(id))
      ensures r.Success? ==> (r.value.Some? <==> id in db.users)
      ensures r.Success? && r.value.Some? ==> r.value.value == Public(db.users[id]) && r.value.value.id == id
    {
      if !db.online {
        return Failure(Unavailable);
      }
      if !IsInteger(id) {
        return Failure(OutOfRange(id));
      }
      if id !in db.users {
        return Success(None);
      }
      r := Success(Some(Public(db.users[id])));
    }

    /** `COUNT(*) > 0` over exact email matches. */
    method EmailExists(email: string) returns (r: Result<bool, StoreError>)
      ensures r.Failure? <==> !db.online || !NulFree(email)
      ensures !db.online ==> r == Failure(Unavailable)
      ensures db.online && !NulFree(email) ==> r == Failure(InvalidByteSequence)
      ensures r.Success? ==> (r.value <==> EmailTaken(db.users, email))
    {
      if !db.online {
        return Failure(Unavailable);
      }
      if !NulFree(email) {
        return Failure(InvalidByteSequence);
      }
      r := Success(EmailCount(db.users, email) > 0);
    }
  }
}
