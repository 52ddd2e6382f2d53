/** Password hashing (bcrypt) and session tokens (jsonwebtoken), the two
    foreign libraries the account directory calls.  bcrypt's key is modelled
    as the library forms it: the password's UTF-8 bytes, a NUL byte, and that
    sequence repeated until the 72 bytes its key schedule reads are filled.
    The Blowfish digest computed from that key is replaced by a stand-in
    that is injective in the key, and a token records the claims it carries
    and the key it was signed with; verification checks the key before the
    expiry. */
module Credentials {
  import opened Utf8

  /** bcrypt cost factor used by the account directory. */
  const SaltRounds: nat := 10

  /** Number of key bytes bcrypt's key schedule reads. */
  const KeyLength: nat := 72

  /** Lifetime of a session token ('7d'), in seconds. */
  const TokenLifetime: int := 7 * 24 * 60 * 60

  datatype PasswordHash = PasswordHash(cost: nat, salt: int, digest: seq<int>)

  /** The key bcrypt derives from a password: the bytes of the password
      and its NUL terminator, cycled over 72 bytes; anything past the 72nd
      byte is never read. */
  function BcryptKey(password: string): (key: seq<Byte>)
    ensures |key| == KeyLength
  {
    var bytes := Encode(password) + [0];
    seq(KeyLength, i requires 0 <= i < KeyLength => bytes[i % |bytes|])
  }

  /** Stand-in for the Blowfish digest of the key under a given salt. */
  function Digest(salt: int, password: string): seq<int>
  {
    var key := BcryptKey(password);
    seq(KeyLength, i requires 0 <= i < KeyLength => key[i] + salt)
  }

  /** bcrypt.hash(password, 10) with the random salt passed in. */
  function Hash(password: string, salt: int): PasswordHash
  {
    PasswordHash(SaltRounds, salt, Digest(salt, password))
  }

  /** bcrypt.compare: recompute the digest under the stored salt. */
  predicate CheckPassword(plain: string, stored: PasswordHash)
  {
    Digest(stored.salt, plain) == stored.digest
  }

  /** Under one salt, two passwords have the same digest exactly when bcrypt
      derives the same key from them. */
  lemma DigestDeterminedByKey(salt: int, p: string, q: string)
    ensures Digest(salt, p) == Digest(salt, q) <==> BcryptKey(p) == BcryptKey(q)
  {
    if Digest(salt, p) == Digest(salt, q) {
      forall i | 0 <= i < KeyLength
        ensures BcryptKey(p)[i] == BcryptKey(q)[i]
      {
        assert Digest(salt, p)[i] == Digest(salt, q)[i];
      }
    }
  }

  /** A credential accepts exactly the attempts from which bcrypt derives
      the same key as from the password it was made from. */
  lemma CheckPasswordExact(password: string, attempt: string, salt: int)
    ensures CheckPassword(attempt, Hash(password, salt)) <==> BcryptKey(attempt) == BcryptKey(password)
  {
    DigestDeterminedByKey(salt, attempt, password);
  }

  /** From a password of 72 bytes or more, the key is its first 72 bytes. */
  lemma LongPasswordKey(password: string)
    requires |Encode(password)| >= KeyLength
    ensures BcryptKey(password) == Encode(password)[..KeyLength]
  {
    forall i | 0 <= i < KeyLength
      ensures BcryptKey(password)[i] == Encode(password)[i]
    {
      KeyByte(password, i);
    }
  }

  /** Within the password's bytes and its terminator, the key repeats
      nothing yet: key byte `i` is byte `i` of the terminated password. */
  lemma KeyByte(password: string, i: nat)
    requires i < KeyLength && i <= |Encode(password)|
    ensures BcryptKey(password)[i] == (Encode(password) + [0])[i]
  {
    ModSmall(i, |Encode(password)| + 1);
  }

  /** Euclidean remainder below the divisor: kept apart so that the solver
      meets `%` without the encoding's facts in scope. */
  lemma ModSmall(i: nat, n: nat)
    requires i < n
    ensures i % n == i
  {
  }

  /** The first zero byte of the key from a NUL-free password shorter than
      72 bytes is the terminator, right after the password's bytes. */
  lemma TerminatorFirstZero(password: string)
    requires |Encode(password)| < KeyLength
    requires forall i :: 0 <= i < |password| ==> password[i] != '\0'
    ensures BcryptKey(password)[|Encode(password)|] == 0
    ensures forall i :: 0 <= i < |Encode(password)| ==> BcryptKey(password)[i] != 0
  {
    NoZeroByte(password);
    KeyByte(password, |Encode(password)|);
    forall i | 0 <= i < |Encode(password)|
      ensures BcryptKey(password)[i] != 0
    {
      KeyByte(password, i);
    }
  }

  /** Two passwords of 72 bytes or more that share their first 72 bytes
      accept each other, whatever follows. */
  lemma SharedPrefixAccepted(password: string, attempt: string, salt: int)
    requires |Encode(password)| >= KeyLength && |Encode(attempt)| >= KeyLength
    requires Encode(attempt)[..KeyLength] == Encode(password)[..KeyLength]
    ensures CheckPassword(attempt, Hash(password, salt))
  {
    LongPasswordKey(password);
    LongPasswordKey(attempt);
    CheckPasswordExact(password, attempt, salt);
  }

  /** A password shorter than 72 bytes and free of NUL characters is
      accepted by its credential, and every other such password is not. */
  lemma ShortPasswordExact(password: string, attempt: string, salt: int)
    requires |Encode(password)| < KeyLength && |Encode(attempt)| < KeyLength
    requires forall i :: 0 <= i < |password| ==> password[i] != '\0'
    requires forall i :: 0 <= i < |attempt| ==> attempt[i] != '\0'
    ensures CheckPassword(attempt, Hash(password, salt)) <==> attempt == password
  {
    CheckPasswordExact(password, attempt, salt);
    if BcryptKey(attempt) == BcryptKey(password) {
      ShortKeysDetermineBytes(attempt, password);
      EncodeInjective(attempt, password);
    }
  }

  /** The same for passwords of printable ASCII characters: up to 71 of
      them, a credential accepts its own password and no other. */
  lemma AsciiPasswordExact(password: string, attempt: string, salt: int)
    requires |password| < KeyLength && |attempt| < KeyLength
    requires forall i :: 0 <= i < |password| ==> ' ' <= password[i] <= '~'
    requires forall i :: 0 <= i < |attempt| ==> ' ' <= attempt[i] <= '~'
    ensures CheckPassword(attempt, Hash(password, salt)) <==> attempt == password
  {
    AsciiEncode(password);
    AsciiEncode(attempt);
    ShortPasswordExact(password, attempt, salt);
  }

  /** Below 72 bytes and without NUL, the key pins down the password's
      bytes: the first zero byte of the key marks where they end. */
  lemma ShortKeysDetermineBytes(p: string, q: string)
    requires |Encode(p)| < KeyLength && |Encode(q)| < KeyLength
    requires forall i :: 0 <= i < |p| ==> p[i] != '\0'
    requires forall i :: 0 <= i < |q| ==> q[i] != '\0'
    requires BcryptKey(p) == BcryptKey(q)
    ensures Encode(p) == Encode(q)
  {
    var a, b := Encode(p) + [0], Encode(q) + [0];
    TerminatorFirstZero(p);
    TerminatorFirstZero(q);
    assert |a| == |b|;
    forall i | 0 <= i < |a| && 0 <= i < |b|
      ensures a[i] == b[i]
    {
      KeyByte(p, i);
      KeyByte(q, i);
    }
    assert a == b;
    assert Encode(p) == a[..|a| - 1];
  }

  datatype Claims = Claims(userId: int, iat: int, exp: int)

  datatype Token = Token(claims: Claims, signingKey: string)

  datatype TokenCheck = Verified(userId: int) | BadSignature | Expired

  /** jwt.sign({userId}, secret, {expiresIn: '7d'}) at time `now` (seconds). */
  function GenerateToken(userId: int, now: int, secret: string): Token
  {
    Token(Claims(userId, now, now + TokenLifetime), secret)
  }

  /** jwt.verify: the signature is checked first, then the expiry
      (a token is expired from the second `exp` on). */
  function VerifyToken(token: Token, secret: string, now: int): TokenCheck
  {
    if token.signingKey != secret then BadSignature
    else if now >= token.claims.exp then Expired
    else Verified(token.claims.userId)
  }

  /** A token verifies to exactly the id it was issued for, for exactly
      seven days from issuance, and only under the key that signed it. */
  lemma TokenRoundTrip(userId: int, issued: int, secret: string, key: string, now: int)
    ensures VerifyToken(GenerateToken(userId, issued, secret), key, now) ==
      if key != secret then BadSignature
      else if now < issued + TokenLifetime then Verified(userId)
      else Expired
  {
  }
}
