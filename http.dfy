/** Transport-shaped results of the controllers: a status code and a JSON
    body, which is an error message, a payload (with an optional message),
    or the validation rejection with its list of field errors. */
module Http {
  import opened Wrappers

  datatype FieldError = FieldError(path: string, msg: string)

  datatype Body<T> =
    | ErrorBody(error: string)
    | DataBody(message: Option<string>, data: T)
    | InvalidBody(error: string, details: seq<FieldError>)

  datatype Response<T> = Response(status: int, body: Body<T>)

  /** `s.includes(t)`. */
  predicate Contains(s: string, t: string)
    decreases |s|
  {
    t <= s || (|s| > 0 && Contains(s[1..], t))
  }

  lemma {:induction false} ContainsAt(s: string, t: string, i: nat)
    requires i <= |s| && t <= s[i..]
    ensures Contains(s, t)
    decreases i
  {
    if i > 0 {
      assert s[1..][i - 1..] == s[i..];
      ContainsAt(s[1..], t, i - 1);
    }
  }

  /** A string ending in `t` contains `t`. */
  lemma ContainsSuffix(p: string, t: string)
    ensures Contains(p + t, t)
  {
    assert (p + t)[|p|..] == t;
    ContainsAt(p + t, t, |p|);
  }

  /** A string lacking one of the characters of `t` does not contain `t`. */
  lemma {:induction false} MissingCharDoesNotContain(s: string, t: string, c: char)
    requires c in t && c !in s
    ensures !Contains(s, t)
    decreases |s|
  {
    if |s| > 0 {
      MissingCharDoesNotContain(s[1..], t, c);
    }
  }

  lemma {:induction false} ShorterDoesNotContain(s: string, t: string)
    requires |s| < |t|
    ensures !Contains(s, t)
    decreases |s|
  {
    if |s| > 0 {
      ShorterDoesNotContain(s[1..], t);
    }
  }
}
