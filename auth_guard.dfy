/** The route guard (src/authentification/auth.guard.ts): it takes the token
    out of the `Authorization` header, validates it against the user table
    and the route's minimum role weight, and stores the user on the request. */
module AuthGuard {
  import opened Common
  import opened Users
  import Auth

  /** `s.split(' ')`: the pieces between single spaces, always at least one
      (the empty string splits into one empty piece). */
  function Split(s: string): (r: seq<string>)
    ensures |r| >= 1
    decreases |s|
  {
    if |s| == 0 then [""]
    else if s[0] == ' ' then [""] + Split(s[1..])
    else
      var rest := Split(s[1..]);
      [[s[0]] + rest[0]] + rest[1..]
  }

  /** The inverse of `Split`: the pieces glued back with single spaces. */
  function Join(parts: seq<string>): string
  {
    if |parts| == 0 then ""
    else if |parts| == 1 then parts[0]
    else parts[0] + " " + Join(parts[1..])
  }

  lemma {:induction false} JoinSplit(s: string)
    ensures Join(Split(s)) == s
    ensures forall i :: 0 <= i < |Split(s)| ==> ' ' !in Split(s)[i]
    decreases |s|
  {
    if |s| == 0 {
    } else if s[0] == ' ' {
      JoinSplit(s[1..]);
      assert Split(s)[1..] == Split(s[1..]);
      assert s == [s[0]] + s[1..];
    } else {
      JoinSplit(s[1..]);
      var rest := Split(s[1..]);
      if |rest| == 1 {
        assert s == [s[0]] + rest[0];
      } else {
        assert Split(s)[1..] == rest[1..];
        assert Join(rest) == rest[0] + " " + Join(rest[1..]);
        assert s == [s[0]] + s[1..];
      }
      forall i | 0 <= i < |Split(s)| ensures ' ' !in Split(s)[i] {
        if i > 0 {
          assert Split(s)[i] == rest[i];
        }
      }
    }
  }

  /** A string without spaces is one piece. */
  lemma {:induction false} SplitNoSpace(s: string)
    requires ' ' !in s
    ensures Split(s) == [s]
    decreases |s|
  {
    if |s| > 0 {
      SplitNoSpace(s[1..]);
      assert s == [s[0]] + s[1..];
    }
  }

  /** A space ends the first piece: splitting `a + " " + b` with no space
      in `a` gives `a` followed by the pieces of `b`. */
  lemma {:induction false} SplitAtFirstSpace(a: string, b: string)
    requires ' ' !in a
    ensures Split(a + " " + b) == [a] + Split(b)
    decreases |a|
  {
    if |a| == 0 {
      assert a + " " + b == [' '] + b;
      assert (a + " " + b)[1..] == b;
    } else {
      SplitAtFirstSpace(a[1..], b);
      assert (a + " " + b)[1..] == a[1..] + " " + b;
      assert a == [a[0]] + a[1..];
    }
  }

  /** `extractTokenFromHeader`: split the header on spaces; the second piece
      is the token when the first piece is exactly "Bearer". A missing
      header yields no token. */
  function ExtractTokenFromHeader(authorization: Option<string>): (r: Option<string>)
    ensures r.Some? ==> authorization.Some? && Split(authorization.value)[0] == "Bearer"
    ensures r.Some? ==> ' ' !in r.value
  {
    match authorization
    case None => None
    case Some(h) =>
      var parts := Split(h);
      if parts[0] == "Bearer" && |parts| >= 2 then
        JoinSplit(h);
        Some(parts[1])
      else
        None
  }

  /** "Bearer X" yields X, for any X without a space; "Bearer" alone and a
      missing header yield nothing. */
  lemma BearerHeaderYieldsToken(x: string)
    requires ' ' !in x
    ensures ExtractTokenFromHeader(Some("Bearer " + x)) == Some(x)
    ensures ExtractTokenFromHeader(Some("Bearer")) == None
    ensures ExtractTokenFromHeader(None) == None
  {
    SplitNoSpace("Bearer");
    assert "Bearer " + x == "Bearer" + " " + x;
    SplitAtFirstSpace("Bearer", x);
    SplitNoSpace(x);
  }

  /** A header whose scheme (the text before the first space) is not
      "Bearer" yields no token. */
  lemma OtherSchemeYieldsNothing(scheme: string, rest: string)
    requires ' ' !in scheme && scheme != "Bearer"
    ensures ExtractTokenFromHeader(Some(scheme + " " + rest)) == None
    ensures ExtractTokenFromHeader(Some(scheme)) == None
  {
    SplitAtFirstSpace(scheme, rest);
    SplitNoSpace(scheme);
  }

  /** The incoming HTTP request as far as the guard sees it. */
  class HttpRequest {
    var authorization: Option<string>
    var user: Option<User>

    constructor (header: Option<string>)
      ensures authorization == header && user == None
    {
      authorization := header;
      user := None;
    }
  }

  /** `canActivate`: no token, or an empty one, is Unauthorized; otherwise
      the failures of the token check pass through unchanged; on success the
      validated user is stored on the request and the guard answers true. */
  method CanActivate(req: HttpRequest, minRoleWeight: Option<int>, t: UserTable,
                     decode: string -> Option<string>)
    returns (r: Result<bool>)
    requires t.Valid()
    modifies req`user
    ensures var token := ExtractTokenFromHeader(req.authorization);
            if token.None? || token.value == "" then
              r == Err(Unauthorized) && req.user == old(req.user)
            else match Auth.ValidateToken(t, token.value, minRoleWeight, decode)
                 case Err(e) => r == Err(e) && req.user == old(req.user)
                 case Ok(u) => r == Ok(true) && req.user == Some(u)
  {
    var token := ExtractTokenFromHeader(req.authorization);
    if token.None? || token.value == "" {
      return Err(Unauthorized);
    }
    var v := Auth.ValidateToken(t, token.value, minRoleWeight, decode);
    if v.Err? {
      return Err(v.error);
    }
    req.user := Some(v.value);
    r := Ok(true);
  }
}
