/** The `protect` middleware: it reads a bearer token from the `Authorization`
    header, verifies it, attaches the token's user to the request and hands
    over to the route. `jwt.verify` (signature and expiry, which depend on the
    secret and the clock) is the parameter `verify`. */
module AuthMiddleware {
  import opened JsValues
  import opened JsString
  import opened ObjectIds
  import opened UserModel

  const BEARER: string := "Bearer"

  /** The two 401 replies, each a JSON `{ msg }`. */
  datatype Refusal = InvalidToken | NoToken {
    function Msg(): string {
      match this
      case InvalidToken => "Não autorizado, token inválido"
      case NoToken => "Não autorizado, nenhum token"
    }
  }

  /** What `jwt.verify` makes of a token: it throws (`Rejected`), or returns the
      payload, whose `id` claim may be missing. */
  datatype Decoded = Rejected | Claims(id: Option<string>)

  /** `req.user`: a user without the password (`select('-password')`). */
  datatype PublicUser = PublicUser(id: ObjectId, username: string, email: string)

  /** What one call of `protect` does: the 401 replies it attempts, in order
      (only the first reaches the client), whether it calls `next()`, and the
      `req.user` it sets (`None` for `null`). */
  datatype Protected = Protected(replies: seq<Refusal>, nextCalled: bool, reqUser: Option<PublicUser>)

  function Public(u: User): PublicUser {
    PublicUser(u.id, u.username, u.email)
  }

  /** `header.split(' ')[1]`: the second space-separated field, `None` for `undefined`. */
  function BearerToken(header: string): (t: Option<string>)
    ensures t.Some? ==> ' ' !in t.value
    ensures t.None? <==> ' ' !in header
  {
    var fields := Split(header, ' ');
    SplitSingle(header, ' ');
    if |fields| >= 2 then Some(fields[1]) else None
  }

  /** `User.findById(id).select('-password')`: the user with that id, if any. */
  function FindPublic(users: seq<User>, id: string): (r: Option<PublicUser>)
    ensures r.Some? <==> Taken(users, ById, id)
    ensures r.Some? ==> exists i :: 0 <= i < |users| && users[i].id == id && r.value == Public(users[i])
  {
    match FindFirst(users, ById, id)
    case None => None
    case Some(i) =>
      assert users[i].id == id by { assert KeyOf(users[i], ById) == id; }
      Some(Public(users[i]))
  }

  /** The `try` block: verify the token, then look its user up. `jwt.verify`
      throws on a missing or empty token, and `findById` throws on an id that
      does not cast to an ObjectId; both land in the `catch`. A payload without
      `id` makes `findById(undefined)` find nothing. */
  function Authenticate(token: Option<string>, verify: string -> Decoded, users: seq<User>): (r: Protected)
    ensures r.nextCalled <==> r.replies == []
    ensures !r.nextCalled ==> r == Protected([InvalidToken], false, None)
    ensures r.nextCalled <==>
      && token.Some? && token.value != "" && verify(token.value).Claims?
      && (verify(token.value).id.Some? ==> IsObjectIdText(verify(token.value).id.value))
    ensures r.reqUser.Some? ==>
      && r.nextCalled && Taken(users, ById, r.reqUser.value.id)
      && token.Some? && verify(token.value).Claims? && verify(token.value).id.Some?
      && r.reqUser.value.id == CastId(verify(token.value).id.value)
    ensures r.nextCalled ==>
      && token.Some? && verify(token.value).Claims?
      && r.reqUser == (if verify(token.value).id.Some? then FindPublic(users, CastId(verify(token.value).id.value)) else None)
  {
    if token.None? || token.value == "" then Protected([InvalidToken], false, None)
    else
      match verify(token.value)
      case Rejected => Protected([InvalidToken], false, None)
      case Claims(None) => Protected([], true, None)
      case Claims(Some(id)) =>
        if !IsObjectIdText(id) then Protected([InvalidToken], false, None)
        else
          var found := FindPublic(users, CastId(id));
          assert found.Some? ==> found.value.id == CastId(id);
          Protected([], true, found)
  }

  /** `protect`. Without a header starting with "Bearer" it refuses with "no
      token". When the header starts with "Bearer" but carries no token, both
      the `catch` and the final `if (!token)` reply. */
  function Protect(header: Option<string>, verify: string -> Decoded, users: seq<User>): (r: Protected)
    ensures header.None? || !StartsWith(header.value, BEARER) ==> r == Protected([NoToken], false, None)
    ensures r.nextCalled <==> r.replies == []
    ensures r.reqUser.Some? ==> r.nextCalled && Taken(users, ById, r.reqUser.value.id)
    ensures |r.replies| <= 2
    ensures |r.replies| == 2 <==>
      header.Some? && StartsWith(header.value, BEARER) &&
      var t := BearerToken(header.value); t.None? || t.value == ""
    ensures (&& header.Some? && StartsWith(header.value, BEARER)
             && BearerToken(header.value).Some? && BearerToken(header.value).value != "") ==>
      r == Authenticate(BearerToken(header.value), verify, users)
  {
    if header.None? || !StartsWith(header.value, BEARER) then Protected([NoToken], false, None)
    else
      var token := BearerToken(header.value);
      var attempt := Authenticate(token, verify, users);
      if token.None? || token.value == "" then attempt.(replies := attempt.replies + [NoToken])
      else attempt
  }

  /** `protect` as it runs: the local `token`, then the `try` block, then the
      final check of `token`. */
  method ProtectRequest(header: Option<string>, verify: string -> Decoded, users: seq<User>) returns (out: Protected)
    ensures out == Protect(header, verify, users)
  {
    var token: Option<string> := None;
    var replies: seq<Refusal> := [];
    var nextCalled := false;
    var reqUser: Option<PublicUser> := None;
    if header.Some? && StartsWith(header.value, BEARER) {
      token := BearerToken(header.value);
      var decoded := if token.None? || token.value == "" then Rejected else verify(token.value);
      if decoded.Rejected? || (decoded.id.Some? && !IsObjectIdText(decoded.id.value)) {
        replies := replies + [InvalidToken];
      } else {
        reqUser := if decoded.id.Some? then FindPublic(users, CastId(decoded.id.value)) else None;
        nextCalled := true;
      }
    }
    if token.None? || token.value == "" {
      replies := replies + [NoToken];
    }
    out := Protected(replies, nextCalled, reqUser);
  }

  /** The header a client builds from a token without spaces carries that token. */
  lemma BearerTokenOf(t: string)
    requires ' ' !in t
    ensures BearerToken(BEARER + " " + t) == Some(t)
  {
    assert BEARER + " " + t == BEARER + [' '] + t;
    assert ' ' !in BEARER;
    SplitAfterPiece(BEARER, t, ' ');
    SplitWithoutSeparator(t, ' ');
  }

  /** A valid token of an existing user lets the request through, with that
      user (without the password) as `req.user`. */
  lemma ValidTokenAdmitsUser(t: string, verify: string -> Decoded, users: seq<User>, i: nat)
    requires t != [] && ' ' !in t
    requires UniqueAccounts(users) && i < |users| && WellFormedId(users[i].id)
    requires verify(t) == Claims(Some(users[i].id))
    ensures Protect(Some(BEARER + " " + t), verify, users) == Protected([], true, Some(Public(users[i])))
  {
    BearerTokenOf(t);
    assert StartsWith(BEARER + " " + t, BEARER) by {
      assert (BEARER + " " + t)[..|BEARER|] == BEARER;
    }
    CastOfId(users[i].id);
    FindUnique(users, i);
  }

  /** A valid token whose user has since been deleted still calls `next()`,
      with `req.user` null. */
  /** A token that `jwt.verify` rejects gets the one "invalid token" reply,
      and `next()` is not called. */
  lemma RejectedTokenRefused(t: string, verify: string -> Decoded, users: seq<User>)
    requires t != [] && ' ' !in t
    requires verify(t).Rejected?
    ensures Protect(Some(BEARER + " " + t), verify, users) == Protected([InvalidToken], false, None)
  {
    BearerTokenOf(t);
    assert StartsWith(BEARER + " " + t, BEARER) by {
      assert (BEARER + " " + t)[..|BEARER|] == BEARER;
    }
  }

  lemma DeletedUserPassesThrough(t: string, verify: string -> Decoded, users: seq<User>, id: ObjectId)
    requires t != [] && ' ' !in t
    requires WellFormedId(id) && !Taken(users, ById, id)
    requires verify(t) == Claims(Some(id))
    ensures Protect(Some(BEARER + " " + t), verify, users) == Protected([], true, None)
  {
    BearerTokenOf(t);
    CastOfId(id);
    assert StartsWith(BEARER + " " + t, BEARER) by {
      assert (BEARER + " " + t)[..|BEARER|] == BEARER;
    }
  }

  /** The header "Bearer" with nothing after it gets both 401 replies. */
  lemma BareBearerRepliesTwice(verify: string -> Decoded, users: seq<User>)
    ensures Protect(Some(BEARER), verify, users).replies == [InvalidToken, NoToken]
    ensures Protect(Some(BEARER + " "), verify, users).replies == [InvalidToken, NoToken]
  {
    assert ' ' !in BEARER;
    SplitWithoutSeparator(BEARER, ' ');
    assert StartsWith(BEARER, BEARER);
    BearerTokenOf("");
    assert BEARER + " " == BEARER + " " + "";
    assert StartsWith(BEARER + " ", BEARER) by {
      assert (BEARER + " ")[..|BEARER|] == BEARER;
    }
  }
}
