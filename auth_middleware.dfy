/** The bearer-token gate `protect` (src/middleware/authMiddleware.js). The JWT
    check is the parameter `verify`, which yields the id a token carries, or
    None when `jwt.verify` would throw. */
module AuthGate {
  import opened Common
  import opened UserModel

  const NoTokenMessage := "Not authorized, no token provided"
  const TokenFailedMessage := "Not authorized, token failed"
  const UserNotFoundMessage := "User not found"
  const DeactivatedMessage := "Account is deactivated"

  /** Either `next()` with the user attached to the request (without its
      password), or a 401 reply with a message. */
  datatype GateResult = Next(user: PublicUser) | Deny(message: string)

  /** The header passes the first test: present and starting with "Bearer". */
  function HasBearerScheme(header: Option<string>): (r: bool)
    ensures r <==> header.Some? && exists rest :: header.value == "Bearer" + rest
  {
    var ok := header.Some? && StartsWith(header.value, "Bearer");
    assert ok ==> header.value == "Bearer" + header.value[6..];
    ok
  }

  /** `authorization.split(' ')[1]`: the second space-separated piece, if any;
      there is one exactly when the header has a space. */
  function BearerToken(header: string): (t: Option<string>)
    ensures t.Some? <==> ' ' in header
    ensures t.Some? ==> exists a, rest :: SecondPiece(header, a, t.value, rest)
  {
    var parts := SplitOnSpace(header);
    SplitSecondPiece(header);
    if |parts| >= 2 then Some(parts[1]) else None
  }

  /** The user id a header's token carries: None when there is no second
      piece, when it is empty (`jwt.verify` throws "jwt must be provided") or
      when verification fails; otherwise what verifying the second piece
      gives. */
  function TokenSubject(header: string, verify: string -> Option<Id>): (r: Option<Id>)
    ensures ' ' !in header ==> r.None?
    ensures forall a, t, rest :: SecondPiece(header, a, t, rest) ==> r == (if t != "" then verify(t) else None)
  {
    var t := BearerToken(header);
    forall a, t2, rest | SecondPiece(header, a, t2, rest)
      ensures t.Some? && t.value == t2
    {
      var a0, rest0 :| SecondPiece(header, a0, t.value, rest0);
      SecondPieceUnique(header, a0, t.value, rest0, a, t2, rest);
    }
    if t.Some? && t.value != "" then verify(t.value) else None
  }

  /** The decision tree of `protect`: no bearer header, a token that does not
      verify, an unknown user, a deactivated user, and otherwise `next()` with
      the stored user minus its password. */
  function Protect(header: Option<string>, verify: string -> Option<Id>, users: map<Id, User>): (r: GateResult)
    ensures !HasBearerScheme(header) ==> r == Deny(NoTokenMessage)
    ensures HasBearerScheme(header) && TokenSubject(header.value, verify).None? ==> r == Deny(TokenFailedMessage)
    ensures HasBearerScheme(header) && TokenSubject(header.value, verify).Some? ==>
      var id := TokenSubject(header.value, verify).value;
      && (id !in users ==> r == Deny(UserNotFoundMessage))
      && (id in users && !users[id].isActive ==> r == Deny(DeactivatedMessage))
    ensures r.Next? <==>
      && HasBearerScheme(header)
      && TokenSubject(header.value, verify).Some?
      && TokenSubject(header.value, verify).value in users
      && users[TokenSubject(header.value, verify).value].isActive
    ensures r.Next? ==> r.user == GetPublicProfile(users[TokenSubject(header.value, verify).value])
  {
    if !HasBearerScheme(header) then Deny(NoTokenMessage)
    else
      match TokenSubject(header.value, verify)
      case None => Deny(TokenFailedMessage)
      case Some(id) =>
        if id !in users then Deny(UserNotFoundMessage)
        else if !users[id].isActive then Deny(DeactivatedMessage)
        else Next(GetPublicProfile(users[id]))
  }

  /** The user the gate attaches is active and carries no password: it is a
      stored, active user's public profile. */
  lemma AttachedUserIsStoredAndActive(header: Option<string>, verify: string -> Option<Id>, users: map<Id, User>)
    requires forall k :: k in users ==> users[k].id == k
    requires Protect(header, verify, users).Next?
    ensures var u := Protect(header, verify, users).user;
      u.id in users && users[u.id].isActive && u.isActive && u == GetPublicProfile(users[u.id])
  {
  }

  /** A token issued for a stored, active user opens the gate for that user:
      "Bearer " followed by the token splits back into the token, which
      verifies to the user's id. */
  lemma IssuedTokenOpensGate(token: string, id: Id, verify: string -> Option<Id>, users: map<Id, User>)
    requires token != "" && ' ' !in token
    requires verify(token) == Some(id)
    requires id in users && users[id].isActive
    ensures Protect(Some("Bearer " + token), verify, users) == Next(GetPublicProfile(users[id]))
  {
    SplitTwoWords("Bearer", token);
    assert "Bearer " + token == "Bearer" + " " + token;
    assert ("Bearer " + token)[..6] == "Bearer";
  }

  /** Fixed headers: no header, or another scheme, is refused as having no
      token. */
  lemma OtherSchemeHasNoToken(verify: string -> Option<Id>, users: map<Id, User>)
    ensures Protect(None, verify, users) == Deny(NoTokenMessage)
    ensures Protect(Some("Basic abc"), verify, users) == Deny(NoTokenMessage)
  {
    assert "Basic abc"[..6][1] != "Bearer"[1];
  }

  /** "Bearer" with nothing after it, or with only a space after it, gets as
      far as the token check and fails there. */
  lemma BareBearerFails(verify: string -> Option<Id>, users: map<Id, User>)
    ensures Protect(Some("Bearer"), verify, users) == Deny(TokenFailedMessage)
    ensures Protect(Some("Bearer "), verify, users) == Deny(TokenFailedMessage)
  {
    assert "Bearer"[..6] == "Bearer";
    assert "Bearer "[..6] == "Bearer";
    SplitWord("Bearer");
    SplitTwoWords("Bearer", "");
    assert "Bearer" + " " + "" == "Bearer ";
  }
}
