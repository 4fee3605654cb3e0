/** The auth middleware: `clerkAuth` reads the bearer token from the
    Authorization header and accepts the request when the decoded token has a
    subject; `syncUserToDatabase` finds the user row for a provider id or
    inserts one. Token decoding is a parameter: no signature is checked. */
module Auth {
  import opened Types
  import opened Text

  const BearerPrefix := "Bearer "
  const NoToken := "No token provided"
  const InvalidToken := "Invalid token"
  const AuthenticationFailed := "Authentication failed"

  /** The claims of a decoded token that the middleware reads. */
  datatype Claims = Claims(sub: Option<string>, email: Option<string>)

  /** What `jwt.decode` gives for a token: its claims, `null` for text that is
      not a token, or a thrown error. */
  datatype Decoded = Claimed(claims: Claims) | NotAToken | DecodeThrows

  /** The middleware's outcome: a 401 reply, or `next()` with the request
      carrying the user's id and email. */
  datatype AuthResult = Rejected(status: int, message: string) | Authenticated(userId: string, userEmail: Option<string>)

  /** `authHeader.split(' ')[1]`: the text after the prefix up to the next space. */
  function BearerToken(header: string): (token: string)
    requires StartsWith(header, BearerPrefix)
    ensures token == UpTo(header[|BearerPrefix|..], ' ')
    ensures ' ' !in token
  {
    var rest := header[|BearerPrefix|..];
    assert header == "Bearer" + [' '] + rest;
    SplitAfterPiece("Bearer", ' ', rest);
    SplitFirst(rest, ' ');
    Split(header, ' ')[1]
  }

  /** `clerkAuth`, given the Authorization header and the decoder. */
  function ClerkAuth(header: Option<string>, decode: string -> Decoded): (r: AuthResult)
    ensures header.None? || !StartsWith(header.value, BearerPrefix) ==> r == Rejected(401, NoToken)
    ensures r.Authenticated? <==>
              && header.Some? && StartsWith(header.value, BearerPrefix)
              && var d := decode(BearerToken(header.value));
                 d.Claimed? && d.claims.sub.Some? && d.claims.sub.value != ""
    ensures r.Authenticated? ==>
              && var d := decode(BearerToken(header.value));
                 Some(r.userId) == d.claims.sub && r.userEmail == d.claims.email
    ensures r.Rejected? ==> r.status == 401
    ensures header.Some? && StartsWith(header.value, BearerPrefix) && decode(BearerToken(header.value)) == DecodeThrows ==>
              r == Rejected(401, AuthenticationFailed)
  {
    if header.None? || !StartsWith(header.value, BearerPrefix) then Rejected(401, NoToken)
    else
      match decode(BearerToken(header.value))
      case DecodeThrows => Rejected(401, AuthenticationFailed)
      case NotAToken => Rejected(401, InvalidToken)
      case Claimed(c) =>
        if c.sub.None? || c.sub.value == "" then Rejected(401, InvalidToken)
        else Authenticated(c.sub.value, c.email)
  }

  /** A well-formed header whose token decodes to nothing, or to claims whose
      subject is absent or empty, is rejected as invalid. */
  lemma MissingSubjectIsInvalid(header: string, decode: string -> Decoded)
    requires StartsWith(header, BearerPrefix)
    requires decode(BearerToken(header)) == NotAToken
          || (decode(BearerToken(header)).Claimed?
              && (decode(BearerToken(header)).claims.sub.None? || decode(BearerToken(header)).claims.sub.value == ""))
    ensures ClerkAuth(Some(header), decode) == Rejected(401, InvalidToken)
  {
  }

  /** The token is the first space-separated word after the prefix: extra
      words are dropped and a second space gives the empty token. */
  lemma BearerTokenExamples()
    ensures BearerToken("Bearer a b") == "a"
    ensures BearerToken("Bearer  x") == ""
  {
    assert "Bearer a b"[|BearerPrefix|..] == "a b";
    assert "Bearer  x"[|BearerPrefix|..] == " x";
  }

  // syncUserToDatabase

  const ClerkProvider := "clerk"

  /** The id the lookup returns and the users table afterwards. */
  datatype Synced = Synced(id: string, users: seq<User>)

  /** The index of the first user row with this provider id, if any. */
  function FindByProvider(users: seq<User>, providerId: string): (r: Option<nat>)
    ensures r.Some? ==> r.value < |users| && users[r.value].authProviderId == providerId
    ensures r.None? <==> forall i :: 0 <= i < |users| ==> users[i].authProviderId != providerId
  {
    if |users| == 0 then None
    else if users[0].authProviderId == providerId then Some(0)
    else
      match FindByProvider(users[1..], providerId)
      case None => None
      case Some(i) => Some(i + 1)
  }

  /** `email.split('@')[0]`. */
  function LocalPart(email: string): string {
    Split(email, '@')[0]
  }

  /** `username || email.split('@')[0]`. */
  function UsernameFor(username: Option<string>, email: string): (name: string)
    ensures username.Some? && username.value != "" ==> name == username.value
    ensures username.None? || username.value == "" ==>
              name == UpTo(email, '@') && '@' !in name && name <= email
  {
    SplitFirst(email, '@');
    if username.Some? && username.value != "" then username.value else LocalPart(email)
  }

  /** `syncUserToDatabase`; `newUserId` is the id the insert would return. */
  function SyncUser(users: seq<User>, clerkUserId: string, email: string, username: Option<string>, newUserId: string): (r: Synced)
    ensures (exists i :: 0 <= i < |users| && users[i].authProviderId == clerkUserId) ==>
              && r.users == users
              && exists i :: 0 <= i < |users| && users[i].authProviderId == clerkUserId && users[i].id == r.id
    ensures (forall i :: 0 <= i < |users| ==> users[i].authProviderId != clerkUserId) ==>
              && r.id == newUserId
              && |r.users| == |users| + 1
              && r.users[..|users|] == users
              && r.users[|users|] == User(newUserId, UsernameFor(username, email), email, ClerkProvider, clerkUserId)
  {
    match FindByProvider(users, clerkUserId)
    case Some(i) => Synced(users[i].id, users)
    case None =>
      var added := users + [User(newUserId, UsernameFor(username, email), email, ClerkProvider, clerkUserId)];
      assert added[..|users|] == users;
      Synced(newUserId, added)
  }

  /** No two user rows share a provider id. */
  predicate UniqueProviders(users: seq<User>) {
    forall i, j :: 0 <= i < j < |users| ==> users[i].authProviderId != users[j].authProviderId
  }

  /** Syncing never creates a second row for a provider id: the table keeps at
      most one row per provider id, and afterwards has one for this id. */
  lemma SyncNeverDuplicates(users: seq<User>, clerkUserId: string, email: string, username: Option<string>, newUserId: string)
    requires UniqueProviders(users)
    ensures var r := SyncUser(users, clerkUserId, email, username, newUserId);
            && UniqueProviders(r.users)
            && exists i :: 0 <= i < |r.users| && r.users[i].authProviderId == clerkUserId && r.users[i].id == r.id
  {
    var r := SyncUser(users, clerkUserId, email, username, newUserId);
    if FindByProvider(users, clerkUserId).None? {
      assert r.users[|users|].authProviderId == clerkUserId;
      forall i, j | 0 <= i < j < |r.users|
        ensures r.users[i].authProviderId != r.users[j].authProviderId
      {
        if j == |users| {
          assert r.users[i] == users[i];
        } else {
          assert r.users[i] == users[i] && r.users[j] == users[j];
        }
      }
    }
  }

  /** Syncing the same provider id again changes nothing and returns the same
      id, whether or not provider ids are unique in the table. */
  lemma SyncIdempotent(users: seq<User>, clerkUserId: string, email: string, username: Option<string>, id1: string, id2: string)
    ensures var r1 := SyncUser(users, clerkUserId, email, username, id1);
            var r2 := SyncUser(r1.users, clerkUserId, email, username, id2);
            r2 == r1
  {
    if FindByProvider(users, clerkUserId).None? {
      var u := User(id1, UsernameFor(username, email), email, ClerkProvider, clerkUserId);
      FindAppended(users, u);
    }
  }

  /** When no row has the provider id, the lookup finds the row appended with it. */
  lemma {:induction false} FindAppended(users: seq<User>, u: User)
    requires forall i :: 0 <= i < |users| ==> users[i].authProviderId != u.authProviderId
    ensures FindByProvider(users + [u], u.authProviderId) == Some(|users|)
  {
    if |users| > 0 {
      assert (users + [u])[1..] == users[1..] + [u];
      FindAppended(users[1..], u);
    }
  }
}
