/** The in-memory token store (`TokenManagerImpl`), modelled sequentially.

    The store maps token keys to users; the request's token holds the key
    of the current user. Logging in reuses the key of a stored user with the
    same identity (ignoring case) or stores a copy of the user under a fresh
    key; logging out drops the current key's entry. */
module TokenManager {
  import opened Wrappers
  import Text

  /** The token type `setUser` stamps on the token. */
  const TokenTypeName: string := "Token"

  /** A `DemoiselleUser`, compared by value (`clone()` is a value copy). */
  datatype User = User(identity: string, name: string, roles: seq<string>, permissions: map<string, seq<string>>)

  /** The request's `Token`: its key and type, each possibly null. */
  datatype Token = Token(key: Option<string>, tokenType: Option<string>)

  /** The shared key-to-user map and the current request's token. */
  datatype Store = Store(repo: map<string, User>, token: Token)

  /** `ConcurrentHashMap.remove(null)` throws a null pointer exception. */
  datatype StoreError = NullKey

  predicate SameIdentity(a: User, b: User) {
    Text.EqualsIgnoreCase(a.identity, b.identity)
  }

  predicate HasIdentity(repo: map<string, User>, user: User) {
    exists k :: k in repo && SameIdentity(repo[k], user)
  }

  /** Every key is non-empty (random UUID strings never are). */
  ghost predicate KeysNonEmpty(repo: map<string, User>) {
    forall k :: k in repo ==> k != ""
  }

  /** No identity is stored twice, ignoring case. */
  ghost predicate IdentitiesUnique(repo: map<string, User>) {
    forall k1, k2 :: k1 in repo && k2 in repo && k1 != k2 ==> !SameIdentity(repo[k1], repo[k2])
  }

  lemma SameIdentityIsEquivalence(a: User, b: User, c: User)
    ensures SameIdentity(a, a)
    ensures SameIdentity(a, b) ==> SameIdentity(b, a)
    ensures SameIdentity(a, b) && SameIdentity(b, c) ==> SameIdentity(a, c)
  {
    Text.EqualsIgnoreCaseIsFoldEquality(a.identity, a.identity);
    Text.EqualsIgnoreCaseIsFoldEquality(a.identity, b.identity);
    Text.EqualsIgnoreCaseIsFoldEquality(b.identity, a.identity);
    Text.EqualsIgnoreCaseIsFoldEquality(b.identity, c.identity);
    Text.EqualsIgnoreCaseIsFoldEquality(a.identity, c.identity);
  }

  /** `getUser`: the stored user of a non-empty current key. */
  function GetUser(s: Store): (u: Option<User>)
    ensures u.Some? <==> s.token.key.Some? && s.token.key.value != "" && s.token.key.value in s.repo
    ensures u.Some? ==> u.value == s.repo[s.token.key.value]
  {
    match s.token.key
    case Some(key) => if key != "" && key in s.repo then Some(s.repo[key]) else None
    case None => None
  }

  /** `validate`: the current key names a stored user. */
  function Validate(s: Store): (b: bool)
    ensures b <==> s.token.key.Some? && s.token.key.value != "" && s.token.key.value in s.repo
  {
    GetUser(s).Some?
  }

  /** `setUser`: `uuid` is the random UUID it draws. */
  method SetUser(s: Store, user: User, uuid: string) returns (s': Store)
    ensures s'.token.tokenType == Some(TokenTypeName)
    // a stored identity: its key is reused and the map is left alone
    ensures HasIdentity(s.repo, user) ==>
      && s'.repo == s.repo
      && s'.token.key.Some? && s'.token.key.value in s.repo
      && SameIdentity(s.repo[s'.token.key.value], user)
    // a new identity: a copy is put under the uuid key if that key is free
    ensures !HasIdentity(s.repo, user) ==>
      && s'.token.key == Some(uuid)
      && s'.repo == (if uuid in s.repo then s.repo else s.repo[uuid := user])
    // with non-empty keys, the user is logged in afterwards
    ensures KeysNonEmpty(s.repo) && uuid != "" ==> KeysNonEmpty(s'.repo) && Validate(s')
    ensures KeysNonEmpty(s.repo) && uuid != "" && uuid !in s.repo ==> SameIdentity(GetUser(s').value, user)
    // sequentially, an identity is never stored twice
    ensures IdentitiesUnique(s.repo) ==> IdentitiesUnique(s'.repo)
  {
    var token := s.token.(key := None);
    if k :| k in s.repo && SameIdentity(s.repo[k], user) {
      token := token.(key := Some(k));
    }
    var repo := s.repo;
    if token.key.None? {
      if uuid !in repo {
        repo := repo[uuid := user];
      }
      token := token.(key := Some(uuid));
      if uuid !in s.repo {
        forall k1, k2 | k1 in repo && k2 in repo && k1 != k2 && IdentitiesUnique(s.repo)
          ensures !SameIdentity(repo[k1], repo[k2])
        {
          if k1 == uuid {
            SameIdentityIsEquivalence(repo[k2], user, user);
          }
        }
      }
    }
    s' := Store(repo, token.(tokenType := Some(TokenTypeName)));
  }

  /** `removeToken`: drops the current key's entry and clears the key. */
  function RemoveToken(s: Store): (r: Result<Store, StoreError>)
    ensures r.Failure? <==> s.token.key.None?
    ensures r.Success? ==>
      && r.value.repo == s.repo - {s.token.key.value}
      && r.value.token == s.token.(key := None)
      && !Validate(r.value)
  {
    match s.token.key
    case None => Failure(NullKey)
    case Some(key) => Success(Store(s.repo - {key}, s.token.(key := None)))
  }

  /** `removeUser`: drops a stored entry with the user's identity if there
      is one, and otherwise whatever entry the current key names. */
  method RemoveUser(s: Store, user: User) returns (r: Result<Store, StoreError>)
    ensures HasIdentity(s.repo, user) ==>
      && r.Success?
      && exists k :: k in s.repo && SameIdentity(s.repo[k], user) && r.value.repo == s.repo - {k}
    ensures !HasIdentity(s.repo, user) ==> r == RemoveToken(s)
    ensures r.Success? ==> r.value.token == s.token.(key := None)
    // with identities unique, the user is gone from the store afterwards
    ensures IdentitiesUnique(s.repo) && r.Success? ==> !HasIdentity(r.value.repo, user)
  {
    var current := s;
    if k :| k in s.repo && SameIdentity(s.repo[k], user) {
      current := s.(token := s.token.(key := Some(k)));
      r := RemoveToken(current);
      forall k2 | k2 in r.value.repo && IdentitiesUnique(s.repo)
        ensures !SameIdentity(r.value.repo[k2], user)
      {
        SameIdentityIsEquivalence(s.repo[k2], user, s.repo[k]);
        SameIdentityIsEquivalence(s.repo[k], user, user);
      }
    } else {
      r := RemoveToken(current);
    }
  }
}
