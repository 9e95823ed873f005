/** The user collection the backend reads and writes, and the abstractions
    of the libraries the handlers call: bcrypt (a salted hash and its
    comparison), jsonwebtoken (a signed token naming a user and a lifetime)
    and Mongoose's `findOne`/`findById` (a lookup that returns some matching
    record, none, or throws). */
module Users {
  import opened Common

  /** MongoDB's `_id`, modelled as the record's position in the collection. */
  type UserId = nat

  /** A stored user document. `password` holds a bcrypt hash. */
  datatype UserRecord = UserRecord(
    id: UserId,
    username: string,
    email: string,
    password: string,
    name: string,
    phone: string,
    walletBalance: Option<int>)

  /** The user object the backend sends to clients: the record without its
      password. */
  datatype Profile = Profile(
    id: UserId,
    name: string,
    username: string,
    email: string,
    phone: string,
    walletBalance: Option<int>)

  function ProfileOf(u: UserRecord): Profile {
    Profile(u.id, u.name, u.username, u.email, u.phone, u.walletBalance)
  }

  /** The profile shows everything of a record but its password: two records
      have the same profile exactly when they differ at most in the password. */
  lemma ProfileHidesPassword(u: UserRecord, v: UserRecord)
    ensures ProfileOf(u) == ProfileOf(v) <==> u.(password := v.password) == v
  {
  }

  /** bcrypt's salt: the cost factor and the random part. */
  datatype Salt = Salt(rounds: nat, seed: string)

  /** `bcrypt.hash` and `bcrypt.compare` as uninterpreted functions. */
  datatype Hasher = Hasher(hash: (string, Salt) -> string, compare: (string, string) -> bool)

  /** The one property of bcrypt the handlers rely on: a password matches
      every hash made from it. */
  ghost predicate Sound(h: Hasher) {
    forall p, s :: h.compare(p, h.hash(p, s))
  }

  /** No hash equals the plaintext it was made from. */
  ghost predicate HidesPlaintext(h: Hasher) {
    forall p, s :: h.hash(p, s) != p
  }

  /** The `expiresIn` option of `jwt.sign`, in days; it becomes the `exp`
      claim (section 4.1.4 of RFC 7519). */
  datatype Ttl = Days(days: nat)

  const SevenDays: Ttl := Days(7)
  const ThirtyDays: Ttl := Days(30)

  /** A signed token, abstractly: the `userId` claim and its lifetime. */
  datatype Token = Token(userId: UserId, ttl: Ttl)

  /** The filters the handlers pass to `findOne`/`findById`. */
  datatype Query =
    | EmailOrUsername(email: string, username: string)  // { $or: [{ email }, { username }] }
    | ByUsername(username: string)                      // { username }
    | ById(id: UserId)                                  // findById(id)

  predicate Matches(u: UserRecord, q: Query) {
    match q
    case EmailOrUsername(e, n) => u.email == e || u.username == n
    case ByUsername(n) => u.username == n
    case ById(i) => u.id == i
  }

  /** What an awaited lookup produced: some document, null, or an exception. */
  datatype Lookup = Found(user: UserRecord) | NotFound | Failed

  /** The contract of a lookup against the collection: a found document is a
      stored one that matches (any of them, when several do); null means no
      stored document matches; the driver may throw at any time. */
  predicate Responds(users: seq<UserRecord>, q: Query, r: Lookup) {
    match r
    case Found(u) => u in users && Matches(u, q)
    case NotFound => forall u | u in users :: !Matches(u, q)
    case Failed => true
  }

  /** Record `i` carries `_id` `i`. */
  predicate IdsAreIndices(users: seq<UserRecord>) {
    forall i | 0 <= i < |users| :: users[i].id == i
  }

  /** No two records share an email, and no two share a username. */
  predicate Unique(users: seq<UserRecord>) {
    forall i, j | 0 <= i < j < |users| ::
      users[i].email != users[j].email && users[i].username != users[j].username
  }

  /** How many records carry a given username. */
  function CountUsername(users: seq<UserRecord>, name: string): (n: nat)
    ensures n <= |users|
    ensures n == 0 <==> forall u | u in users :: u.username != name
  {
    if users == [] then 0
    else CountUsername(users[..|users| - 1], name)
         + (if users[|users| - 1].username == name then 1 else 0)
  }

  lemma CountUsernameAppend(users: seq<UserRecord>, u: UserRecord, name: string)
    ensures CountUsername(users + [u], name)
            == CountUsername(users, name) + (if u.username == name then 1 else 0)
  {
    assert (users + [u])[..|users|] == users;
  }

  /** Appending a record that matches no stored record on either field keeps
      emails and usernames unique. */
  lemma {:induction false} AppendKeepsUnique(users: seq<UserRecord>, u: UserRecord)
    requires Unique(users)
    requires forall v | v in users :: !Matches(v, EmailOrUsername(u.email, u.username))
    ensures Unique(users + [u])
  {
    var all := users + [u];
    forall i, j | 0 <= i < j < |all|
      ensures all[i].email != all[j].email && all[i].username != all[j].username
    {
      if j < |users| {
        assert all[i] == users[i] && all[j] == users[j];
      } else {
        assert all[j] == u && all[i] == users[i];
        assert users[i] in users;
      }
    }
  }

  /** The MongoDB users collection. */
  class UserStore {
    var users: seq<UserRecord>

    ghost predicate Valid()
      reads this
    {
      IdsAreIndices(users)
    }

    constructor ()
      ensures Valid() && users == []
    {
      users := [];
    }

    /** The `_id` that `new User(...)` assigns to the next document. */
    function NextId(): UserId
      reads this
    {
      |users|
    }

    /** `doc.save()`: the document is appended. */
    method Save(u: UserRecord)
      requires Valid() && u.id == NextId()
      modifies this
      ensures Valid()
      ensures users == old(users) + [u]
    {
      users := users + [u];
    }
  }
}
