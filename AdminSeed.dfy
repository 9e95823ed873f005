/** `seedAdminUser`: at startup, insert a super-admin record unless the
    admin password is not configured or a record with the admin username
    already exists. Every error is caught and logged, never propagated. */
module AdminSeed {
  import opened Common
  import opened Users

  /** ADMIN_USER_ID, ADMIN_PASSWORD, ADMIN_EMAIL and ADMIN_MOBILE. */
  datatype AdminEnv = AdminEnv(
    userId: Option<string>,
    password: Option<string>,
    email: Option<string>,
    mobile: Option<string>)

  const DefaultAdminUserId := "superadmin"
  const DefaultAdminEmail := "admin@app.com"
  const DefaultAdminMobile := "0000000000"
  const AdminName := "Super Admin"
  const AdminSaltRounds: nat := 12

  function AdminUsername(env: AdminEnv): string {
    OrDefault(env.userId, DefaultAdminUserId)
  }

  /** Which awaited step throws, if any; the lookup's own exception is the
      `Failed` lookup. */
  datatype SeedFault = NoSeedFault | HashThrows | SaveThrows

  /** The document `new User({...})` builds for the admin. */
  function AdminRecord(id: UserId, env: AdminEnv, hashed: string): (r: UserRecord)
    ensures r.username == AdminUsername(env) && r.password == hashed
    ensures r.username != "" && r.email != "" && r.phone != "" && r.walletBalance.None?
    ensures Truthy(env.email) ==> r.email == env.email.value
  {
    UserRecord(id, AdminUsername(env), OrDefault(env.email, DefaultAdminEmail), hashed,
               AdminName, OrDefault(env.mobile, DefaultAdminMobile), None)
  }

  /** The record the seed saves, if any. */
  function SeedInsert(users: seq<UserRecord>, env: AdminEnv, found: Lookup, hasher: Hasher,
                      saltSeed: string, fault: SeedFault): (r: Option<UserRecord>)
    requires Truthy(env.password) ==> Responds(users, ByUsername(AdminUsername(env)), found)
    ensures r.Some? <==> Truthy(env.password) && found.NotFound? && fault == NoSeedFault
    ensures r.Some? ==> forall u | u in users :: u.username != AdminUsername(env)
  {
    if !Truthy(env.password) || !found.NotFound? || fault != NoSeedFault then None
    else Some(AdminRecord(|users|, env, hasher.hash(env.password.value, Salt(AdminSaltRounds, saltSeed))))
  }

  function Inserted(r: Option<UserRecord>): seq<UserRecord> {
    if r.Some? then [r.value] else []
  }

  /** `seedAdminUser()` against the collection. `found` is what
      `User.findOne({ username })` returned. */
  method SeedAdmin(store: UserStore, env: AdminEnv, found: Lookup, hasher: Hasher,
                   saltSeed: string, fault: SeedFault)
    requires store.Valid()
    requires Truthy(env.password) ==> Responds(store.users, ByUsername(AdminUsername(env)), found)
    modifies store
    ensures store.Valid()
    ensures store.users
            == old(store.users) + Inserted(SeedInsert(old(store.users), env, found, hasher, saltSeed, fault))
  {
    var adminUserId := OrDefault(env.userId, DefaultAdminUserId);
    var adminPassword := env.password;
    var adminEmail := OrDefault(env.email, DefaultAdminEmail);
    var adminMobile := OrDefault(env.mobile, DefaultAdminMobile);

    if !Truthy(adminPassword) {
      return;   // ADMIN_PASSWORD not set
    }
    if found.Failed? {
      return;   // caught and logged
    }
    if found.Found? {
      return;   // admin user already exists
    }
    if fault == HashThrows {
      return;
    }
    var hashedPassword := hasher.hash(adminPassword.value, Salt(AdminSaltRounds, saltSeed));
    var admin := UserRecord(store.NextId(), adminUserId, adminEmail, hashedPassword,
                            AdminName, adminMobile, None);
    if fault == SaveThrows {
      return;
    }
    store.Save(admin);
  }

  /** Without ADMIN_PASSWORD nothing is written. */
  lemma NoPasswordNoWrite(users: seq<UserRecord>, env: AdminEnv, found: Lookup, hasher: Hasher,
                          saltSeed: string, fault: SeedFault)
    requires !Truthy(env.password)
    ensures SeedInsert(users, env, found, hasher, saltSeed, fault) == None
  {
  }

  /** With the other variables unset, the admin is "superadmin",
      "admin@app.com", "0000000000", named "Super Admin", and its password is
      the cost-12 hash of ADMIN_PASSWORD. */
  lemma DefaultAdmin(users: seq<UserRecord>, password: string, hasher: Hasher, saltSeed: string)
    requires password != ""
    requires Responds(users, ByUsername(DefaultAdminUserId), NotFound)
    ensures var env := AdminEnv(None, Some(password), None, None);
            SeedInsert(users, env, NotFound, hasher, saltSeed, NoSeedFault)
            == Some(UserRecord(|users|, "superadmin", "admin@app.com",
                               hasher.hash(password, Salt(12, saltSeed)), "Super Admin", "0000000000", None))
  {
  }

  /** A stored admin username makes the seed a no-op, whatever the lookup
      returns (a lookup that throws writes nothing either). */
  lemma ExistingAdminNoWrite(users: seq<UserRecord>, env: AdminEnv, found: Lookup, hasher: Hasher,
                             saltSeed: string, fault: SeedFault)
    requires exists u :: u in users && u.username == AdminUsername(env)
    requires Truthy(env.password) ==> Responds(users, ByUsername(AdminUsername(env)), found)
    ensures SeedInsert(users, env, found, hasher, saltSeed, fault) == None
  {
  }

  /** Running the seed twice, with any lookups, salts and faults, leaves at
      most one record with the admin username when there was none before. */
  lemma {:induction false} SeedTwiceAtMostOneAdmin(
    users: seq<UserRecord>, env: AdminEnv,
    found1: Lookup, salt1: string, fault1: SeedFault,
    found2: Lookup, salt2: string, fault2: SeedFault, hasher: Hasher)
    requires CountUsername(users, AdminUsername(env)) == 0
    requires Truthy(env.password) ==> Responds(users, ByUsername(AdminUsername(env)), found1)
    requires var once := users + Inserted(SeedInsert(users, env, found1, hasher, salt1, fault1));
             Truthy(env.password) ==> Responds(once, ByUsername(AdminUsername(env)), found2)
    ensures var once := users + Inserted(SeedInsert(users, env, found1, hasher, salt1, fault1));
            var twice := once + Inserted(SeedInsert(once, env, found2, hasher, salt2, fault2));
            CountUsername(twice, AdminUsername(env)) <= 1
  {
    var name := AdminUsername(env);
    var first := SeedInsert(users, env, found1, hasher, salt1, fault1);
    var once := users + Inserted(first);
    var second := SeedInsert(once, env, found2, hasher, salt2, fault2);
    var twice := once + Inserted(second);
    if first.Some? {
      CountUsernameAppend(users, first.value, name);
      assert first.value in once && first.value.username == name;
      assert second == None;
      assert twice == once;
    } else {
      assert once == users;
      if second.Some? {
        CountUsernameAppend(once, second.value, name);
      } else {
        assert twice == once;
      }
    }
  }

  /** The existence check looks at the username only: a record holding the
      admin email under another username does not stop an insert, which then
      stores that email twice. */
  lemma EmailNotChecked(other: UserRecord, env: AdminEnv, hasher: Hasher, saltSeed: string)
    requires Truthy(env.password)
    requires other.id == 0 && other.email == OrDefault(env.email, DefaultAdminEmail)
    requires other.username != AdminUsername(env)
    ensures var r := SeedInsert([other], env, NotFound, hasher, saltSeed, NoSeedFault);
            r.Some? && !Unique([other] + [r.value])
  {
    var r := SeedInsert([other], env, NotFound, hasher, saltSeed, NoSeedFault);
    var all := [other] + [r.value];
    assert all[0] == other && all[1] == r.value;
    assert all[0].email == all[1].email;
  }
}
