/** What registering, logging in and WeChat binding promise, over every sequence of calls. */
module UserRegistration {
  import opened Wrappers
  import opened CacheAside
  import opened CacheCoherence
  import opened UserServices

  // ----- what every call keeps -----

  ghost predicate UsersInv(s: Store<string, UserBody>) {
    && KeyExact(s)
    && forall id <- s.table.Keys :: s.table[id].IsLive() && s.table[id].keys == {s.table[id].body.mobile}
  }

  function AuthKeys(body: AuthBody): set<AuthKey> {
    {ByTypeKey(body.authType, body.authKey), ByUserType(body.userId, body.authType)}
  }

  ghost predicate AuthsInv(s: Store<AuthKey, AuthBody>) {
    && KeyExact(s)
    && forall id <- s.table.Keys :: s.table[id].IsLive() && s.table[id].keys == AuthKeys(s.table[id].body)
  }

  /** Auth row `a` belongs to user `u`. */
  ghost predicate Belongs(c: Center, a: int, u: int) {
    a in c.auths.table && u in c.users.table && c.auths.table[a].body.userId == u
  }

  /** Users and auth rows correspond one to one. */
  ghost predicate Paired(c: Center) {
    && (forall a <- c.auths.table.Keys :: Belongs(c, a, c.auths.table[a].body.userId))
    && (forall u <- c.users.table.Keys :: exists a :: Belongs(c, a, u))
    && (forall a, b, u | Belongs(c, a, u) && Belongs(c, b, u) :: a == b)
  }

  ghost predicate CenterInv(c: Center) {
    UsersInv(c.users) && AuthsInv(c.auths) && Paired(c)
  }

  ghost predicate SameTables(c: Center, c': Center) {
    c'.users.table == c.users.table && c'.auths.table == c.auths.table
  }

  // ----- one registration -----

  lemma ForgetKeepsKeyExact<K, B>(s: Store<K, B>, id: int, keys: set<K>, nextId: int)
    requires KeyExact(s) && s.nextId <= nextId
    ensures KeyExact(Forget(s, id, keys).(nextId := nextId))
  {
    var s' := Forget(s, id, keys).(nextId := nextId);
    forall key <- s'.byKey.Keys ensures !StaleKey(s', key) {
      assert !StaleKey(s, key);
    }
  }

  ghost predicate MobileTaken(c: Center, mobile: string) {
    exists id :: HoldsKey(c.users.table, id, mobile)
  }

  ghost predicate AuthTaken(c: Center, authType: string, authKey: string) {
    exists id :: HoldsKey(c.auths.table, id, ByTypeKey(authType, authKey))
  }

  /** What a successful registration adds: one user, and one auth row that points to it. */
  ghost predicate Adds(c: Center, c': Center, req: RegisterReq, md5: string -> string, randomNickname: string) {
    var u, a := c.users.nextId, c.auths.nextId;
    && u !in c.users.table && a !in c.auths.table
    && c'.users.table == c.users.table[u := NewUserRow(req, md5, randomNickname).(id := u)]
    && c'.auths.table == c.auths.table[a := NewAuthRow(u, req).(id := a)]
  }

  lemma InsertUser(s: Store<string, UserBody>, req: RegisterReq, md5: string -> string, randomNickname: string)
    requires UsersInv(s)
    ensures var (s', reply) := Insert(s, NewUserRow(req, md5, randomNickname));
      && UsersInv(s')
      && (reply.Inserted? <==> LiveRowByKey(s.table, req.mobile) == None)
      && (reply.Inserted? ==>
            && reply.id == s.nextId
            && s'.table == s.table[s.nextId := NewUserRow(req, md5, randomNickname).(id := s.nextId)])
      && (!reply.Inserted? ==> s'.table == s.table)
      && UsersInv(s'.(table := s.table))
  {
    var data := NewUserRow(req, md5, randomNickname);
    ApplyKeepsKeyExact(s, OpInsert(data));
    if exists id :: HoldsKey(s.table, id, req.mobile) {
      var id :| HoldsKey(s.table, id, req.mobile);
      assert req.mobile in s.table[id].keys * data.keys;
    }
    if KeysTaken(s.table, s.nextId, data.keys) {
      var other :| other in s.table && s.table[other].keys * data.keys != {};
      assert HoldsKey(s.table, other, req.mobile);
    } else {
      ForgetKeepsKeyExact(s, data.id, data.keys, s.nextId + 1);
      assert Insert(s, data).0.(table := s.table) == Forget(s, data.id, data.keys).(nextId := s.nextId + 1);
    }
  }

  /** No auth row can belong to a user id that was never assigned, so only the open key can clash. */
  lemma InsertAuth(c: Center, userId: int, req: RegisterReq)
    requires AuthsInv(c.auths) && userId !in c.users.table
    requires forall a <- c.auths.table.Keys :: c.auths.table[a].body.userId in c.users.table
    ensures var (s', reply) := Insert(c.auths, NewAuthRow(userId, req));
      && AuthsInv(s')
      && (reply.Inserted? <==> !AuthTaken(c, req.authType, req.authKey))
      && s'.table == if reply.Inserted? then c.auths.table[c.auths.nextId := NewAuthRow(userId, req).(id := c.auths.nextId)]
                     else c.auths.table
  {
    var s, data := c.auths, NewAuthRow(userId, req);
    ApplyKeepsKeyExact(s, OpInsert(data));
    if AuthTaken(c, req.authType, req.authKey) {
      var id :| HoldsKey(s.table, id, ByTypeKey(req.authType, req.authKey));
      assert ByTypeKey(req.authType, req.authKey) in s.table[id].keys * data.keys;
    }
    if KeysTaken(s.table, s.nextId, data.keys) {
      var other :| other in s.table && s.table[other].keys * data.keys != {};
      assert HoldsKey(s.table, other, ByTypeKey(req.authType, req.authKey));
    }
  }

  lemma AddingKeepsPaired(c: Center, c': Center, req: RegisterReq, md5: string -> string, randomNickname: string)
    requires CenterInv(c) && Adds(c, c', req, md5, randomNickname)
    ensures Paired(c')
  {
    var u, a := c.users.nextId, c.auths.nextId;
    forall v <- c'.users.table.Keys ensures exists b :: Belongs(c', b, v) {
      if v == u {
        assert Belongs(c', a, u);
      } else {
        var b :| Belongs(c, b, v);
        assert Belongs(c', b, v);
      }
    }
    forall b, d, v | Belongs(c', b, v) && Belongs(c', d, v) ensures b == d {
      assert b != a ==> Belongs(c, b, v);
      assert d != a ==> Belongs(c, d, v);
    }
  }

  lemma TablesDecidePaired(c: Center, c': Center)
    requires Paired(c) && SameTables(c, c')
    ensures Paired(c')
  {
    forall u <- c'.users.table.Keys ensures exists a :: Belongs(c', a, u) {
      var a :| Belongs(c, a, u);
      assert Belongs(c', a, u);
    }
    forall a, b, u | Belongs(c', a, u) && Belongs(c', b, u) ensures a == b {
      assert Belongs(c, a, u) && Belongs(c, b, u);
    }
  }

  /**
   A registration succeeds exactly when neither its mobile nor its open key is taken. Then it adds exactly
   one user and one auth row; otherwise it adds nothing, even when the user's insert had already run.
   */
  lemma RegisterIsAllOrNothing(c: Center, req: RegisterReq, md5: string -> string, randomNickname: string)
    requires CenterInv(c)
    ensures var (c', r) := RegisterOn(c, req, md5, randomNickname);
      && CenterInv(c')
      && (r.Ok? <==> !MobileTaken(c, req.mobile) && !AuthTaken(c, req.authType, req.authKey))
      && (r == Err(AlreadyRegistered) <==> MobileTaken(c, req.mobile))
      && if r.Ok? then r.value == c.users.nextId && Adds(c, c', req, md5, randomNickname) else SameTables(c, c')
  {
    var (users1, found) := FindByKey(c.users, req.mobile);
    FindByKeyIsExactIff(c.users, req.mobile);
    ApplyKeepsKeyExact(c.users, OpFindByKey(req.mobile));
    var c1 := c.(users := users1);
    var c' := RegisterOn(c, req, md5, randomNickname).0;
    if found == None {
      InsertUser(users1, req, md5, randomNickname);
      InsertAuth(c1, c.users.nextId, req);
    }
    if RegisterOn(c, req, md5, randomNickname).1.Ok? {
      AddingKeepsPaired(c, c', req, md5, randomNickname);
    } else {
      TablesDecidePaired(c, c');
    }
  }

  /** One more user with these columns, and an auth row that binds the open key to it. */
  ghost predicate Stores(c: Center, c': Center, mobile: string, password: string, nickname: string, authType: string, authKey: string) {
    var u, a := c.users.nextId, c.auths.nextId;
    && u !in c.users.table && a !in c.auths.table
    && c'.users.table == c.users.table[u := Row(u, 0, 0, {mobile}, UserBody(mobile, password, nickname))]
    && c'.auths.table == c.auths.table[a := Row(a, 0, 0, {ByTypeKey(authType, authKey), ByUserType(u, authType)},
                                                AuthBody(u, authKey, authType))]
  }

  /** What a registration stores and answers, from the request alone. */
  lemma RegisterStores(c: Center, req: RegisterReq, md5: string -> string, randomNickname: string)
    requires CenterInv(c)
    ensures var (c', r) := RegisterOn(c, req, md5, randomNickname);
      if MobileTaken(c, req.mobile) then r == Err(AlreadyRegistered) && SameTables(c, c')
      else if AuthTaken(c, req.authType, req.authKey) then r == Err(DbFailure) && SameTables(c, c')
      else
        && r == Ok(c.users.nextId)
        && Stores(c, c', req.mobile, if req.password == "" then "" else md5(req.password),
                  if req.nickname == "" then randomNickname else "", req.authType, req.authKey)
  {
    RegisterIsAllOrNothing(c, req, md5, randomNickname);
  }

  /** The stored nickname is the random one, or none at all: a nickname that was given is dropped. */
  lemma GivenNicknameIsDropped(c: Center, req: RegisterReq, md5: string -> string, randomNickname: string)
    requires CenterInv(c) && RegisterOn(c, req, md5, randomNickname).1.Ok?
    ensures var (c', r) := RegisterOn(c, req, md5, randomNickname);
      && r.value in c'.users.table
      && c'.users.table[r.value].body.nickname == (if req.nickname == "" then randomNickname else "")
      && (req.nickname != "" ==> c'.users.table[r.value].body.nickname != req.nickname)
  {
    RegisterIsAllOrNothing(c, req, md5, randomNickname);
  }

  // ----- logging in -----

  /** Login accepts a password if and only if it hashes to what is stored under the mobile. */
  lemma LoginIffHashMatches(c: Center, mobile: string, password: string, md5: string -> string)
    requires CenterInv(c)
    ensures var (c', r) := LoginOn(c, SYSTEM, mobile, password, md5);
      && CenterInv(c') && SameTables(c, c')
      && r == match LiveRowByKey(c.users.table, mobile)
              case None => Err(UserNotExists)
              case Some(user) => if md5(password) == user.body.password then Ok(user.id) else Err(WrongPassword)
  {
    FindByKeyIsExactIff(c.users, mobile);
    ApplyKeepsKeyExact(c.users, OpFindByKey(mobile));
    TablesDecidePaired(c, LoginOn(c, SYSTEM, mobile, password, md5).0);
  }

  /** Any other auth type is turned away without a look at the tables. */
  lemma OnlySystemLogsIn(c: Center, authType: string, authKey: string, password: string, md5: string -> string)
    requires CenterInv(c)
    ensures LoginOn(c, authType, authKey, password, md5).1 == Err(AuthTypeNotSupported) <==> authType != "system"
    ensures authType != "system" ==> LoginOn(c, authType, authKey, password, md5).0 == c
  {
  }

  /**
   Registering first looks the mobile up, which caches that there is none; the insert deletes that entry, so
   the very next login finds the new user.
   */
  lemma RegisteredMobileCanLogIn(c: Center, req: RegisterReq, md5: string -> string, randomNickname: string, password: string)
    requires CenterInv(c) && req.mobile !in c.users.byKey
    requires RegisterOn(c, req, md5, randomNickname).1.Ok?
    ensures FindByKey(c.users, req.mobile).0.byKey[req.mobile] == Placeholder
    ensures var (c', r) := RegisterOn(c, req, md5, randomNickname);
      var stored := if |req.password| > 0 then md5(req.password) else "";
      LoginOn(c', SYSTEM, req.mobile, password, md5).1 == if md5(password) == stored then Ok(r.value) else Err(WrongPassword)
  {
    RegisterIsAllOrNothing(c, req, md5, randomNickname);
    FindByKeyIsExactIff(c.users, req.mobile);
    var c' := RegisterOn(c, req, md5, randomNickname).0;
    LoginIffHashMatches(c', req.mobile, password, md5);
    assert HoldsKey(c'.users.table, c.users.nextId, req.mobile);
    KeyHolderIsUnique(c'.users, c.users.nextId, req.mobile);
  }

  /** The digest as it is printed: 32 characters, whatever the input. */
  ghost predicate IsDigest(md5: string -> string) {
    forall s :: |md5(s)| == 32
  }

  /** An account made without a password, as every WeChat binding does, accepts no password at all. */
  lemma NoPasswordNeverLogsIn(c: Center, id: int, password: string, md5: string -> string)
    requires CenterInv(c) && IsDigest(md5) && id in c.users.table && c.users.table[id].body.password == ""
    ensures LoginOn(c, SYSTEM, c.users.table[id].body.mobile, password, md5).1 == Err(WrongPassword)
  {
    var mobile := c.users.table[id].body.mobile;
    LoginIffHashMatches(c, mobile, password, md5);
    assert HoldsKey(c.users.table, id, mobile);
    KeyHolderIsUnique(c.users, id, mobile);
    assert |md5(password)| == 32;
  }

  // ----- any sequence of calls -----

  datatype Call =
    | CallRegister(req: RegisterReq, randomNickname: string)
    | CallLogin(authType: string, authKey: string, password: string)
    | CallWxMiniAuth(openId: string, mobile: string, randomNickname: string)
    | CallExpireUser(id: int, mobile: string)
    | CallExpireAuth(id: int, key: AuthKey)

  ghost function Step(c: Center, call: Call, md5: string -> string): Center {
    match call
    case CallRegister(req, nickname) => RegisterOn(c, req, md5, nickname).0
    case CallLogin(authType, authKey, password) => LoginOn(c, authType, authKey, password, md5).0
    case CallWxMiniAuth(openId, mobile, nickname) => WxMiniAuthOn(c, openId, mobile, md5, nickname).0
    case CallExpireUser(id, mobile) => c.(users := Forget(c.users, id, {mobile}))
    case CallExpireAuth(id, key) => c.(auths := Forget(c.auths, id, {key}))
  }

  ghost function Steps(c: Center, calls: seq<Call>, md5: string -> string): Center
    decreases |calls|
  {
    if calls == [] then c else Steps(Step(c, calls[0], md5), calls[1..], md5)
  }

  /** Nothing that was stored is changed or removed. */
  ghost predicate Extends(c: Center, c': Center) {
    && (forall id <- c.users.table.Keys :: id in c'.users.table && c'.users.table[id] == c.users.table[id])
    && (forall id <- c.auths.table.Keys :: id in c'.auths.table && c'.auths.table[id] == c.auths.table[id])
  }

  /** An open id already bound logs its user in; an unbound one registers, and the result is the new user. */
  lemma WxMiniAuthBindsOrLogsIn(c: Center, openId: string, mobile: string, md5: string -> string, randomNickname: string)
    requires CenterInv(c)
    ensures var (c', r) := WxMiniAuthOn(c, openId, mobile, md5, randomNickname);
      && CenterInv(c')
      && match LiveRowByKey(c.auths.table, ByTypeKey(WX_MINI, openId))
         case Some(auth) => r == Ok(auth.body.userId) && SameTables(c, c')
         case None =>
           && (r.Ok? <==> |mobile| >= 7 && !MobileTaken(c, mobile))
           && if r.Ok? then
                r.value == c.users.nextId && Adds(c, c', WechatRequest(openId, mobile), md5, randomNickname)
              else
                SameTables(c, c')
  {
    var key := ByTypeKey(WX_MINI, openId);
    var (auths1, found) := FindByKey(c.auths, key);
    FindByKeyIsExactIff(c.auths, key);
    ApplyKeepsKeyExact(c.auths, OpFindByKey(key));
    var c1 := c.(auths := auths1);
    TablesDecidePaired(c, c1);
    if found == None {
      assert !AuthTaken(c1, WX_MINI, openId);
      assert MobileTaken(c1, mobile) == MobileTaken(c, mobile);
      if |mobile| >= 7 {
        RegisterIsAllOrNothing(c1, WechatRequest(openId, mobile), md5, randomNickname);
      }
    } else {
      assert found.value.id > 0;
    }
  }

  /**
   What an authorisation of an unbound open id answers: with a mobile under seven characters the slice panics,
   a mobile already registered fails, and otherwise a user is stored.
   */
  lemma FirstWechatAuthStores(c: Center, openId: string, mobile: string, md5: string -> string, randomNickname: string)
    requires CenterInv(c) && !AuthTaken(c, "wxMini", openId)
    ensures var (c', r) := WxMiniAuthOn(c, openId, mobile, md5, randomNickname);
      if |mobile| < 7 then r == Err(Panic) && SameTables(c, c')
      else if MobileTaken(c, mobile) then r == Err(WechatAuthFailed) && SameTables(c, c')
      else r == Ok(c.users.nextId) && Stores(c, c', mobile, "", "", "wxMini", openId)
  {
    WxMiniAuthBindsOrLogsIn(c, openId, mobile, md5, randomNickname);
    assert LiveRowByKey(c.auths.table, ByTypeKey(WX_MINI, openId)) == None;
    FindByKeyIsExactIff(c.auths, ByTypeKey(WX_MINI, openId));
  }

  lemma ExpiryKeepsInv(c: Center, id: int, mobile: string, authKey: AuthKey)
    requires CenterInv(c)
    ensures CenterInv(c.(users := Forget(c.users, id, {mobile})))
    ensures CenterInv(c.(auths := Forget(c.auths, id, {authKey})))
  {
    ForgetKeepsKeyExact(c.users, id, {mobile}, c.users.nextId);
    ForgetKeepsKeyExact(c.auths, id, {authKey}, c.auths.nextId);
    TablesDecidePaired(c, c.(users := Forget(c.users, id, {mobile})));
    TablesDecidePaired(c, c.(auths := Forget(c.auths, id, {authKey})));
  }

  lemma RegisterExtends(c: Center, req: RegisterReq, md5: string -> string, nickname: string)
    requires CenterInv(c)
    ensures CenterInv(RegisterOn(c, req, md5, nickname).0) && Extends(c, RegisterOn(c, req, md5, nickname).0)
  {
    RegisterIsAllOrNothing(c, req, md5, nickname);
  }

  lemma WxMiniAuthExtends(c: Center, openId: string, mobile: string, md5: string -> string, nickname: string)
    requires CenterInv(c)
    ensures CenterInv(WxMiniAuthOn(c, openId, mobile, md5, nickname).0)
    ensures Extends(c, WxMiniAuthOn(c, openId, mobile, md5, nickname).0)
  {
    WxMiniAuthBindsOrLogsIn(c, openId, mobile, md5, nickname);
  }

  lemma StepKeepsInv(c: Center, call: Call, md5: string -> string)
    requires CenterInv(c)
    ensures CenterInv(Step(c, call, md5)) && Extends(c, Step(c, call, md5))
  {
    match call
    case CallRegister(req, nickname) => RegisterExtends(c, req, md5, nickname);
    case CallLogin(authType, authKey, password) => LoginIffHashMatches(c, authKey, password, md5);
    case CallWxMiniAuth(openId, mobile, nickname) => WxMiniAuthExtends(c, openId, mobile, md5, nickname);
    case CallExpireUser(id, mobile) => ExpiryKeepsInv(c, id, mobile, ByUserType(0, ""));
    case CallExpireAuth(id, key) => ExpiryKeepsInv(c, id, "", key);
  }

  lemma {:induction false} StepsKeepInv(c: Center, calls: seq<Call>, md5: string -> string)
    requires CenterInv(c)
    ensures CenterInv(Steps(c, calls, md5)) && Extends(c, Steps(c, calls, md5))
    decreases |calls|
  {
    if calls == [] {
    } else {
      StepKeepsInv(c, calls[0], md5);
      StepsKeepInv(Step(c, calls[0], md5), calls[1..], md5);
    }
  }

  /** The account that a first authorisation makes cannot be logged into with any password, whatever calls come later. */
  lemma WechatAccountHasNoLogin(c: Center, openId: string, mobile: string, md5: string -> string, randomNickname: string,
                                later: seq<Call>, password: string)
    requires CenterInv(c) && IsDigest(md5) && !AuthTaken(c, "wxMini", openId)
    requires WxMiniAuthOn(c, openId, mobile, md5, randomNickname).1.Ok?
    ensures var c' := WxMiniAuthOn(c, openId, mobile, md5, randomNickname).0;
      LoginOn(Steps(c', later, md5), SYSTEM, mobile, password, md5).1 == Err(WrongPassword)
  {
    WxMiniAuthBindsOrLogsIn(c, openId, mobile, md5, randomNickname);
    FirstWechatAuthStores(c, openId, mobile, md5, randomNickname);
    var c' := WxMiniAuthOn(c, openId, mobile, md5, randomNickname).0;
    StepsKeepInv(c', later, md5);
    NoPasswordNeverLogsIn(Steps(c', later, md5), c.users.nextId, password, md5);
  }

  function NoUsers(): Center {
    Center(Store(map[], map[], map[], 1), Store(map[], map[], map[], 1))
  }

  /** After any calls, users and auth rows correspond one to one. */
  lemma EveryUserHasOneAuth(calls: seq<Call>, md5: string -> string)
    ensures Paired(Steps(NoUsers(), calls, md5))
  {
    StepsKeepInv(NoUsers(), calls, md5);
  }

  /** The bound user. */
  ghost predicate BoundTo(c: Center, openId: string, userId: int) {
    exists id :: HoldsKey(c.auths.table, id, ByTypeKey(WX_MINI, openId)) && c.auths.table[id].body.userId == userId
  }

  /**
   Once an open id was authorised, every later authorisation of it, after any calls and with any mobile,
   gives the same user and adds no rows.
   */
  lemma RepeatedWechatAuthIsStable(before: seq<Call>, between: seq<Call>, openId: string, mobile: string, mobile': string,
                                   md5: string -> string, nickname: string, nickname': string)
    requires WxMiniAuthOn(Steps(NoUsers(), before, md5), openId, mobile, md5, nickname).1.Ok?
    ensures var (c1, first) := WxMiniAuthOn(Steps(NoUsers(), before, md5), openId, mobile, md5, nickname);
      var c2 := Steps(c1, between, md5);
      var (c3, again) := WxMiniAuthOn(c2, openId, mobile', md5, nickname');
      again == first && SameTables(c2, c3)
  {
    var c0 := Steps(NoUsers(), before, md5);
    StepsKeepInv(NoUsers(), before, md5);
    WxMiniAuthBindsOrLogsIn(c0, openId, mobile, md5, nickname);
    var (c1, first) := WxMiniAuthOn(c0, openId, mobile, md5, nickname);
    AuthorisedIsBound(c0, openId, mobile, md5, nickname);
    StepsKeepInv(c1, between, md5);
    BoundLogsIn(c1, Steps(c1, between, md5), openId, first.value, mobile', md5, nickname');
  }

  lemma AuthorisedIsBound(c: Center, openId: string, mobile: string, md5: string -> string, nickname: string)
    requires CenterInv(c) && WxMiniAuthOn(c, openId, mobile, md5, nickname).1.Ok?
    ensures var (c', r) := WxMiniAuthOn(c, openId, mobile, md5, nickname); CenterInv(c') && BoundTo(c', openId, r.value)
  {
    WxMiniAuthBindsOrLogsIn(c, openId, mobile, md5, nickname);
    var c' := WxMiniAuthOn(c, openId, mobile, md5, nickname).0;
    var key := ByTypeKey(WX_MINI, openId);
    if exists id :: HoldsKey(c.auths.table, id, key) {
      var id :| HoldsKey(c.auths.table, id, key);
      KeyHolderIsUnique(c.auths, id, key);
      assert HoldsKey(c'.auths.table, id, key);
    } else {
      assert HoldsKey(c'.auths.table, c.auths.nextId, key);
    }
  }

  lemma BoundLogsIn(c: Center, c': Center, openId: string, userId: int, mobile: string, md5: string -> string, nickname: string)
    requires CenterInv(c') && Extends(c, c') && BoundTo(c, openId, userId)
    ensures WxMiniAuthOn(c', openId, mobile, md5, nickname).1 == Ok(userId)
    ensures SameTables(c', WxMiniAuthOn(c', openId, mobile, md5, nickname).0)
  {
    var key := ByTypeKey(WX_MINI, openId);
    var id :| HoldsKey(c.auths.table, id, key) && c.auths.table[id].body.userId == userId;
    assert HoldsKey(c'.auths.table, id, key);
    KeyHolderIsUnique(c'.auths, id, key);
    WxMiniAuthBindsOrLogsIn(c', openId, mobile, md5, nickname);
  }
}
