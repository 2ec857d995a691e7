/**
 The user centre, run one call at a time: registering, logging in with a mobile number, and binding or
 logging in with a WeChat open id. Both tables are read through their caches.

 The hash is a parameter; the random nickname is an argument.
 */
module UserServices {
  import opened Wrappers
  import opened CacheAside
  import opened CachedModels

  const SYSTEM := "system"
  const WX_MINI := "wxMini"

  datatype UserBody = UserBody(mobile: string, password: string, nickname: string)

  datatype AuthBody = AuthBody(userId: int, authKey: string, authType: string)

  /** The two unique indexes of the user_auth table. */
  datatype AuthKey = ByTypeKey(authType: string, authKey: string) | ByUserType(userId: int, authType: string)

  type UserRow = Row<string, UserBody>
  type AuthRow = Row<AuthKey, AuthBody>

  /** Both tables and their caches. */
  datatype Center = Center(users: Store<string, UserBody>, auths: Store<AuthKey, AuthBody>)

  datatype RegisterReq = RegisterReq(mobile: string, nickname: string, password: string, authKey: string, authType: string)

  datatype UserError =
    | AlreadyRegistered
    | DbFailure
    | UserNotExists
    | WrongPassword
    | AuthTypeNotSupported
    | WechatAuthFailed
    | Panic

  /** The answer to an auth lookup; all zero when there is none. */
  datatype AuthDetail = AuthDetail(id: int, userId: int)

  function NewUserRow(req: RegisterReq, md5: string -> string, randomNickname: string): UserRow {
    Row(0, DEL_STATE_NO, 0, {req.mobile},
        UserBody(req.mobile,
                 if |req.password| > 0 then md5(req.password) else "",
                 if |req.nickname| == 0 then randomNickname else ""))
  }

  function NewAuthRow(userId: int, req: RegisterReq): AuthRow {
    Row(0, DEL_STATE_NO, 0, {ByTypeKey(req.authType, req.authKey), ByUserType(userId, req.authType)},
        AuthBody(userId, req.authKey, req.authType))
  }

  /**
   The transaction: a failed second insert rolls the first one back, but the ids it consumed and the cache
   entries it deleted stay gone.
   */
  function InsertBoth(c: Center, req: RegisterReq, md5: string -> string, randomNickname: string): (Center, Result<int, UserError>) {
    var (users', reply) := Insert(c.users, NewUserRow(req, md5, randomNickname));
    if !reply.Inserted? then
      (c.(users := users'), Err(DbFailure))
    else
      var (auths', authReply) := Insert(c.auths, NewAuthRow(reply.id, req));
      if authReply.Inserted? then
        (Center(users', auths'), Ok(reply.id))
      else
        (Center(users'.(table := c.users.table), auths'), Err(DbFailure))
  }

  ghost function RegisterOn(c: Center, req: RegisterReq, md5: string -> string, randomNickname: string): (Center, Result<int, UserError>) {
    var (users1, found) := FindByKey(c.users, req.mobile);
    if found.Some? then
      (c.(users := users1), Err(AlreadyRegistered))
    else
      InsertBoth(c.(users := users1), req, md5, randomNickname)
  }

  ghost function LoginOn(c: Center, authType: string, authKey: string, password: string, md5: string -> string): (Center, Result<int, UserError>) {
    if authType != SYSTEM then
      (c, Err(AuthTypeNotSupported))
    else
      var (users1, found) := FindByKey(c.users, authKey);
      match found
      case None => (c.(users := users1), Err(UserNotExists))
      case Some(user) =>
        (c.(users := users1), if md5(password) == user.body.password then Ok(user.id) else Err(WrongPassword))
  }

  function AuthDetailOf(found: Option<AuthRow>): AuthDetail {
    match found
    case None => AuthDetail(0, 0)
    case Some(row) => AuthDetail(row.id, row.body.userId)
  }

  function WechatRequest(openId: string, mobile: string): RegisterReq
    requires |mobile| >= 7
  {
    RegisterReq(mobile, "flashsale" + mobile[7..], "", openId, WX_MINI)
  }

  /** Bind or log in; a new mobile number shorter than seven characters makes the slice panic. */
  ghost function WxMiniAuthOn(c: Center, openId: string, mobile: string, md5: string -> string, randomNickname: string): (Center, Result<int, UserError>) {
    var (auths1, found) := FindByKey(c.auths, ByTypeKey(WX_MINI, openId));
    var c1 := c.(auths := auths1);
    if AuthDetailOf(found).id != 0 then
      (c1, Ok(AuthDetailOf(found).userId))
    else if |mobile| < 7 then
      (c1, Err(Panic))
    else
      var (c2, r) := RegisterOn(c1, WechatRequest(openId, mobile), md5, randomNickname);
      (c2, if r.Ok? then r else Err(WechatAuthFailed))
  }

  class UserCenter {
    const users: CachedModel<string, UserBody>
    const auths: CachedModel<AuthKey, AuthBody>

    ghost predicate Valid()
      reads users, auths
    {
      users as object != auths as object && users.Valid() && auths.Valid()
    }

    function State(): Center
      reads users, auths
    {
      Center(users.State(), auths.State())
    }

    constructor (users: CachedModel<string, UserBody>, auths: CachedModel<AuthKey, AuthBody>)
      requires users as object != auths as object && users.Valid() && auths.Valid()
      ensures Valid() && this.users == users && this.auths == auths
    {
      this.users, this.auths := users, auths;
    }

    method InsertUser(req: RegisterReq, md5: string -> string, randomNickname: string) returns (reply: Reply<string, UserBody>)
      requires Valid()
      modifies users
      ensures Valid()
      ensures (users.State(), reply) == Insert(old(users.State()), NewUserRow(req, md5, randomNickname))
    {
      var user := new Record(Row(0, DEL_STATE_NO, 0, {}, UserBody("", "", "")));
      user.row := user.row.(keys := {req.mobile}, body := user.row.body.(mobile := req.mobile));
      if |req.nickname| == 0 {
        user.row := user.row.(body := user.row.body.(nickname := randomNickname));
      }
      if |req.password| > 0 {
        user.row := user.row.(body := user.row.body.(password := md5(req.password)));
      }
      reply := users.Insert(user);
    }

    method InsertUserAuth(userId: int, req: RegisterReq) returns (reply: Reply<AuthKey, AuthBody>)
      requires Valid()
      modifies auths
      ensures Valid()
      ensures (auths.State(), reply) == Insert(old(auths.State()), NewAuthRow(userId, req))
    {
      var userAuth := new Record(Row(0, DEL_STATE_NO, 0, {ByTypeKey(req.authType, req.authKey), ByUserType(userId, req.authType)},
                                     AuthBody(userId, req.authKey, req.authType)));
      reply := auths.Insert(userAuth);
    }

    /** The transaction: both inserts, and the rollback of the first when the second fails. */
    method Trans(req: RegisterReq, md5: string -> string, randomNickname: string) returns (r: Result<int, UserError>)
      requires Valid()
      modifies users, auths
      ensures Valid()
      ensures (State(), r) == InsertBoth(old(State()), req, md5, randomNickname)
    {
      var begin := users.table;
      var reply := InsertUser(req, md5, randomNickname);
      if !reply.Inserted? {
        return Err(DbFailure);
      }
      var authReply := InsertUserAuth(reply.id, req);
      if !authReply.Inserted? {
        users.table := begin;
        return Err(DbFailure);
      }
      return Ok(reply.id);
    }

    /** The result is the user id that the issued token carries. */
    method Register(req: RegisterReq, md5: string -> string, randomNickname: string) returns (r: Result<int, UserError>)
      requires Valid()
      modifies users, auths
      ensures Valid()
      ensures (State(), r) == RegisterOn(old(State()), req, md5, randomNickname)
    {
      var found := users.FindOneByKey(req.mobile);
      if found.Some? {
        return Err(AlreadyRegistered);
      }
      r := Trans(req, md5, randomNickname);
    }

    method LoginByMobile(mobile: string, password: string, md5: string -> string) returns (r: Result<int, UserError>)
      requires Valid()
      modifies users
      ensures Valid()
      ensures (State(), r) == LoginOn(old(State()), SYSTEM, mobile, password, md5)
    {
      var user := users.FindOneByKey(mobile);
      if user == None {
        return Err(UserNotExists);
      }
      if md5(password) != user.value.body.password {
        return Err(WrongPassword);
      }
      return Ok(user.value.id);
    }

    method Login(authType: string, authKey: string, password: string, md5: string -> string) returns (r: Result<int, UserError>)
      requires Valid()
      modifies users
      ensures Valid()
      ensures (State(), r) == LoginOn(old(State()), authType, authKey, password, md5)
    {
      if authType == SYSTEM {
        r := LoginByMobile(authKey, password, md5);
      } else {
        r := Err(AuthTypeNotSupported);
      }
    }

    method GetUserAuthByAuthKey(authType: string, authKey: string) returns (detail: AuthDetail)
      requires Valid()
      modifies auths
      ensures Valid()
      ensures auths.State() == FindByKey(old(auths.State()), ByTypeKey(authType, authKey)).0
      ensures detail == AuthDetailOf(FindByKey(old(auths.State()), ByTypeKey(authType, authKey)).1)
    {
      var userAuth := auths.FindOneByKey(ByTypeKey(authType, authKey));
      detail := AuthDetail(0, 0);
      if userAuth.Some? {
        detail := AuthDetail(userAuth.value.id, userAuth.value.body.userId);
      }
    }

    /** `openId` and `mobile` are what WeChat answered. */
    method WxMiniAuth(openId: string, mobile: string, md5: string -> string, randomNickname: string) returns (r: Result<int, UserError>)
      requires Valid()
      modifies users, auths
      ensures Valid()
      ensures (State(), r) == WxMiniAuthOn(old(State()), openId, mobile, md5, randomNickname)
    {
      var userAuth := GetUserAuthByAuthKey(WX_MINI, openId);
      if userAuth.id != 0 {
        return Ok(userAuth.userId);
      }
      if |mobile| < 7 {
        return Err(Panic);
      }
      var nickName := "flashsale" + mobile[7..];
      r := Register(RegisterReq(mobile, nickName, "", openId, WX_MINI), md5, randomNickname);
      if r.Err? {
        return Err(WechatAuthFailed);
      }
    }
  }
}
