/**
 The strings under which the user centre's two models keep their cache entries, and when two different
 entries can never share one. The cache model in CacheAside keeps the families of keys apart; this is why
 it may.
 */
module CacheKeys {

  /** What a cache entry stands for. */
  datatype CacheKey =
    | UserId(id: int)
    | UserMobile(mobile: string)
    | AuthId(id: int)
    | AuthTypeKey(authType: string, authKey: string)
    | AuthUserType(userId: int, authType: string)

  function Render(key: CacheKey): string {
    Prefix(key) + Rest(key)
  }

  function Prefix(key: CacheKey): string {
    match key
    case UserId(_) => "cache:flashsaleUsercenter:user:id:"
    case UserMobile(_) => "cache:flashsaleUsercenter:user:mobile:"
    case AuthId(_) => "cache:flashsaleUsercenter:userAuth:id:"
    case AuthTypeKey(_, _) => "cache:flashsaleUsercenter:userAuth:authType:authKey:"
    case AuthUserType(_, _) => "cache:flashsaleUsercenter:userAuth:userId:authType:"
  }

  function Rest(key: CacheKey): string {
    match key
    case UserId(id) => Decimal(id)
    case UserMobile(mobile) => mobile
    case AuthId(id) => Decimal(id)
    case AuthTypeKey(authType, authKey) => authType + ":" + authKey
    case AuthUserType(userId, authType) => Decimal(userId) + ":" + authType
  }

  // ----- decimal numerals -----

  function Digit(d: nat): char
    requires d < 10
  {
    "0123456789"[d]
  }

  function Digits(n: nat): (s: string)
    ensures |s| > 0 && s[0] != '-'
  {
    if n < 10 then [Digit(n)] else Digits(n / 10) + [Digit(n % 10)]
  }

  function Decimal(n: int): string {
    if n < 0 then "-" + Digits(-n) else Digits(n)
  }

  function DigitValue(c: char): nat {
    if '0' <= c <= '9' then (c - '0') as nat else 0
  }

  /** Reads the digits back. */
  function ValueOf(s: string): nat {
    if s == "" then 0 else 10 * ValueOf(s[..|s| - 1]) + DigitValue(s[|s| - 1])
  }

  function Parse(s: string): int {
    if s != "" && s[0] == '-' then 0 - ValueOf(s[1..]) else ValueOf(s)
  }

  lemma DigitReadsBack(d: nat)
    requires d < 10
    ensures DigitValue(Digit(d)) == d && Digit(d) != ':'
  {
  }

  lemma {:induction false} DigitsReadBack(n: nat)
    ensures ValueOf(Digits(n)) == n && ':' !in Digits(n)
  {
    if n < 10 {
      DigitReadsBack(n);
      assert Digits(n)[..0] == "";
    } else {
      var front := Digits(n / 10);
      DigitsReadBack(n / 10);
      DigitReadsBack(n % 10);
      assert Digits(n) == front + [Digit(n % 10)];
      assert (front + [Digit(n % 10)])[..|front|] == front;
    }
  }

  /** A rendered integer reads back as itself, and contains no colon. */
  lemma DecimalReadsBack(n: int)
    ensures Parse(Decimal(n)) == n && ':' !in Decimal(n)
  {
    if n < 0 {
      DigitsReadBack(-n);
      assert Decimal(n)[1..] == Digits(-n);
    } else {
      DigitsReadBack(n);
    }
  }

  // ----- the families do not meet -----

  /** Three characters behind the part that all keys share tell a key's family. */
  lemma PrefixShowsFamily(key: CacheKey)
    ensures var s := Prefix(key);
      match key
      case UserId(_) => |s| > 31 && s[30] == ':' && s[31] == 'i'
      case UserMobile(_) => |s| > 31 && s[30] == ':' && s[31] == 'm'
      case AuthId(_) => |s| > 35 && s[30] == 'A' && s[35] == 'i'
      case AuthTypeKey(_, _) => |s| > 35 && s[30] == 'A' && s[35] == 'a'
      case AuthUserType(_, _) => |s| > 35 && s[30] == 'A' && s[35] == 'u'
  {
  }

  /** A key begins with its prefix. */
  lemma PrefixesAgree(a: CacheKey, b: CacheKey)
    requires Render(a) == Render(b)
    ensures forall i | 0 <= i < |Prefix(a)| && i < |Prefix(b)| :: Prefix(a)[i] == Prefix(b)[i]
  {
    forall i | 0 <= i < |Prefix(a)| && i < |Prefix(b)| ensures Prefix(a)[i] == Prefix(b)[i] {
      assert Render(a)[i] == Prefix(a)[i] && Render(b)[i] == Prefix(b)[i];
    }
  }

  lemma SameKeySameFamily(a: CacheKey, b: CacheKey)
    requires Render(a) == Render(b)
    ensures Prefix(a) == Prefix(b) && Rest(a) == Rest(b)
    ensures a.UserId? == b.UserId? && a.UserMobile? == b.UserMobile? && a.AuthId? == b.AuthId?
    ensures a.AuthTypeKey? == b.AuthTypeKey? && a.AuthUserType? == b.AuthUserType?
  {
    PrefixShowsFamily(a);
    PrefixShowsFamily(b);
    PrefixesAgree(a, b);
    assert Render(a)[|Prefix(a)|..] == Rest(a);
    assert Render(b)[|Prefix(b)|..] == Rest(b);
  }

  // ----- two strings around a colon -----

  lemma SplitAtColon(a: string, x: string, b: string, y: string)
    requires a + ":" + x == b + ":" + y && |a| <= |b|
    ensures (a == b && x == y) || a + ":" <= b
  {
    var s := a + ":" + x;
    assert s[..|a|] == a && s[|a|] == ':' && s[|a| + 1..] == x;
    assert s[..|b|] == b && s[|b|] == ':' && s[|b| + 1..] == y;
    if |a| < |b| {
      assert b[..|a| + 1] == a + ":";
    }
  }

  /** No auth type is another one followed by a colon and more. */
  ghost predicate ColonPrefixFree(types: iset<string>) {
    forall t, u | t in types && u in types :: !(t + ":" <= u)
  }

  ghost predicate TypeIn(key: CacheKey, types: iset<string>) {
    key.AuthTypeKey? || key.AuthUserType? ==> key.authType in types
  }

  ghost predicate RenderIsInjective(types: iset<string>) {
    forall a, b | TypeIn(a, types) && TypeIn(b, types) && Render(a) == Render(b) :: a == b
  }

  lemma ColonAfterPrefix(a: string, b: string)
    requires a + ":" <= b
    ensures ':' in b
  {
    assert (a + ":")[|a|] == ':';
    assert b[|a|] == ':';
  }

  lemma ColonFreeSplits(a: string, x: string, b: string, y: string)
    requires ':' !in a && ':' !in b && a + ":" + x == b + ":" + y
    ensures a == b && x == y
  {
    if |a| <= |b| {
      SplitAtColon(a, x, b, y);
      if a + ":" <= b { ColonAfterPrefix(a, b); }
    } else {
      SplitAtColon(b, y, a, x);
      if b + ":" <= a { ColonAfterPrefix(b, a); }
    }
  }

  lemma SameRenderSameKey(a: CacheKey, b: CacheKey, types: iset<string>)
    requires ColonPrefixFree(types) && TypeIn(a, types) && TypeIn(b, types)
    requires Render(a) == Render(b)
    ensures a == b
  {
    SameKeySameFamily(a, b);
    match (a, b)
    case (UserId(i), UserId(j)) =>
      DecimalReadsBack(i);
      DecimalReadsBack(j);
    case (UserMobile(_), UserMobile(_)) =>
    case (AuthId(i), AuthId(j)) =>
      DecimalReadsBack(i);
      DecimalReadsBack(j);
    case (AuthTypeKey(t, k), AuthTypeKey(u, l)) =>
      if |t| <= |u| {
        SplitAtColon(t, k, u, l);
      } else {
        SplitAtColon(u, l, t, k);
      }
    case (AuthUserType(i, t), AuthUserType(j, u)) =>
      DecimalReadsBack(i);
      DecimalReadsBack(j);
      ColonFreeSplits(Decimal(i), t, Decimal(j), u);
    case _ =>
  }

  /**
   Different entries never share a key if and only if no auth type in use is another one followed by a
   colon. Ids, user ids, mobiles and open keys are unrestricted.
   */
  lemma RenderIsInjectiveIff(types: iset<string>)
    ensures RenderIsInjective(types) <==> ColonPrefixFree(types)
  {
    if ColonPrefixFree(types) {
      forall a, b | TypeIn(a, types) && TypeIn(b, types) && Render(a) == Render(b) ensures a == b {
        SameRenderSameKey(a, b, types);
      }
    } else {
      var t, u :| t in types && u in types && t + ":" <= u;
      var k := u[|t| + 1..] + ":";
      var a, b := AuthTypeKey(t, k), AuthTypeKey(u, "");
      assert t + ":" + k == u + ":" + "";
      assert TypeIn(a, types) && TypeIn(b, types) && Render(a) == Render(b);
    }
  }

  /** The two auth types the system defines. */
  lemma DefinedTypesAreSafe()
    ensures RenderIsInjective(iset{"system", "wxMini"})
  {
    RenderIsInjectiveIff(iset{"system", "wxMini"});
  }

  /** With types that contain no colon there is nothing to check. */
  lemma ColonFreeTypesAreSafe(types: iset<string>)
    requires forall t <- types :: ':' !in t
    ensures RenderIsInjective(types)
  {
    RenderIsInjectiveIff(types);
    forall t, u | t in types && u in types ensures !(t + ":" <= u) {
      if t + ":" <= u { ColonAfterPrefix(t, u); }
    }
  }
}
