/**
 * The demo sign-in service (AuthManager.kt, AuthDto.kt): three fixed
 * accounts sharing one password, user names compared after normalisation,
 * and a batch of signed tokens for a successful sign-in.  Signing a token is
 * opaque here: it is the `issueToken` parameter.
 */
module Auth {
  import opened Wrappers

  /** The password every demo account has unless the service is given another. */
  const DefaultUserPassword: string := "123456"
  /** How many tokens a sign-in returns unless the service is given another count. */
  const DefaultTokenCount: int := 9
  /** The account names, already normalised. */
  const AccountNames: seq<string> := ["user1", "user2", "user3"]

  // ----- Normalising a user name ------------------------------------------

  /**
   * The characters Kotlin's `Char.isWhitespace` accepts: the ASCII controls
   * 9 to 13 and 28 to 31, and the Unicode space, line and paragraph
   * separators.
   */
  predicate IsWhitespace(c: char)
    ensures c == ' ' || c == '\t' || c == '\n' || c == '\r' ==> IsWhitespace(c)
    ensures IsWhitespace(c) ==> !('0' <= c <= '9' || 'a' <= c <= 'z' || 'A' <= c <= 'Z')
  {
    || c == ' ' || '\t' <= c <= '\r' || '\U{1C}' <= c <= '\U{1F}'
    || c == '\U{A0}' || c == '\U{1680}' || '\U{2000}' <= c <= '\U{200A}'
    || c == '\U{2028}' || c == '\U{2029}' || c == '\U{202F}' || c == '\U{205F}' || c == '\U{3000}'
  }

  /** `s` without its leading whitespace. */
  function TrimStart(s: string): (r: string)
    ensures |r| <= |s| && r == s[|s| - |r|..]
    ensures r == [] || !IsWhitespace(r[0])
    ensures forall i :: 0 <= i < |s| - |r| ==> IsWhitespace(s[i])
  {
    if s != [] && IsWhitespace(s[0]) then TrimStart(s[1..]) else s
  }

  /** `s` without its trailing whitespace. */
  function TrimEnd(s: string): (r: string)
    ensures |r| <= |s| && r == s[..|r|]
    ensures r == [] || !IsWhitespace(r[|r| - 1])
    ensures forall i :: |r| <= i < |s| ==> IsWhitespace(s[i])
  {
    if s != [] && IsWhitespace(s[|s| - 1]) then TrimEnd(s[..|s| - 1]) else s
  }

  /** `s` without leading and trailing whitespace (`trim`). */
  function Trim(s: string): (r: string)
    ensures |r| <= |s|
    ensures r == [] || (!IsWhitespace(r[0]) && !IsWhitespace(r[|r| - 1]))
  {
    TrimEnd(TrimStart(s))
  }

  /** `r` is the part of `s` from index `k` on, and every character of `s` outside it is whitespace. */
  ghost predicate KeepsMiddle(s: string, k: int, r: string)
  {
    && 0 <= k && k + |r| <= |s| && r == s[k..k + |r|]
    && forall i :: 0 <= i < |s| && (i < k || k + |r| <= i) ==> IsWhitespace(s[i])
  }

  /** What `Trim` keeps is a contiguous part of `s` with only whitespace around it. */
  lemma {:induction false} TrimKeepsMiddle(s: string)
    ensures KeepsMiddle(s, |s| - |TrimStart(s)|, Trim(s))
  {
    TrimIsTrimEndOfSuffix(s);
    TrimStartBlankBefore(s);
    TrimEndOfSuffix(s, |s| - |TrimStart(s)|);
  }

  /** Every character of `s` before index `k` is whitespace. */
  ghost predicate BlankBefore(s: string, k: int)
  {
    forall i :: 0 <= i < k && i < |s| ==> IsWhitespace(s[i])
  }

  /** `TrimStart` drops only whitespace. */
  lemma {:induction false} TrimStartBlankBefore(s: string)
    ensures BlankBefore(s, |s| - |TrimStart(s)|)
  {
  }

  /** `Trim` is `TrimEnd` applied to the suffix `TrimStart` keeps. */
  lemma {:induction false} TrimIsTrimEndOfSuffix(s: string)
    ensures Trim(s) == TrimEnd(s[|s| - |TrimStart(s)|..])
  {
    var t := TrimStart(s);
    assert t == s[|s| - |t|..];
  }

  /** Trimming the end of a suffix of `s` that follows only whitespace keeps the middle of `s`. */
  lemma {:induction false} TrimEndOfSuffix(s: string, k: nat)
    requires k <= |s| && BlankBefore(s, k)
    ensures KeepsMiddle(s, k, TrimEnd(s[k..]))
  {
    var t := s[k..];
    var r := TrimEnd(t);
    assert r == t[..|r|];
    forall i | k + |r| <= i < |s|
      ensures IsWhitespace(s[i])
    {
      assert s[i] == t[i - k];
    }
  }

  /** ASCII upper-case letters become lower case; every other character stays. */
  function LowerChar(c: char): (r: char)
    ensures !('A' <= r <= 'Z')
    ensures 'A' <= c <= 'Z' ==> 'a' <= r <= 'z' && r as int - c as int == 'a' as int - 'A' as int
    ensures !('A' <= c <= 'Z') ==> r == c
    ensures IsWhitespace(r) <==> IsWhitespace(c)
  {
    if 'A' <= c <= 'Z' then (c as int + ('a' as int - 'A' as int)) as char else c
  }

  /** `lowercase`, character by character. */
  function Lowercase(s: string): (r: string)
    ensures |r| == |s| && forall i :: 0 <= i < |s| ==> r[i] == LowerChar(s[i])
    ensures forall c :: c in r ==> !('A' <= c <= 'Z')
    ensures forall i :: 0 <= i < |s| ==> (IsWhitespace(r[i]) <==> IsWhitespace(s[i]))
  {
    seq(|s|, i requires 0 <= i < |s| => LowerChar(s[i]))
  }

  /** `s` without its space characters (`replace(" ", "")`), the rest in order. */
  function RemoveSpaces(s: string): (r: string)
    ensures forall c :: c in r <==> c in s && c != ' '
    ensures |r| <= |s|
    ensures s != [] && s[0] != ' ' ==> r != [] && r[0] == s[0]
    ensures s != [] && s[|s| - 1] != ' ' ==> r != [] && r[|r| - 1] == s[|s| - 1]
  {
    if s == [] then []
    else
      var rest := RemoveSpaces(s[1..]);
      assert s == [s[0]] + s[1..];
      assert s[1..] != [] ==> s[|s| - 1] == s[1..][|s[1..]| - 1];
      if s[0] == ' ' then rest else [s[0]] + rest
  }

  /** The account key of a typed user name (`normalize`). */
  function Normalize(value: string): (r: string)
    ensures ' ' !in r
    ensures forall c :: c in r ==> !('A' <= c <= 'Z')
    ensures r == [] || (!IsWhitespace(r[0]) && !IsWhitespace(r[|r| - 1]))
  {
    var trimmed := Trim(value);
    var lowered := Lowercase(trimmed);
    RemoveSpaces(lowered)
  }

  /** A string without spaces loses nothing to `RemoveSpaces`. */
  lemma {:induction false} RemoveSpacesKeepsSpaceless(s: string)
    requires ' ' !in s
    ensures RemoveSpaces(s) == s
  {
    if s != [] {
      assert ' ' !in s[1..] by {
        assert forall c :: c in s[1..] ==> c in s;
      }
      RemoveSpacesKeepsSpaceless(s[1..]);
      assert s == [s[0]] + s[1..];
    }
  }

  /** Removing spaces drops every space and keeps every other character as often as it occurs. */
  lemma {:induction false} RemoveSpacesCounts(s: string)
    ensures multiset(RemoveSpaces(s)) == multiset(s)[' ' := 0]
  {
    if s != [] {
      assert s == [s[0]] + s[1..];
      RemoveSpacesCounts(s[1..]);
    }
  }

  /** Removing spaces distributes over concatenation, so the remaining characters keep their order. */
  lemma {:induction false} RemoveSpacesConcat(a: string, b: string)
    ensures RemoveSpaces(a + b) == RemoveSpaces(a) + RemoveSpaces(b)
  {
    if a != [] {
      assert (a + b)[0] == a[0] && (a + b)[1..] == a[1..] + b;
      RemoveSpacesConcat(a[1..], b);
    } else {
      assert a + b == b;
    }
  }

  /** Lowering distributes over concatenation. */
  lemma {:induction false} LowercaseConcat(a: string, b: string)
    ensures Lowercase(a + b) == Lowercase(a) + Lowercase(b)
  {
  }

  /** Lowering commutes with dropping leading whitespace. */
  lemma {:induction false} TrimStartLowercase(s: string)
    ensures TrimStart(Lowercase(s)) == Lowercase(TrimStart(s))
  {
    if s != [] {
      assert Lowercase(s)[1..] == Lowercase(s[1..]);
      TrimStartLowercase(s[1..]);
    }
  }

  /** Lowering commutes with dropping trailing whitespace. */
  lemma {:induction false} TrimEndLowercase(s: string)
    ensures TrimEnd(Lowercase(s)) == Lowercase(TrimEnd(s))
  {
    if s != [] {
      assert Lowercase(s)[..|s| - 1] == Lowercase(s[..|s| - 1]);
      TrimEndLowercase(s[..|s| - 1]);
    }
  }

  /** The case of the typed name does not matter. */
  lemma {:induction false} NormalizeIgnoresCase(value: string)
    ensures Normalize(Lowercase(value)) == Normalize(value)
  {
    var t := Trim(value);
    TrimStartLowercase(value);
    TrimEndLowercase(TrimStart(value));
    LowercaseTwice(t);
    assert Trim(Lowercase(value)) == Lowercase(t);
  }

  /** Lowering an already lowered string changes nothing. */
  lemma {:induction false} LowercaseTwice(s: string)
    ensures Lowercase(Lowercase(s)) == Lowercase(s)
  {
    var l := Lowercase(s);
    assert forall i :: 0 <= i < |l| ==> LowerChar(l[i]) == l[i];
  }

  /** Leading whitespace in front of a string that is all whitespace leaves nothing of it. */
  lemma {:induction false} TrimStartAllBlank(a: string, x: string)
    requires TrimStart(a) == []
    ensures TrimStart(a + x) == TrimStart(x)
  {
    if a != [] {
      assert (a + x)[0] == a[0] && (a + x)[1..] == a[1..] + x;
      TrimStartAllBlank(a[1..], x);
    } else {
      assert a + x == x;
    }
  }

  /** Once `a` has a non-whitespace character, what follows it is kept whole. */
  lemma {:induction false} TrimStartKeepsTail(a: string, x: string)
    requires TrimStart(a) != []
    ensures TrimStart(a + x) == TrimStart(a) + x
  {
    assert (a + x)[0] == a[0];
    if IsWhitespace(a[0]) {
      assert (a + x)[1..] == a[1..] + x;
      TrimStartKeepsTail(a[1..], x);
    }
  }

  /** Trailing whitespace after a string that is all whitespace leaves nothing of it. */
  lemma {:induction false} TrimEndAllBlank(x: string, b: string)
    requires TrimEnd(b) == []
    ensures TrimEnd(x + b) == TrimEnd(x)
  {
    if b != [] {
      var c := b[..|b| - 1];
      assert (x + b)[|x + b| - 1] == b[|b| - 1] && (x + b)[..|x + b| - 1] == x + c;
      TrimEndAllBlank(x, c);
    } else {
      assert x + b == x;
    }
  }

  /** Once `b` has a non-whitespace character, what precedes it is kept whole. */
  lemma {:induction false} TrimEndKeepsHead(x: string, b: string)
    requires TrimEnd(b) != []
    ensures TrimEnd(x + b) == x + TrimEnd(b)
  {
    assert (x + b)[|x + b| - 1] == b[|b| - 1];
    if IsWhitespace(b[|b| - 1]) {
      var c := b[..|b| - 1];
      assert (x + b)[..|x + b| - 1] == x + c;
      TrimEndKeepsHead(x, c);
    }
  }

  /** A space typed anywhere in the name does not matter. */
  lemma {:induction false} NormalizeIgnoresSpace(a: string, b: string)
    ensures Normalize(a + " " + b) == Normalize(a + b)
  {
    TrimAroundSpace(a, b);
    if Trim(a + " " + b) != Trim(a + b) {
      InnerSpaceRemoved(TrimStart(a), TrimEnd(b));
    }
  }

  /**
   * Trimming a string with a space inserted gives the same as without it,
   * unless the space falls between the kept parts of `a` and `b`.
   */
  lemma {:induction false} TrimAroundSpace(a: string, b: string)
    ensures var h, e := TrimStart(a), TrimEnd(b);
      || Trim(a + " " + b) == Trim(a + b)
      || (Trim(a + " " + b) == h + " " + e && Trim(a + b) == h + e)
  {
    TrimStartSpace(a, b);
    if TrimStart(a) != [] {
      TrimEndSpace(TrimStart(a), b);
    }
  }

  /** Dropping leading whitespace from `a + " " + b` and from `a + b`. */
  lemma {:induction false} TrimStartSpace(a: string, b: string)
    ensures TrimStart(a) == [] ==> TrimStart(a + " " + b) == TrimStart(b) == TrimStart(a + b)
    ensures TrimStart(a) != [] ==>
      TrimStart(a + " " + b) == TrimStart(a) + " " + b && TrimStart(a + b) == TrimStart(a) + b
  {
    assert a + " " + b == a + (" " + b);
    if TrimStart(a) == [] {
      TrimStartAllBlank(a, " " + b);
      TrimStartAllBlank(a, b);
      assert (" " + b)[0] == ' ' && (" " + b)[1..] == b;
    } else {
      TrimStartKeepsTail(a, " " + b);
      TrimStartKeepsTail(a, b);
    }
  }

  /** Dropping trailing whitespace from `h + " " + b` and from `h + b`. */
  lemma {:induction false} TrimEndSpace(h: string, b: string)
    ensures TrimEnd(b) == [] ==> TrimEnd(h + " " + b) == TrimEnd(h) == TrimEnd(h + b)
    ensures TrimEnd(b) != [] ==>
      TrimEnd(h + " " + b) == h + " " + TrimEnd(b) && TrimEnd(h + b) == h + TrimEnd(b)
  {
    if TrimEnd(b) == [] {
      TrimEndAllBlank(h + " ", b);
      TrimEndAllBlank(h, b);
      assert (h + " ")[|h|] == ' ' && (h + " ")[..|h|] == h;
    } else {
      TrimEndKeepsHead(h + " ", b);
      TrimEndKeepsHead(h, b);
    }
  }

  /** A space between two parts disappears once the name is lowered and its spaces removed. */
  lemma {:induction false} InnerSpaceRemoved(h: string, e: string)
    ensures RemoveSpaces(Lowercase(h + " " + e)) == RemoveSpaces(Lowercase(h + e))
  {
    var lh, le := Lowercase(h), Lowercase(e);
    assert Lowercase(h + " " + e) == lh + " " + le by {
      LowercaseConcat(h + " ", e);
      LowercaseConcat(h, " ");
    }
    assert Lowercase(h + e) == lh + le by {
      LowercaseConcat(h, e);
    }
    SpaceRemoved(lh, le);
  }

  /** `RemoveSpaces` drops a space between two parts. */
  lemma {:induction false} SpaceRemoved(x: string, y: string)
    ensures RemoveSpaces(x + " " + y) == RemoveSpaces(x + y)
  {
    RemoveSpacesConcat(x + " ", y);
    RemoveSpacesConcat(x, " ");
    RemoveSpacesConcat(x, y);
    assert RemoveSpaces(" ") == [];
  }

  /** Normalising twice is normalising once. */
  lemma {:induction false} NormalizeIdempotent(value: string)
    ensures Normalize(Normalize(value)) == Normalize(value)
  {
    var r := Normalize(value);
    TrimKeepsTrimmed(r);
    LowercaseKeepsLower(r);
    RemoveSpacesKeepsSpaceless(r);
  }

  /** A string with no whitespace at either end is its own trim. */
  lemma {:induction false} TrimKeepsTrimmed(r: string)
    requires r == [] || (!IsWhitespace(r[0]) && !IsWhitespace(r[|r| - 1]))
    ensures Trim(r) == r
  {
    assert TrimStart(r) == r;
  }

  /** A string without ASCII capitals is its own lower case. */
  lemma {:induction false} LowercaseKeepsLower(r: string)
    requires forall c :: c in r ==> !('A' <= c <= 'Z')
    ensures Lowercase(r) == r
  {
    assert forall i :: 0 <= i < |r| ==> r[i] in r;
  }

  /** Surrounding blanks, inner spaces and capitals do not matter. */
  lemma NormalizeExample()
    ensures Normalize(" User 1 ") == "user1"
  {
    TrimExample();
    LowercaseExample();
    RemoveSpacesExample();
  }

  lemma TrimExample()
    ensures Trim(" User 1 ") == "User 1"
  {
    TrimStartExample();
    TrimEndExample();
  }

  lemma TrimStartExample()
    ensures TrimStart(" User 1 ") == "User 1 "
  {
    var s := " User 1 ";
    assert IsWhitespace(s[0]) && s[1..] == "User 1 ";
    assert !IsWhitespace('U');
  }

  lemma TrimEndExample()
    ensures TrimEnd("User 1 ") == "User 1"
  {
    assert "User 1 "[..6] == "User 1";
  }

  lemma LowercaseExample()
    ensures Lowercase("User 1") == "user 1"
  {
  }

  lemma RemoveSpacesExample()
    ensures RemoveSpaces("user 1") == "user1"
  {
    assert RemoveSpaces("1") == "1";
    assert RemoveSpaces(" 1") == "1";
    assert RemoveSpaces("r 1") == "r1";
    assert RemoveSpaces("er 1") == "er1";
    assert RemoveSpaces("ser 1") == "ser1";
  }

  // ----- Signing in -------------------------------------------------------

  /** An account of the service. */
  datatype Account = Account(username: string, password: string)

  /** A sign-in service: how many tokens it issues and the password of its accounts. */
  datatype AuthService = AuthService(tokenCount: int := DefaultTokenCount, defaultPassword: string := DefaultUserPassword)

  /** The outcome of a successful sign-in: the account's name and its tokens. */
  datatype AuthResult = AuthResult(username: string, tokens: seq<string>)

  /** Why a sign-in was refused; each carries the name as typed. */
  datatype AuthError = UnknownUser(username: string) | IncorrectPassword(username: string)

  /** The message the refusal carries. */
  function Message(e: AuthError): (m: string)
    ensures |m| >= |e.username| + 2 && m[|m| - |e.username| - 2..] == "\"" + e.username + "\""
    ensures m[0] == if e.UnknownUser? then 'U' else 'I'
  {
    match e
    case UnknownUser(username) => "Unknown user \"" + username + "\""
    case IncorrectPassword(username) => "Incorrect password for \"" + username + "\""
  }

  /** The accounts, keyed by name, all with the service's password. */
  function Accounts(service: AuthService): (accounts: map<string, Account>)
    ensures accounts.Keys == set name | name in AccountNames
    ensures forall name :: name in accounts ==> accounts[name] == Account(name, service.defaultPassword)
  {
    map name | name in AccountNames :: Account(name, service.defaultPassword)
  }

  /**
   * Signs in (`authenticate`): the typed name is normalised and looked up;
   * an unknown name or a wrong password is refused; otherwise `tokenCount`
   * tokens (none if the count is not positive) are issued for the account,
   * token i by `issueToken(name, i)`.
   */
  function Authenticate(service: AuthService, issueToken: (string, int) -> string, username: string, password: string)
    : (r: Result<AuthResult, AuthError>)
    ensures r.Failure? && r.error.UnknownUser? <==> Normalize(username) !in AccountNames
    ensures r.Failure? && r.error.IncorrectPassword? <==>
      Normalize(username) in AccountNames && password != service.defaultPassword
    ensures r.Success? <==> Normalize(username) in AccountNames && password == service.defaultPassword
    ensures r.Failure? ==> r.error.username == username
    ensures r.Success? ==>
      && r.value.username == Normalize(username)
      && |r.value.tokens| == (if service.tokenCount < 0 then 0 else service.tokenCount)
      && forall i :: 0 <= i < |r.value.tokens| ==> r.value.tokens[i] == issueToken(r.value.username, i)
  {
    var normalized := Normalize(username);
    var accounts := Accounts(service);
    if normalized !in accounts then Failure(UnknownUser(username))
    else
      var account := accounts[normalized];
      if account.password != password then Failure(IncorrectPassword(username))
      else
        var count := if service.tokenCount < 0 then 0 else service.tokenCount;
        Success(AuthResult(account.username, seq(count, i => issueToken(account.username, i))))
  }

  /**
   * With the default service, " User 1 " and the default password sign in
   * as "user1" with nine tokens, and any other password is refused as an
   * incorrect password for the name as typed.
   */
  lemma DefaultSignInExample(issueToken: (string, int) -> string, password: string)
    ensures var r := Authenticate(AuthService(), issueToken, " User 1 ", "123456");
      r.Success? && r.value.username == "user1" && |r.value.tokens| == 9
    ensures password != "123456" ==>
      var r := Authenticate(AuthService(), issueToken, " User 1 ", password);
      r == Failure(IncorrectPassword(" User 1 "))
  {
    NormalizeExample();
  }
}
