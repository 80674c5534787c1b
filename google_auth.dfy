/** Google sign-in state (src/services/googleAuthService.ts): the single browser
    storage slot `google_auth_token`, written when the OAuth redirect comes back
    with a token, read with an expiry check, and removed on expiry, on a failed
    user-info lookup and on logout. The clock is the parameter `now`
    (milliseconds); the user-info endpoint is an oracle. */
module GoogleAuth {
  import opened Types
  import opened Strings

  /** The record kept in the slot. `expiresAt` is `None` when the computed
      expiry was `NaN`, which the JSON round trip turns into `null`. */
  datatype StoredTokenInfo = StoredTokenInfo(accessToken: string, expiresAt: Option<int>, scope: string)

  datatype AccountInfo = AccountInfo(name: Option<string>, email: Option<string>, picture: Option<string>)

  /** `getUserInfo`: the account behind a token, or the message it rejects with. */
  type UserInfo = string -> Result<AccountInfo, string>

  const StorageKey: string := "google_auth_token"
  const DefaultExpiresIn: string := "3600"
  const AuthFailedMessage: string := "인증에 실패했습니다."
  const NoTokenMessage: string := "액세스 토큰을 받지 못했습니다."
  const LoginRequiredMessage: string := "Google 로그인이 필요합니다"
  const TokenExpiredMessage: string := "Google 토큰이 만료되었습니다. 다시 로그인해주세요."

  // ---------------------------------------------------------------------------
  // parseInt

  /** The value of an ASCII letter or digit as a digit of radix up to 36, and 36
      for any other character. */
  function DigitValue(c: char): (d: nat)
    ensures d <= 36
  {
    if '0' <= c <= '9' then c as int - '0' as int
    else if 'a' <= c <= 'z' then c as int - 'a' as int + 10
    else if 'A' <= c <= 'Z' then c as int - 'A' as int + 10
    else 36
  }

  predicate IsDigit(c: char, radix: nat) {
    DigitValue(c) < radix
  }

  /** Length of the longest prefix of `s` made of radix digits. */
  function DigitPrefix(s: string, radix: nat): (k: nat)
    ensures k <= |s|
    ensures forall i :: 0 <= i < k ==> IsDigit(s[i], radix)
    ensures k < |s| ==> !IsDigit(s[k], radix)
  {
    if s != [] && IsDigit(s[0], radix) then 1 + DigitPrefix(s[1..], radix) else 0
  }

  lemma {:induction false} AllDigitsPrefix(s: string, radix: nat)
    requires forall i :: 0 <= i < |s| ==> IsDigit(s[i], radix)
    ensures DigitPrefix(s, radix) == |s|
  {
    if s != [] {
      AllDigitsPrefix(s[1..], radix);
    }
  }

  /** Positional value of a string of radix digits, most significant first. */
  function DigitsValue(ds: string, radix: nat): nat
  {
    if ds == [] then 0
    else DigitsValue(ds[..|ds| - 1], radix) * radix + DigitValue(ds[|ds| - 1])
  }

  /** The unsigned part of `parseInt`: a `0x`/`0X` prefix selects radix 16,
      and the longest run of digits that follows is read; no digits at all
      gives `NaN` (`None`). */
  function ParseUnsigned(u: string): (r: Option<nat>)
  {
    var hex := |u| >= 2 && u[0] == '0' && (u[1] == 'x' || u[1] == 'X');
    var radix := if hex then 16 else 10;
    var digits := if hex then u[2..] else u;
    var k := DigitPrefix(digits, radix);
    if k == 0 then None else Some(DigitsValue(digits[..k], radix))
  }

  /** `parseInt(s)` without a radix argument: leading whitespace is skipped and
      one sign is read before the unsigned part. */
  function ParseInt(s: string): (r: Option<int>)
  {
    var t := s[LeadingWhitespace(s)..];
    if t != [] && t[0] == '-' then
      var m := ParseUnsigned(t[1..]);
      if m.Some? then Some(-(m.value as int)) else None
    else if t != [] && t[0] == '+' then ParseUnsigned(t[1..])
    else ParseUnsigned(t)
  }

  lemma {:induction false} DecimalDigits(n: nat)
    ensures forall i :: 0 <= i < |NatToString(n)| ==> '0' <= NatToString(n)[i] <= '9'
    ensures DigitsValue(NatToString(n), 10) == n
  {
    if n >= 10 {
      DecimalDigits(n / 10);
      var s := NatToString(n);
      assert s[..|s| - 1] == NatToString(n / 10);
    }
  }

  /** `parseInt` reads back the decimal rendering of a non-negative integer. */
  lemma ParseIntOfDecimal(n: nat)
    ensures ParseInt(NatToString(n)) == Some(n)
  {
    var s := NatToString(n);
    DecimalDigits(n);
    assert LeadingWhitespace(s) == 0 by {
      assert !IsWhitespace(s[0]);
    }
    assert s[0..] == s;
    UnsignedOfDecimal(s, n);
  }

  lemma UnsignedOfDecimal(s: string, n: nat)
    requires s != []
    requires forall i :: 0 <= i < |s| ==> '0' <= s[i] <= '9'
    requires DigitsValue(s, 10) == n
    ensures ParseUnsigned(s) == Some(n)
  {
    assert !(|s| >= 2 && s[1] == 'x');
    assert !(|s| >= 2 && s[1] == 'X');
    AllDigitsPrefix(s, 10);
    assert s[..|s|] == s;
  }

  /** The value of the default lifetime string. */
  lemma ParseIntDefault()
    ensures ParseInt(DefaultExpiresIn) == Some(3600)
  {
    assert DefaultExpiresIn == NatToString(3600);
    ParseIntOfDecimal(3600);
  }

  // ---------------------------------------------------------------------------
  // URLSearchParams

  /** Form decoding replaces `+` by a space (percent-decoding is not modelled). */
  function PlusToSpace(s: string): (r: string)
    ensures |r| == |s|
    ensures forall i :: 0 <= i < |s| ==> r[i] == (if s[i] == '+' then ' ' else s[i])
  {
    if s == [] then [] else [if s[0] == '+' then ' ' else s[0]] + PlusToSpace(s[1..])
  }

  lemma PlusToSpaceKeeps(s: string)
    requires '+' !in s
    ensures PlusToSpace(s) == s
  {
  }

  datatype Param = Param(name: string, value: string)

  /** One `name=value` piece: the name ends at the first `=`; a piece without
      `=` has the empty value. */
  function ParsePiece(piece: string): (p: Param)
    ensures '=' !in piece ==> p == Param(PlusToSpace(piece), "")
  {
    var parts := Split(piece, '=');
    assert '=' !in piece ==> parts == [piece] by {
      if '=' !in piece { SplitNoSeparator(piece, '='); }
    }
    var value := if |parts| == 1 then "" else Join(parts[1..], "=");
    Param(PlusToSpace(parts[0]), PlusToSpace(value))
  }

  /** The parameter list of the `&`-separated pieces; empty pieces are skipped. */
  function ParseParams(pieces: seq<string>): seq<Param>
  {
    if pieces == [] then []
    else if pieces[0] == "" then ParseParams(pieces[1..])
    else [ParsePiece(pieces[0])] + ParseParams(pieces[1..])
  }

  /** `new URLSearchParams(query)` */
  function SearchParams(query: string): seq<Param> {
    ParseParams(Split(query, '&'))
  }

  /** `params.get(name)`: the value of the first parameter with that name. */
  function Get(params: seq<Param>, name: string): (r: Option<string>)
    ensures r.Some? <==> exists i :: 0 <= i < |params| && params[i].name == name
    ensures r.Some? ==> exists i :: 0 <= i < |params| && params[i] == Param(name, r.value)
                                    && forall j :: 0 <= j < i ==> params[j].name != name
  {
    if params == [] then None
    else if params[0].name == name then Some(params[0].value)
    else
      var r := Get(params[1..], name);
      assert r.Some? ==> exists i :: 0 <= i < |params| && params[i] == Param(name, r.value)
                                     && forall j :: 0 <= j < i ==> params[j].name != name by {
        if r.Some? {
          var i :| 0 <= i < |params| - 1 && params[1..][i] == Param(name, r.value)
                   && forall j :: 0 <= j < i ==> params[1..][j].name != name;
          assert params[i + 1] == Param(name, r.value);
          forall j | 0 <= j < i + 1 ensures params[j].name != name {
            if j > 0 { assert params[j] == params[1..][j - 1]; }
          }
        }
      }
      r
  }

  lemma PieceWithValue(name: string, value: string)
    requires '=' !in name && '+' !in name && '+' !in value && '=' !in value
    ensures ParsePiece(name + "=" + value) == Param(name, value)
  {
    SplitAfterPiece(name, value, '=');
    SplitNoSeparator(value, '=');
    PlusToSpaceKeeps(name);
    PlusToSpaceKeeps(value);
  }

  // ---------------------------------------------------------------------------
  // The redirect branch of loginGoogle

  /** `Date.now() + expiresIn * 1000`; `NaN` stays `NaN`. */
  function ExpiresAt(now: int, expiresIn: Option<int>): (e: Option<int>)
    ensures e.Some? <==> expiresIn.Some?
    ensures e.Some? ==> e.value - now == expiresIn.value * 1000
  {
    if expiresIn.Some? then Some(now + expiresIn.value * 1000) else None
  }

  /** What the redirect hash leads to: the record to store, or the rejection.
      Only a hash that mentions `access_token` is parsed; its parameters then
      decide as `TokenFromParams` says. */
  function RedirectToken(hash: string, now: int): (r: Result<StoredTokenInfo, string>)
    ensures !Contains(hash, "access_token") ==> r == Failure(AuthFailedMessage)
    ensures Contains(hash, "access_token") ==> hash != "" && r == TokenFromParams(SearchParams(hash[1..]), now)
    ensures r.Success? ==> r.value.accessToken != ""
    ensures r.Failure? ==> r.error in {AuthFailedMessage, NoTokenMessage}
  {
    assert Contains(hash, "access_token") ==> hash != "" by {
      if Contains(hash, "access_token") {
        var i :| 0 <= i <= |hash| && "access_token" <= hash[i..];
      }
    }
    if !(hash != "" && Contains(hash, "access_token")) then Failure(AuthFailedMessage)
    else TokenFromParams(SearchParams(hash[1..]), now)
  }

  /** The value of parameter `name` when it is present and non-empty, and
      `default` otherwise (`params.get(name) || default`). */
  function ParamOr(params: seq<Param>, name: string, default: string): (v: string)
    ensures Truthy(Get(params, name)) ==> v == Get(params, name).value
    ensures !Truthy(Get(params, name)) ==> v == default
  {
    var p := Get(params, name);
    if Truthy(p) then p.value else default
  }

  /** The record built from the hash parameters: accepted exactly when the
      `access_token` parameter is present and non-empty; the record then holds
      that token, an expiry `expires_in` seconds after `now` (one hour when the
      parameter is absent or empty) and the scope (empty when absent). */
  function TokenFromParams(params: seq<Param>, now: int): (r: Result<StoredTokenInfo, string>)
    ensures r.Success? <==> Truthy(Get(params, "access_token"))
    ensures r.Success? ==> r.value.accessToken == Get(params, "access_token").value
    ensures r.Success? ==> r.value.expiresAt == ExpiresAt(now, ParseInt(ParamOr(params, "expires_in", DefaultExpiresIn)))
    ensures r.Success? ==> r.value.scope == ParamOr(params, "scope", "")
    ensures r.Failure? ==> r.error == NoTokenMessage
  {
      var accessToken := Get(params, "access_token");
      var expiresIn := ParseInt(ParamOr(params, "expires_in", DefaultExpiresIn));
      var scope := ParamOr(params, "scope", "");
      if Truthy(accessToken) then Success(StoredTokenInfo(accessToken.value, ExpiresAt(now, expiresIn), scope))
      else Failure(NoTokenMessage)
  }

  /** A token character the hash carries verbatim. */
  predicate PlainToken(tok: string) {
    '&' !in tok && '=' !in tok && '+' !in tok
  }

  lemma HashMentionsAccessToken(rest: string)
    ensures Contains("#access_token=" + rest, "access_token")
  {
    var h := "#access_token=" + rest;
    assert "access_token" <= h[1..];
  }

  /** A redirect carrying only the token stores it for the default hour. */
  lemma RedirectDefaultLifetime(tok: string, now: int)
    requires tok != "" && PlainToken(tok)
    ensures RedirectToken("#access_token=" + tok, now)
            == Success(StoredTokenInfo(tok, Some(now + 3600000), ""))
  {
    TokenOnlyHash(tok, now);
    TokenOnlyParams(tok, now);
  }

  /** The hash `#access_token=<tok>` is handled by the parameter step alone. */
  lemma TokenOnlyHash(tok: string, now: int)
    requires PlainToken(tok)
    ensures RedirectToken("#access_token=" + tok, now) == TokenFromParams([Param("access_token", tok)], now)
  {
    var hash := "#access_token=" + tok;
    TokenOnlyParse(tok);
    assert RedirectToken(hash, now) == TokenFromParams(SearchParams(hash[1..]), now);
  }

  lemma TokenOnlyParse(tok: string)
    requires PlainToken(tok)
    ensures var hash := "#access_token=" + tok;
            && Contains(hash, "access_token")
            && SearchParams(hash[1..]) == [Param("access_token", tok)]
  {
    var hash := "#access_token=" + tok;
    assert Contains(hash, "access_token") by {
      HashMentionsAccessToken(tok);
    }
    assert SearchParams(hash[1..]) == [Param("access_token", tok)] by {
      TokenOnlyShape(tok);
      SingleParam("access_token", tok);
    }
  }

  lemma TokenOnlyShape(tok: string)
    ensures ("#access_token=" + tok)[1..] == "access_token" + "=" + tok
  {
  }

  lemma TokenOnlyParams(tok: string, now: int)
    requires tok != ""
    ensures TokenFromParams([Param("access_token", tok)], now)
            == Success(StoredTokenInfo(tok, Some(now + 3600000), ""))
  {
    ParseIntDefault();
  }

  lemma TokenAndLifetimeParams(tok: string, k: nat, now: int)
    requires tok != ""
    ensures TokenFromParams([Param("access_token", tok), Param("expires_in", NatToString(k))], now)
            == Success(StoredTokenInfo(tok, Some(now + k * 1000), ""))
  {
    var digits := NatToString(k);
    var params := [Param("access_token", tok), Param("expires_in", digits)];
    assert params[1..] == [Param("expires_in", digits)];
    assert Get(params, "access_token") == Some(tok);
    assert Get(params, "expires_in") == Some(digits);
    assert Get(params[1..][1..], "scope") == None;
    assert Get(params, "scope") == None;
    assert digits != "" by { DecimalDigits(k); }
    assert TokenFromParams(params, now) == Success(StoredTokenInfo(tok, ExpiresAt(now, ParseInt(digits)), ""));
    ParseIntOfDecimal(k);
  }

  lemma SingleParam(name: string, value: string)
    requires name != "" && '=' !in name && '+' !in name && '&' !in name && PlainToken(value)
    ensures SearchParams(name + "=" + value) == [Param(name, value)]
  {
    var piece := name + "=" + value;
    PieceHasNoAmpersand(name, value);
    SplitNoSeparator(piece, '&');
    PieceWithValue(name, value);
    assert ParseParams([piece]) == [ParsePiece(piece)] + ParseParams([]);
  }

  lemma PieceHasNoAmpersand(name: string, value: string)
    requires '&' !in name && '&' !in value
    ensures '&' !in name + "=" + value
  {
    var piece := name + "=" + value;
    assert forall i :: 0 <= i < |piece| ==> piece[i] != '&' by {
      assert forall i :: 0 <= i < |name| ==> piece[i] == name[i];
      assert forall i :: |name| < i < |piece| ==> piece[i] == value[i - |name| - 1];
    }
  }

  lemma TwoParams(name1: string, value1: string, name2: string, value2: string)
    requires name1 != "" && '=' !in name1 && '+' !in name1 && '&' !in name1 && PlainToken(value1)
    requires name2 != "" && '=' !in name2 && '+' !in name2 && '&' !in name2 && PlainToken(value2)
    ensures SearchParams(name1 + "=" + value1 + "&" + name2 + "=" + value2)
            == [Param(name1, value1), Param(name2, value2)]
  {
    var first := name1 + "=" + value1;
    var second := name2 + "=" + value2;
    assert name1 + "=" + value1 + "&" + name2 + "=" + value2 == first + "&" + second;
    PieceHasNoAmpersand(name1, value1);
    PieceHasNoAmpersand(name2, value2);
    SplitAfterPiece(first, second, '&');
    SplitNoSeparator(second, '&');
    PieceWithValue(name1, value1);
    PieceWithValue(name2, value2);
    assert ParseParams([first, second]) == [ParsePiece(first)] + ParseParams([second]);
    assert ParseParams([second]) == [ParsePiece(second)] + ParseParams([]);
  }

  /** A redirect carrying `expires_in=k` stores the token for `k` seconds. */
  lemma RedirectWithLifetime(tok: string, k: nat, now: int)
    requires tok != "" && PlainToken(tok)
    ensures RedirectToken("#access_token=" + tok + "&expires_in=" + NatToString(k), now)
            == Success(StoredTokenInfo(tok, Some(now + k * 1000), ""))
  {
    var digits := NatToString(k);
    var hash := "#access_token=" + tok + "&expires_in=" + digits;
    DecimalDigits(k);
    LifetimeHash(tok, digits);
    assert RedirectToken(hash, now) == TokenFromParams(SearchParams(hash[1..]), now);
    TokenAndLifetimeParams(tok, k, now);
  }

  lemma LifetimeHash(tok: string, digits: string)
    requires tok != "" && PlainToken(tok)
    requires forall i :: 0 <= i < |digits| ==> '0' <= digits[i] <= '9'
    ensures var hash := "#access_token=" + tok + "&expires_in=" + digits;
            && Contains(hash, "access_token")
            && SearchParams(hash[1..]) == [Param("access_token", tok), Param("expires_in", digits)]
  {
    var hash := "#access_token=" + tok + "&expires_in=" + digits;
    LifetimeHashShape(tok, digits);
    assert Contains(hash, "access_token") by {
      HashMentionsAccessToken(tok + "&expires_in=" + digits);
    }
    assert SearchParams(hash[1..]) == [Param("access_token", tok), Param("expires_in", digits)] by {
      DigitsArePlain(digits);
      TwoParams("access_token", tok, "expires_in", digits);
    }
  }

  lemma LifetimeHashShape(tok: string, digits: string)
    ensures var hash := "#access_token=" + tok + "&expires_in=" + digits;
            && hash == "#access_token=" + (tok + "&expires_in=" + digits)
            && hash[1..] == "access_token" + "=" + tok + "&" + "expires_in" + "=" + digits
  {
  }

  lemma DigitsArePlain(digits: string)
    requires forall i :: 0 <= i < |digits| ==> '0' <= digits[i] <= '9'
    ensures PlainToken(digits)
  {
    assert forall i :: 0 <= i < |digits| ==> digits[i] != '&' && digits[i] != '=' && digits[i] != '+';
  }

  /** A marker with an empty value is rejected as a missing token. */
  lemma RedirectEmptyToken(now: int)
    ensures RedirectToken("#access_token=", now) == Failure(NoTokenMessage)
  {
    TokenOnlyHash("", now);
    assert "#access_token=" + "" == "#access_token=";
  }

  // ---------------------------------------------------------------------------
  // Reading the slot

  /** `Date.now() >= tokenInfo.expiresAt`, where a `null` expiry compares as 0. */
  predicate Expired(info: StoredTokenInfo, now: int) {
    now >= (if info.expiresAt.Some? then info.expiresAt.value else 0)
  }

  /** The outcome of a token read and the slot after it. */
  datatype TokenRead = TokenRead(token: Result<string, string>, slot: Option<StoredTokenInfo>)

  /** `getGoogleAccessToken` */
  function AccessTokenAt(slot: Option<StoredTokenInfo>, now: int): (r: TokenRead)
    ensures r.token.Success? <==> slot.Some? && !Expired(slot.value, now)
    ensures r.token.Success? ==> r.token.value == slot.value.accessToken
    ensures r.slot == (if slot.Some? && Expired(slot.value, now) then None else slot)
    ensures slot.None? ==> r.token == Failure(LoginRequiredMessage)
    ensures slot.Some? && Expired(slot.value, now) ==> r.token == Failure(TokenExpiredMessage)
  {
    match slot
    case None => TokenRead(Failure(LoginRequiredMessage), None)
    case Some(info) =>
      if Expired(info, now) then TokenRead(Failure(TokenExpiredMessage), None)
      else TokenRead(Success(info.accessToken), slot)
  }

  /** The outcome of an account check and the slot after it. */
  datatype AccountCheck = AccountCheck(account: Option<AccountInfo>, slot: Option<StoredTokenInfo>)

  /** `loginGoogleSilently` and `getGoogleAccount`, which differ only in their
      log lines: `null` on an empty slot, and `null` with the slot removed when
      the token has expired or the user-info lookup fails. */
  function StoredAccount(slot: Option<StoredTokenInfo>, now: int, userInfo: UserInfo): (c: AccountCheck)
    ensures c.slot.Some? <==> c.account.Some?
    ensures c.account.Some? ==>
              && c.slot == slot
              && !Expired(slot.value, now)
              && userInfo(slot.value.accessToken) == Success(c.account.value)
    ensures slot.Some? && !Expired(slot.value, now) && userInfo(slot.value.accessToken).Success? ==>
              c.account.Some?
  {
    match slot
    case None => AccountCheck(None, None)
    case Some(info) =>
      if Expired(info, now) then AccountCheck(None, None)
      else match userInfo(info.accessToken)
        case Success(account) => AccountCheck(Some(account), slot)
        case Failure(_) => AccountCheck(None, None)
  }

  /** The token read and the account check agree on expiry: while an account
      is found, the token can be read at the same instant. */
  lemma AccountImpliesToken(slot: Option<StoredTokenInfo>, now: int, userInfo: UserInfo)
    requires StoredAccount(slot, now, userInfo).account.Some?
    ensures AccessTokenAt(StoredAccount(slot, now, userInfo).slot, now).token
            == Success(slot.value.accessToken)
  {
  }

  /** An expired token stays unusable: once it is removed, every later read
      asks for a login. */
  lemma ExpiredStaysGone(info: StoredTokenInfo, now: int, later: int)
    requires Expired(info, now) && now <= later
    ensures AccessTokenAt(AccessTokenAt(Some(info), now).slot, later).token == Failure(LoginRequiredMessage)
  {
  }

  /** A token stored from a redirect at time `t` is served until it expires
      and refused from then on. */
  lemma StoredTokenLifetime(hash: string, t: int, now: int)
    requires RedirectToken(hash, t).Success?
    requires RedirectToken(hash, t).value.expiresAt.Some?
    ensures var info := RedirectToken(hash, t).value;
            AccessTokenAt(Some(info), now).token.Success? <==> now < info.expiresAt.value
  {
  }

  /** With the default lifetime the token is served for exactly one hour. */
  lemma DefaultTokenServedForAnHour(tok: string, t: int, now: int)
    requires tok != "" && PlainToken(tok)
    ensures RedirectToken("#access_token=" + tok, t).Success?
    ensures AccessTokenAt(Some(RedirectToken("#access_token=" + tok, t).value), now).token
            == (if now < t + 3600000 then Success(tok) else Failure(TokenExpiredMessage))
  {
    RedirectDefaultLifetime(tok, t);
  }

  // ---------------------------------------------------------------------------
  // The slot

  class GoogleTokenSlot {
    /** `localStorage[google_auth_token]`; absent when `None`. */
    var stored: Option<StoredTokenInfo>

    constructor(initial: Option<StoredTokenInfo>)
      ensures stored == initial
    {
      stored := initial;
    }

    /** The redirect branch of `loginGoogle`: store the record, then look up
        the account. A failed lookup rejects but leaves the token stored. */
    method CompleteRedirect(hash: string, now: int, userInfo: UserInfo)
      returns (r: Result<AccountInfo, string>)
      modifies this
      ensures RedirectToken(hash, now).Failure? ==>
                r == Failure(RedirectToken(hash, now).error) && stored == old(stored)
      ensures RedirectToken(hash, now).Success? ==>
                stored == Some(RedirectToken(hash, now).value)
                && r == userInfo(RedirectToken(hash, now).value.accessToken)
    {
      var outcome := RedirectToken(hash, now);
      match outcome {
        case Failure(message) =>
          r := Failure(message);
        case Success(info) =>
          stored := Some(info);
          r := userInfo(info.accessToken);
      }
    }

    /** `loginGoogleSilently` */
    method LoginSilently(now: int, userInfo: UserInfo) returns (account: Option<AccountInfo>)
      modifies this
      ensures AccountCheck(account, stored) == StoredAccount(old(stored), now, userInfo)
    {
      account := CheckStoredAccount(now, userInfo);
    }

    /** `getGoogleAccount` */
    method GetGoogleAccount(now: int, userInfo: UserInfo) returns (account: Option<AccountInfo>)
      modifies this
      ensures AccountCheck(account, stored) == StoredAccount(old(stored), now, userInfo)
    {
      account := CheckStoredAccount(now, userInfo);
    }

    /** The read, expiry check and lookup shared by the two account queries. */
    method CheckStoredAccount(now: int, userInfo: UserInfo) returns (account: Option<AccountInfo>)
      modifies this
      ensures AccountCheck(account, stored) == StoredAccount(old(stored), now, userInfo)
    {
      if stored.None? {
        return None;
      }
      var info := stored.value;
      if Expired(info, now) {
        stored := None;
        return None;
      }
      var lookup := userInfo(info.accessToken);
      if lookup.Success? {
        account := Some(lookup.value);
      } else {
        stored := None;
        account := None;
      }
    }

    /** `logoutGoogle` */
    method Logout()
      modifies this
      ensures stored == None
    {
      stored := None;
    }

    /** `getGoogleAccessToken` */
    method GetAccessToken(now: int) returns (token: Result<string, string>)
      modifies this
      ensures TokenRead(token, stored) == AccessTokenAt(old(stored), now)
    {
      if stored.None? {
        return Failure(LoginRequiredMessage);
      }
      if Expired(stored.value, now) {
        stored := None;
        return Failure(TokenExpiredMessage);
      }
      token := Success(stored.value.accessToken);
    }
  }

  /** Logging out twice leaves the same slot as logging out once, and after a
      logout neither a token read nor a silent login finds anything. */
  method LogoutScenario(slot: GoogleTokenSlot, now: int, userInfo: UserInfo)
    returns (token: Result<string, string>, account: Option<AccountInfo>)
    modifies slot
    ensures token == Failure(LoginRequiredMessage) && account == None
    ensures slot.stored == None
  {
    slot.Logout();
    slot.Logout();
    token := slot.GetAccessToken(now);
    account := slot.LoginSilently(now, userInfo);
  }
}
