/** Session tokens: how they are made, sent in Set-Cookie, and found again in a Cookie header. */
module Cookies {
  import opened Basics
  import opened Text
  import CryptoHelper

  const KEY: string := "SessionID="
  const COOKIE_FIELD: string := "Set-Cookie: "

  /** The token named by a Cookie header, or "" if there is none. */
  function GetSessionToken(cookieHeader: string): string {
    match Find(cookieHeader, KEY, 0)
    case None => ""
    case Some(at) =>
      var pos := at + 10;
      match Find(cookieHeader, ";", pos)
      case None => cookieHeader[pos..]
      case Some(end) => cookieHeader[pos..end]
  }

  /** The extra header of a successful login. */
  function SetCookie(token: string): string {
    COOKIE_FIELD + KEY + token + "; Path=/; HttpOnly\r\n"
  }

  /** The extra header of a logout. */
  function ExpireCookie(): string {
    COOKIE_FIELD + KEY + "; Path=/; Expires=Thu, 01 Jan" + " 1970 00:00:00 GMT\r\n"
  }

  predicate IsToken(token: string) {
    |token| == 32 && forall c <- token :: CryptoHelper.IsLowerHex(c)
  }

  /** `draws` are the 32 results of the random distribution over 0..15. */
  method GenerateSessionToken(draws: seq<nat>) returns (token: string)
    requires |draws| == 32 && forall d <- draws :: d < 16
    ensures IsToken(token)
    ensures forall i :: 0 <= i < 32 ==> CryptoHelper.HexValue(token[i]) == Some(draws[i])
  {
    token := "";
    for i := 0 to 32
      invariant |token| == i && forall c <- token :: CryptoHelper.IsLowerHex(c)
      invariant forall j :: 0 <= j < i ==> CryptoHelper.HexValue(token[j]) == Some(draws[j])
    {
      assert draws[i] in draws;
      token := token + [CryptoHelper.HexDigit(draws[i])];
    }
  }

  /** `SessionID=` cannot overlap itself, so the first occurrence is the first one that was put there. */
  lemma FirstKey(pre: string, rest: string)
    requires !Contains(pre, KEY)
    ensures Find(pre + KEY + rest, KEY, 0) == Some(|pre|)
  {
    hide Find;
    var s := pre + KEY + rest;
    assert s == pre + (KEY + rest);
    assert s[|pre|..|pre| + 10] == KEY;
    assert forall k :: 1 <= k < 10 ==> KEY[k] != 'S';
    forall i | 0 <= i < |pre| ensures !OccursAt(s, KEY, i) {
      if i + 10 <= |pre| {
        OccursInPrefix(pre, KEY + rest, KEY, i);
      } else {
        Mismatch(s, KEY, i, |pre| - i);
      }
    }
    FindIs(s, KEY, 0, |pre|);
  }

  predicate EndsToken(rest: string) {
    rest == "" || rest[0] == ';'
  }

  /** A token placed after the first `SessionID=` and before `;` or the end is found again exactly. */
  lemma {:induction false} TokenRoundTrip(pre: string, token: string, rest: string)
    requires !Contains(pre, KEY) && ';' !in token && EndsToken(rest)
    ensures GetSessionToken(pre + KEY + token + rest) == token
  {
    hide Find;
    var s := pre + KEY + token + rest;
    FirstKey(pre, token + rest);
    assert s == pre + KEY + (token + rest);
    var pos, end := |pre| + 10, |pre| + 10 + |token|;
    assert s[pos..end] == token && s[end..] == rest;
    forall i | pos <= i < end ensures !OccursAt(s, ";", i) {
      assert s[i] == token[i - pos];
      Mismatch(s, ";", i, 0);
    }
    if rest == "" {
      assert forall i :: pos <= i ==> !OccursAt(s, ";", i);
    } else {
      assert s[end..end + 1] == ";" by { assert s[end] == rest[0]; }
      FindIs(s, ";", pos, end);
    }
  }

  lemma TokenBounds(cookies: string, at: nat) returns (end: nat)
    requires Find(cookies, KEY, 0) == Some(at)
    ensures at + 10 <= end <= |cookies| && GetSessionToken(cookies) == cookies[at + 10..end]
    ensures ';' !in cookies[at + 10..end] && EndsToken(cookies[end..])
  {
    var pos := at + 10;
    var stop := Find(cookies, ";", pos);
    end := if stop.Some? then stop.value else |cookies|;
    forall i | pos <= i < end ensures cookies[i] != ';' {
      assert !OccursAt(cookies, ";", i);
      assert cookies[i..i + 1] == [cookies[i]];
    }
    if stop.Some? {
      assert cookies[end..end + 1] == [cookies[end]];
    }
  }

  lemma PrefixHasNoKey(cookies: string, at: nat)
    requires Find(cookies, KEY, 0) == Some(at)
    ensures !Contains(cookies[..at], KEY)
  {
    var pre := cookies[..at];
    assert cookies == pre + cookies[at..];
    forall i | 0 <= i && i + 10 <= |pre| ensures !OccursAt(pre, KEY, i) {
      OccursInPrefix(pre, cookies[at..], KEY, i);
    }
  }

  lemma Pieces(s: string, a: nat, b: nat, c: nat)
    requires a <= b <= c <= |s|
    ensures s == s[..a] + s[a..b] + s[b..c] + s[c..]
  {
  }

  /** Conversely, whatever is returned for a header with the key stands at exactly such a place. */
  lemma TokenDecomposes(cookies: string) returns (pre: string, rest: string)
    requires Contains(cookies, KEY)
    ensures cookies == pre + KEY + GetSessionToken(cookies) + rest
    ensures !Contains(pre, KEY) && ';' !in GetSessionToken(cookies) && EndsToken(rest)
  {
    var at := Find(cookies, KEY, 0).value;
    assert cookies[at..at + 10] == KEY;
    hide GetSessionToken, Contains, OccursAt;
    var end := TokenBounds(cookies, at);
    PrefixHasNoKey(cookies, at);
    pre, rest := cookies[..at], cookies[end..];
    Pieces(cookies, at, at + 10, end);
  }

  predicate IsPlaced(cookies: string, pre: string, token: string, rest: string) {
    cookies == pre + KEY + token + rest && !Contains(pre, KEY) && ';' !in token && EndsToken(rest)
  }

  /** The header names `token`: it stands after the first `SessionID=` and before `;` or the end. */
  ghost predicate Names(cookies: string, token: string) {
    exists pre, rest :: IsPlaced(cookies, pre, token, rest)
  }

  lemma TokenIff(cookies: string, token: string)
    ensures Names(cookies, token) <==> Contains(cookies, KEY) && GetSessionToken(cookies) == token
  {
    hide Find, GetSessionToken;
    if Names(cookies, token) {
      var pre, rest :| IsPlaced(cookies, pre, token, rest);
      FirstKey(pre, token + rest);
      assert cookies == pre + KEY + (token + rest);
      TokenRoundTrip(pre, token, rest);
    } else if Contains(cookies, KEY) {
      var pre, rest := TokenDecomposes(cookies);
      assert GetSessionToken(cookies) == token ==> IsPlaced(cookies, pre, token, rest);
    }
  }

  lemma FieldHasNoKey()
    ensures !Contains(COOKIE_FIELD, KEY)
  {
    Mismatch(COOKIE_FIELD, KEY, 0, 2);
    Mismatch(COOKIE_FIELD, KEY, 1, 0);
    Mismatch(COOKIE_FIELD, KEY, 2, 0);
  }

  /** The token of a login response comes back from any Cookie header the client builds with it. */
  lemma LoginTokenReturns(token: string, before: string, after: string)
    requires IsToken(token) && !Contains(before, KEY) && EndsToken(after)
    ensures GetSessionToken(before + KEY + token + after) == token
    ensures GetSessionToken(SetCookie(token)) == token
  {
    assert ';' !in token;
    TokenRoundTrip(before, token, after);
    FieldHasNoKey();
    var rest := "; Path=/; HttpOnly\r\n";
    assert rest[0] == ';';
    TokenRoundTrip(COOKIE_FIELD, token, rest);
  }
}
