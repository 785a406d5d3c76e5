/** Where the JWT strategy reads the token from (`cookieExtractor` in
    config/passport.js): the `jwt` cookie, else a bearer Authorization header. */
module Passport {
  import opened Common

  /** The parts of a request the extractor reads. */
  datatype Request = Request(jwtCookie: Option<string>, authorization: Option<string>)

  /** `s.split(sep)`: the pieces between separators, always at least one. */
  function Split(s: string, sep: char): (r: seq<string>)
    ensures |r| >= 1
    decreases |s|
  {
    if s == [] then [""]
    else
      var rest := Split(s[1..], sep);
      if s[0] == sep then [""] + rest else [[s[0]] + rest[0]] + rest[1..]
  }

  /** The pieces glued back together with `sep` between them (`join`). */
  function Join(parts: seq<string>, sep: char): string
    requires |parts| >= 1
    decreases |parts|
  {
    if |parts| == 1 then parts[0] else parts[0] + [sep] + Join(parts[1..], sep)
  }

  /** Joining the pieces gives back the string, and no piece holds the separator. */
  lemma {:induction false} SplitJoin(s: string, sep: char)
    ensures Join(Split(s, sep), sep) == s
    ensures forall k :: 0 <= k < |Split(s, sep)| ==> sep !in Split(s, sep)[k]
    decreases |s|
  {
    if s != [] {
      SplitJoin(s[1..], sep);
      var rest := Split(s[1..], sep);
      if s[0] == sep {
        assert ([""] + rest)[1..] == rest;
      } else {
        var r := [[s[0]] + rest[0]] + rest[1..];
        if |rest| > 1 {
          assert r[1..] == rest[1..];
          assert Join(rest, sep) == rest[0] + [sep] + Join(rest[1..], sep);
        }
        assert s == [s[0]] + s[1..];
        forall k | 0 <= k < |r| ensures sep !in r[k] {
          if k > 0 {
            assert r[k] == rest[k];
          }
        }
      }
    }
  }

  /** A string with no separator in it is one piece. */
  lemma {:induction false} SplitWhole(s: string, sep: char)
    requires sep !in s
    ensures Split(s, sep) == [s]
    decreases |s|
  {
    if s != [] {
      SplitWhole(s[1..], sep);
      assert s == [s[0]] + s[1..];
    }
  }

  /** A separator-free word followed by the separator is the first piece. */
  lemma {:induction false} SplitAfterWord(w: string, sep: char, t: string)
    requires sep !in w
    ensures Split(w + [sep] + t, sep) == [w] + Split(t, sep)
    decreases |w|
  {
    if w == [] {
      assert w + [sep] + t == [sep] + t;
      assert ([sep] + t)[1..] == t;
    } else {
      SplitAfterWord(w[1..], sep, t);
      assert (w + [sep] + t)[1..] == w[1..] + [sep] + t;
      assert w == [w[0]] + w[1..];
    }
  }

  /** `startsWith`. */
  predicate StartsWith(s: string, prefix: string) {
    |prefix| <= |s| && s[..|prefix|] == prefix
  }

  /** cookieExtractor: a non-empty `jwt` cookie wins; otherwise a header that
      starts with "Bearer " yields its second space-separated piece; otherwise
      there is no token. */
  function CookieExtractor(req: Request): (r: Option<string>)
    ensures r.Some? ==> Truthy(req.jwtCookie) || Truthy(req.authorization)
  {
    if Truthy(req.jwtCookie) then req.jwtCookie
    else if Truthy(req.authorization) && StartsWith(req.authorization.value, "Bearer ") then
      var pieces := Split(req.authorization.value, ' ');
      if |pieces| >= 2 then Some(pieces[1]) else None
    else None
  }

  /** The cookie takes precedence over any header. */
  lemma CookieWins(cookie: string, header: Option<string>)
    requires cookie != ""
    ensures CookieExtractor(Request(Some(cookie), header)) == Some(cookie)
  {
  }

  /** Without a cookie, the bearer header's token is extracted exactly: the
      header "Bearer " followed by a space-free token yields that token, and
      a token with spaces yields its part before the first one. */
  lemma BearerTokenExtracted(cookie: Option<string>, token: string)
    requires !Truthy(cookie)
    ensures ' ' !in token ==> CookieExtractor(Request(cookie, Some("Bearer " + token))) == Some(token)
    ensures CookieExtractor(Request(cookie, Some("Bearer " + token))) == Some(Split(token, ' ')[0])
  {
    var h := "Bearer " + token;
    assert h == "Bearer" + [' '] + token;
    SplitAfterWord("Bearer", ' ', token);
    assert h[..7] == "Bearer ";
    if ' ' !in token {
      SplitWhole(token, ' ');
    }
  }

  /** Without a cookie, a header that does not start with "Bearer " gives
      no token, nor does a request with neither source. */
  lemma NoTokenWithoutBearer(cookie: Option<string>, header: Option<string>)
    requires !Truthy(cookie)
    requires header.None? || !StartsWith(header.value, "Bearer ")
    ensures CookieExtractor(Request(cookie, header)) == None
  {
  }

  /** Any header starting with "Bearer " yields a token, which holds no space. */
  lemma BearerHeaderYieldsToken(cookie: Option<string>, header: string)
    requires !Truthy(cookie) && StartsWith(header, "Bearer ")
    ensures CookieExtractor(Request(cookie, Some(header))).Some?
    ensures ' ' !in CookieExtractor(Request(cookie, Some(header))).value
  {
    assert header == "Bearer" + [' '] + header[7..] by {
      assert header[..7] == "Bearer ";
    }
    SplitAfterWord("Bearer", ' ', header[7..]);
    SplitJoin(header, ' ');
  }
}
