/** The API gateway's `validateToken` middleware
    (api-gateway/src/middleware/authMiddleware.js): take the second
    space-separated segment of the `authorization` header as the token,
    answer 401 when there is none, answer 429 "Forbidden" when the token
    does not verify, and otherwise pass the decoded payload on as
    `req.user`. The signature check itself (`jwt.verify` with the server's
    secret) is the parameter `verify`, returning the decoded payload or
    `None` for an error. */
module GatewayAuth {
  import opened Base
  import opened Http

  /** `s.split(" ")`: the pieces between single spaces, empty pieces
      included; the empty string gives one empty piece. */
  function SplitOnSpace(s: string): (parts: seq<string>)
    ensures |parts| >= 1
    ensures forall i :: 0 <= i < |parts| ==> ' ' !in parts[i]
  {
    if s == [] then [""]
    else
      var rest := SplitOnSpace(s[1..]);
      if s[0] == ' ' then [""] + rest else [[s[0]] + rest[0]] + rest[1..]
  }

  /** `parts.join(" ")`, the inverse of SplitOnSpace. */
  function JoinWithSpace(parts: seq<string>): (s: string)
    requires |parts| >= 1
  {
    if |parts| == 1 then parts[0] else parts[0] + " " + JoinWithSpace(parts[1..])
  }

  /** Splitting loses nothing: joining the pieces gives the header back. */
  lemma {:induction false} JoinSplit(s: string)
    ensures JoinWithSpace(SplitOnSpace(s)) == s
  {
    if s != [] {
      JoinSplit(s[1..]);
      var rest := SplitOnSpace(s[1..]);
      if s[0] == ' ' {
        assert ([""] + rest)[1..] == rest;
      } else {
        var parts := [[s[0]] + rest[0]] + rest[1..];
        if |rest| > 1 {
          assert parts[1..] == rest[1..];
          assert JoinWithSpace(rest) == rest[0] + " " + JoinWithSpace(rest[1..]);
        }
        assert s == [s[0]] + s[1..];
      }
    }
  }

  /** A word without spaces in front of `r` joins the first piece of `r`. */
  lemma {:induction false} SplitAfterWord(a: string, r: string)
    requires ' ' !in a
    ensures SplitOnSpace(a + r) == [a + SplitOnSpace(r)[0]] + SplitOnSpace(r)[1..]
  {
    var sr := SplitOnSpace(r);
    if a == [] {
      assert a + r == r && a + sr[0] == sr[0];
      assert sr == [sr[0]] + sr[1..];
    } else {
      assert (a + r)[1..] == a[1..] + r;
      assert (a + r)[0] == a[0] != ' ';
      SplitAfterWord(a[1..], r);
      var tail := SplitOnSpace(a[1..] + r);
      assert tail == [a[1..] + sr[0]] + sr[1..];
      assert SplitOnSpace(a + r) == [[a[0]] + tail[0]] + tail[1..];
      assert [a[0]] + (a[1..] + sr[0]) == a + sr[0];
    }
  }

  /** Pieces without spaces split back out of their join. */
  lemma {:induction false} SplitJoin(parts: seq<string>)
    requires |parts| >= 1
    requires forall i :: 0 <= i < |parts| ==> ' ' !in parts[i]
    ensures SplitOnSpace(JoinWithSpace(parts)) == parts
  {
    if |parts| == 1 {
      SplitAfterWord(parts[0], "");
      assert parts[0] + "" == parts[0];
    } else {
      var tail := JoinWithSpace(parts[1..]);
      SplitJoin(parts[1..]);
      assert parts[0] + " " + tail == parts[0] + (" " + tail);
      SplitAfterWord(parts[0], " " + tail);
      assert (" " + tail)[1..] == tail && (" " + tail)[0] == ' ';
      var st := SplitOnSpace(" " + tail);
      assert st == [""] + parts[1..];
      assert st[0] == "" && st[1..] == parts[1..];
      assert parts[0] + "" == parts[0];
      assert parts == [parts[0]] + parts[1..];
    }
  }

  /** `authHeader && authHeader.split(" ")[1]`, kept only when truthy: a
      missing or empty header, a header without a space, or an empty
      second piece all give no token. Later pieces are ignored. */
  function BearerToken(header: Option<string>): (token: Option<string>)
    ensures token.Some? ==> token.value != "" && ' ' !in token.value
  {
    if header.None? || header.value == "" then None
    else
      var parts := SplitOnSpace(header.value);
      if |parts| >= 2 && parts[1] != "" then Some(parts[1]) else None
  }

  /** The token of `scheme token` is `token`. */
  lemma BearerTokenOfSchemeAndToken(scheme: string, token: string)
    requires ' ' !in scheme && ' ' !in token && token != ""
    ensures BearerToken(Some(scheme + " " + token)) == Some(token)
  {
    SplitJoin([scheme, token]);
  }

  /** The token of `scheme token rest` is `token`, whatever `rest` is. */
  lemma BearerTokenIgnoresRest(scheme: string, token: string, rest: string)
    requires ' ' !in scheme && ' ' !in token && token != ""
    ensures BearerToken(Some(scheme + " " + token + " " + rest)) == Some(token)
  {
    var after := SplitOnSpace(rest);
    var ps := [scheme, token] + after;
    assert ps[0] == scheme && ps[1] == token && ps[2..] == after;
    assert forall i :: 0 <= i < |ps| ==> ' ' !in ps[i] by {
      forall i | 2 <= i < |ps| ensures ' ' !in ps[i] {
        assert ps[i] == after[i - 2];
      }
    }
    SplitJoin(ps);
    JoinSplit(rest);
    assert ps[1..] == [token] + after;
    assert ps[1..][1..] == after;
    assert JoinWithSpace(ps[1..]) == token + " " + rest;
    assert JoinWithSpace(ps) == scheme + " " + (token + " " + rest);
    assert scheme + " " + (token + " " + rest) == scheme + " " + token + " " + rest;
  }

  /** Whenever a token is found, the header is `<first piece> <token>`,
      possibly followed by a space and anything at all. */
  lemma BearerTokenIsSecondPiece(h: string)
    requires BearerToken(Some(h)).Some?
    ensures var parts := SplitOnSpace(h);
      h == parts[0] + " " + BearerToken(Some(h)).value
           + (if |parts| > 2 then " " + JoinWithSpace(parts[2..]) else "")
  {
    var parts := SplitOnSpace(h);
    JoinSplit(h);
    if |parts| > 2 {
      assert parts[1..][1..] == parts[2..];
    }
  }

  /** A header with no space in it carries no token. */
  lemma {:induction false} NoSpaceNoToken(h: string)
    requires ' ' !in h
    ensures BearerToken(Some(h)) == None
  {
    SplitAfterWord(h, "");
    assert h + "" == h;
  }

  /** `"Bearer "`, or a double space after the scheme, carries no token. */
  lemma EmptySecondPieceNoToken(scheme: string, rest: string)
    requires ' ' !in scheme
    requires rest == "" || rest[0] == ' '
    ensures BearerToken(Some(scheme + " " + rest)) == None
  {
    SplitAfterWord(scheme, " " + rest);
    assert scheme + " " + rest == scheme + (" " + rest);
    assert (" " + rest)[1..] == rest;
    var after := SplitOnSpace(rest);
    if rest != "" {
      assert after == [""] + SplitOnSpace(rest[1..]);
    }
    assert after[0] == "";
  }

  /** `validateToken`: 401 "Unauthorized" without a token, 429 "Forbidden"
      when verification fails, otherwise `next()` with the decoded payload
      as `req.user`. */
  function ValidateToken<U>(header: Option<string>, verify: string -> Option<U>): (r: Outcome<U>)
    ensures r.Respond? ==> !r.response.success
    ensures r == Respond(Response(401, false, "Unauthorized")) <==> BearerToken(header).None?
    ensures r == Respond(Response(429, false, "Forbidden"))
            <==> BearerToken(header).Some? && verify(BearerToken(header).value).None?
    ensures r.Next? <==> BearerToken(header).Some? && verify(BearerToken(header).value).Some?
    ensures r.Next? ==> r.user == verify(BearerToken(header).value).value
  {
    match BearerToken(header)
    case None => Respond(Response(401, false, "Unauthorized"))
    case Some(token) =>
      match verify(token)
      case None => Respond(Response(429, false, "Forbidden"))
      case Some(user) => Next(user)
  }

  /** Without a token the answer is 401 whatever the verifier would say:
      verification is never consulted. */
  lemma UnauthorizedIgnoresVerify<U>(header: Option<string>, v1: string -> Option<U>, v2: string -> Option<U>)
    requires BearerToken(header).None?
    ensures ValidateToken(header, v1) == ValidateToken(header, v2) == Respond(Response(401, false, "Unauthorized"))
  {
  }
}
