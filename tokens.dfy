/**
 * `extractToken` of src/notifications/notifications.gateway.ts: where the
 * credential of a connecting socket is looked for, and in what order.
 */
module Tokens {
  import opened Wrappers
  import opened SocketIo

  /** JavaScript's `s.split(' ')`: the pieces between single spaces, empty pieces kept. */
  function Split(s: string): (words: seq<string>)
    ensures |words| >= 1
  {
    if s == [] then [""]
    else if s[0] == ' ' then [""] + Split(s[1..])
    else
      var rest := Split(s[1..]);
      [[s[0]] + rest[0]] + rest[1..]
  }

  /** `words.join(' ')`, the inverse of `Split`. */
  function Join(words: seq<string>): string
    requires |words| >= 1
  {
    if |words| == 1 then words[0] else words[0] + " " + Join(words[1..])
  }

  predicate NoSpace(w: string)
  {
    ' ' !in w
  }

  /** JavaScript truthiness of a string that may be `undefined`. */
  predicate IsTruthy(v: Option<string>)
  {
    v.Some? && v.value != ""
  }

  /** `headers.authorization`, when it is non-empty and its first word is exactly `Bearer`. */
  predicate IsBearerHeader(header: Option<string>)
  {
    IsTruthy(header) && Split(header.value)[0] == "Bearer"
  }

  /**
   * `handshake.auth?.token || handshake.query?.token`: one of the two fields,
   * `auth.token` whenever it is truthy, and truthy exactly when either is.
   */
  function FallbackToken(h: Handshake): (token: Option<string>)
    ensures token == h.authToken || token == h.queryToken
    ensures IsTruthy(h.authToken) ==> token == h.authToken
    ensures IsTruthy(token) <==> IsTruthy(h.authToken) || IsTruthy(h.queryToken)
  {
    if IsTruthy(h.authToken) then h.authToken else h.queryToken
  }

  /**
   * `extractToken(client)`, `None` being `undefined`. With a Bearer header the
   * token is the text between the first and the second space of the header,
   * and `undefined` exactly when the header is `Bearer` alone; without one it
   * is the fallback.
   */
  function ExtractToken(h: Handshake): (token: Option<string>)
    ensures IsBearerHeader(h.authorization) ==> (token == None <==> h.authorization == Some("Bearer"))
    ensures IsBearerHeader(h.authorization) && token.Some? ==>
              var header, prefix := h.authorization.value, "Bearer " + token.value;
              && NoSpace(token.value)
              && prefix <= header
              && (|header| == |prefix| || header[|prefix|] == ' ')
    ensures !IsBearerHeader(h.authorization) ==> token == FallbackToken(h)
  {
    if IsBearerHeader(h.authorization) then
      var words := Split(h.authorization.value);
      BearerPieces(h.authorization.value);
      if |words| > 1 then Some(words[1]) else None
    else
      FallbackToken(h)
  }

  /** What the pieces of a header whose first word is `Bearer` say about the header itself. */
  lemma BearerPieces(header: string)
    requires Split(header)[0] == "Bearer"
    ensures |Split(header)| == 1 <==> header == "Bearer"
    ensures |Split(header)| > 1 ==>
              var prefix := "Bearer " + Split(header)[1];
              && NoSpace(Split(header)[1])
              && prefix <= header
              && (|header| == |prefix| || header[|prefix|] == ' ')
  {
    JoinSplit(header);
    SplitWord("Bearer");
    if |Split(header)| > 1 {
      BearerSecondWord(header, Split(header));
    }
  }

  lemma BearerSecondWord(header: string, words: seq<string>)
    requires |words| > 1 && words[0] == "Bearer"
    requires Join(words) == header
    ensures "Bearer " + words[1] <= header
    ensures |header| == |"Bearer " + words[1]| || header[|"Bearer " + words[1]|] == ' '
  {
    var tail := Join(words[1..]);
    assert header == "Bearer " + tail;
    FirstPieceOfJoin(words[1..]);
  }

  /** The first word of a join is a prefix of it, ended by the end of the text or by a space. */
  lemma FirstPieceOfJoin(words: seq<string>)
    requires |words| >= 1
    ensures words[0] <= Join(words)
    ensures |Join(words)| == |words[0]| || Join(words)[|words[0]|] == ' '
  {
    if |words| > 1 {
      assert Join(words) == words[0] + " " + Join(words[1..]);
    }
  }

  lemma {:induction false} SplitWord(w: string)
    requires NoSpace(w)
    ensures Split(w) == [w]
  {
    if w != [] {
      assert w[0] != ' ';
      SplitWord(w[1..]);
      assert [w[0]] + w[1..] == w;
    }
  }

  /** A space after a word that holds none ends the first piece. */
  lemma {:induction false} SplitFirstWord(w: string, rest: string)
    requires NoSpace(w)
    ensures Split(w + " " + rest) == [w] + Split(rest)
  {
    var s := w + " " + rest;
    if w == [] {
      assert s == " " + rest;
      assert s[1..] == rest;
    } else {
      assert s[0] == w[0] != ' ';
      assert s[1..] == w[1..] + " " + rest;
      SplitFirstWord(w[1..], rest);
      assert [w[0]] + w[1..] == w;
    }
  }

  lemma {:induction false} JoinPrepend(c: char, words: seq<string>)
    requires |words| >= 1
    ensures Join([[c] + words[0]] + words[1..]) == [c] + Join(words)
  {
    var extended := [[c] + words[0]] + words[1..];
    assert extended[1..] == words[1..];
  }

  /** Joining the pieces back with single spaces gives the original string, and no piece holds a space. */
  lemma {:induction false} JoinSplit(s: string)
    ensures Join(Split(s)) == s
    ensures forall i :: 0 <= i < |Split(s)| ==> NoSpace(Split(s)[i])
  {
    if s == [] {
    } else if s[0] == ' ' {
      JoinSplit(s[1..]);
      var words := [""] + Split(s[1..]);
      assert words[1..] == Split(s[1..]);
      assert " " + s[1..] == s;
    } else {
      JoinSplit(s[1..]);
      var rest := Split(s[1..]);
      JoinPrepend(s[0], rest);
      assert [s[0]] + s[1..] == s;
      forall i | 0 <= i < |Split(s)| ensures NoSpace(Split(s)[i]) {
        if i == 0 {
          assert Split(s)[0] == [s[0]] + rest[0];
        } else {
          assert Split(s)[i] == rest[i];
        }
      }
    }
  }

  /** Splitting words joined by single spaces gives back the words. */
  lemma {:induction false} SplitJoin(words: seq<string>)
    requires |words| >= 1
    requires forall i :: 0 <= i < |words| ==> NoSpace(words[i])
    ensures Split(Join(words)) == words
  {
    if |words| == 1 {
      SplitWord(words[0]);
    } else {
      SplitJoin(words[1..]);
      SplitFirstWord(words[0], Join(words[1..]));
      assert [words[0]] + words[1..] == words;
    }
  }

  /** A usable Bearer header decides the result on its own: the token fields are never read. */
  lemma BearerHeaderWins(h: Handshake, authToken: Option<string>, queryToken: Option<string>)
    requires IsBearerHeader(h.authorization)
    ensures ExtractToken(h.(authToken := authToken, queryToken := queryToken)) == ExtractToken(h)
    ensures ExtractToken(h) == (if |Split(h.authorization.value)| > 1 then Some(Split(h.authorization.value)[1]) else None)
  {
  }

  /** `Bearer <token>` yields the token, whatever the other two fields hold. */
  lemma BearerToken(token: string, authToken: Option<string>, queryToken: Option<string>)
    requires NoSpace(token)
    ensures ExtractToken(Handshake(Some("Bearer " + token), authToken, queryToken)) == Some(token)
  {
    SplitFirstWord("Bearer", token);
    SplitWord(token);
    assert "Bearer " + token == "Bearer" + " " + token;
  }

  /** A header that is just `Bearer` yields `undefined` and the other two fields are not consulted. */
  lemma BareBearer(authToken: Option<string>, queryToken: Option<string>)
    ensures ExtractToken(Handshake(Some("Bearer"), authToken, queryToken)) == None
  {
    SplitWord("Bearer");
  }

  /** `Bearer` followed by two spaces yields the empty token, not a fallback. */
  lemma BearerDoubleSpace(token: string, authToken: Option<string>, queryToken: Option<string>)
    ensures ExtractToken(Handshake(Some("Bearer  " + token), authToken, queryToken)) == Some("")
  {
    SplitFirstWord("Bearer", " " + token);
    SplitFirstWord("", token);
    assert "Bearer  " + token == "Bearer" + " " + (" " + token);
    assert " " + token == "" + " " + token;
  }

  /**
   * Any first word other than exactly `Bearer` (e.g. `bearer`, `Basic`), alone
   * or followed by a space and more text, falls back to the token fields.
   */
  lemma OtherSchemeFallsBack(scheme: string, rest: string, h: Handshake)
    requires NoSpace(scheme) && scheme != "Bearer"
    requires h.authorization == Some(scheme) || h.authorization == Some(scheme + " " + rest)
    ensures ExtractToken(h) == FallbackToken(h)
  {
    if h.authorization == Some(scheme) {
      SplitWord(scheme);
    } else {
      SplitFirstWord(scheme, rest);
    }
  }

  /** An empty or missing header is ignored. */
  lemma EmptyHeaderIgnored(h: Handshake)
    requires h.authorization == None || h.authorization == Some("")
    ensures ExtractToken(h) == FallbackToken(h)
  {
  }
}
