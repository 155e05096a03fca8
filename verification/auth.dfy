/** The authentication gate in front of the mutating routes: take the second
    space-separated part of the Authorization header as the token, refuse
    with NoToken when there is none, and with InvalidToken when the verifier
    rejects it. */
module Auth {
  import opened Model

  const Space: char := ' '

  /** String splitting on a one-character separator, part for part as
      JavaScript's `split` does: `n` separators give `n + 1` parts, and the
      empty string gives one empty part. */
  function Split(s: string, sep: char): (parts: seq<string>)
    ensures |parts| >= 1
    ensures forall i :: 0 <= i < |parts| ==> sep !in parts[i]
  {
    if |s| == 0 then [""]
    else
      var rest := Split(s[1..], sep);
      if s[0] == sep then [""] + rest
      else [[s[0]] + rest[0]] + rest[1..]
  }

  /** The parts glued back together with the separator between them. */
  function Join(parts: seq<string>, sep: char): string
    requires |parts| >= 1
  {
    if |parts| == 1 then parts[0]
    else parts[0] + [sep] + Join(parts[1..], sep)
  }

  /** Splitting a separator-free prefix `w` in front of `t` only extends the
      first part of `t`'s split. */
  lemma {:induction false} SplitPrefix(w: string, t: string, sep: char)
    requires sep !in w
    ensures Split(w + t, sep) == [w + Split(t, sep)[0]] + Split(t, sep)[1..]
  {
    if |w| == 0 {
      var parts := Split(t, sep);
      assert w + t == t && w + parts[0] == parts[0];
      assert parts == [parts[0]] + parts[1..];
    } else {
      assert (w + t)[1..] == w[1..] + t;
      SplitPrefix(w[1..], t, sep);
      assert [w[0]] + (w[1..] + Split(t, sep)[0]) == w + Split(t, sep)[0];
    }
  }

  /** A separator-free piece followed by a separator becomes a part of its own. */
  lemma SplitField(w: string, rest: string, sep: char)
    requires sep !in w
    ensures Split(w + [sep] + rest, sep) == [w] + Split(rest, sep)
  {
    assert w + [sep] + rest == w + ([sep] + rest);
    SplitPrefix(w, [sep] + rest, sep);
    assert ([sep] + rest)[1..] == rest;
    assert w + "" == w;
  }

  /** Splitting then joining gives back the original string. */
  lemma {:induction false} JoinSplit(s: string, sep: char)
    ensures Join(Split(s, sep), sep) == s
  {
    if |s| > 0 {
      var rest := Split(s[1..], sep);
      JoinSplit(s[1..], sep);
      if s[0] == sep {
        assert Split(s, sep)[1..] == rest;
        assert s == [sep] + s[1..];
      } else if |rest| == 1 {
        assert s == [s[0]] + s[1..];
      } else {
        var parts := Split(s, sep);
        assert parts[1..] == rest[1..];
        assert Join(rest, sep) == rest[0] + [sep] + Join(rest[1..], sep);
        assert s == [s[0]] + s[1..];
      }
    }
  }

  /** Joining separator-free parts then splitting gives back the parts. */
  lemma {:induction false} SplitJoin(parts: seq<string>, sep: char)
    requires |parts| >= 1
    requires forall i :: 0 <= i < |parts| ==> sep !in parts[i]
    ensures Split(Join(parts, sep), sep) == parts
  {
    if |parts| == 1 {
      SplitPrefix(parts[0], "", sep);
      assert parts[0] + "" == parts[0];
      assert parts == [parts[0]];
    } else {
      SplitJoin(parts[1..], sep);
      SplitField(parts[0], Join(parts[1..], sep), sep);
      assert parts == [parts[0]] + parts[1..];
    }
  }

  /** The token the middleware takes from the header: the second part of the
      header split on spaces. An absent header, a missing second part or an
      empty one all count as "no token". */
  function BearerToken(header: Option<string>): (r: Option<string>)
    ensures header.None? ==> r.None?
    ensures r.Some? ==> r.value != "" && Space !in r.value
  {
    match header
    case None => None
    case Some(h) =>
      var parts := Split(h, Space);
      if |parts| < 2 || parts[1] == "" then None else Some(parts[1])
  }

  /** The documented header shape `<scheme> <token>`, optionally followed by
      more space-separated text, yields the token. */
  lemma BearerTokenOfHeader(scheme: string, token: string, rest: string)
    requires Space !in scheme && Space !in token && token != ""
    ensures BearerToken(Some(scheme + [Space] + token)) == Some(token)
    ensures BearerToken(Some(scheme + [Space] + token + [Space] + rest)) == Some(token)
  {
    SplitField(scheme, token, Space);
    SplitPrefix(token, "", Space);
    assert token + "" == token;
    SplitField(token, rest, Space);
    SplitField(scheme, token + [Space] + rest, Space);
    assert scheme + [Space] + token + [Space] + rest == scheme + [Space] + (token + [Space] + rest);
  }

  /** A header without a space, or whose first space is followed by nothing
      or by another space, yields no token. */
  lemma NoBearerToken(scheme: string, rest: string)
    requires Space !in scheme
    ensures BearerToken(Some(scheme)) == None
    ensures BearerToken(Some(scheme + [Space])) == None
    ensures BearerToken(Some(scheme + [Space] + [Space] + rest)) == None
  {
    SplitPrefix(scheme, "", Space);
    assert scheme + "" == scheme;
    SplitField(scheme, "", Space);
    assert scheme + [Space] + "" == scheme + [Space];
    SplitField(scheme, [Space] + rest, Space);
    SplitField("", rest, Space);
    assert "" + [Space] + rest == [Space] + rest;
    assert scheme + [Space] + [Space] + rest == scheme + [Space] + ([Space] + rest);
  }

  /** The gate: the caller's id from an accepted token, NoToken (401) when
      the header carries no token, InvalidToken (403) when `verify` rejects
      it. `verify` stands for token verification and answers the `id` claim. */
  function Authenticate(header: Option<string>, verify: string -> Option<string>): (r: Result<string>)
    ensures r == Err(NoToken) <==> BearerToken(header).None?
    ensures r.Err? ==> r.error == NoToken || r.error == InvalidToken
    ensures r.Ok? ==> exists t :: BearerToken(header) == Some(t) && verify(t) == Some(r.value)
    ensures forall t :: BearerToken(header) == Some(t) && verify(t).None? ==> r == Err(InvalidToken)
    ensures forall t :: BearerToken(header) == Some(t) && verify(t).Some? ==> r == Ok(verify(t).value)
  {
    match BearerToken(header)
    case None => Err(NoToken)
    case Some(t) =>
      match verify(t)
      case None => Err(InvalidToken)
      case Some(id) => Ok(id)
  }
}
