/**
 * The basic-auth gate run in front of every page: a stateless decision
 * from the request path, the `Authorization` header and the configured
 * username and password (both `None` when the variable is unset).
 */
module BasicAuth {
  import opened Wrappers
  import opened Text
  import Base64

  /** What the gate answers: let the request through, or respond itself. */
  datatype Decision =
    | PassThrough
    | Respond(status: nat, body: string, headers: map<string, string>)

  /** The 401 challenge. */
  const Unauthorized: Decision :=
    Respond(401, "Authentication required", map["WWW-Authenticate" := "Basic realm=\"Secure Area\""])

  /** Both environment values are set and non-empty (`!username || !password` is false). */
  predicate Configured(username: Option<string>, password: Option<string>) {
    username.Some? && username.value != "" && password.Some? && password.value != ""
  }

  /** `atob`'s output: one character per byte. */
  function Latin1(bs: seq<Base64.Byte>): (s: string)
    ensures |s| == |bs| && forall k :: 0 <= k < |bs| ==> s[k] as int == bs[k]
  {
    seq(|bs|, k requires 0 <= k < |bs| => bs[k] as char)
  }

  /** Text whose every character is below 256, so that `btoa` accepts it. */
  predicate IsLatin1(s: string) {
    forall k :: 0 <= k < |s| ==> s[k] as int < 256
  }

  function Latin1Bytes(s: string): (bs: seq<Base64.Byte>)
    requires IsLatin1(s)
    ensures Latin1(bs) == s
  {
    var bs := seq(|s|, k requires 0 <= k < |s| => s[k] as int as Base64.Byte);
    assert Latin1(bs) == s;
    bs
  }

  /**
   * `authHeader.split(' ')[1]`, passed to `atob`: when there is no second
   * field, `atob` is given `undefined`, which it reads as `"undefined"`.
   */
  function AuthValue(header: string): string {
    var fields := Split(header, ' ');
    if |fields| > 1 then fields[1] else "undefined"
  }

  /**
   * `const [authUser, authPass] = atob(authValue).split(':')`: `None` when
   * `atob` throws. Otherwise the user is the decoded text up to its first
   * `:`, and the password the text from there up to the next `:` or the
   * end, or `None` (`undefined`) when the decoded text has no `:`.
   */
  function Credentials(header: string): (r: Option<(string, Option<string>)>)
    ensures r.None? <==> Base64.Decode(AuthValue(header)).None?
    ensures r.Some? ==> ':' !in r.value.0
    ensures r.Some? && r.value.1.Some? ==> ':' !in r.value.1.value
    ensures r.Some? ==>
      var text := Latin1(Base64.Decode(AuthValue(header)).value);
      && FieldAt(text, 0, r.value.0, ':')
      && (r.value.1.None? <==> |r.value.0| == |text|)
      && (r.value.1.Some? ==> FieldAt(text, |r.value.0| + 1, r.value.1.value, ':'))
  {
    match Base64.Decode(AuthValue(header))
    case None => None
    case Some(bs) =>
      var text := Latin1(bs);
      var fields := Split(text, ':');
      SplitFirstField(text, ':');
      if |fields| > 1 then
        var rest := text[|fields[0]| + 1..];
        SplitFirstField(rest, ':');
        assert Split(rest, ':')[0] == fields[1];
        FieldAtShift(text, |fields[0]| + 1, fields[1], ':');
        Some((fields[0], Some(fields[1])))
      else
        Some((fields[0], None))
  }

  /** The gate (middleware.ts). */
  function Middleware(pathname: string, authHeader: Option<string>,
                      username: Option<string>, password: Option<string>): (d: Decision)
    ensures StartsWith(pathname, "/api/") ==> d == PassThrough
    ensures !Configured(username, password) ==> d == PassThrough
    ensures d == PassThrough || d == Unauthorized
    ensures d == Unauthorized ==> Configured(username, password) && !StartsWith(pathname, "/api/")
  {
    if StartsWith(pathname, "/api/") then PassThrough
    else if !Configured(username, password) then PassThrough
    else if authHeader.Some? && authHeader.value != ""
            && Credentials(authHeader.value) == Some((username.value, Some(password.value)))
    then PassThrough
    else Unauthorized
  }

  /**
   * On a configured gate and a page path, the request passes exactly when
   * a non-empty header's second space-separated field decodes to the
   * configured username and password as its first two `:`-separated fields.
   */
  lemma PassesIff(pathname: string, header: Option<string>, u: string, p: string)
    requires !StartsWith(pathname, "/api/") && u != "" && p != ""
    ensures Middleware(pathname, header, Some(u), Some(p)) == PassThrough
        <==> header.Some? && header.value != "" && Credentials(header.value) == Some((u, Some(p)))
  {
  }

  /** The scheme word is never looked at: `Bearer x` is read like `Basic x`. */
  lemma {:induction false} SchemeIgnored(pathname: string, scheme1: string, scheme2: string, token: string,
                                         username: Option<string>, password: Option<string>)
    requires ' ' !in scheme1 && ' ' !in scheme2
    ensures Middleware(pathname, Some(scheme1 + " " + token), username, password)
         == Middleware(pathname, Some(scheme2 + " " + token), username, password)
  {
    SplitAtFirstSeparator(scheme1, ' ', token);
    SplitAtFirstSeparator(scheme2, ' ', token);
    assert AuthValue(scheme1 + " " + token) == AuthValue(scheme2 + " " + token);
  }

  /** A header with no space has no second field: `atob("undefined")` throws, and the answer is 401. */
  lemma {:induction false} MissingTokenRejected(pathname: string, header: string, u: string, p: string)
    requires !StartsWith(pathname, "/api/") && u != "" && p != ""
    requires ' ' !in header
    ensures Middleware(pathname, Some(header), Some(u), Some(p)) == Unauthorized
  {
    SplitWithoutSeparator(header, ' ');
    Base64.UndefinedIsNotBase64();
  }

  /** A token `atob` rejects gives the 401 challenge, never an escaping error. */
  lemma DecodeFailureRejected(pathname: string, header: string, u: string, p: string)
    requires !StartsWith(pathname, "/api/") && u != "" && p != ""
    requires Base64.Decode(AuthValue(header)) == None
    ensures Middleware(pathname, Some(header), Some(u), Some(p)) == Unauthorized
  {
  }

  /** Without a header, a configured gate answers with the 401 challenge. */
  lemma NoHeaderRejected(pathname: string, u: string, p: string)
    requires !StartsWith(pathname, "/api/") && u != "" && p != ""
    ensures Middleware(pathname, None, Some(u), Some(p)) == Unauthorized
    ensures Unauthorized.status == 401 && Unauthorized.body == "Authentication required"
    ensures Unauthorized.headers == map["WWW-Authenticate" := "Basic realm=\"Secure Area\""]
  {
  }

  /**
   * A configured password (or username) containing `:` never matches: no
   * field of the split decoded text contains one.
   */
  lemma ColonCredentialNeverMatches(pathname: string, header: Option<string>, u: string, p: string)
    requires !StartsWith(pathname, "/api/") && u != "" && p != ""
    requires ':' in p || ':' in u
    ensures Middleware(pathname, header, Some(u), Some(p)) == Unauthorized
  {
  }

  /** The first two `:`-fields of `u:p:extra` are `u` and `p`. */
  lemma {:induction false} LeadingFields(u: string, p: string, extra: string)
    requires ':' !in u && ':' !in p
    ensures var fields := Split(u + ":" + p + ":" + extra, ':');
            |fields| >= 2 && fields[0] == u && fields[1] == p
  {
    var rest := p + [':'] + extra;
    assert u + ":" + p + ":" + extra == u + [':'] + rest;
    SplitAtFirstSeparator(u, ':', rest);
    SplitAtFirstSeparator(p, ':', extra);
  }

  /** An empty header has no second field, so its token never decodes. */
  lemma EmptyHeaderNeverDecodes()
    ensures Base64.Decode(AuthValue("")) == None
  {
    assert Split("", ' ') == [""];
    Base64.UndefinedIsNotBase64();
  }

  /** Only the first two `:`-fields count: `user:pass:extra` is accepted. */
  lemma {:induction false} ExtraFieldsAccepted(pathname: string, header: string, u: string, p: string,
                                               extra: string, decoded: seq<Base64.Byte>)
    requires u != "" && p != "" && ':' !in u && ':' !in p
    requires Base64.Decode(AuthValue(header)) == Some(decoded)
    requires Latin1(decoded) == u + ":" + p + ":" + extra
    ensures Middleware(pathname, Some(header), Some(u), Some(p)) == PassThrough
  {
    LeadingFields(u, p, extra);
    assert Credentials(header) == Some((u, Some(p)));
    EmptyHeaderNeverDecodes();
    assert header != "";
  }

  /** A header whose token decodes to exactly `user:pass`, with the configured pair, passes. */
  lemma {:induction false} DecodedPairPasses(pathname: string, header: string, u: string, p: string,
                                             decoded: seq<Base64.Byte>)
    requires u != "" && p != "" && ':' !in u && ':' !in p
    requires Base64.Decode(AuthValue(header)) == Some(decoded)
    requires Latin1(decoded) == u + ":" + p
    ensures Middleware(pathname, Some(header), Some(u), Some(p)) == PassThrough
  {
    assert u + ":" + p == u + [':'] + p;
    SplitAtFirstSeparator(u, ':', p);
    SplitWithoutSeparator(p, ':');
    assert Credentials(header) == Some((u, Some(p)));
    EmptyHeaderNeverDecodes();
    assert header != "";
  }

  /** A client that sends `<scheme> base64(user:pass)` with the configured pair gets through. */
  lemma {:induction false} EncodedCredentialsPass(pathname: string, scheme: string, u: string, p: string)
    requires u != "" && p != "" && ':' !in u && ':' !in p && ' ' !in scheme
    requires IsLatin1(u + ":" + p)
    ensures Middleware(pathname, Some(scheme + " " + Base64.Encode(Latin1Bytes(u + ":" + p))), Some(u), Some(p))
         == PassThrough
  {
    var bs := Latin1Bytes(u + ":" + p);
    var token := Base64.Encode(bs);
    assert ' ' !in token by {
      forall k | 0 <= k < |token| ensures token[k] != ' ' {
        assert Base64.SextetOf(token[k]).Some? || token[k] == '=';
      }
    }
    SplitAtFirstSeparator(scheme, ' ', token);
    SplitWithoutSeparator(token, ' ');
    assert AuthValue(scheme + " " + token) == token;
    Base64.DecodeEncode(bs);
    assert u + ":" + p == u + [':'] + p;
    SplitAtFirstSeparator(u, ':', p);
    SplitWithoutSeparator(p, ':');
  }
}
