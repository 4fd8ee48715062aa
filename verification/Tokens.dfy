/**
  Bearer tokens: `dzt_proxy/jwt_utils.py` (and `mcp_server/jwt_utils.py`) over an
  abstract signature scheme. The claim rules are those of RFC 7519, sections
  4.1.3 (aud), 4.1.4 (exp) and 4.1.6 (iat), as the library applies them with no leeway.
 */
module Tokens {
  import opened Common

  datatype Claims = Claims(
    iss: Option<string>,
    aud: Option<seq<string>>,
    tool: Option<string>,
    jti: Option<string>,
    iat: Option<int>,
    exp: Option<int>,
    toolHash: Option<string>)

  /** What the libraries compute: decoding, signing, signature checking, SHA-256. */
  datatype Crypto = Crypto(
    decode: string -> Option<Claims>,
    encode: (Claims, string) -> string,
    signedBy: (string, string) -> bool,
    digest: string -> string)

  predicate HasRequiredClaims(p: Claims) {
    p.exp.Some? && p.iat.Some? && p.iss.Some? && p.aud.Some? && p.jti.Some? && p.tool.Some?
  }

  /** `verify_token`: the payload, or None where the library raises. */
  function VerifyToken(c: Crypto, token: string, key: string, aud: string, now: Time): Option<Claims> {
    match c.decode(token)
    case None => None
    case Some(p) =>
      if && c.signedBy(token, key) && HasRequiredClaims(p)
         && p.iat.value as real <= now && now < p.exp.value as real
         && aud in p.aud.value
      then Some(p) else None
  }

  /**
    The token is good for `aud` at `now`: signed under the key, with every required
    claim, addressed to `aud`, issued already and not yet expired.
   */
  predicate Genuine(c: Crypto, token: string, key: string, aud: string, now: Time) {
    && c.signedBy(token, key) && c.decode(token).Some?
    && var p := c.decode(token).value;
       && p.iss.Some? && p.tool.Some? && p.jti.Some?
       && p.aud.Some? && aud in p.aud.value
       && p.iat.Some? && p.iat.value as real <= now
       && p.exp.Some? && now < p.exp.value as real
  }

  lemma VerifiesExactly(c: Crypto, token: string, key: string, aud: string, now: Time)
    ensures VerifyToken(c, token, key, aud, now) == if Genuine(c, token, key, aud, now) then c.decode(token) else None
  {
  }

  /** The payload that `sign_token` builds at instant `mint`. */
  function NewClaims(iss: string, aud: string, tool: string, jti: string, ttl: int, toolHash: Option<string>,
                     mint: Time): Claims {
    Claims(Some(iss), Some([aud]), Some(tool), Some(jti), Some(mint.Floor), Some(Truncate(mint + ttl as real)),
           if Given(toolHash) then toolHash else None)
  }

  function SignToken(c: Crypto, privateKey: string, iss: string, aud: string, tool: string, jti: string,
                     ttl: int, toolHash: Option<string>, mint: Time): string {
    c.encode(NewClaims(iss, aud, tool, jti, ttl, toolHash, mint), privateKey)
  }

  /** The premise on a key pair: what one key signs decodes unchanged and checks under the other. */
  ghost predicate KeyPair(c: Crypto, privateKey: string, publicKey: string) {
    forall p :: c.decode(c.encode(p, privateKey)) == Some(p) && c.signedBy(c.encode(p, privateKey), publicKey)
  }

  /**
    Sign then verify: the claims come back exactly while the expected audience is
    the token's and the clock is from the mint second up to, not including, mint + ttl.
   */
  lemma SignVerifyRoundTrip(c: Crypto, privateKey: string, publicKey: string, iss: string, aud: string, tool: string,
                            jti: string, ttl: int, toolHash: Option<string>, mint: Time, expected: string, now: Time)
    requires KeyPair(c, privateKey, publicKey)
    ensures var token := SignToken(c, privateKey, iss, aud, tool, jti, ttl, toolHash, mint);
            VerifyToken(c, token, publicKey, expected, now) ==
            if aud == expected && mint.Floor as real <= now < (mint.Floor + ttl) as real
            then Some(NewClaims(iss, aud, tool, jti, ttl, toolHash, mint)) else None
  {
    var p := NewClaims(iss, aud, tool, jti, ttl, toolHash, mint);
    assert c.decode(c.encode(p, privateKey)) == Some(p);
    assert (mint + ttl as real).Floor == mint.Floor + ttl;
    assert mint + ttl as real < 0.0 ==> Truncate(mint + ttl as real) <= 0 <= mint.Floor;
    assert expected in [aud] <==> expected == aud;
  }

  // ---- The Authorization header ----

  /** Python's whitespace, as `str.strip` removes it. */
  predicate IsSpace(c: char) {
    var u := c as int;
    || 0x09 <= u <= 0x0D || 0x1C <= u <= 0x20 || u == 0x85 || u == 0xA0 || u == 0x1680
    || 0x2000 <= u <= 0x200A || u == 0x2028 || u == 0x2029 || u == 0x202F || u == 0x205F || u == 0x3000
  }

  function Strip(s: string): string {
    if s != "" && IsSpace(s[0]) then Strip(s[1..])
    else if s != "" && IsSpace(s[|s| - 1]) then Strip(s[..|s| - 1])
    else s
  }

  /** The token of a "Bearer <token>" header; None where the handler reports `token_presence`. */
  function BearerToken(auth: string): Option<string> {
    if !StartsWith(auth, "Bearer ") then None
    else if Strip(auth[7..]) == "" then None
    else Some(Strip(auth[7..]))
  }

  predicate Blank(s: string) {
    forall i | 0 <= i < |s| :: IsSpace(s[i])
  }

  /** No whitespace at either end, and not empty. */
  predicate Trimmed(token: string) {
    token != "" && !IsSpace(token[0]) && !IsSpace(token[|token| - 1])
  }

  /** `t` is what is left of `s` without the whitespace around it. */
  ghost predicate StripsTo(s: string, t: string) {
    && (t == "" || Trimmed(t))
    && exists before, after :: Blank(before) && Blank(after) && s == before + t + after
  }

  /** The header is "Bearer ", whitespace, the token and whitespace again. */
  ghost predicate Bears(auth: string, token: string) {
    Trimmed(token) && StartsWith(auth, "Bearer ") && StripsTo(auth[7..], token)
  }

  lemma BlankGrows(c: char, s: string, before: string, middle: string, after: string)
    requires IsSpace(c) && Blank(before) && Blank(after) && s == before + middle + after
    ensures Blank([c] + before) && [c] + s == ([c] + before) + middle + after
    ensures Blank(after + [c]) && s + [c] == before + middle + (after + [c])
  {
    hide IsSpace;
  }

  lemma {:induction false} StripCutsBlanks(s: string) returns (before: string, after: string)
    ensures Blank(before) && Blank(after) && s == before + Strip(s) + after
    ensures Strip(s) == "" || Trimmed(Strip(s))
    decreases |s|
  {
    hide Blank, IsSpace;
    if s != "" && IsSpace(s[0]) {
      var head, tail := StripCutsBlanks(s[1..]);
      BlankGrows(s[0], s[1..], head, Strip(s[1..]), tail);
      before, after := [s[0]] + head, tail;
      assert s == [s[0]] + s[1..];
    } else if s != "" && IsSpace(s[|s| - 1]) {
      var head, tail := StripCutsBlanks(s[..|s| - 1]);
      BlankGrows(s[|s| - 1], s[..|s| - 1], head, Strip(s[..|s| - 1]), tail);
      before, after := head, tail + [s[|s| - 1]];
      assert s == s[..|s| - 1] + [s[|s| - 1]];
    } else {
      before, after := "", "";
      EmptyIsBlank();
    }
  }

  lemma EmptyIsBlank()
    ensures Blank("")
  {
  }

  lemma {:induction false} StripFinds(before: string, t: string, after: string)
    requires Blank(before) && Blank(after) && (t == "" || Trimmed(t))
    ensures Strip(before + t + after) == t
    decreases |before| + |after|
  {
    hide IsSpace;
    var s := before + t + after;
    if before != "" {
      assert s[1..] == before[1..] + t + after;
      StripFinds(before[1..], t, after);
    } else if after != "" && t != "" {
      assert s[0] == t[0] && s[..|s| - 1] == before + t + after[..|after| - 1];
      StripFinds(before, t, after[..|after| - 1]);
    } else if after != "" {
      assert s[1..] == before + t + after[1..];
      StripFinds(before, t, after[1..]);
    } else {
      assert s == t;
    }
  }

  lemma StripExactly(s: string, t: string)
    ensures Strip(s) == t <==> StripsTo(s, t)
  {
    if Strip(s) == t {
      var before, after := StripCutsBlanks(s);
    }
    if StripsTo(s, t) {
      var before, after :| Blank(before) && Blank(after) && s == before + t + after;
      StripFinds(before, t, after);
    }
  }

  /** The token that the handler works with is the one that the header bears, if it bears any. */
  lemma BearerExactly(auth: string, token: string)
    ensures BearerToken(auth) == Some(token) <==> Bears(auth, token)
  {
    if StartsWith(auth, "Bearer ") {
      StripExactly(auth[7..], token);
      var before, after := StripCutsBlanks(auth[7..]);
    }
  }

  /** The header that the proxy sends upstream carries the very token it parsed out of the client's. */
  lemma HeaderRoundTrip(auth: string)
    requires BearerToken(auth).Some?
    ensures Trimmed(BearerToken(auth).value)
    ensures BearerToken("Bearer " + BearerToken(auth).value) == BearerToken(auth)
  {
    var token := BearerToken(auth).value;
    BearerExactly(auth, token);
    StripFinds("", token, "");
    assert "" + token + "" == token;
    assert ("Bearer " + token)[7..] == token && ("Bearer " + token)[..7] == "Bearer ";
  }

  // ---- Issued tokens ----

  /** What `sign_token` puts into a token, claim by claim. */
  lemma ClaimsAsSigned(iss: string, aud: string, tool: string, jti: string, ttl: int, toolHash: Option<string>,
                       mint: Time)
    ensures var p := NewClaims(iss, aud, tool, jti, ttl, toolHash, mint);
            && p.iss == Some(iss) && p.aud == Some([aud]) && p.tool == Some(tool) && p.jti == Some(jti)
            && p.iat.Some? && p.iat.value as real <= mint < p.iat.value as real + 1.0
            && p.exp.Some?
            && (mint + ttl as real >= 0.0 ==> p.exp.value == p.iat.value + ttl)
            && (mint + ttl as real < 0.0 ==> p.exp.value <= 0)
            && p.toolHash == (if toolHash == Some("") then None else toolHash)
  {
    assert (mint + ttl as real).Floor == mint.Floor + ttl;
  }
}
