/**
  Issuer resolution with its two caches (`dzt_proxy/did_resolver.py`). A lookup
  that misses is suspended while the document is fetched; `Finished` is the part
  of `get_public_key_pem` that runs when it resumes.
 */
module DidResolver {
  import opened Common

  /** The `publicKeyPem` entries of a document's verification methods, in order. */
  datatype Doc = Doc(methods: seq<Option<string>>)

  datatype State = State(docs: map<string, Doc>, keys: map<string, string>)

  const EMPTY: State := State(map[], map[])

  const LOCAL_DIDS: set<string> := {
    "did:web:dzt.local:agent1", "did:web:dzt.local:agent2", "did:web:dzt.local:mcpserver"
  }

  function FirstKey(doc: Doc): Option<string> {
    if doc.methods == [] then None else doc.methods[0]
  }

  function CachedKey(s: State, did: string): Option<string> {
    if did in s.keys then Some(s.keys[did]) else None
  }

  /**
    `resolve_did`: `file` is the DID's local document if that file exists, `web`
    what an HTTPS fetch yields. None where the source raises.
   */
  function Document(s: State, did: string, file: Option<Doc>, web: Option<Doc>): Option<Doc> {
    if did in LOCAL_DIDS && file.Some? then
      if did in s.docs then Some(s.docs[did]) else file
    else if StartsWith(did, "did:web:") then web
    else None
  }

  /** The caches after resolution, and the key it yields. */
  function Finished(s: State, did: string, file: Option<Doc>, web: Option<Doc>): (State, Option<string>) {
    var doc := Document(s, did, file, web);
    var s' := if doc.Some? && did in LOCAL_DIDS && file.Some? then s.(docs := s.docs[did := doc.value]) else s;
    var key := if doc.Some? then FirstKey(doc.value) else None;
    (if key.Some? then s'.(keys := s'.keys[did := key.value]) else s', key)
  }

  class Resolver {
    var docs: map<string, Doc>
    var keys: map<string, string>

    function View(): State
      reads this
    {
      State(docs, keys)
    }

    constructor ()
      ensures View() == EMPTY
    {
      docs, keys := map[], map[];
    }

    method ResolveLocal(did: string, file: Doc) returns (doc: Doc)
      modifies this`docs
      ensures doc == if did in old(docs) then old(docs)[did] else file
      ensures docs == old(docs)[did := doc]
    {
      if did in docs {
        return docs[did];
      }
      docs := docs[did := file];
      return file;
    }

    method ResolveDid(did: string, file: Option<Doc>, web: Option<Doc>) returns (doc: Option<Doc>)
      modifies this`docs
      ensures doc == Document(old(View()), did, file, web)
      ensures docs == if doc.Some? && did in LOCAL_DIDS && file.Some? then old(docs)[did := doc.value] else old(docs)
    {
      if did in LOCAL_DIDS && file.Some? {
        var local := ResolveLocal(did, file.value);
        return Some(local);
      }
      if !StartsWith(did, "did:web:") {
        return None;
      }
      return web;
    }

    method FinishLookup(did: string, file: Option<Doc>, web: Option<Doc>) returns (key: Option<string>)
      modifies this
      ensures (View(), key) == Finished(old(View()), did, file, web)
    {
      var doc := ResolveDid(did, file, web);
      if doc.None? || doc.value.methods == [] || doc.value.methods[0].None? {
        return None;
      }
      key := doc.value.methods[0];
      keys := keys[did := key.value];
    }
  }

  // ---- What a lookup yields ----

  /** The document that a lookup of `did` is about: a known identity's own file, as first read, or what the web has. */
  ghost predicate Offers(s: State, did: string, file: Option<Doc>, web: Option<Doc>, doc: Doc) {
    var known := did in
      {"did:web:dzt.local:agent1", "did:web:dzt.local:agent2", "did:web:dzt.local:mcpserver"} && file.Some?;
    || (known && did in s.docs && doc == s.docs[did])
    || (known && did !in s.docs && file == Some(doc))
    || (!known && StartsWith(did, "did:web:") && web == Some(doc))
  }

  /**
    A lookup yields a key exactly if a document is offered and its first verification
    method has one; that key is cached under the DID asked for, and nothing else changes
    in either cache but the document kept for a known identity.
   */
  lemma LookupExactly(s: State, did: string, file: Option<Doc>, web: Option<Doc>, key: string)
    ensures var (s', found) := Finished(s, did, file, web);
            && (found == Some(key) <==>
                  exists doc :: Offers(s, did, file, web, doc) && doc.methods != [] && doc.methods[0] == Some(key))
            && (found == Some(key) ==> s'.keys == s.keys[did := key])
            && (found == None ==> s'.keys == s.keys)
            && (s'.docs == s.docs
                || exists doc :: Offers(s, did, file, web, doc) && file.Some? && s'.docs == s.docs[did := doc])
  {
    var doc := Document(s, did, file, web);
    assert forall d | Offers(s, did, file, web, d) :: doc == Some(d);
    assert doc.Some? ==> Offers(s, did, file, web, doc.value);
  }

  // ---- did:web identifiers to URLs ----

  const PREFIX := "did:web:"
  const SUFFIX := "/.well-known/did.json"

  function Split(s: string, sep: char): (parts: seq<string>)
    ensures parts != []
  {
    if s == "" then [""]
    else
      var rest := Split(s[1..], sep);
      if s[0] == sep then [""] + rest else [[s[0]] + rest[0]] + rest[1..]
  }

  function Join(parts: seq<string>, sep: char): string {
    if parts == [] then "" else if |parts| == 1 then parts[0] else parts[0] + [sep] + Join(parts[1..], sep)
  }

  function UnquoteAll(unquote: string -> string, parts: seq<string>): (decoded: seq<string>)
    ensures |decoded| == |parts|
  {
    if parts == [] then [] else [unquote(parts[0])] + UnquoteAll(unquote, parts[1..])
  }

  /** `did_web_to_url`, with percent-decoding as a parameter; None where it raises. */
  function DidWebToUrl(unquote: string -> string, did: string): Option<string> {
    if !StartsWith(did, PREFIX) then None
    else
      var parts := UnquoteAll(unquote, Split(did[|PREFIX|..], ':'));
      if |parts| > 1 then Some("https://" + parts[0] + "/" + Join(parts[1..], '/') + SUFFIX)
      else Some("https://" + parts[0] + SUFFIX)
  }

  /** Percent-decoding leaves text without '%' alone. */
  ghost predicate DecodesOnlyPercent(unquote: string -> string) {
    forall s :: '%' !in s ==> unquote(s) == s
  }

  function Replace(s: string, from: char, to: char): string {
    seq(|s|, i requires 0 <= i < |s| => if s[i] == from then to else s[i])
  }

  lemma {:induction false} SplitJoinReplaces(s: string, from: char, to: char)
    ensures Join(Split(s, from), to) == Replace(s, from, to)
  {
    if s != "" {
      var rest := Split(s[1..], from);
      SplitJoinReplaces(s[1..], from, to);
      var parts := Split(s, from);
      if s[0] == from {
        assert parts[1..] == rest;
        assert Join(parts, to) == [to] + Join(rest, to);
      } else {
        assert parts[1..] == rest[1..];
        assert Join(parts, to) == [s[0]] + Join(rest, to);
      }
    }
  }

  lemma {:induction false} SplitAddsNothing(s: string, sep: char, c: char)
    requires c !in s
    ensures forall i | 0 <= i < |Split(s, sep)| :: c !in Split(s, sep)[i]
  {
    if s != "" {
      assert c !in s[1..];
      SplitAddsNothing(s[1..], sep, c);
    }
  }

  lemma {:induction false} UnquoteChangesNothing(unquote: string -> string, parts: seq<string>)
    requires DecodesOnlyPercent(unquote) && forall i | 0 <= i < |parts| :: '%' !in parts[i]
    ensures UnquoteAll(unquote, parts) == parts
  {
    if parts != [] {
      UnquoteChangesNothing(unquote, parts[1..]);
    }
  }

  /** Without '%', the URL is the identifier with ':' turned into '/', between fixed ends. */
  lemma UrlIsReplacedIdentifier(unquote: string -> string, did: string)
    requires DecodesOnlyPercent(unquote) && StartsWith(did, PREFIX) && '%' !in did
    ensures DidWebToUrl(unquote, did) == Some("https://" + Replace(did[|PREFIX|..], ':', '/') + SUFFIX)
  {
    var id := did[|PREFIX|..];
    var parts := Split(id, ':');
    SplitJoinReplaces(id, ':', '/');
    SplitAddsNothing(id, ':', '%');
    UnquoteChangesNothing(unquote, parts);
    if |parts| > 1 {
      assert Join(parts, '/') == parts[0] + ['/'] + Join(parts[1..], '/');
      assert "https://" + parts[0] + "/" + Join(parts[1..], '/') + SUFFIX == "https://" + Join(parts, '/') + SUFFIX;
    }
  }

  /** The inverse: strip the fixed ends and turn '/' back into ':'. */
  function UrlToDid(url: string): string
    requires |url| >= 8 + |SUFFIX|
  {
    PREFIX + Replace(url[8..|url| - |SUFFIX|], '/', ':')
  }

  /** On identifiers without '%' or '/', the URL determines the identifier. */
  lemma UrlRoundTrip(unquote: string -> string, did: string)
    requires DecodesOnlyPercent(unquote) && StartsWith(did, PREFIX) && '%' !in did && '/' !in did
    ensures DidWebToUrl(unquote, did).Some? && |DidWebToUrl(unquote, did).value| >= 8 + |SUFFIX|
    ensures UrlToDid(DidWebToUrl(unquote, did).value) == did
  {
    UrlIsReplacedIdentifier(unquote, did);
    var id := did[|PREFIX|..];
    var url := DidWebToUrl(unquote, did).value;
    assert url[8..|url| - |SUFFIX|] == Replace(id, ':', '/');
    assert forall i | 0 <= i < |id| :: id[i] in did;
    assert Replace(Replace(id, ':', '/'), '/', ':') == id;
  }

  // ---- All did:web identifiers, percent-encoded ones included ----

  /** The decoded segments of the identifier: the domain, then the path. */
  function Segments(unquote: string -> string, did: string): (segments: seq<string>)
    requires StartsWith(did, PREFIX)
    ensures segments != []
  {
    UnquoteAll(unquote, Split(did[|PREFIX|..], ':'))
  }

  lemma {:induction false} UnquotedAt(unquote: string -> string, parts: seq<string>, i: nat)
    requires i < |parts|
    ensures UnquoteAll(unquote, parts)[i] == unquote(parts[i])
  {
    if i > 0 {
      UnquotedAt(unquote, parts[1..], i - 1);
    }
  }

  lemma {:induction false} SplitHasNoSeparator(s: string, sep: char)
    ensures forall i | 0 <= i < |Split(s, sep)| :: sep !in Split(s, sep)[i]
  {
    if s != "" {
      SplitHasNoSeparator(s[1..], sep);
    }
  }

  /** The segments are the pieces of the identifier between its colons, each percent-decoded for itself. */
  lemma SegmentsExactly(unquote: string -> string, did: string) returns (pieces: seq<string>)
    requires StartsWith(did, PREFIX)
    ensures did == "did:web:" + Join(pieces, ':') && pieces != []
    ensures forall i | 0 <= i < |pieces| :: ':' !in pieces[i]
    ensures |Segments(unquote, did)| == |pieces|
    ensures forall i | 0 <= i < |pieces| :: Segments(unquote, did)[i] == unquote(pieces[i])
  {
    var id := did[|PREFIX|..];
    pieces := Split(id, ':');
    SplitHasNoSeparator(id, ':');
    SplitJoinReplaces(id, ':', ':');
    assert Replace(id, ':', ':') == id;
    assert did == PREFIX + id;
    forall i | 0 <= i < |pieces|
      ensures Segments(unquote, did)[i] == unquote(pieces[i])
    {
      UnquotedAt(unquote, pieces, i);
    }
  }

  lemma UrlIsJoinedSegments(unquote: string -> string, did: string)
    requires StartsWith(did, PREFIX)
    ensures DidWebToUrl(unquote, did) == Some("https://" + Join(Segments(unquote, did), '/') + SUFFIX)
  {
    var parts := Segments(unquote, did);
    if |parts| > 1 {
      assert "https://" + parts[0] + "/" + Join(parts[1..], '/') + SUFFIX == "https://" + Join(parts, '/') + SUFFIX;
    }
  }

  /** Whatever percent-decoding does, two identifiers share a document URL exactly when their joined segments agree. */
  lemma SharedUrlExactly(unquote: string -> string, a: string, b: string)
    requires StartsWith(a, PREFIX) && StartsWith(b, PREFIX)
    ensures DidWebToUrl(unquote, a) == DidWebToUrl(unquote, b)
            <==> Join(Segments(unquote, a), '/') == Join(Segments(unquote, b), '/')
  {
    UrlIsJoinedSegments(unquote, a);
    UrlIsJoinedSegments(unquote, b);
    var x, y := Join(Segments(unquote, a), '/'), Join(Segments(unquote, b), '/');
    var u, v := "https://" + x + SUFFIX, "https://" + y + SUFFIX;
    assert x == u[8..|u| - |SUFFIX|] && y == v[8..|v| - |SUFFIX|];
  }

  /** The URL of the did:web Method Specification, section "Read (Resolve)": `/.well-known` only without a path. */
  function MethodUrl(unquote: string -> string, did: string): Option<string> {
    if !StartsWith(did, PREFIX) then None
    else
      var segments := Segments(unquote, did);
      Some("https://" + Join(segments, '/') + (if |segments| == 1 then "/.well-known" else "") + "/did.json")
  }

  /** The code's URL is the method's exactly for identifiers without a path. */
  lemma FollowsMethodExactly(unquote: string -> string, did: string)
    requires StartsWith(did, PREFIX)
    ensures DidWebToUrl(unquote, did) == MethodUrl(unquote, did) <==> |Segments(unquote, did)| == 1
  {
    UrlIsJoinedSegments(unquote, did);
    var front := "https://" + Join(Segments(unquote, did), '/');
    assert SUFFIX == "/.well-known" + "/did.json";
    assert front + "/.well-known" + "/did.json" == front + SUFFIX;
    assert |front + "" + "/did.json"| < |front + SUFFIX|;
  }

  /** For one, `did:web:a:b`: the code's document is not where the method puts it. */
  lemma PathDeparts(unquote: string -> string)
    requires DecodesOnlyPercent(unquote)
    ensures DidWebToUrl(unquote, "did:web:a:b") == Some("https://" + "a/b" + "/.well-known/did.json")
    ensures MethodUrl(unquote, "did:web:a:b") == Some("https://" + "a/b" + "" + "/did.json")
  {
    UrlIsJoinedSegments(unquote, "did:web:a:b");
    TwoSegments(unquote);
    assert Join(["a", "b"], '/') == "a" + ['/'] + Join(["b"], '/') == "a/b";
  }

  lemma TwoSegments(unquote: string -> string)
    requires DecodesOnlyPercent(unquote)
    ensures Segments(unquote, "did:web:a:b") == ["a", "b"]
  {
    assert "did:web:a:b"[|PREFIX|..] == "a" + [':'] + "b";
    SplitStartsWith("a", "b", ':');
    SplitStartsWith("b", "", ':');
    UnquoteChangesNothing(unquote, ["a", "b"]);
  }

  lemma {:induction false} SplitStartsWith(part: string, rest: string, sep: char)
    requires sep !in part
    ensures Split(part + [sep] + rest, sep) == [part] + Split(rest, sep)
    ensures Split(part, sep) == [part]
  {
    if part == "" {
      assert part + [sep] + rest == [sep] + rest;
    } else {
      assert part == [part[0]] + part[1..];
      assert (part + [sep] + rest)[1..] == part[1..] + [sep] + rest;
      SplitStartsWith(part[1..], rest, sep);
    }
  }

  /** Joining loses nothing where no segment contains the separator. */
  lemma {:induction false} SplitUndoesJoin(parts: seq<string>, sep: char)
    requires parts != [] && forall i | 0 <= i < |parts| :: sep !in parts[i]
    ensures Split(Join(parts, sep), sep) == parts
  {
    SplitStartsWith(parts[0], Join(parts[1..], sep), sep);
    if |parts| > 1 {
      SplitUndoesJoin(parts[1..], sep);
      assert parts == [parts[0]] + parts[1..];
    }
  }

  /** The segments that a document URL of the code shows. */
  function SegmentsOfUrl(url: string): seq<string>
    requires |url| >= 8 + |SUFFIX|
  {
    Split(url[8..|url| - |SUFFIX|], '/')
  }

  /** Round trip, percent-encoded identifiers included: the URL gives the decoded segments back. */
  lemma SegmentsRoundTrip(unquote: string -> string, did: string)
    requires StartsWith(did, PREFIX)
    requires forall i | 0 <= i < |Segments(unquote, did)| :: '/' !in Segments(unquote, did)[i]
    ensures DidWebToUrl(unquote, did).Some? && |DidWebToUrl(unquote, did).value| >= 8 + |SUFFIX|
    ensures SegmentsOfUrl(DidWebToUrl(unquote, did).value) == Segments(unquote, did)
  {
    UrlIsJoinedSegments(unquote, did);
    var path, url := Join(Segments(unquote, did), '/'), DidWebToUrl(unquote, did).value;
    assert url == "https://" + path + SUFFIX;
    assert url[8..|url| - |SUFFIX|] == path;
    SplitUndoesJoin(Segments(unquote, did), '/');
  }

  /** Where no decoded segment contains a slash, the URL tells all segments: no two segment lists share it. */
  lemma UrlTellsSegments(unquote: string -> string, a: string, b: string)
    requires StartsWith(a, PREFIX) && StartsWith(b, PREFIX)
    requires forall i | 0 <= i < |Segments(unquote, a)| :: '/' !in Segments(unquote, a)[i]
    requires forall i | 0 <= i < |Segments(unquote, b)| :: '/' !in Segments(unquote, b)[i]
    ensures DidWebToUrl(unquote, a) == DidWebToUrl(unquote, b) <==> Segments(unquote, a) == Segments(unquote, b)
  {
    SharedUrlExactly(unquote, a, b);
    SplitUndoesJoin(Segments(unquote, a), '/');
    SplitUndoesJoin(Segments(unquote, b), '/');
  }

  /**
    Two identifiers without '%' share a document URL exactly when they agree up to
    writing '/' for ':' in the part after the method name.
   */
  lemma SharedUrlWithoutPercent(unquote: string -> string, a: string, b: string)
    requires DecodesOnlyPercent(unquote)
    requires StartsWith(a, PREFIX) && '%' !in a && StartsWith(b, PREFIX) && '%' !in b
    ensures DidWebToUrl(unquote, a) == DidWebToUrl(unquote, b)
            <==> Replace(a[|PREFIX|..], ':', '/') == Replace(b[|PREFIX|..], ':', '/')
  {
    UrlIsReplacedIdentifier(unquote, a);
    UrlIsReplacedIdentifier(unquote, b);
    var x, y := Replace(a[|PREFIX|..], ':', '/'), Replace(b[|PREFIX|..], ':', '/');
    var u, v := "https://" + x + SUFFIX, "https://" + y + SUFFIX;
    assert x == u[8..|u| - |SUFFIX|] && y == v[8..|v| - |SUFFIX|];
  }

  /** A slash inside a segment does collide with a segment boundary. */
  lemma SlashCollides(unquote: string -> string)
    requires DecodesOnlyPercent(unquote)
    ensures DidWebToUrl(unquote, "did:web:a:b") == DidWebToUrl(unquote, "did:web:a/b")
  {
    UrlIsReplacedIdentifier(unquote, "did:web:a:b");
    UrlIsReplacedIdentifier(unquote, "did:web:a/b");
    assert Replace("did:web:a:b"[|PREFIX|..], ':', '/') == "a/b" == Replace("did:web:a/b"[|PREFIX|..], ':', '/');
  }
}
