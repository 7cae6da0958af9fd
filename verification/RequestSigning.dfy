/** The printer and the checker of signed requests, and what a signed request is read back as. */
module RequestSigning {
  import opened Wrappers
  import opened Sequences
  import opened HttpSignature
  import Base64

  /** The keyed digest: algorithm name, secret and message to bytes. */
  type Mac = (string, string, string) -> Base64.Bytes

  // ---------------------------------------------------------------------------------------------
  // Printing
  // ---------------------------------------------------------------------------------------------

  function HexDigit(d: nat): (c: char)
    requires d < 16
    ensures '0' <= c <= '9' || 'A' <= c <= 'F'
  {
    if d < 10 then (48 + d) as char else (55 + d) as char
  }

  function EscapeByte(b: Base64.Byte): string {
    if 48 <= b <= 57 || 65 <= b <= 90 || 97 <= b <= 122 || b == 45 || b == 46 || b == 95 || b == 126
    then [b as char]
    else if b == 32 then "+"
    else ['%', HexDigit(b / 16), HexDigit(b % 16)]
  }

  function QueryEscape(s: Base64.Bytes): string {
    if s == [] then "" else EscapeByte(s[0]) + QueryEscape(s[1..])
  }

  function EncodedSignature(digest: Base64.Bytes): string { QueryEscape(Base64.Encode(digest)) }

  function Quoted(text: string): string { "\"" + text + "\"" }

  function Field(name: string, text: string): string { name + ("=" + Quoted(text)) }

  function FieldList(keyID: string, algorithm: string, headers: string, signature: string): string {
    Field("keyId", keyID) + ("," + (Field("algorithm", algorithm) + ("," +
      (Field("headers", headers) + ("," + Field("signature", signature))))))
  }

  function AuthHeader(keyID: string, algorithm: string, headers: seq<string>, signature: string): string
    requires headers != []
  {
    "Signature " + FieldList(keyID, algorithm, Join(headers, ' '), signature)
  }

  datatype SigningConfig = SigningConfig(secret: string, keyID: string, algorithm: string, allowed: seq<string>)

  const SUPPORTED := ["hmac-sha1", "hmac-sha256", "hmac-sha384", "hmac-sha512"]

  predicate Complete(cfg: SigningConfig) { cfg.secret != "" && cfg.keyID != "" && cfg.algorithm != "" }

  /** Signing gives a request without a date the current one. */
  function Dated(r: Request, now: string): Request {
    if r.Get("date") == "" then r.(header := r.header["date" := now]) else r
  }

  function ListedName(k: string): string { TrimSpace(ToLower(k)) }

  /** The header list: the request target first, then every header once, and the date if it was missing. */
  ghost predicate IsHeaderList(r: Request, headers: seq<string>) {
    && headers != [] && headers[0] == "(request-target)"
    && (forall k :: k in r.header ==> ListedName(k) in headers)
    && (forall h :: h in headers ==>
          || h == "(request-target)" || (h == "date" && r.Get("date") == "")
          || exists k :: k in r.header && h == ListedName(k))
    && (r.Get("date") == "" ==> "date" in headers)
    && |headers| == 1 + |r.header| + (if r.Get("date") == "" then 1 else 0)
  }

  function SignedRequest(r: Request, now: string, cfg: SigningConfig, headers: seq<string>, mac: Mac): Request
    requires headers != []
  {
    var d := Dated(r, now);
    var signature := EncodedSignature(mac(cfg.algorithm, cfg.secret, SignatureString(d, headers)));
    d.(header := d.header["authorization" := AuthHeader(cfg.keyID, cfg.algorithm, headers, signature)])
  }

  class HttpRequest {
    var verb: string
    var path: string
    var header: map<string, string>

    function View(): Request
      reads this
    {
      Request(verb, path, header)
    }
  }

  /** The request target and the names in some order, filled in by index. */
  method ListNames(names: set<string>) returns (headers: seq<string>)
    ensures |headers| == |names| + 1 && headers[0] == "(request-target)"
    ensures forall k :: k in names ==> ListedName(k) in headers
    ensures forall h :: h in headers ==> h == "(request-target)" || exists k :: k in names && h == ListedName(k)
  {
    var list := new string[|names| + 1];
    list[0] := "(request-target)";
    var i := 1;
    var todo := names;
    while todo != {}
      invariant todo <= names && 1 <= i && i + |todo| == list.Length
      invariant list[0] == "(request-target)"
      invariant forall k :: k in names && k !in todo ==> ListedName(k) in list[..i]
      invariant forall h :: h in list[..i] ==> h == "(request-target)" || exists k :: k in names && h == ListedName(k)
    {
      var k :| k in todo;
      list[i] := ListedName(k);
      assert list[..i + 1] == list[..i] + [ListedName(k)];
      i := i + 1;
      todo := todo - {k};
    }
    assert list[..i] == list[..];
    headers := list[..];
  }

  method GenerateHeaderList(r: HttpRequest, now: string) returns (headers: seq<string>)
    modifies r
    ensures IsHeaderList(old(r.View()), headers)
    ensures r.View() == Dated(old(r.View()), now)
  {
    headers := ListNames(r.header.Keys);
    if r.View().Get("date") == "" {
      r.header := r.header["date" := now];
      headers := headers + ["date"];
    }
  }

  datatype SigningError = FieldsMissing | AlgorithmNotSupported

  method PrintAuthHeader(keyID: string, algorithm: string, headers: seq<string>, signature: string)
    returns (authHeader: string)
    requires headers != []
    ensures authHeader == AuthHeader(keyID, algorithm, headers, signature)
  {
    authHeader := "Signature ";
    authHeader := authHeader + ("keyId=\"" + keyID + "\",");
    authHeader := authHeader + ("algorithm=\"" + algorithm + "\",");
    authHeader := authHeader + ("headers=\"" + Join(headers, ' ') + "\",");
    authHeader := authHeader + ("signature=\"" + signature + "\"");
  }

  method SignRequest(cfg: SigningConfig, r: HttpRequest, now: string, mac: Mac) returns (error: Option<SigningError>)
    modifies r
    ensures error == Some(FieldsMissing) <==> cfg.secret == "" || cfg.keyID == "" || cfg.algorithm == ""
    ensures error == Some(AlgorithmNotSupported) <==>
      && cfg.secret != "" && cfg.keyID != "" && cfg.algorithm != ""
      && cfg.algorithm !in (if cfg.allowed != [] then cfg.allowed
                            else ["hmac-sha1", "hmac-sha256", "hmac-sha384", "hmac-sha512"])
    ensures error.Some? ==> r.View() == old(r.View())
    ensures error.None? ==>
      var was := Request(old(r.verb), old(r.path), old(r.header));
      exists headers :: IsHeaderList(was, headers) &&
        Request(r.verb, r.path, r.header) == SignedRequest(was, now, cfg, headers, mac)
  {
    if cfg.secret == "" || cfg.keyID == "" || cfg.algorithm == "" {
      return Some(FieldsMissing);
    }
    if cfg.algorithm !in (if |cfg.allowed| > 0 then cfg.allowed else SUPPORTED) {
      return Some(AlgorithmNotSupported);
    }
    var headers := GenerateHeaderList(r, now);
    var message := BuildSignatureString(r.View(), headers);
    var signature := EncodedSignature(mac(cfg.algorithm, cfg.secret, message));
    var authHeader := PrintAuthHeader(cfg.keyID, cfg.algorithm, headers, signature);
    r.header := r.header["authorization" := authHeader];
    error := None;
  }

  // ---------------------------------------------------------------------------------------------
  // Checking
  // ---------------------------------------------------------------------------------------------

  /** What the loop has read of the pairs seen so far. */
  ghost predicate SoFar(seen: map<string, string>, s: FieldValues) {
    && (forall k :: k in seen ==> GoodField(k, seen[k]))
    && Holds(seen, "keyid", s.keyID) && Holds(seen, "algorithm", s.algorithm) && Holds(seen, "signature", s.signature)
    && HeadersSoFar(seen, s.headers)
  }

  ghost predicate HeadersSoFar(seen: map<string, string>, hs: seq<string>) {
    if hs == [] then forall k :: k in seen ==> ToLower(k) != "headers" else HoldsHeaders(seen, hs)
  }

  function WithField(s: FieldValues, name: string, value: string): FieldValues {
    if name == "keyid" then s.(keyID := value)
    else if name == "algorithm" then s.(algorithm := value)
    else if name == "headers" then s.(headers := Split(value, ' '))
    else if name == "signature" then s.(signature := value)
    else s
  }

  lemma HoldsMore(seen: map<string, string>, k: string, text: string, name: string, x: string, y: string)
    requires k !in seen && Holds(seen, name, x)
    requires if ToLower(k) == name then FieldText(text) == Some(y) else x == y
    ensures Holds(seen[k := text], name, y)
  {
    var m := seen[k := text];
    if ToLower(k) == name {
      assert k in m && m[k] == text;
    } else if exists l :: l in seen && ToLower(l) == name && FieldText(seen[l]) == Some(x) {
      var l :| l in seen && ToLower(l) == name && FieldText(seen[l]) == Some(x);
      assert l in m && m[l] == seen[l];
    }
  }

  lemma HeadersKept(seen: map<string, string>, k: string, text: string, hs: seq<string>)
    requires k !in seen && HeadersSoFar(seen, hs) && ToLower(k) != "headers"
    ensures HeadersSoFar(seen[k := text], hs)
  {
    var m := seen[k := text];
    if l :|
      && l in seen && ToLower(l) == "headers"
      && FieldText(seen[l]).Some? && hs == Split(FieldText(seen[l]).value, ' ')
    {
      assert l in m && m[l] == seen[l];
    }
  }

  lemma HeadersNew(seen: map<string, string>, k: string, text: string, value: string)
    requires ToLower(k) == "headers" && FieldText(text) == Some(value)
    ensures HeadersSoFar(seen[k := text], Split(value, ' '))
  {
    var m := seen[k := text];
    assert k in m && m[k] == text;
  }

  lemma SoFarMore(seen: map<string, string>, k: string, text: string, value: string, s: FieldValues)
    requires k !in seen && SoFar(seen, s) && FieldText(text) == Some(value) && GoodField(k, text)
    ensures SoFar(seen[k := text], WithField(s, ToLower(k), value))
  {
    var t := WithField(s, ToLower(k), value);
    HoldsMore(seen, k, text, "keyid", s.keyID, t.keyID);
    HoldsMore(seen, k, text, "algorithm", s.algorithm, t.algorithm);
    HoldsMore(seen, k, text, "signature", s.signature, t.signature);
    if ToLower(k) == "headers" {
      HeadersNew(seen, k, text, value);
    } else {
      HeadersKept(seen, k, text, s.headers);
    }
  }

  lemma AllRead(m: map<string, string>, s: FieldValues)
    requires SoFar(m, s)
    ensures Parses(m, s.(headers := if s.headers == [] then ["date"] else s.headers))
    ensures !exists k :: k in m && !GoodField(k, m[k])
  {
  }

  /** A field is bad if it is unknown or badly quoted. */
  lemma BadFields(m: map<string, string>)
    ensures (exists k :: k in m && !GoodField(k, m[k])) <==> exists k ::
      k in m && (ToLower(k) !in ["keyid", "algorithm", "headers", "signature"] || FieldText(m[k]).None?)
  {
  }

  method GetFieldValues(m: map<string, string>) returns (v: Option<FieldValues>)
    ensures v.Some? ==> Parses(m, v.value)
    ensures v.None? <==> exists k ::
      k in m && (ToLower(k) !in ["keyid", "algorithm", "headers", "signature"] || FieldText(m[k]).None?)
  {
    BadFields(m);
    var s := FieldValues("", "", [], "");
    var todo := m.Keys;
    ghost var seen: map<string, string> := map[];
    while todo != {}
      invariant todo <= m.Keys && seen == m - todo && SoFar(seen, s)
    {
      var k :| k in todo;
      var value := FieldText(m[k]);
      if value.None? {
        assert !GoodField(k, m[k]);
        return None;
      }
      if ToLower(k) !in FIELDS {
        assert !GoodField(k, m[k]);
        return None;
      }
      SoFarMore(seen, k, m[k], value.value, s);
      seen := seen[k := m[k]];
      todo := todo - {k};
      s := WithField(s, ToLower(k), value.value);
    }
    assert seen == m;
    AllRead(m, s);
    if |s.headers| == 0 {
      s := s.(headers := ["date"]);
    }
    v := Some(s);
  }

  /** The field values a request's Authorization header may be read as. */
  ghost predicate ReadsAs(r: Request, v: FieldValues) {
    && r.Get("authorization") != ""
    && var m := LoadFrom(StripSignature(r.Get("authorization")), false, "", map[]);
       m.Some? && Parses(m.value, v)
  }

  predicate Matches(r: Request, v: FieldValues, secrets: map<string, string>, allowed: seq<string>, mac: Mac) {
    && v.keyID in secrets && secrets[v.keyID] != ""
    && (allowed != [] ==> v.algorithm in allowed)
    && v.signature == EncodedSignature(mac(v.algorithm, secrets[v.keyID], SignatureString(r, v.headers)))
  }

  /** The signature check; `secrets` holds the secrets of the keys that may sign. */
  method CheckSignature(r: Request, secrets: map<string, string>, allowed: seq<string>, mac: Mac) returns (ok: bool)
    ensures ok ==> exists v :: ReadsAs(r, v) && Matches(r, v, secrets, allowed, mac)
    ensures (exists v :: ReadsAs(r, v)) && (forall v :: ReadsAs(r, v) ==> Matches(r, v, secrets, allowed, mac)) ==> ok
  {
    var token := r.Get("authorization");
    if token == "" {
      return false;
    }
    token := StripSignature(token);
    var m := LoadKeyValues(token);
    if m.None? {
      return false;
    }
    var fields := GetFieldValues(m.value);
    if fields.None? {
      return false;
    }
    var v := fields.value;
    assert ReadsAs(r, v);
    var message := BuildSignatureString(r, v.headers);
    if v.keyID !in secrets || secrets[v.keyID] == "" {
      return false;
    }
    if |allowed| > 0 && v.algorithm !in allowed {
      return false;
    }
    ok := EncodedSignature(mac(v.algorithm, secrets[v.keyID], message)) == v.signature;
  }
}
