/** Sign, then verify: the checker reads back what the signer printed, and rebuilds the string it signed. */
module SignThenVerify {
  import opened Wrappers
  import opened Sequences
  import opened HttpSignature
  import opened RequestSigning
  import Base64
  import opened Decimals

  /** Text that can stand between quotes as it is. */
  predicate Clean(s: string) { '"' !in s && '\\' !in s && '\n' !in s }

  /** A header name in the form the header map keys have. */
  predicate TokenName(k: string) {
    Clean(k) && forall i :: 0 <= i < |k| ==> !IsSpace(k[i]) && LowerChar(k[i]) == k[i]
  }

  // ---------------------------------------------------------------------------------------------
  // Tokens of a printed field list
  // ---------------------------------------------------------------------------------------------

  lemma {:induction false} WordEnds(w: string, rest: string)
    requires forall i :: 0 <= i < |w| ==> IsLetter(w[i])
    requires rest != "" && !IsLetter(rest[0]) && !IsDigit(rest[0])
    ensures WordLength(w + rest) == |w|
  {
    if w == "" {
      assert w + rest == rest;
    } else {
      WordEnds(w[1..], rest);
      assert (w + rest)[1..] == w[1..] + rest;
    }
  }

  lemma {:induction false} QuoteEnds(text: string, rest: string)
    requires Clean(text)
    ensures QuotedLength(text + ("\"" + rest)) == Some(|text|)
  {
    var s := text + ("\"" + rest);
    if text != "" {
      assert s[0] == text[0];
      QuoteEnds(text[1..], rest);
      assert s[1..] == text[1..] + ("\"" + rest);
    }
  }

  lemma WordToken(w: string, rest: string)
    requires w != "" && forall i :: 0 <= i < |w| ==> IsLetter(w[i])
    requires rest != "" && !IsLetter(rest[0]) && !IsDigit(rest[0])
    ensures NextToken(w + rest) == Token(w, rest)
  {
    WordEnds(w, rest);
    assert (w + rest)[0] == w[0];
    assert (w + rest)[..|w|] == w && (w + rest)[|w|..] == rest;
  }

  lemma QuotedToken(text: string, rest: string)
    requires Clean(text)
    ensures NextToken(Quoted(text) + rest) == Token(Quoted(text), rest)
  {
    var s := Quoted(text) + rest;
    assert s[1..] == text + ("\"" + rest);
    QuoteEnds(text, rest);
    assert s[..|text| + 2] == Quoted(text) && s[|text| + 2..] == rest;
  }

  lemma MarkToken(c: char, rest: string)
    requires c == '=' || c == ','
    ensures NextToken([c] + rest) == Token([c], rest)
  {
    assert ([c] + rest)[..1] == [c] && ([c] + rest)[1..] == rest;
  }

  /** Blanks between tokens make no difference. */
  lemma BlanksIgnored(c: char, rest: string, inValue: bool, key: string, m: map<string, string>)
    requires c == ' ' || c == '\t' || c == '\n' || c == '\r'
    ensures LoadFrom([c] + rest, inValue, key, m) == LoadFrom(rest, inValue, key, m)
  {
    assert ([c] + rest)[1..] == rest;
  }

  predicate Word(name: string) { name != "" && forall i :: 0 <= i < |name| ==> IsLetter(name[i]) }

  lemma FieldNamesAreWords()
    ensures Word("keyId") && Word("algorithm") && Word("headers") && Word("signature")
  {
  }

  /** One printed field is read into the map. */
  lemma FieldRead(name: string, text: string, rest: string, key: string, m: map<string, string>)
    requires Word(name) && Clean(text)
    ensures LoadFrom(Field(name, text) + rest, false, key, m) == LoadFrom(rest, false, name, m[name := Quoted(text)])
  {
    var afterName := "=" + (Quoted(text) + rest);
    assert Field(name, text) + rest == name + afterName;
    WordToken(name, afterName);
    MarkToken('=', Quoted(text) + rest);
    QuotedToken(text, rest);
    assert Quoted(text) != "=" && Quoted(text) != ",";
    assert name != "=" && name != ",";
    assert LoadFrom(Quoted(text) + rest, true, name, m) == LoadFrom(rest, false, name, m[name := Quoted(text)]);
    assert LoadFrom(afterName, true, name, m) == LoadFrom(Quoted(text) + rest, true, name, m);
  }

  lemma FieldAndCommaRead(name: string, text: string, rest: string, key: string, m: map<string, string>)
    requires Word(name) && Clean(text)
    ensures LoadFrom(Field(name, text) + ("," + rest), false, key, m)
         == LoadFrom(rest, false, name, m[name := Quoted(text)])
  {
    FieldRead(name, text, "," + rest, key, m);
    MarkToken(',', rest);
  }

  lemma LastFieldRead(name: string, text: string, key: string, m: map<string, string>)
    requires Word(name) && Clean(text)
    ensures LoadFrom(Field(name, text), false, key, m) == Some(m[name := Quoted(text)])
  {
    FieldRead(name, text, "", key, m);
    assert Field(name, text) + "" == Field(name, text);
  }

  lemma FourFieldsRead(n1: string, t1: string, n2: string, t2: string, n3: string, t3: string, n4: string, t4: string)
    requires Word(n1) && Word(n2) && Word(n3) && Word(n4) && Clean(t1) && Clean(t2) && Clean(t3) && Clean(t4)
    ensures LoadFrom(Field(n1, t1) + ("," + (Field(n2, t2) + ("," + (Field(n3, t3) + ("," + Field(n4, t4)))))),
                     false, "", map[])
         == Some(map[n1 := Quoted(t1)][n2 := Quoted(t2)][n3 := Quoted(t3)][n4 := Quoted(t4)])
  {
    var f4 := Field(n4, t4);
    var f3 := Field(n3, t3) + ("," + f4);
    var f2 := Field(n2, t2) + ("," + f3);
    var m1 := map[n1 := Quoted(t1)];
    FieldAndCommaRead(n1, t1, f2, "", map[]);
    FieldAndCommaRead(n2, t2, f3, n1, m1);
    FieldAndCommaRead(n3, t3, f4, n2, m1[n2 := Quoted(t2)]);
    LastFieldRead(n4, t4, n3, m1[n2 := Quoted(t2)][n3 := Quoted(t3)]);
  }

  function PrintedMap(keyID: string, algorithm: string, headers: string, signature: string): map<string, string> {
    map["keyId" := Quoted(keyID), "algorithm" := Quoted(algorithm), "headers" := Quoted(headers),
        "signature" := Quoted(signature)]
  }

  /** The pairs of a printed field list. */
  lemma FieldListRead(keyID: string, algorithm: string, headers: string, signature: string)
    requires Clean(keyID) && Clean(algorithm) && Clean(headers) && Clean(signature)
    ensures LoadFrom(FieldList(keyID, algorithm, headers, signature), false, "", map[])
         == Some(PrintedMap(keyID, algorithm, headers, signature))
  {
    FieldNamesAreWords();
    FourFieldsRead("keyId", keyID, "algorithm", algorithm, "headers", headers, "signature", signature);
  }

  lemma SmallSchemeStripped(body: string)
    requires body != "" && !IsSpace(body[0]) && !IsSpace(body[|body| - 1])
    ensures StripSignature("signature " + body) == body
  {
    var s := "signature " + body;
    assert !("Signature" <= s) by {
      assert s[0] != "Signature"[0];
    }
    assert s[..9] == "signature" && s[9..] == " " + body;
    assert (" " + body)[1..] == body;
    assert TrimLeft(body) == body;
    assert TrimLeft(" " + body) == body;
  }

  /** The scheme name, in either spelling, and the space after it are stripped. */
  lemma SchemeStripped(body: string)
    requires body != "" && !IsSpace(body[0]) && !IsSpace(body[|body| - 1])
    ensures StripSignature("Signature " + body) == body && StripSignature("signature " + body) == body
  {
    SmallSchemeStripped(body);
    var s := "Signature " + body;
    assert s[..9] == "Signature" && s[9..] == " " + body;
    assert TrimPrefix(s, "Signature") == " " + body;
    assert TrimPrefix(" " + body, "signature") == " " + body by {
      assert (" " + body)[0] != "signature"[0];
    }
    assert (" " + body)[1..] == body;
    assert TrimLeft(body) == body;
    assert TrimLeft(" " + body) == body;
  }

  lemma UnquoteQuoted(text: string)
    requires Clean(text)
    ensures FieldText(Quoted(text)) == Some(text)
  {
    assert Quoted(text)[1..|text| + 1] == text;
  }

  /** What a field's text is: the inside of quotes that hold none, and no escape or line feed, or the text itself when
      it does not start with a quote. */
  lemma FieldTextExactly(s: string, text: string)
    ensures FieldText(s) == Some(text) <==>
      if s != "" && s[0] == '"' then s == Quoted(text) && Clean(text) else s == text
  {
    if s == Quoted(text) && Clean(text) {
      UnquoteQuoted(text);
    }
    if |s| >= 2 && s[0] == '"' && s[|s| - 1] == '"' {
      assert s == Quoted(s[1..|s| - 1]);
    }
  }

  lemma FieldNames()
    ensures ToLower("keyId") == "keyid" && ToLower("algorithm") == "algorithm"
    ensures ToLower("headers") == "headers" && ToLower("signature") == "signature"
    ensures "keyid" != "algorithm" && "keyid" != "headers" && "keyid" != "signature"
    ensures "algorithm" != "headers" && "algorithm" != "signature" && "headers" != "signature"
    ensures "keyid" in FIELDS && "algorithm" in FIELDS && "headers" in FIELDS && "signature" in FIELDS
  {
    assert "keyid"[0] == 'k' && "algorithm"[0] == 'a' && "headers"[0] == 'h' && "signature"[0] == 's';
    assert FIELDS[0] == "keyid" && FIELDS[1] == "algorithm" && FIELDS[2] == "headers" && FIELDS[3] == "signature";
  }

  /** A field that occurs under one key only. */
  lemma HoldsExactly(m: map<string, string>, name: string, key: string, text: string, x: string)
    requires key in m && ToLower(key) == name && m[key] == Quoted(text) && Clean(text)
    requires forall k :: k in m && k != key ==> ToLower(k) != name
    ensures Holds(m, name, x) <==> x == text
  {
    UnquoteQuoted(text);
  }

  lemma HoldsHeadersExactly(m: map<string, string>, headers: seq<string>, hs: seq<string>)
    requires headers != [] && (forall i :: 0 <= i < |headers| ==> ' ' !in headers[i]) && Clean(Join(headers, ' '))
    requires "headers" in m && m["headers"] == Quoted(Join(headers, ' ')) && ToLower("headers") == "headers"
    requires forall k :: k in m && k != "headers" ==> ToLower(k) != "headers"
    ensures HoldsHeaders(m, hs) <==> hs == headers
  {
    UnquoteQuoted(Join(headers, ' '));
    SplitJoin(headers, ' ');
  }

  lemma PrintedKeys(keyID: string, algorithm: string, headers: string, signature: string)
    ensures var m := PrintedMap(keyID, algorithm, headers, signature);
      && m.Keys == {"keyId", "algorithm", "headers", "signature"}
      && m["keyId"] == Quoted(keyID) && m["algorithm"] == Quoted(algorithm)
      && m["headers"] == Quoted(headers) && m["signature"] == Quoted(signature)
  {
  }

  /** The only field values that the printed pairs can be read as. */
  lemma PrintedParses(keyID: string, algorithm: string, headers: seq<string>, signature: string, v: FieldValues)
    requires headers != [] && (forall i :: 0 <= i < |headers| ==> ' ' !in headers[i])
    requires Clean(keyID) && Clean(algorithm) && Clean(Join(headers, ' ')) && Clean(signature)
    ensures Parses(PrintedMap(keyID, algorithm, Join(headers, ' '), signature), v)
       <==> v == FieldValues(keyID, algorithm, headers, signature)
  {
    var m := PrintedMap(keyID, algorithm, Join(headers, ' '), signature);
    PrintedKeys(keyID, algorithm, Join(headers, ' '), signature);
    LowerKeys(m);
    HoldsExactly(m, "keyid", "keyId", keyID, v.keyID);
    HoldsExactly(m, "algorithm", "algorithm", algorithm, v.algorithm);
    HoldsExactly(m, "signature", "signature", signature, v.signature);
    HoldsHeadersExactly(m, headers, v.headers);
    PrintedFieldsGood(keyID, algorithm, Join(headers, ' '), signature);
  }

  lemma LowerKeys(m: map<string, string>)
    requires m.Keys == {"keyId", "algorithm", "headers", "signature"}
    ensures "keyId" in m && "algorithm" in m && "headers" in m && "signature" in m
    ensures ToLower("keyId") == "keyid" && ToLower("algorithm") == "algorithm"
    ensures ToLower("headers") == "headers" && ToLower("signature") == "signature"
    ensures forall k :: k in m && k != "keyId" ==> ToLower(k) != "keyid"
    ensures forall k :: k in m && k != "algorithm" ==> ToLower(k) != "algorithm"
    ensures forall k :: k in m && k != "headers" ==> ToLower(k) != "headers"
    ensures forall k :: k in m && k != "signature" ==> ToLower(k) != "signature"
    ensures forall k :: k in m ==> ToLower(k) in FIELDS
  {
    FieldNames();
    forall k | k in m
      ensures k == "keyId" || k == "algorithm" || k == "headers" || k == "signature"
    {
      assert k in m.Keys;
    }
  }

  lemma PrintedFieldsGood(keyID: string, algorithm: string, headers: string, signature: string)
    requires Clean(keyID) && Clean(algorithm) && Clean(headers) && Clean(signature)
    ensures var m := PrintedMap(keyID, algorithm, headers, signature); forall k :: k in m ==> GoodField(k, m[k])
  {
    var m := PrintedMap(keyID, algorithm, headers, signature);
    PrintedKeys(keyID, algorithm, headers, signature);
    LowerKeys(m);
    UnquoteQuoted(keyID);
    UnquoteQuoted(algorithm);
    UnquoteQuoted(headers);
    UnquoteQuoted(signature);
    forall k | k in m
      ensures FieldText(m[k]).Some?
    {
      assert k in m.Keys;
    }
  }

  // ---------------------------------------------------------------------------------------------
  // The round trip
  // ---------------------------------------------------------------------------------------------

  lemma {:induction false} EscapedIsClean(b: Base64.Bytes)
    ensures Clean(QueryEscape(b))
  {
    if b != [] {
      EscapedIsClean(b[1..]);
      assert Clean(EscapeByte(b[0]));
    }
  }

  lemma {:induction false} JoinIsClean(names: seq<string>)
    requires names != [] && forall i :: 0 <= i < |names| ==> Clean(names[i])
    ensures Clean(Join(names, ' '))
  {
    if |names| > 1 {
      JoinIsClean(names[1..]);
    }
  }

  lemma {:induction false} NothingToTrim(s: string)
    requires s == "" || (!IsSpace(s[0]) && !IsSpace(s[|s| - 1]))
    ensures TrimSpace(s) == s
  {
  }

  lemma TokenNameListed(k: string)
    requires TokenName(k)
    ensures ListedName(k) == k
  {
    assert ToLower(k) == k;
    NothingToTrim(k);
  }

  lemma NamesAreTokens(r: Request, headers: seq<string>)
    requires IsHeaderList(r, headers) && forall k :: k in r.header ==> TokenName(k)
    ensures forall i :: 0 <= i < |headers| ==> TokenName(headers[i])
  {
    FixedNames();
    forall i | 0 <= i < |headers| ensures TokenName(headers[i]) {
      var h := headers[i];
      assert h in headers;
      if h != "(request-target)" && h != "date" {
        var k :| k in r.header && h == ListedName(k);
        TokenNameListed(k);
      }
    }
  }

  /** The request target, the date and every header name can be listed, and none is the authorization header. */
  lemma ListedNamesFit(r: Request, headers: seq<string>)
    requires IsHeaderList(r, headers) && "authorization" !in r.header
    requires forall k :: k in r.header ==> TokenName(k)
    ensures forall i :: 0 <= i < |headers| ==> TrimSpace(ToLower(headers[i])) != "authorization"
  {
    FixedNames();
    NamesAreTokens(r, headers);
    forall i | 0 <= i < |headers|
      ensures TrimSpace(ToLower(headers[i])) != "authorization"
    {
      var h := headers[i];
      assert h in headers;
      if h != "(request-target)" && h != "date" {
        var k :| k in r.header && h == ListedName(k);
        TokenNameListed(k);
      }
      TokenNameListed(h);
    }
  }

  lemma FixedNames()
    ensures TokenName("(request-target)") && TokenName("date")
    ensures "(request-target)" != "authorization" && "date" != "authorization"
  {
    assert "(request-target)"[0] != "authorization"[0];
  }

  lemma HeaderStripped(keyID: string, algorithm: string, headers: seq<string>, signature: string)
    requires headers != []
    ensures StripSignature(AuthHeader(keyID, algorithm, headers, signature))
         == FieldList(keyID, algorithm, Join(headers, ' '), signature)
  {
    BodyEnds(keyID, algorithm, Join(headers, ' '), signature);
    SchemeStripped(FieldList(keyID, algorithm, Join(headers, ' '), signature));
  }

  lemma HeaderTextReadable(keyID: string, algorithm: string, headers: seq<string>, signature: string)
    requires headers != [] && (forall i :: 0 <= i < |headers| ==> TokenName(headers[i]))
    requires Clean(keyID) && Clean(algorithm) && Clean(signature)
    ensures LoadFrom(StripSignature(AuthHeader(keyID, algorithm, headers, signature)), false, "", map[])
         == Some(PrintedMap(keyID, algorithm, Join(headers, ' '), signature))
    ensures Clean(Join(headers, ' '))
  {
    JoinIsClean(headers);
    HeaderStripped(keyID, algorithm, headers, signature);
    FieldListRead(keyID, algorithm, Join(headers, ' '), signature);
  }

  lemma NoSpaces(k: string)
    requires TokenName(k)
    ensures ' ' !in k
  {
  }

  lemma BodyEnds(keyID: string, algorithm: string, headers: string, signature: string)
    ensures var body := FieldList(keyID, algorithm, headers, signature);
      body != "" && body[0] == 'k' && body[|body| - 1] == '"'
  {
    var last := Field("signature", signature);
    assert last[|last| - 1] == '"';
  }

  /** The signature and the header that signing a request writes. */
  function Signature(r: Request, now: string, cfg: SigningConfig, headers: seq<string>, mac: Mac): string {
    EncodedSignature(mac(cfg.algorithm, cfg.secret, SignatureString(Dated(r, now), headers)))
  }

  /** The checker reads exactly the fields that the signer wrote. */
  lemma SignedReads(r: Request, now: string, cfg: SigningConfig, headers: seq<string>, mac: Mac, v: FieldValues)
    requires IsHeaderList(r, headers) && forall k :: k in r.header ==> TokenName(k)
    requires Clean(cfg.keyID) && Clean(cfg.algorithm)
    ensures ReadsAs(SignedRequest(r, now, cfg, headers, mac), v) <==>
      v == FieldValues(cfg.keyID, cfg.algorithm, headers, Signature(r, now, cfg, headers, mac))
  {
    var signature := Signature(r, now, cfg, headers, mac);
    EscapedIsClean(Base64.Encode(mac(cfg.algorithm, cfg.secret, SignatureString(Dated(r, now), headers))));
    NamesAreTokens(r, headers);
    HeaderTextReadable(cfg.keyID, cfg.algorithm, headers, signature);
    forall i | 0 <= i < |headers| ensures ' ' !in headers[i] { NoSpaces(headers[i]); }
    PrintedParses(cfg.keyID, cfg.algorithm, headers, signature, v);
    assert SignedRequest(r, now, cfg, headers, mac).Get("authorization")
        == AuthHeader(cfg.keyID, cfg.algorithm, headers, signature);
  }

  /** Everything the checker reads from a signed request is what the signer wrote and signed. */
  lemma SignedIsReadBack(r: Request, now: string, cfg: SigningConfig, headers: seq<string>, mac: Mac, v: FieldValues)
    requires IsHeaderList(r, headers) && "authorization" !in r.header
    requires forall k :: k in r.header ==> TokenName(k)
    requires Clean(cfg.keyID) && Clean(cfg.algorithm)
    ensures
      var d, r' := Dated(r, now), SignedRequest(r, now, cfg, headers, mac);
      && SignatureString(r', headers) == SignatureString(d, headers)
      && (ReadsAs(r', v) <==>
            v == FieldValues(cfg.keyID, cfg.algorithm, headers,
                             EncodedSignature(mac(cfg.algorithm, cfg.secret, SignatureString(d, headers)))))
  {
    SignedReads(r, now, cfg, headers, mac, v);
    ListedNamesFit(r, headers);
    AuthorizationUnsigned(Dated(r, now), SignedRequest(r, now, cfg, headers, mac), headers);
  }

  /** A signed request passes the check of a gateway that knows the key's secret and allows its algorithm. */
  lemma SignedIsAccepted(r: Request, now: string, cfg: SigningConfig, headers: seq<string>, mac: Mac,
                         secrets: map<string, string>, allowed: seq<string>)
    requires IsHeaderList(r, headers) && "authorization" !in r.header
    requires forall k :: k in r.header ==> TokenName(k)
    requires Complete(cfg) && Clean(cfg.keyID) && Clean(cfg.algorithm)
    requires cfg.keyID in secrets && secrets[cfg.keyID] == cfg.secret
    requires allowed == [] || cfg.algorithm in allowed
    ensures var r' := SignedRequest(r, now, cfg, headers, mac);
      (exists v :: ReadsAs(r', v)) && forall v :: ReadsAs(r', v) ==> Matches(r', v, secrets, allowed, mac)
  {
    var r' := SignedRequest(r, now, cfg, headers, mac);
    var w := FieldValues(cfg.keyID, cfg.algorithm, headers,
                         EncodedSignature(mac(cfg.algorithm, cfg.secret, SignatureString(Dated(r, now), headers))));
    SignedIsReadBack(r, now, cfg, headers, mac, w);
    assert ReadsAs(r', w);
    forall v | ReadsAs(r', v)
      ensures Matches(r', v, secrets, allowed, mac)
    {
      SignedIsReadBack(r, now, cfg, headers, mac, v);
    }
  }

  // ---------------------------------------------------------------------------------------------
  // A request that already carries an Authorization header
  // ---------------------------------------------------------------------------------------------

  /** Replacing the value of the authorization header changes the line that signs it, and no other. */
  lemma ReplacedLine(r: Request, r': Request, h: string)
    requires r'.verb == r.verb && r'.path == r.path
    requires forall name :: name != "authorization" ==> r'.Get(name) == r.Get(name)
    ensures TrimSpace(ToLower(h)) != "authorization" ==> Line(r', h) == Line(r, h)
    ensures TrimSpace(ToLower(h)) == "authorization" ==>
      var start := TrimSpace("authorization") + ": ";
      Line(r, h) == start + TrimSpace(r.Get("authorization"))
      && Line(r', h) == start + TrimSpace(r'.Get("authorization"))
  {
    FixedNames();
    var name := TrimSpace(ToLower(h));
    if name != "authorization" {
      assert r'.Get(name) == r.Get(name);
      assert r'.Get("x-aux-date") == r.Get("x-aux-date") && r'.Get("date") == r.Get("date");
    }
  }

  /** When the list signs the authorization header, the rebuilt string is the signed one only if its value stayed. */
  lemma SignedAuthorization(r: Request, r': Request, headers: seq<string>, a: nat)
    requires r'.verb == r.verb && r'.path == r.path
    requires forall name :: name != "authorization" ==> r'.Get(name) == r.Get(name)
    requires a < |headers| && TrimSpace(ToLower(headers[a])) == "authorization"
    requires SignatureString(r', headers) == SignatureString(r, headers)
    ensures TrimSpace(r'.Get("authorization")) == TrimSpace(r.Get("authorization"))
  {
    var x := seq(|headers|, i requires 0 <= i < |headers| => Line(r, headers[i]));
    var y := seq(|headers|, i requires 0 <= i < |headers| => Line(r', headers[i]));
    forall i | 0 <= i < |headers|
      ensures |y[i]| - |x[i]| == 0 ||
              |y[i]| - |x[i]| == |TrimSpace(r'.Get("authorization"))| - |TrimSpace(r.Get("authorization"))|
    {
      ReplacedLine(r, r', headers[i]);
    }
    ReplacedLine(r, r', headers[a]);
    JoinShorterEitherWay(x, y, a);
    JoinSameLengths(x, y, '\n');
    assert x[a] == y[a];
    var start := TrimSpace("authorization") + ": ";
    assert x[a][|start|..] == TrimSpace(r.Get("authorization"));
    assert y[a][|start|..] == TrimSpace(r'.Get("authorization"));
  }

  lemma JoinShorterEitherWay(x: seq<string>, y: seq<string>, a: nat)
    requires |x| == |y| && a < |x| && Join(x, '\n') == Join(y, '\n')
    requires forall i :: 0 <= i < |x| ==> |y[i]| == |x[i]| || |y[i]| - |x[i]| == |y[a]| - |x[a]|
    ensures forall i :: 0 <= i < |x| ==> |y[i]| == |x[i]|
  {
    if |x[a]| <= |y[a]| {
      JoinShorter(x, y, '\n');
    } else {
      JoinShorter(y, x, '\n');
    }
  }

  /** Whether the list signs the authorization header. */
  ghost predicate SignsAuthorization(headers: seq<string>) {
    exists i :: 0 <= i < |headers| && TrimSpace(ToLower(headers[i])) == "authorization"
  }

  lemma RebuiltIff(d: Request, r': Request, headers: seq<string>)
    requires r'.verb == d.verb && r'.path == d.path
    requires forall name :: name != "authorization" ==> r'.Get(name) == d.Get(name)
    ensures SignatureString(r', headers) == SignatureString(d, headers) <==>
      (SignsAuthorization(headers) ==> TrimSpace(d.Get("authorization")) == TrimSpace(r'.Get("authorization")))
  {
    if !SignsAuthorization(headers) {
      AuthorizationUnsigned(d, r', headers);
    } else {
      var a :| 0 <= a < |headers| && TrimSpace(ToLower(headers[a])) == "authorization";
      if SignatureString(r', headers) == SignatureString(d, headers) {
        SignedAuthorization(d, r', headers, a);
      }
      if TrimSpace(d.Get("authorization")) == TrimSpace(r'.Get("authorization")) {
        SameLines(d, r', headers);
      }
    }
  }

  lemma ListSignsAuthorization(r: Request, headers: seq<string>)
    requires IsHeaderList(r, headers) && forall k :: k in r.header ==> TokenName(k)
    ensures SignsAuthorization(headers) <==> "authorization" in r.header
  {
    if "authorization" in r.header {
      TokenNameListed("authorization");
      var a :| 0 <= a < |headers| && headers[a] == "authorization";
    } else {
      ListedNamesFit(r, headers);
    }
  }

  lemma AuthHeaderTrimmed(keyID: string, algorithm: string, headers: seq<string>, signature: string)
    requires headers != []
    ensures var h := AuthHeader(keyID, algorithm, headers, signature); TrimSpace(h) == h
  {
    var body := FieldList(keyID, algorithm, Join(headers, ' '), signature);
    BodyEnds(keyID, algorithm, Join(headers, ' '), signature);
    var h := "Signature " + body;
    assert h[0] == 'S' && h[|h| - 1] == body[|body| - 1];
  }

  /** The exact condition for the checker to rebuild the string that was signed: an earlier Authorization header must be
      the very header that signing the request, with that header in it, is going to write. */
  lemma RebuildsExactly(r: Request, now: string, cfg: SigningConfig, headers: seq<string>, mac: Mac)
    requires IsHeaderList(r, headers) && forall k :: k in r.header ==> TokenName(k)
    ensures
      SignatureString(SignedRequest(r, now, cfg, headers, mac), headers) == SignatureString(Dated(r, now), headers) <==>
        ("authorization" in r.header ==>
           TrimSpace(r.header["authorization"]) ==
           AuthHeader(cfg.keyID, cfg.algorithm, headers,
                      EncodedSignature(mac(cfg.algorithm, cfg.secret, SignatureString(Dated(r, now), headers)))))
  {
    ListSignsAuthorization(r, headers);
    RebuiltIff(Dated(r, now), SignedRequest(r, now, cfg, headers, mac), headers);
    FixedNames();
    AuthHeaderTrimmed(cfg.keyID, cfg.algorithm, headers, Signature(r, now, cfg, headers, mac));
  }

  /** How every header written with these settings begins. */
  function Opening(cfg: SigningConfig): string {
    "Signature " +
    (Field("keyId", cfg.keyID) + ("," + (Field("algorithm", cfg.algorithm) + ("," + "headers=\"(request-target)"))))
  }

  lemma JoinStarts(parts: seq<string>)
    requires parts != []
    ensures parts[0] <= Join(parts, ' ')
  {
  }

  lemma StartsUnder(a: string, b: string, c: string)
    requires b <= c
    ensures a + b <= a + c
  {
  }

  lemma HeadersFieldStarts(text: string, rest: string)
    requires "(request-target)" <= text
    ensures "headers=\"(request-target)" <= Field("headers", text) + rest
  {
    var start := "headers" + "=\"";
    assert Field("headers", text) + rest == start + (text + ("\"" + rest));
    assert "(request-target)" <= text + ("\"" + rest);
    StartsUnder(start, "(request-target)", text + ("\"" + rest));
    assert start + "(request-target)" == "headers=\"(request-target)";
  }

  lemma OpeningWritten(cfg: SigningConfig, headers: seq<string>, signature: string)
    requires headers != [] && headers[0] == "(request-target)"
    ensures Opening(cfg) <= AuthHeader(cfg.keyID, cfg.algorithm, headers, signature)
  {
    JoinStarts(headers);
    var id, alg := Field("keyId", cfg.keyID), Field("algorithm", cfg.algorithm);
    var a := "headers=\"(request-target)";
    var b := Field("headers", Join(headers, ' ')) + ("," + Field("signature", signature));
    HeadersFieldStarts(Join(headers, ' '), "," + Field("signature", signature));
    StartsUnder(",", a, b);
    StartsUnder(alg, "," + a, "," + b);
    StartsUnder(",", alg + ("," + a), alg + ("," + b));
    StartsUnder(id, "," + (alg + ("," + a)), "," + (alg + ("," + b)));
    StartsUnder("Signature ", id + ("," + (alg + ("," + a))), id + ("," + (alg + ("," + b))));
  }

  /** An earlier header that does not begin like the one to be written is signed and then lost. */
  lemma OtherHeaderNotRebuilt(r: Request, now: string, cfg: SigningConfig, headers: seq<string>, mac: Mac)
    requires IsHeaderList(r, headers) && forall k :: k in r.header ==> TokenName(k)
    requires "authorization" in r.header && !(Opening(cfg) <= TrimSpace(r.header["authorization"]))
    ensures
      SignatureString(SignedRequest(r, now, cfg, headers, mac), headers) != SignatureString(Dated(r, now), headers)
  {
    RebuildsExactly(r, now, cfg, headers, mac);
    OpeningWritten(cfg, headers, Signature(r, now, cfg, headers, mac));
  }

  lemma {:induction false} TrimRightStarts(s: string)
    requires s != "" && !IsSpace(s[0])
    ensures TrimRight(s) != "" && TrimRight(s)[0] == s[0]
  {
    if IsSpace(s[|s| - 1]) {
      TrimRightStarts(s[..|s| - 1]);
    }
  }

  /** Every request with a bearer token is such a request: once signed, the string it was signed over is gone. */
  lemma BearerNotRebuilt(r: Request, now: string, cfg: SigningConfig, headers: seq<string>, mac: Mac, token: string)
    requires IsHeaderList(r, headers) && forall k :: k in r.header ==> TokenName(k)
    requires "authorization" in r.header && r.header["authorization"] == "Bearer " + token
    ensures
      SignatureString(SignedRequest(r, now, cfg, headers, mac), headers) != SignatureString(Dated(r, now), headers)
  {
    var s := "Bearer " + token;
    assert s[0] == 'B';
    TrimRightStarts(s);
    assert Opening(cfg)[0] == 'S';
    OtherHeaderNotRebuilt(r, now, cfg, headers, mac);
  }

  /** Whatever header there was: the signed request is accepted if and only if the rebuilt string has the same signature
      as the signed one. */
  lemma AcceptedExactly(r: Request, now: string, cfg: SigningConfig, headers: seq<string>, mac: Mac,
                        secrets: map<string, string>, allowed: seq<string>)
    requires IsHeaderList(r, headers) && forall k :: k in r.header ==> TokenName(k)
    requires Complete(cfg) && Clean(cfg.keyID) && Clean(cfg.algorithm)
    requires cfg.keyID in secrets && secrets[cfg.keyID] == cfg.secret
    requires allowed == [] || cfg.algorithm in allowed
    ensures
      var r' := SignedRequest(r, now, cfg, headers, mac);
      (exists v :: ReadsAs(r', v) && Matches(r', v, secrets, allowed, mac)) <==>
        EncodedSignature(mac(cfg.algorithm, cfg.secret, SignatureString(r', headers)))
        == EncodedSignature(mac(cfg.algorithm, cfg.secret, SignatureString(Dated(r, now), headers)))
  {
    var r' := SignedRequest(r, now, cfg, headers, mac);
    var w := FieldValues(cfg.keyID, cfg.algorithm, headers, Signature(r, now, cfg, headers, mac));
    forall v ensures ReadsAs(r', v) <==> v == w {
      SignedReads(r, now, cfg, headers, mac, v);
    }
    assert ReadsAs(r', w);
  }

  lemma SameLines(r: Request, r': Request, headers: seq<string>)
    requires r'.verb == r.verb && r'.path == r.path
    requires forall name :: name != "authorization" ==> r'.Get(name) == r.Get(name)
    requires TrimSpace(r.Get("authorization")) == TrimSpace(r'.Get("authorization"))
    ensures SignatureString(r', headers) == SignatureString(r, headers)
  {
    forall i | 0 <= i < |headers|
      ensures Line(r', headers[i]) == Line(r, headers[i])
    {
      ReplacedLine(r, r', headers[i]);
    }
    if headers != [] {
      assert seq(|headers|, i requires 0 <= i < |headers| => Line(r', headers[i]))
          == seq(|headers|, i requires 0 <= i < |headers| => Line(r, headers[i]));
    }
  }
}
