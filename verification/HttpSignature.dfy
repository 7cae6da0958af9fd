/** Signing and verifying HTTP messages: the request signer prints an Authorization header that the
    signature checker parses, and both build the string to be signed from the request
    (section 2.3 of draft-cavage-http-signatures). */
module HttpSignature {
  import opened Wrappers
  import opened Sequences
  import opened Decimals

  // ---------------------------------------------------------------------------------------------
  // Characters and string helpers
  // ---------------------------------------------------------------------------------------------

  predicate IsSpace(c: char) {
    || '\t' <= c <= '\r' || c == ' ' || c == '\U{0085}' || c == '\U{00A0}' || c == '\U{1680}'
    || '\U{2000}' <= c <= '\U{200A}' || c == '\U{2028}' || c == '\U{2029}' || c == '\U{202F}' || c == '\U{205F}'
    || c == '\U{3000}'
  }

  function LowerChar(c: char): char {
    if 'A' <= c <= 'Z' then ((c as int) + 32) as char else c
  }

  function ToLower(s: string): (l: string)
    ensures |l| == |s|
  {
    seq(|s|, i requires 0 <= i < |s| => LowerChar(s[i]))
  }

  function TrimLeft(s: string): string {
    if s != "" && IsSpace(s[0]) then TrimLeft(s[1..]) else s
  }

  function TrimRight(s: string): string {
    if s != "" && IsSpace(s[|s| - 1]) then TrimRight(s[..|s| - 1]) else s
  }

  function TrimSpace(s: string): string { TrimRight(TrimLeft(s)) }

  function TrimPrefix(s: string, prefix: string): string {
    if prefix <= s then s[|prefix|..] else s
  }

  function StripSignature(token: string): string {
    TrimSpace(TrimPrefix(TrimPrefix(token, "Signature"), "signature"))
  }

  // ---------------------------------------------------------------------------------------------
  // The string to be signed
  // ---------------------------------------------------------------------------------------------

  /** Headers are keyed by their lower-case name; a missing header reads as the empty string. */
  datatype Request = Request(verb: string, path: string, header: map<string, string>) {
    function Get(name: string): string {
      if name in header then header[name] else ""
    }
  }

  /** The auxiliary date header wins over the date header. */
  function DateHeader(r: Request): (string, string) {
    if r.Get("x-aux-date") != "" then ("x-aux-date", r.Get("x-aux-date"))
    else if r.Get("date") != "" then ("date", r.Get("date"))
    else ("", "")
  }

  function Line(r: Request, header: string): string {
    var name := TrimSpace(ToLower(header));
    if name == "(request-target)" then "(request-target): " + ToLower(r.verb) + " " + r.path
    else
      var field := if name == "date" then DateHeader(r) else (name, r.Get(name));
      TrimSpace(field.0) + ": " + TrimSpace(field.1)
  }

  /** One line per header in the given order, line feeds between the lines. */
  function SignatureString(r: Request, headers: seq<string>): string {
    if headers == [] then ""
    else Join(seq(|headers|, i requires 0 <= i < |headers| => Line(r, headers[i])), '\n')
  }

  method BuildSignatureString(r: Request, headers: seq<string>) returns (s: string)
    ensures s == SignatureString(r, headers)
  {
    s := "";
    ghost var lines := seq(|headers|, i requires 0 <= i < |headers| => Line(r, headers[i]));
    for i := 0 to |headers|
      invariant headers != [] ==> s == Prefix(lines, i)
      invariant headers == [] ==> s == ""
    {
      s := s + Line(r, headers[i]);
      if i != |headers| - 1 {
        s := s + "\n";
      }
    }
    if headers != [] {
      PrefixIsJoin(lines, 0);
      assert lines[0..] == lines;
    }
  }

  /** What the loop has written before line i. */
  function Prefix(lines: seq<string>, i: nat): string
    requires i <= |lines|
  {
    if i == 0 then "" else Prefix(lines, i - 1) + lines[i - 1] + (if i != |lines| then "\n" else "")
  }

  lemma {:induction false} PrefixIsJoin(lines: seq<string>, i: nat)
    requires i < |lines|
    ensures Prefix(lines, |lines|) == Prefix(lines, i) + Join(lines[i..], '\n')
    decreases |lines| - i
  {
    if i + 1 < |lines| {
      PrefixIsJoin(lines, i + 1);
      assert lines[i..][1..] == lines[i + 1..];
      assert Prefix(lines, i + 1) == Prefix(lines, i) + lines[i] + "\n";
    } else {
      assert lines[i..] == [lines[i]];
    }
  }

  /** The signed string depends on the authorization header only when that header is signed. */
  lemma AuthorizationUnsigned(r: Request, r': Request, headers: seq<string>)
    requires r'.verb == r.verb && r'.path == r.path
    requires forall name :: name != "authorization" ==> r'.Get(name) == r.Get(name)
    requires forall i :: 0 <= i < |headers| ==> TrimSpace(ToLower(headers[i])) != "authorization"
    ensures SignatureString(r', headers) == SignatureString(r, headers)
  {
    forall i | 0 <= i < |headers|
      ensures Line(r', headers[i]) == Line(r, headers[i])
    {
      var name := TrimSpace(ToLower(headers[i]));
      assert r'.Get(name) == r.Get(name);
      assert r'.Get("x-aux-date") == r.Get("x-aux-date") && r'.Get("date") == r.Get("date");
    }
    if headers != [] {
      assert seq(|headers|, i requires 0 <= i < |headers| => Line(r', headers[i]))
          == seq(|headers|, i requires 0 <= i < |headers| => Line(r, headers[i]));
    }
  }

  // ---------------------------------------------------------------------------------------------
  // Parsing the header: the tokens of `text/scanner` that field lists are made of
  // ---------------------------------------------------------------------------------------------

  predicate IsLetter(c: char) { 'a' <= c <= 'z' || 'A' <= c <= 'Z' || c == '_' }

  predicate IsBlank(c: char) { c == ' ' || c == '\t' || c == '\n' || c == '\r' }

  function WordLength(s: string): (n: nat)
    ensures n <= |s|
    ensures s != "" && IsLetter(s[0]) ==> n > 0
  {
    if s != "" && (IsLetter(s[0]) || IsDigit(s[0])) then 1 + WordLength(s[1..]) else 0
  }

  /** The text before the closing quote: it must come before any line feed, backslash or the end. */
  function QuotedLength(s: string): (n: Option<nat>)
    ensures n.Some? ==> n.value < |s| && s[n.value] == '"'
  {
    if s == "" || s[0] == '\n' || s[0] == '\\' then None
    else if s[0] == '"' then Some(0)
    else
      var n := QuotedLength(s[1..]);
      if n.None? then None else Some(n.value + 1)
  }

  /** Unmodelled stands for the token kinds that a field list does not use: numbers, character and raw string
      literals, comments, escapes, unterminated strings and non-ASCII text outside strings. */
  datatype Scan = End | Token(text: string, rest: string) | Unmodelled

  function NextToken(s: string): (t: Scan)
    ensures t.Token? ==> |t.rest| < |s|
  {
    if s == "" then End
    else if IsBlank(s[0]) then NextToken(s[1..])
    else if IsLetter(s[0]) then Token(s[..WordLength(s)], s[WordLength(s)..])
    else if s[0] == '"' then
      var n := QuotedLength(s[1..]);
      if n.None? then Unmodelled else Token(s[..n.value + 2], s[n.value + 2..])
    else if IsDigit(s[0]) || s[0] in "'`./" || s[0] >= '\U{0080}' then Unmodelled
    else Token(s[..1], s[1..])
  }

  /** The key-value state machine, from a point in the text: `inValue` is its mode. */
  function LoadFrom(s: string, inValue: bool, key: string, m: map<string, string>): Option<map<string, string>>
    decreases |s|
  {
    match NextToken(s)
    case End => Some(m)
    case Unmodelled => None
    case Token(text, rest) =>
      if text == "=" then LoadFrom(rest, true, key, m)
      else if text == "," then LoadFrom(rest, false, key, m)
      else if inValue then LoadFrom(rest, false, key, m[key := text])
      else LoadFrom(rest, true, text, m)
  }

  method LoadKeyValues(v: string) returns (m: Option<map<string, string>>)
    ensures m == LoadFrom(v, false, "", map[])
  {
    var rest, mode, key, found := v, 0, "", map[];
    while true
      invariant mode == 0 || mode == 1
      invariant LoadFrom(rest, mode == 1, key, found) == LoadFrom(v, false, "", map[])
      decreases |rest|
    {
      var tok := NextToken(rest);
      if tok.End? {
        return Some(found);
      }
      if tok.Unmodelled? {
        return None;
      }
      rest := tok.rest;
      if tok.text == "=" {
        mode := 1;
      } else if tok.text == "," {
        mode := 0;
      } else if mode == 0 {
        key, mode := tok.text, 1;
      } else {
        found, mode := found[key := tok.text], 0;
      }
    }
  }

  datatype FieldValues = FieldValues(keyID: string, algorithm: string, headers: seq<string>, signature: string)

  /** The contents of a quoted string without escapes, or nothing when it is malformed. */
  function Unquote(s: string): Option<string> {
    if |s| < 2 || s[0] != '"' || s[|s| - 1] != '"' then None
    else if '"' in s[1..|s| - 1] || '\\' in s[1..|s| - 1] || '\n' in s[1..|s| - 1] then None
    else Some(s[1..|s| - 1])
  }

  function FieldText(s: string): Option<string> {
    if s != "" && s[0] == '"' then Unquote(s) else Some(s)
  }

  const FIELDS := ["keyid", "algorithm", "headers", "signature"]

  predicate GoodField(key: string, text: string) {
    ToLower(key) in FIELDS && FieldText(text).Some?
  }

  /** x is the text of a field with this name, or the default when there is none. */
  ghost predicate Holds(m: map<string, string>, name: string, x: string) {
    || (exists k :: k in m && ToLower(k) == name && FieldText(m[k]) == Some(x))
    || (x == "" && forall k :: k in m ==> ToLower(k) != name)
  }

  ghost predicate HoldsHeaders(m: map<string, string>, hs: seq<string>) {
    || (exists k ::
          k in m && ToLower(k) == "headers" && FieldText(m[k]).Some? && hs == Split(FieldText(m[k]).value, ' '))
    || (hs == ["date"] && forall k :: k in m ==> ToLower(k) != "headers")
  }

  /** v is what the loop over the parsed pairs may produce: the order of its iteration is not fixed. */
  ghost predicate Parses(m: map<string, string>, v: FieldValues) {
    && (forall k :: k in m ==> GoodField(k, m[k]))
    && Holds(m, "keyid", v.keyID) && Holds(m, "algorithm", v.algorithm) && Holds(m, "signature", v.signature)
    && HoldsHeaders(m, v.headers)
  }
}
