/** What a signature binds: the texts of the signed lines, which changes of a request change the signed string, and when
    a changed request is still accepted. */
module SignatureBinding {
  import opened Wrappers
  import opened Sequences
  import opened HttpSignature
  import opened RequestSigning
  import opened SignThenVerify
  import Base64

  // ---------------------------------------------------------------------------------------------
  // Trimming
  // ---------------------------------------------------------------------------------------------

  lemma {:induction false} LeftTrimmed(s: string) returns (n: nat)
    ensures n <= |s| && TrimLeft(s) == s[n..] && forall i :: 0 <= i < n ==> IsSpace(s[i])
    ensures TrimLeft(s) != "" ==> !IsSpace(TrimLeft(s)[0])
  {
    n := 0;
    if s != "" && IsSpace(s[0]) {
      var m := LeftTrimmed(s[1..]);
      n := m + 1;
      assert s[1..][m..] == s[n..];
      forall i | 0 <= i < n ensures IsSpace(s[i]) {
        if i > 0 {
          assert s[i] == s[1..][i - 1];
        }
      }
    }
  }

  lemma {:induction false} RightTrimmed(s: string) returns (n: nat)
    ensures n <= |s| && TrimRight(s) == s[..n] && forall i :: n <= i < |s| ==> IsSpace(s[i])
    ensures TrimRight(s) != "" ==> !IsSpace(TrimRight(s)[|TrimRight(s)| - 1])
  {
    n := |s|;
    if s != "" && IsSpace(s[|s| - 1]) {
      var front := s[..|s| - 1];
      n := RightTrimmed(front);
      assert front[..n] == s[..n];
      forall i | n <= i < |s| ensures IsSpace(s[i]) {
        if i < |s| - 1 {
          assert s[i] == front[i];
        }
      }
    }
  }

  /** Trimming takes off spaces at both ends, and all of them. */
  lemma Trimmed(s: string) returns (a: nat, b: nat)
    ensures a <= b <= |s| && TrimSpace(s) == s[a..b]
    ensures forall i :: 0 <= i < a || b <= i < |s| ==> IsSpace(s[i])
    ensures a < b ==> !IsSpace(s[a]) && !IsSpace(s[b - 1])
  {
    a := LeftTrimmed(s);
    var rest := s[a..];
    var n := RightTrimmed(rest);
    b := a + n;
    assert rest[..n] == s[a..b];
    forall i | b <= i < |s| ensures IsSpace(s[i]) {
      assert s[i] == rest[i - a];
    }
  }

  lemma TrimTwice(s: string)
    ensures TrimSpace(TrimSpace(s)) == TrimSpace(s)
  {
    var a, b := Trimmed(s);
    NothingToTrim(TrimSpace(s));
  }

  lemma TrimmedHolds(s: string, c: char)
    requires c !in s
    ensures c !in TrimSpace(s)
  {
    var a, b := Trimmed(s);
  }

  /** Capital letters become small ones, and nothing else changes. */
  lemma LowerExactly(c: char)
    ensures if 'A' as int <= c as int <= 'Z' as int then LowerChar(c) as int - 'a' as int == c as int - 'A' as int
            else LowerChar(c) == c
  {
  }

  lemma PrefixTrimmed(prefix: string, s: string, rest: string)
    ensures TrimPrefix(prefix + rest, prefix) == rest
    ensures !(prefix <= s) ==> TrimPrefix(s, prefix) == s
  {
    assert (prefix + rest)[|prefix|..] == rest;
  }

  // ---------------------------------------------------------------------------------------------
  // The texts of the lines
  // ---------------------------------------------------------------------------------------------

  /** The line of a listed name: the target is the method in small letters and the path, the date is taken from the
      auxiliary header or else from the date header, and any other header is named with its trimmed value. */
  lemma LineText(r: Request, h: string)
    ensures var name := TrimSpace(ToLower(h));
      && (name == "(request-target)" ==> Line(r, h) == "(request-target): " + ToLower(r.verb) + " " + r.path)
      && (name == "date" && r.Get("x-aux-date") != "" ==> Line(r, h) == "x-aux-date: " + TrimSpace(r.Get("x-aux-date")))
      && (name == "date" && r.Get("x-aux-date") == "" && r.Get("date") != "" ==>
            Line(r, h) == "date: " + TrimSpace(r.Get("date")))
      && (name == "date" && r.Get("x-aux-date") == "" && r.Get("date") == "" ==> Line(r, h) == ": ")
      && (name != "(request-target)" && name != "date" ==> Line(r, h) == name + ": " + TrimSpace(r.Get(name)))
  {
    FixedNames();
    TrimTwice(ToLower(h));
    NothingToTrim("x-aux-date");
    NothingToTrim("date");
    NothingToTrim("");
    assert "date" != "(request-target)" by { assert "date"[0] != "(request-target)"[0]; }
    assert "x-aux-date" + ": " == "x-aux-date: " && "date" + ": " == "date: " && "" + ": " + "" == ": ";
  }

  /** The date that is signed is the same, under the same name. */
  predicate SameDate(r: Request, t: Request) {
    if r.Get("x-aux-date") != "" then
      t.Get("x-aux-date") != "" && TrimSpace(r.Get("x-aux-date")) == TrimSpace(t.Get("x-aux-date"))
    else if r.Get("date") != "" then
      t.Get("x-aux-date") == "" && t.Get("date") != "" && TrimSpace(r.Get("date")) == TrimSpace(t.Get("date"))
    else t.Get("x-aux-date") == "" && t.Get("date") == ""
  }

  /** Two requests agree on what a listed name stands for. */
  predicate SameAt(r: Request, t: Request, name: string) {
    if name == "(request-target)" then ToLower(r.verb) == ToLower(t.verb) && r.path == t.path
    else if name == "date" then SameDate(r, t)
    else TrimSpace(r.Get(name)) == TrimSpace(t.Get(name))
  }

  lemma CancelFront(a: string, b: string, c: string)
    ensures a + b == a + c <==> b == c
  {
    assert (a + b)[|a|..] == b && (a + c)[|a|..] == c;
  }

  lemma TargetSplit(v: string, p: string, w: string, q: string)
    requires ' ' !in v && ' ' !in w
    ensures v + " " + p == w + " " + q <==> v == w && p == q
  {
    var s, t := v + " " + p, w + " " + q;
    assert s[|v|] == ' ' && t[|w|] == ' ' && s[..|v|] == v && t[..|w|] == w;
    assert s[|v| + 1..] == p && t[|w| + 1..] == q;
    assert forall i :: 0 <= i < |v| ==> s[i] != ' ';
    assert forall i :: 0 <= i < |w| ==> t[i] != ' ';
  }

  lemma LowerHasNo(s: string, c: char)
    requires c !in s && !('A' <= c <= 'Z') && !('a' <= c <= 'z')
    ensures c !in ToLower(s)
  {
  }

  lemma SameTarget(r: Request, t: Request)
    requires ' ' !in r.verb && ' ' !in t.verb
    ensures "(request-target): " + ToLower(r.verb) + " " + r.path
         == "(request-target): " + ToLower(t.verb) + " " + t.path
       <==> ToLower(r.verb) == ToLower(t.verb) && r.path == t.path
  {
    var start, v, w := "(request-target): ", ToLower(r.verb), ToLower(t.verb);
    LowerHasNo(r.verb, ' ');
    LowerHasNo(t.verb, ' ');
    TargetSplit(v, r.path, w, t.path);
    assert start + v + " " + r.path == start + (v + " " + r.path);
    assert start + w + " " + t.path == start + (w + " " + t.path);
    CancelFront(start, v + " " + r.path, w + " " + t.path);
  }

  lemma SameDateLine(r: Request, t: Request)
    ensures Line(r, "date") == Line(t, "date") <==> SameDate(r, t)
  {
    FixedNames();
    TokenNameListed("date");
    LineText(r, "date");
    LineText(t, "date");
    CancelFront("x-aux-date: ", TrimSpace(r.Get("x-aux-date")), TrimSpace(t.Get("x-aux-date")));
    CancelFront("date: ", TrimSpace(r.Get("date")), TrimSpace(t.Get("date")));
    assert Line(r, "date")[0] == (if r.Get("x-aux-date") != "" then 'x' else if r.Get("date") != "" then 'd' else ':');
    assert Line(t, "date")[0] == (if t.Get("x-aux-date") != "" then 'x' else if t.Get("date") != "" then 'd' else ':');
  }

  lemma LineOfName(r: Request, h: string, k: string)
    requires TrimSpace(ToLower(h)) == TrimSpace(ToLower(k))
    ensures Line(r, h) == Line(r, k)
  {
  }

  /** Two requests have the same line if and only if they agree on the name. */
  lemma SameLine(r: Request, t: Request, h: string)
    requires ' ' !in r.verb && ' ' !in t.verb
    ensures Line(r, h) == Line(t, h) <==> SameAt(r, t, TrimSpace(ToLower(h)))
  {
    var name := TrimSpace(ToLower(h));
    LineText(r, h);
    LineText(t, h);
    FixedNames();
    if name == "(request-target)" {
      SameTarget(r, t);
    } else if name == "date" {
      TokenNameListed("date");
      LineOfName(r, h, "date");
      LineOfName(t, h, "date");
      SameDateLine(r, t);
    } else {
      CancelFront(name + ": ", TrimSpace(r.Get(name)), TrimSpace(t.Get(name)));
    }
  }

  // ---------------------------------------------------------------------------------------------
  // The whole string
  // ---------------------------------------------------------------------------------------------

  /** Requests as they come over the wire: no line feed anywhere, no space in the method. */
  predicate OneLine(r: Request) {
    && ' ' !in r.verb && '\n' !in r.verb && '\n' !in r.path
    && forall k :: k in r.header ==> '\n' !in r.header[k]
  }

  lemma LineHasNoFeed(r: Request, h: string)
    requires OneLine(r) && '\n' !in h
    ensures '\n' !in Line(r, h)
  {
    LineText(r, h);
    LowerHasNo(r.verb, '\n');
    LowerHasNo(h, '\n');
    TrimmedHolds(ToLower(h), '\n');
    var name := TrimSpace(ToLower(h));
    assert forall k :: '\n' !in r.Get(k);
    TrimmedHolds(r.Get("x-aux-date"), '\n');
    TrimmedHolds(r.Get("date"), '\n');
    TrimmedHolds(r.Get(name), '\n');
  }

  function LinesOf(r: Request, headers: seq<string>): seq<string> {
    seq(|headers|, i requires 0 <= i < |headers| => Line(r, headers[i]))
  }

  lemma CutBack(r: Request, headers: seq<string>)
    requires headers != [] && OneLine(r) && forall i :: 0 <= i < |headers| ==> '\n' !in headers[i]
    ensures Split(SignatureString(r, headers), '\n') == LinesOf(r, headers)
  {
    var lines := LinesOf(r, headers);
    forall i | 0 <= i < |lines| ensures '\n' !in lines[i] {
      LineHasNoFeed(r, headers[i]);
    }
    SplitJoin(lines, '\n');
    assert seq(|headers|, i requires 0 <= i < |headers| => Line(r, headers[i])) == lines;
  }

  /** The requests agree on every listed name. */
  predicate Agree(r: Request, t: Request, headers: seq<string>) {
    forall i :: 0 <= i < |headers| ==> SameAt(r, t, TrimSpace(ToLower(headers[i])))
  }

  lemma SameLinesExactly(r: Request, t: Request, headers: seq<string>)
    requires ' ' !in r.verb && ' ' !in t.verb
    ensures LinesOf(r, headers) == LinesOf(t, headers) <==> Agree(r, t, headers)
  {
    var x, y := LinesOf(r, headers), LinesOf(t, headers);
    forall i | 0 <= i < |headers|
      ensures x[i] == y[i] <==> SameAt(r, t, TrimSpace(ToLower(headers[i])))
    {
      SameLine(r, t, headers[i]);
    }
  }

  /** Two requests have the same signature string if and only if they agree on every listed name. */
  lemma SameStringExactly(r: Request, t: Request, headers: seq<string>)
    requires OneLine(r) && OneLine(t) && forall i :: 0 <= i < |headers| ==> '\n' !in headers[i]
    ensures SignatureString(r, headers) == SignatureString(t, headers) <==> Agree(r, t, headers)
  {
    SameLinesExactly(r, t, headers);
    if headers != [] {
      CutBack(r, headers);
      CutBack(t, headers);
      StringOfLines(r, headers);
      StringOfLines(t, headers);
    }
  }

  lemma StringOfLines(r: Request, headers: seq<string>)
    requires headers != []
    ensures SignatureString(r, headers) == Join(LinesOf(r, headers), '\n')
  {
    assert seq(|headers|, i requires 0 <= i < |headers| => Line(r, headers[i])) == LinesOf(r, headers);
  }

  // ---------------------------------------------------------------------------------------------
  // The printed signature determines the digest
  // ---------------------------------------------------------------------------------------------

  function HexValue(c: char): Option<nat> {
    if '0' <= c <= '9' then Some(c as int - '0' as int)
    else if 'A' <= c <= 'F' then Some(c as int - 'A' as int + 10)
    else None
  }

  /** Reading percent escapes and plus signs back. */
  function QueryUnescape(s: string): Option<Base64.Bytes> {
    if s == "" then Some([])
    else if s[0] == '%' then
      if |s| < 3 || HexValue(s[1]).None? || HexValue(s[2]).None? then None
      else
        var b, rest := HexValue(s[1]).value * 16 + HexValue(s[2]).value, QueryUnescape(s[3..]);
        if b >= 256 || rest.None? then None else Some([b] + rest.value)
    else
      var b, rest := if s[0] == '+' then 32 else s[0] as int, QueryUnescape(s[1..]);
      if b >= 256 || rest.None? then None else Some([b] + rest.value)
  }

  /** Letters, digits, hyphens, underscores, dots and tildes stay, a space becomes a plus sign, and everything else an
      escape of two hexadecimal digits. */
  lemma EscapedExactly(b: Base64.Byte)
    ensures var c := b as char;
      if || 'a' <= c <= 'z' || 'A' <= c <= 'Z' || '0' <= c <= '9' || c == '-' || c == '_' || c == '.' || c == '~'
      then EscapeByte(b) == [c]
      else if c == ' ' then EscapeByte(b) == "+"
      else |EscapeByte(b)| == 3 && EscapeByte(b)[0] == '%'
  {
  }

  lemma HexRead(d: nat)
    requires d < 16
    ensures HexValue(HexDigit(d)) == Some(d)
  {
  }

  lemma EscapeRead(b: Base64.Byte, rest: string)
    requires QueryUnescape(rest).Some?
    ensures QueryUnescape(['%', HexDigit(b / 16), HexDigit(b % 16)] + rest) == Some([b] + QueryUnescape(rest).value)
  {
    var s := ['%', HexDigit(b / 16), HexDigit(b % 16)] + rest;
    HexRead(b / 16);
    HexRead(b % 16);
    assert s[0] == '%' && s[1] == HexDigit(b / 16) && s[2] == HexDigit(b % 16) && s[3..] == rest;
  }

  lemma PlainRead(c: char, rest: string)
    requires c != '%' && c as int < 256 && QueryUnescape(rest).Some?
    ensures QueryUnescape([c] + rest) == Some([if c == '+' then 32 else c as int] + QueryUnescape(rest).value)
  {
    var s := [c] + rest;
    assert s[0] == c && s[1..] == rest;
  }

  lemma ByteRead(b: Base64.Byte, rest: string)
    requires QueryUnescape(rest).Some?
    ensures QueryUnescape(EscapeByte(b) + rest) == Some([b] + QueryUnescape(rest).value)
  {
    var e := EscapeByte(b);
    if |e| == 1 {
      PlainRead(e[0], rest);
    } else {
      EscapeRead(b, rest);
    }
  }

  lemma {:induction false} EscapeReadBack(s: Base64.Bytes)
    ensures QueryUnescape(QueryEscape(s)) == Some(s)
  {
    if s != [] {
      EscapeReadBack(s[1..]);
      ByteRead(s[0], QueryEscape(s[1..]));
      assert s == [s[0]] + s[1..];
    }
  }

  /** Two digests are printed alike only if they are equal. */
  lemma SameDigest(a: Base64.Bytes, b: Base64.Bytes)
    ensures EncodedSignature(a) == EncodedSignature(b) <==> a == b
  {
    EscapeReadBack(Base64.Encode(a));
    EscapeReadBack(Base64.Encode(b));
    if EncodedSignature(a) == EncodedSignature(b) {
      Base64.Injective(a, b);
    }
  }

  // ---------------------------------------------------------------------------------------------
  // Requests that were changed after they were signed
  // ---------------------------------------------------------------------------------------------

  /** Signing writes the Authorization header and a missing date, and nothing else. */
  lemma SigningKeeps(r: Request, now: string, cfg: SigningConfig, headers: seq<string>, mac: Mac, k: string)
    requires headers != []
    ensures var t := SignedRequest(r, now, cfg, headers, mac);
      && t.verb == r.verb && t.path == r.path
      && (k in t.header <==> k in r.header || k == "authorization" || (k == "date" && r.Get("date") == ""))
      && (k != "authorization" ==> t.Get(k) == if k == "date" && r.Get("date") == "" then now else r.Get(k))
  {
    assert "date" != "authorization" by { assert "date"[0] != "authorization"[0]; }
  }

  ghost predicate Accepted(t: Request, secrets: map<string, string>, allowed: seq<string>, mac: Mac) {
    exists v :: ReadsAs(t, v) && Matches(t, v, secrets, allowed, mac)
  }

  /** A request that carries the Authorization header of a signed one, whatever else was changed, is accepted if and
      only if the gateway knows the key, allows the algorithm, and the digest of the request's own string is the signed
      one. */
  lemma AcceptedOnlyIf(r: Request, now: string, cfg: SigningConfig, headers: seq<string>, mac: Mac, t: Request,
                       secrets: map<string, string>, allowed: seq<string>)
    requires IsHeaderList(r, headers) && forall k :: k in r.header ==> TokenName(k)
    requires Clean(cfg.keyID) && Clean(cfg.algorithm)
    requires t.Get("authorization") == SignedRequest(r, now, cfg, headers, mac).Get("authorization")
    ensures Accepted(t, secrets, allowed, mac) <==>
      && cfg.keyID in secrets && secrets[cfg.keyID] != ""
      && (allowed == [] || cfg.algorithm in allowed)
      && mac(cfg.algorithm, secrets[cfg.keyID], SignatureString(t, headers))
         == mac(cfg.algorithm, cfg.secret, SignatureString(Dated(r, now), headers))
  {
    var w := FieldValues(cfg.keyID, cfg.algorithm, headers, Signature(r, now, cfg, headers, mac));
    forall v ensures ReadsAs(t, v) <==> v == w {
      SignedReads(r, now, cfg, headers, mac, v);
    }
    assert ReadsAs(t, w);
    if cfg.keyID in secrets {
      SameDigest(mac(cfg.algorithm, secrets[cfg.keyID], SignatureString(t, headers)),
                 mac(cfg.algorithm, cfg.secret, SignatureString(Dated(r, now), headers)));
    }
  }

  /** Everything that was signed is as it was: the method, the path, the date and every header that was there. */
  predicate Unchanged(r: Request, d: Request, t: Request) {
    && ToLower(d.verb) == ToLower(t.verb) && d.path == t.path && SameDate(d, t)
    && forall k :: k in r.header && k != "date" ==> TrimSpace(d.Get(k)) == TrimSpace(t.Get(k))
  }

  lemma AgreeByName(d: Request, t: Request, headers: seq<string>)
    requires forall i :: 0 <= i < |headers| ==> TokenName(headers[i])
    ensures Agree(d, t, headers) <==> forall h :: h in headers ==> SameAt(d, t, h)
  {
    forall i | 0 <= i < |headers| ensures TrimSpace(ToLower(headers[i])) == headers[i] {
      TokenNameListed(headers[i]);
    }
  }

  lemma ListedNames(r: Request, headers: seq<string>, h: string)
    requires IsHeaderList(r, headers) && forall k :: k in r.header ==> TokenName(k)
    ensures h in headers <==> h == "(request-target)" || h == "date" || h in r.header
  {
    if h in headers && h != "(request-target)" && h != "date" {
      var k :| k in r.header && h == ListedName(k);
      TokenNameListed(k);
    }
    if h in r.header {
      TokenNameListed(h);
    }
    if h == "date" && r.Get("date") != "" {
      TokenNameListed(h);
    }
  }

  lemma AgreeIsUnchanged(r: Request, d: Request, t: Request, headers: seq<string>)
    requires "(request-target)" !in r.header
    requires forall h :: h in headers <==> h == "(request-target)" || h == "date" || h in r.header
    ensures (forall h :: h in headers ==> SameAt(d, t, h)) <==> Unchanged(r, d, t)
  {
    assert "date" != "(request-target)" by { assert "date"[0] != "(request-target)"[0]; }
    if forall h :: h in headers ==> SameAt(d, t, h) {
      assert SameAt(d, t, "(request-target)") && SameAt(d, t, "date");
      forall k | k in r.header && k != "date" ensures TrimSpace(d.Get(k)) == TrimSpace(t.Get(k)) {
        assert SameAt(d, t, k);
      }
    }
  }

  /** Over the signer's header list, a request has the signed string if and only if nothing signed was changed. */
  lemma UnchangedExactly(r: Request, now: string, headers: seq<string>, t: Request)
    requires IsHeaderList(r, headers) && (forall k :: k in r.header ==> TokenName(k)) && "(request-target)" !in r.header
    requires OneLine(r) && OneLine(t) && '\n' !in now
    ensures SignatureString(t, headers) == SignatureString(Dated(r, now), headers) <==> Unchanged(r, Dated(r, now), t)
  {
    var d := Dated(r, now);
    NamesAreTokens(r, headers);
    forall h ensures h in headers <==> h == "(request-target)" || h == "date" || h in r.header {
      ListedNames(r, headers, h);
    }
    SameStringExactly(d, t, headers);
    AgreeByName(d, t, headers);
    AgreeIsUnchanged(r, d, t, headers);
  }

  /** A signed request whose method, path, date or headers were changed is accepted only where two different strings
      have one digest. */
  lemma ChangeNeedsCollision(r: Request, now: string, cfg: SigningConfig, headers: seq<string>, mac: Mac, t: Request,
                             secrets: map<string, string>, allowed: seq<string>)
    requires IsHeaderList(r, headers) && (forall k :: k in r.header ==> TokenName(k)) && "(request-target)" !in r.header
    requires Clean(cfg.keyID) && Clean(cfg.algorithm)
    requires t.Get("authorization") == SignedRequest(r, now, cfg, headers, mac).Get("authorization")
    requires OneLine(r) && OneLine(t) && '\n' !in now && !Unchanged(r, Dated(r, now), t)
    requires Accepted(t, secrets, allowed, mac)
    ensures cfg.keyID in secrets
    ensures var x, y := SignatureString(t, headers), SignatureString(Dated(r, now), headers);
      x != y && mac(cfg.algorithm, secrets[cfg.keyID], x) == mac(cfg.algorithm, cfg.secret, y)
  {
    AcceptedOnlyIf(r, now, cfg, headers, mac, t, secrets, allowed);
    UnchangedExactly(r, now, headers, t);
  }
}
