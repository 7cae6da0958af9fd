/** The group substitution of the URL rewriter.

    The rewriter finds the `$N` tokens of the target template and replaces them one after the other, each
    time in the whole string. The intended meaning is simultaneous: every token of the template stands for
    one captured group. */
module UrlRewrite {
  import opened Decimals

  // ---------------------------------------------------------------------------------------------
  // The string operations of the source
  // ---------------------------------------------------------------------------------------------

  /** Non-overlapping occurrences of `what`, leftmost first, each replaced by `with`. */
  function ReplaceAll(s: string, what: string, with: string): string
    requires what != ""
  {
    if |s| < |what| then s
    else if s[..|what|] == what then with + ReplaceAll(s[|what|..], what, with)
    else [s[0]] + ReplaceAll(s[1..], what, with)
  }

  function DigitRun(s: string): (n: nat)
    ensures n <= |s| && AllDigits(s[..n])
    ensures n < |s| ==> !IsDigit(s[n])
  {
    if s == "" || !IsDigit(s[0]) then 0
    else
      assert forall i :: 0 <= i < |s| ==> i == 0 || s[i] == s[1..][i - 1];
      1 + DigitRun(s[1..])
  }

  predicate IsToken(t: string) { |t| > 1 && t[0] == '$' && AllDigits(t[1..]) }

  /** The length of the token (a dollar sign and a maximal run of digits) at the start of s, or 0. */
  function TokenAt(s: string): (n: nat)
    ensures n <= |s|
    ensures n > 0 ==> IsToken(s[..n]) && (n < |s| ==> !IsDigit(s[n]))
    ensures n == 0 && |s| > 1 && s[0] == '$' ==> !IsDigit(s[1])
  {
    if |s| > 1 && s[0] == '$' && IsDigit(s[1]) then
      var n := DigitRun(s[1..]);
      assert s[..1 + n][1..] == s[1..][..n];
      1 + n
    else 0
  }

  /** A template read as literal characters and tokens, the way the token pattern matches it. */
  datatype Piece = Lit(c: char) | Tok(t: string)

  function Pieces(s: string): seq<Piece>
    decreases |s|
  {
    if s == "" then []
    else if TokenAt(s) > 0 then [Tok(s[..TokenAt(s)])] + Pieces(s[TokenAt(s)..])
    else [Lit(s[0])] + Pieces(s[1..])
  }

  /** The tokens, left to right, with repetitions. */
  function Tokens(ps: seq<Piece>): (ts: seq<string>)
    ensures forall i :: 0 <= i < |ps| && ps[i].Tok? ==> ps[i].t in ts
  {
    if ps == [] then [] else (if ps[0].Tok? then [ps[0].t] else []) + Tokens(ps[1..])
  }

  function Lookup(groups: map<string, string>, token: string): string {
    if token in groups then groups[token] else ""
  }

  /** The loop of the source. */
  function Sequential(s: string, tokens: seq<string>, groups: map<string, string>): string
    requires forall i :: 0 <= i < |tokens| ==> tokens[i] != ""
    decreases |tokens|
  {
    if tokens == [] then s
    else Sequential(ReplaceAll(s, tokens[0], Lookup(groups, tokens[0])), tokens[1..], groups)
  }

  // ---------------------------------------------------------------------------------------------
  // The intended meaning
  // ---------------------------------------------------------------------------------------------

  /** The group a token denotes: `$N` for a group number written without leading zeros, else nothing. */
  function Capture(groups: seq<string>, token: string): string {
    if IsToken(token) && ParseNat(token[1..]) < |groups| && Itoa(ParseNat(token[1..])) == token[1..]
    then groups[ParseNat(token[1..])] else ""
  }

  /** Every token replaced by its group, in one pass. */
  function Simultaneous(ps: seq<Piece>, groups: seq<string>): string {
    if ps == [] then ""
    else (if ps[0].Tok? then Capture(groups, ps[0].t) else [ps[0].c]) + Simultaneous(ps[1..], groups)
  }

  // ---------------------------------------------------------------------------------------------
  // When the two agree
  // ---------------------------------------------------------------------------------------------

  predicate ProperPrefix(a: string, b: string) { |a| < |b| && b[..|a|] == a }

  /** Right after the first piece stands a token that has been replaced: a group's text, free to start with digits. */
  predicate DoneNext(ps: seq<Piece>, done: set<string>) { |ps| > 1 && ps[1].Tok? && ps[1].t in done }

  /** In the round of token t, with the tokens of `done` replaced before, t occurs only where the template has it. It
      could also occur (a) in another token that starts with t, (b) in a shorter token of which t is a continuation, and
      (c) at a plain dollar sign, the last two if the text of a group follows directly. */
  predicate Sound(ps: seq<Piece>, done: set<string>, t: string) {
    ps != [] ==>
      && (if ps[0].Lit? then ps[0].c == '$' ==> !DoneNext(ps, done)
          else ps[0].t in done || ps[0].t == t ||
               (!ProperPrefix(t, ps[0].t) && (ProperPrefix(ps[0].t, t) ==> !DoneNext(ps, done))))
      && Sound(ps[1..], done, t)
  }

  function TokenSet(tokens: seq<string>): set<string> { set t | t in tokens }

  predicate SoundRounds(ps: seq<Piece>, tokens: seq<string>, n: nat)
    requires n <= |tokens|
  {
    forall p :: 0 <= p < n ==> Sound(ps, TokenSet(tokens[..p]), tokens[p])
  }

  /** Every round of the loop is sound. */
  predicate AllSound(ps: seq<Piece>) { SoundRounds(ps, Tokens(ps), |Tokens(ps)|) }

  predicate DollarFree(groups: seq<string>) {
    forall i :: 0 <= i < |groups| ==> '$' !in groups[i]
  }

  /** How the pieces of a template fit together: digit runs are maximal. */
  predicate WellRead(ps: seq<Piece>) {
    ps != [] ==>
      && (ps[0].Tok? ==> IsToken(ps[0].t))
      && (|ps| > 1 && ps[1].Lit? && (ps[0].Tok? || ps[0].c == '$') ==> !IsDigit(ps[1].c))
      && WellRead(ps[1..])
  }

  lemma PieceFirst(s: string)
    requires s != ""
    ensures
      var n := if TokenAt(s) > 0 then TokenAt(s) else 1;
      Pieces(s) == [if TokenAt(s) > 0 then Tok(s[..n]) else Lit(s[0])] + Pieces(s[n..])
  {
  }

  lemma {:induction false} PiecesWellRead(s: string)
    ensures WellRead(Pieces(s))
    decreases |s|
  {
    if s != "" {
      PieceFirst(s);
      var n := if TokenAt(s) > 0 then TokenAt(s) else 1;
      PiecesWellRead(s[n..]);
      var ps, rest := Pieces(s), Pieces(s[n..]);
      assert ps[1..] == rest;
      if s[n..] != "" {
        PieceFirst(s[n..]);
      }
    }
  }

  function Shown(p: Piece, done: set<string>, groups: map<string, string>): string {
    match p
    case Lit(c) => [c]
    case Tok(u) => if u in done then Lookup(groups, u) else u
  }

  /** The template with only the tokens of `done` replaced. */
  function Partly(ps: seq<Piece>, done: set<string>, groups: map<string, string>): string {
    if ps == [] then "" else Shown(ps[0], done, groups) + Partly(ps[1..], done, groups)
  }

  /** A character that starts no occurrence is copied. */
  lemma SkipDollar(s: string, t: string, v: string)
    requires t != "" && s != "" && !(t <= s)
    ensures ReplaceAll(s, t, v) == [s[0]] + ReplaceAll(s[1..], t, v)
  {
    if |s| < |t| {
      assert s == [s[0]] + s[1..];
    }
  }

  lemma SkipChar(c: char, s: string, t: string, v: string)
    requires t != "" && t[0] == '$' && c != '$'
    ensures ReplaceAll([c] + s, t, v) == [c] + ReplaceAll(s, t, v)
  {
    var all := [c] + s;
    assert all[0] == c && all[1..] == s;
    SkipDollar(all, t, v);
  }

  lemma Append3(c: char, a: string, b: string)
    ensures [c] + (a + b) == ([c] + a) + b
  {}

  /** Text without a dollar sign starts no occurrence. */
  lemma {:induction false} SkipPlain(a: string, b: string, t: string, v: string)
    requires t != "" && t[0] == '$' && '$' !in a
    ensures ReplaceAll(a + b, t, v) == a + ReplaceAll(b, t, v)
  {
    if a == "" {
      assert a + b == b;
    } else {
      var c, rest := a[0], a[1..];
      assert a == [c] + rest;
      SkipPlain(rest, b, t, v);
      Append3(c, rest, b);
      SkipChar(c, rest + b, t, v);
      Append3(c, rest, ReplaceAll(b, t, v));
    }
  }

  /** Another token that is still there does not start an occurrence of t. */
  lemma NoOccurrence(u: string, rest: string, t: string)
    requires IsToken(u) && IsToken(t) && u != t && !ProperPrefix(t, u)
    requires ProperPrefix(u, t) ==> rest == "" || !IsDigit(rest[0])
    ensures !(t <= u + rest)
  {
    if |t| <= |u| {
      assert exists i :: 0 <= i < |t| && t[i] != (u + rest)[i] by {
        assert t != u[..|t|];
      }
    } else if ProperPrefix(u, t) {
      assert IsDigit(t[1..][|u| - 1]);
      assert |t| <= |u + rest| ==> (u + rest)[|u|] == rest[0];
    } else {
      assert exists i :: 0 <= i < |u| && t[i] != (u + rest)[i] by {
        assert t[..|u|] != u;
      }
    }
  }

  lemma NoDigitNext(ps: seq<Piece>, done: set<string>, groups: map<string, string>)
    requires ps != [] && WellRead(ps) && (ps[0].Tok? || ps[0].c == '$') && !DoneNext(ps, done)
    ensures var rest := Partly(ps[1..], done, groups); rest == "" || !IsDigit(rest[0])
  {
    if |ps| > 1 {
      assert ps[1..][0] == ps[1];
    }
  }

  /** One round of the loop replaces exactly the tokens equal to t. */
  lemma {:induction false} ReplaceStep(ps: seq<Piece>, done: set<string>, t: string, groups: map<string, string>)
    requires IsToken(t) && WellRead(ps) && Sound(ps, done, t)
    requires forall k :: k in groups ==> '$' !in groups[k]
    ensures ReplaceAll(Partly(ps, done, groups), t, Lookup(groups, t)) == Partly(ps, done + {t}, groups)
  {
    if ps != [] {
      ReplaceStep(ps[1..], done, t, groups);
      var rest, v := Partly(ps[1..], done, groups), Lookup(groups, t);
      match ps[0] {
        case Lit(c) =>
          if c != '$' {
            SkipPlain([c], rest, t, v);
          } else {
            NoDigitNext(ps, done, groups);
            assert IsDigit(t[1..][0]);
            SkipDollar([c] + rest, t, v);
          }
        case Tok(u) =>
          if u in done {
            SkipPlain(Lookup(groups, u), rest, t, v);
          } else if u == t {
            assert (t + rest)[..|t|] == t && (t + rest)[|t|..] == rest;
          } else {
            if ProperPrefix(u, t) {
              NoDigitNext(ps, done, groups);
            }
            KeepToken(u, rest, t, v);
          }
      }
    }
  }

  lemma KeepToken(u: string, rest: string, t: string, v: string)
    requires IsToken(u) && IsToken(t) && u != t && !ProperPrefix(t, u)
    requires ProperPrefix(u, t) ==> rest == "" || !IsDigit(rest[0])
    ensures ReplaceAll(u + rest, t, v) == u + ReplaceAll(rest, t, v)
  {
    var tail := u[1..];
    NoOccurrence(u, rest, t);
    SkipDollar(u + rest, t, v);
    assert (u + rest)[1..] == tail + rest;
    assert '$' !in tail;
    SkipPlain(tail, rest, t, v);
    Append3(u[0], tail, ReplaceAll(rest, t, v));
    assert u == [u[0]] + tail;
  }

  function PieceText(p: Piece): string {
    match p
    case Lit(c) => [c]
    case Tok(t) => t
  }

  /** The text of pieces as they stand in the template. */
  function Text(ps: seq<Piece>): string {
    if ps == [] then "" else PieceText(ps[0]) + Text(ps[1..])
  }

  /** The first piece and how much of the template it takes. */
  lemma FirstPiece(s: string) returns (p: Piece, n: nat)
    requires s != ""
    ensures 0 < n <= |s| && Pieces(s) == [p] + Pieces(s[n..]) && PieceText(p) == s[..n]
  {
    PieceFirst(s);
    n := if TokenAt(s) > 0 then TokenAt(s) else 1;
    p := if TokenAt(s) > 0 then Tok(s[..n]) else Lit(s[0]);
  }

  lemma TextOfTwo(p: Piece, rest: seq<Piece>, all: seq<Piece>, s: string, n: nat)
    requires n <= |s| && all == [p] + rest && PieceText(p) == s[..n] && Text(rest) == s[n..]
    ensures Text(all) == s
  {
    assert all[1..] == rest;
    assert s == s[..n] + s[n..];
  }

  lemma {:induction false} TextOfPieces(s: string)
    ensures Text(Pieces(s)) == s
    decreases |s|
  {
    if s != "" {
      var p, n := FirstPiece(s);
      TextOfPieces(s[n..]);
      TextOfTwo(p, Pieces(s[n..]), Pieces(s), s, n);
    }
  }

  lemma {:induction false} PartlyNone(ps: seq<Piece>, groups: map<string, string>)
    ensures Partly(ps, {}, groups) == Text(ps)
  {
    if ps != [] {
      PartlyNone(ps[1..], groups);
    }
  }

  lemma SequentialStep(s: string, tokens: seq<string>, p: nat, groups: map<string, string>)
    requires p < |tokens| && forall i :: 0 <= i < |tokens| ==> tokens[i] != ""
    ensures Sequential(s, tokens[p..], groups)
         == Sequential(ReplaceAll(s, tokens[p], Lookup(groups, tokens[p])), tokens[p + 1..], groups)
  {
    assert tokens[p..][0] == tokens[p] && tokens[p..][1..] == tokens[p + 1..];
  }

  lemma Round(ps: seq<Piece>, tokens: seq<string>, p: nat, groups: map<string, string>)
    requires WellRead(ps) && p < |tokens| && IsToken(tokens[p]) && Sound(ps, TokenSet(tokens[..p]), tokens[p])
    requires forall k :: k in groups ==> '$' !in groups[k]
    ensures ReplaceAll(Partly(ps, TokenSet(tokens[..p]), groups), tokens[p], Lookup(groups, tokens[p]))
         == Partly(ps, TokenSet(tokens[..p + 1]), groups)
  {
    ReplaceStep(ps, TokenSet(tokens[..p]), tokens[p], groups);
    assert TokenSet(tokens[..p + 1]) == TokenSet(tokens[..p]) + {tokens[p]} by {
      assert tokens[..p + 1] == tokens[..p] + [tokens[p]];
    }
  }

  /** After p sound rounds exactly the first p tokens have been replaced. */
  lemma {:induction false} RoundsTo(ps: seq<Piece>, tokens: seq<string>, p: nat, groups: map<string, string>)
    requires WellRead(ps) && p <= |tokens| && SoundRounds(ps, tokens, p)
    requires forall k :: k in groups ==> '$' !in groups[k]
    requires forall i :: 0 <= i < |tokens| ==> IsToken(tokens[i])
    requires forall i :: 0 <= i < |tokens| ==> tokens[i] != ""
    ensures Sequential(Partly(ps, {}, groups), tokens, groups)
         == Sequential(Partly(ps, TokenSet(tokens[..p]), groups), tokens[p..], groups)
  {
    if p == 0 {
      assert tokens[0..] == tokens && TokenSet(tokens[..0]) == {};
    } else {
      RoundsTo(ps, tokens, p - 1, groups);
      Round(ps, tokens, p - 1, groups);
      SequentialStep(Partly(ps, TokenSet(tokens[..p - 1]), groups), tokens, p - 1, groups);
    }
  }

  // ---------------------------------------------------------------------------------------------
  // The map from tokens to groups
  // ---------------------------------------------------------------------------------------------

  /** The map after the first n groups. */
  function GroupMap(groups: seq<string>, n: nat): map<string, string>
    requires n <= |groups|
  {
    if n == 0 then map[] else GroupMap(groups, n - 1)["$" + Itoa(n - 1) := groups[n - 1]]
  }

  lemma NameOf(token: string, k: nat)
    requires IsToken(token)
    ensures token == "$" + Itoa(k) <==> ParseNat(token[1..]) == k && Itoa(k) == token[1..]
  {
    ParseItoa(k);
    assert ("$" + Itoa(k))[1..] == Itoa(k);
    assert token == "$" + token[1..];
  }

  lemma {:induction false} GroupMapKeys(groups: seq<string>, n: nat, token: string)
    requires n <= |groups| && IsToken(token)
    ensures
      var i := ParseNat(token[1..]);
      && (token in GroupMap(groups, n) <==> i < n && Itoa(i) == token[1..])
      && (token in GroupMap(groups, n) ==> GroupMap(groups, n)[token] == groups[i])
  {
    if n > 0 {
      GroupMapKeys(groups, n - 1, token);
      NameOf(token, n - 1);
    }
  }

  lemma {:induction false} GroupMapValues(groups: seq<string>, n: nat)
    requires n <= |groups| && DollarFree(groups)
    ensures forall k :: k in GroupMap(groups, n) ==> '$' !in GroupMap(groups, n)[k]
  {
    if n > 0 {
      GroupMapValues(groups, n - 1);
    }
  }

  lemma {:induction false} AllDone(ps: seq<Piece>, done: set<string>, groups: seq<string>)
    requires WellRead(ps) && forall i :: 0 <= i < |ps| && ps[i].Tok? ==> ps[i].t in done
    ensures Partly(ps, done, GroupMap(groups, |groups|)) == Simultaneous(ps, groups)
  {
    if ps != [] {
      AllDone(ps[1..], done, groups);
      if ps[0].Tok? {
        GroupMapKeys(groups, |groups|, ps[0].t);
      }
    }
  }

  lemma {:induction false} TokensWellFormed(ps: seq<Piece>)
    requires WellRead(ps)
    ensures forall i :: 0 <= i < |Tokens(ps)| ==> IsToken(Tokens(ps)[i])
  {
    if ps != [] {
      TokensWellFormed(ps[1..]);
    }
  }

  lemma TokensReadable(template: string)
    ensures WellRead(Pieces(template))
    ensures forall i :: 0 <= i < |Tokens(Pieces(template))| ==> IsToken(Tokens(Pieces(template))[i])
    ensures forall i :: 0 <= i < |Tokens(Pieces(template))| ==> Tokens(Pieces(template))[i] != ""
  {
    PiecesWellRead(template);
    TokensWellFormed(Pieces(template));
  }

  /** What the loop makes of a template and the groups of a match. */
  function Rewritten(template: string, groups: seq<string>): string {
    TokensReadable(template);
    Sequential(template, Tokens(Pieces(template)), GroupMap(groups, |groups|))
  }

  /** If every round is sound, one replacement after the other equals one simultaneous substitution. */
  lemma SequentialIsSimultaneous(template: string, groups: seq<string>)
    requires AllSound(Pieces(template)) && DollarFree(groups)
    ensures Rewritten(template, groups) == Simultaneous(Pieces(template), groups)
  {
    var ps, g := Pieces(template), GroupMap(groups, |groups|);
    var tokens := Tokens(ps);
    TokensReadable(template);
    GroupMapValues(groups, |groups|);
    PartlyNone(ps, g);
    TextOfPieces(template);
    RoundsTo(ps, tokens, |tokens|, g);
    assert tokens[..|tokens|] == tokens && tokens[|tokens|..] == [];
    AllDone(ps, TokenSet(tokens), groups);
  }

  method ReplaceTokens(template: string, tokens: seq<string>, groups: map<string, string>) returns (newpath: string)
    requires forall i :: 0 <= i < |tokens| ==> tokens[i] != ""
    ensures newpath == Sequential(template, tokens, groups)
  {
    newpath := template;
    assert tokens[0..] == tokens;
    for j := 0 to |tokens|
      invariant Sequential(newpath, tokens[j..], groups) == Sequential(template, tokens, groups)
    {
      SequentialStep(newpath, tokens, j, groups);
      newpath := ReplaceAll(newpath, tokens[j], if tokens[j] in groups then groups[tokens[j]] else "");
    }
  }

  /** The rewriting of a path, given the matches of its pattern. */
  method Rewrite(path: string, rewriteTo: string, matches: seq<seq<string>>) returns (newpath: string)
    ensures matches == [] ==> newpath == path
    ensures matches != [] ==> newpath == Rewritten(rewriteTo, matches[0])
    ensures matches != [] && AllSound(Pieces(rewriteTo)) && DollarFree(matches[0]) ==>
      newpath == Simultaneous(Pieces(rewriteTo), matches[0])
  {
    newpath := path;
    if |matches| > 0 {
      var tokens := Tokens(Pieces(rewriteTo));
      var groupReplace := map[];
      for i := 0 to |matches[0]|
        invariant groupReplace == GroupMap(matches[0], i)
      {
        groupReplace := groupReplace["$" + Itoa(i) := matches[0][i]];
      }
      TokensReadable(rewriteTo);
      newpath := ReplaceTokens(rewriteTo, tokens, groupReplace);
      if AllSound(Pieces(rewriteTo)) && DollarFree(matches[0]) {
        SequentialIsSimultaneous(rewriteTo, matches[0]);
      }
    }
  }

  // ---------------------------------------------------------------------------------------------
  // Templates that are sound at a glance
  // ---------------------------------------------------------------------------------------------

  /** No token is a proper prefix of a token that comes after it. */
  predicate LongerFirst(tokens: seq<string>) {
    forall i, j :: 0 <= i < j < |tokens| ==> !ProperPrefix(tokens[i], tokens[j])
  }

  predicate NoneExtends(u: string, tokens: seq<string>) {
    forall j :: 0 <= j < |tokens| ==> !ProperPrefix(u, tokens[j])
  }

  predicate TokenNext(ps: seq<Piece>) { |ps| > 1 && ps[1].Tok? }

  /** Directly before a token stands neither a dollar sign nor a token that another one extends. */
  predicate LooseTokens(ps: seq<Piece>, tokens: seq<string>) {
    ps != [] ==>
      && (TokenNext(ps) ==> if ps[0].Lit? then ps[0].c != '$' else NoneExtends(ps[0].t, tokens))
      && LooseTokens(ps[1..], tokens)
  }

  predicate Tame(ps: seq<Piece>) { LongerFirst(Tokens(ps)) && LooseTokens(ps, Tokens(ps)) }

  lemma {:induction false} TameRound(ps: seq<Piece>, tokens: seq<string>, p: nat)
    requires LongerFirst(tokens) && LooseTokens(ps, tokens) && p < |tokens|
    requires forall i :: 0 <= i < |ps| && ps[i].Tok? ==> ps[i].t in tokens
    ensures Sound(ps, TokenSet(tokens[..p]), tokens[p])
  {
    if ps != [] {
      TameRound(ps[1..], tokens, p);
      if ps[0].Tok? {
        var q :| 0 <= q < |tokens| && tokens[q] == ps[0].t;
        if q < p {
          assert tokens[..p][q] == ps[0].t;
        }
      }
    }
  }

  /** Tame templates are sound. */
  lemma TameIsSound(ps: seq<Piece>)
    requires Tame(ps)
    ensures AllSound(ps)
  {
    forall p | 0 <= p < |Tokens(ps)| ensures Sound(ps, TokenSet(Tokens(ps)[..p]), Tokens(ps)[p]) {
      TameRound(ps, Tokens(ps), p);
    }
  }
}
