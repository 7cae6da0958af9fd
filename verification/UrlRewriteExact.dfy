/** Exactly which templates the rewriter substitutes as intended, whatever match without a dollar sign there is.

    A template with an unsound round is given a match that makes the loop replace a token too many. The token's group
    holds a mark, and so does the whole match, group 0. The marks are counted: the loop never removes one. */
module UrlRewriteExact {
  import opened Decimals
  import opened UrlRewrite

  /** A letter, as it can stand in a URL. */
  const MARK := 'm'

  /** The token of the whole match. */
  const WHOLE := "$0"

  // ---------------------------------------------------------------------------------------------
  // The groups of a match
  // ---------------------------------------------------------------------------------------------

  predicate Within(a: string, b: string) { a <= b || (b != "" && Within(a, b[1..])) }

  /** Group 0 is the whole match, and every other group is empty or a part of it. */
  predicate IsMatch(groups: seq<string>) {
    groups != [] && forall i :: 0 <= i < |groups| ==> Within(groups[i], groups[0])
  }

  lemma {:induction false} WithinEnd(a: string, b: string)
    ensures Within(b, a + b)
  {
    if a == "" {
      assert a + b == b;
    } else {
      WithinEnd(a[1..], b);
      assert (a + b)[1..] == a[1..] + b;
    }
  }

  // ---------------------------------------------------------------------------------------------
  // Counting marks and occurrences
  // ---------------------------------------------------------------------------------------------

  function Marks(s: string): nat {
    if s == "" then 0 else (if s[0] == MARK then 1 else 0) + Marks(s[1..])
  }

  lemma {:induction false} MarksPlus(a: string, b: string)
    ensures Marks(a + b) == Marks(a) + Marks(b)
  {
    if a == "" {
      assert a + b == b;
    } else {
      MarksPlus(a[1..], b);
      assert (a + b)[1..] == a[1..] + b;
    }
  }

  lemma {:induction false} NoMarks(s: string)
    requires MARK !in s
    ensures Marks(s) == 0
  {
    if s != "" {
      NoMarks(s[1..]);
    }
  }

  /** The places where t occurs. */
  function Occurrences(s: string, t: string): nat {
    if s == "" then 0 else (if t <= s then 1 else 0) + Occurrences(s[1..], t)
  }

  lemma {:induction false} NoneInShort(s: string, t: string)
    requires |s| < |t|
    ensures Occurrences(s, t) == 0
  {
    if s != "" {
      NoneInShort(s[1..], t);
    }
  }

  lemma {:induction false} NoneInPlain(a: string, b: string, t: string)
    requires t != "" && t[0] == '$' && '$' !in a
    ensures Occurrences(a + b, t) == Occurrences(b, t)
  {
    if a == "" {
      assert a + b == b;
    } else {
      NoneInPlain(a[1..], b, t);
      assert (a + b)[1..] == a[1..] + b && (a + b)[0] == a[0];
    }
  }

  lemma {:induction false} MoreInFront(a: string, b: string, t: string)
    ensures Occurrences(a + b, t) >= Occurrences(b, t)
  {
    if a == "" {
      assert a + b == b;
    } else {
      MoreInFront(a[1..], b, t);
      assert (a + b)[1..] == a[1..] + b;
    }
  }

  lemma OneInFront(a: string, b: string, t: string)
    requires a != "" && t <= a + b
    ensures Occurrences(a + b, t) >= 1 + Occurrences(b, t)
  {
    assert (a + b)[1..] == a[1..] + b;
    MoreInFront(a[1..], b, t);
  }

  lemma FirstOccurrence(t: string, b: string)
    requires IsToken(t)
    ensures Occurrences(t + b, t) == 1 + Occurrences(b, t)
  {
    var s := t + b;
    assert s[..|t|] == t && s[1..] == t[1..] + b;
    assert '$' !in t[1..];
    NoneInPlain(t[1..], b, t);
  }

  lemma TokenHasNoMark(t: string)
    requires IsToken(t)
    ensures MARK !in t && Marks(t) == 0
  {
    assert t == [t[0]] + t[1..];
    NoMarks(t);
  }

  /** Replacing a token never removes a mark, and with a marked text adds one for every occurrence. */
  lemma {:induction false} MarksAfter(s: string, t: string, v: string)
    requires IsToken(t)
    ensures Marks(ReplaceAll(s, t, v)) >= Marks(s)
    ensures Marks(v) == 1 ==> Marks(ReplaceAll(s, t, v)) == Marks(s) + Occurrences(s, t)
    decreases |s|
  {
    if |s| < |t| {
      NoneInShort(s, t);
    } else if s[..|t|] == t {
      var rest := s[|t|..];
      assert s == t + rest;
      MarksAfter(rest, t, v);
      MarksPlus(v, ReplaceAll(rest, t, v));
      MarksPlus(t, rest);
      TokenHasNoMark(t);
      FirstOccurrence(t, rest);
    } else {
      MarksAfter(s[1..], t, v);
      MarksPlus([s[0]], ReplaceAll(s[1..], t, v));
      MarksPlus([s[0]], s[1..]);
      assert s == [s[0]] + s[1..];
    }
  }

  /** Replacing another token than the whole match's leaves every occurrence of that one. */
  lemma {:induction false} WholeStays(s: string, u: string, v: string)
    requires IsToken(u) && u[1] != '0'
    ensures Occurrences(ReplaceAll(s, u, v), WHOLE) >= Occurrences(s, WHOLE)
    decreases |s|
  {
    if |s| < |u| {
    } else if s[..|u|] == u {
      var rest := s[|u|..];
      assert s == u + rest;
      WholeStays(rest, u, v);
      MoreInFront(v, ReplaceAll(rest, u, v), WHOLE);
      NoWhole(u, rest);
    } else {
      WholeStays(s[1..], u, v);
      WholeNext(s, u, v);
    }
  }

  lemma NoWhole(u: string, rest: string)
    requires IsToken(u) && u[1] != '0'
    ensures Occurrences(u + rest, WHOLE) == Occurrences(rest, WHOLE)
  {
    var s := u + rest;
    assert s[1] == u[1] && s[1..] == u[1..] + rest;
    assert !(WHOLE <= s);
    assert '$' !in u[1..];
    NoneInPlain(u[1..], rest, WHOLE);
  }

  lemma WholeNext(s: string, u: string, v: string)
    requires IsToken(u) && |s| >= |u| && s[..|u|] != u
    requires Occurrences(ReplaceAll(s[1..], u, v), WHOLE) >= Occurrences(s[1..], WHOLE)
    ensures Occurrences(ReplaceAll(s, u, v), WHOLE) >= Occurrences(s, WHOLE)
  {
    var rest := ReplaceAll(s[1..], u, v);
    var r := [s[0]] + rest;
    assert ReplaceAll(s, u, v) == r && r[1..] == rest;
    if WHOLE <= s {
      assert s[1] == '0' && s[1..][0] == '0';
      ZeroStays(s[1..], u, v);
      assert r[0] == '$' && r[1] == '0';
    }
  }

  lemma ZeroStays(s: string, u: string, v: string)
    requires IsToken(u) && s != "" && s[0] == '0'
    ensures ReplaceAll(s, u, v) != "" && ReplaceAll(s, u, v)[0] == '0'
  {
  }

  lemma {:induction false} MarksStay(s: string, tokens: seq<string>, g: map<string, string>)
    requires forall i :: 0 <= i < |tokens| ==> IsToken(tokens[i])
    requires forall i :: 0 <= i < |tokens| ==> tokens[i] != ""
    ensures Marks(Sequential(s, tokens, g)) >= Marks(s)
    decreases |tokens|
  {
    if tokens != [] {
      MarksAfter(s, tokens[0], Lookup(g, tokens[0]));
      MarksStay(ReplaceAll(s, tokens[0], Lookup(g, tokens[0])), tokens[1..], g);
    }
  }

  /** Only the whole match's token starts like it. */
  ghost predicate OneWhole(tokens: seq<string>) {
    forall i :: 0 <= i < |tokens| ==> IsToken(tokens[i]) && (tokens[i][1] == '0' ==> tokens[i] == WHOLE)
  }

  /** If the whole match is still to come, every occurrence of its token adds a mark. */
  lemma {:induction false} WholeAdds(s: string, tokens: seq<string>, g: map<string, string>)
    requires OneWhole(tokens) && Marks(Lookup(g, WHOLE)) == 1
    requires forall i :: 0 <= i < |tokens| ==> tokens[i] != ""
    ensures Marks(Sequential(s, tokens, g)) >= Marks(s) + if WHOLE in tokens then Occurrences(s, WHOLE) else 0
    decreases |tokens|
  {
    if tokens != [] {
      var u, rest := tokens[0], tokens[1..];
      var next := ReplaceAll(s, u, Lookup(g, u));
      MarksAfter(s, u, Lookup(g, u));
      if u == WHOLE {
        MarksStay(next, rest, g);
      } else {
        WholeStays(s, u, Lookup(g, u));
        WholeAdds(next, rest, g);
        assert tokens == [u] + rest;
      }
    }
  }

  // ---------------------------------------------------------------------------------------------
  // One unsound round
  // ---------------------------------------------------------------------------------------------

  /** How often the template has the token. */
  function Times(ps: seq<Piece>, t: string): nat {
    if ps == [] then 0 else (if ps[0] == Tok(t) then 1 else 0) + Times(ps[1..], t)
  }

  /** How often it is still to be replaced. */
  function Due(ps: seq<Piece>, done: set<string>, t: string): nat { if t in done then 0 else Times(ps, t) }

  /** The group of t and the whole match hold one mark each, all other groups none, and none holds a dollar sign. */
  ghost predicate Marked(g: map<string, string>, t: string) {
    && t in g && Marks(g[t]) == 1
    && WHOLE in g && Marks(g[WHOLE]) == 1
    && (forall u :: u in g && u != t && u != WHOLE ==> Marks(g[u]) == 0)
    && (forall u :: u in g ==> '$' !in g[u])
  }

  /** How often the whole match is, if t is another token. */
  function WholeDue(ps: seq<Piece>, done: set<string>, t: string): nat {
    if t == WHOLE then 0 else Due(ps, done, WHOLE)
  }

  lemma MarksShown(p: Piece, done: set<string>, all: set<string>, g: map<string, string>, t: string)
    requires Marked(g, t) && done <= all && (p.Tok? ==> IsToken(p.t) && p.t in all)
    ensures Marks(Shown(p, all, g)) == Marks(Shown(p, done, g))
      + (if p == Tok(t) && t !in done then 1 else 0)
      + (if t != WHOLE && p == Tok(WHOLE) && WHOLE !in done then 1 else 0)
  {
    if p.Tok? {
      TokenHasNoMark(p.t);
    }
  }

  /** Replacing all tokens adds a mark for every t and every whole match that has not been replaced. */
  lemma {:induction false} MarksIntended(ps: seq<Piece>, done: set<string>, all: set<string>, g: map<string, string>,
                                         t: string)
    requires WellRead(ps) && Marked(g, t) && done <= all
    requires forall i :: 0 <= i < |ps| && ps[i].Tok? ==> ps[i].t in all
    ensures Marks(Partly(ps, all, g)) == Marks(Partly(ps, done, g)) + Due(ps, done, t) + WholeDue(ps, done, t)
  {
    if ps != [] {
      MarksIntended(ps[1..], done, all, g, t);
      MarksPlus(Shown(ps[0], all, g), Partly(ps[1..], all, g));
      MarksPlus(Shown(ps[0], done, g), Partly(ps[1..], done, g));
      MarksShown(ps[0], done, all, g, t);
    }
  }

  /** Every t that has not been replaced is an occurrence. */
  lemma {:induction false} IntendedOccur(ps: seq<Piece>, done: set<string>, g: map<string, string>, t: string)
    requires IsToken(t)
    ensures Occurrences(Partly(ps, done, g), t) >= Due(ps, done, t)
  {
    if ps != [] {
      IntendedOccur(ps[1..], done, g, t);
      var rest := Partly(ps[1..], done, g);
      MoreInFront(Shown(ps[0], done, g), rest, t);
      if ps[0] == Tok(t) && t !in done {
        assert t <= t + rest;
        OneInFront(t, rest, t);
      }
    }
  }

  /** At the first piece t occurs where it is not meant. */
  ghost predicate Stray(ps: seq<Piece>, done: set<string>, g: map<string, string>, t: string) {
    && ps != [] && ps[0] != Tok(t) && (ps[0].Tok? ==> ps[0].t !in done && ps[0].t != "")
    && t <= Partly(ps, done, g)
  }

  /** A stray occurrence anywhere is one too many. */
  lemma {:induction false} StrayOccurs(ps: seq<Piece>, i: nat, done: set<string>, g: map<string, string>, t: string)
    requires IsToken(t) && i < |ps| && Stray(ps[i..], done, g, t)
    ensures Occurrences(Partly(ps, done, g), t) > Due(ps, done, t)
    decreases i
  {
    var rest := Partly(ps[1..], done, g);
    if i == 0 {
      assert ps[0..] == ps;
      IntendedOccur(ps[1..], done, g, t);
      OneInFront(Shown(ps[0], done, g), rest, t);
    } else {
      assert ps[1..][i - 1..] == ps[i..];
      StrayOccurs(ps[1..], i - 1, done, g, t);
      MoreInFront(Shown(ps[0], done, g), rest, t);
      if ps[0] == Tok(t) && t !in done {
        assert t <= t + rest;
        OneInFront(t, rest, t);
      }
    }
  }

  /** So after that round there are more marks than there should be, but for the whole matches still to come. */
  lemma TooManyMarks(ps: seq<Piece>, i: nat, done: set<string>, all: set<string>, g: map<string, string>, t: string)
    requires WellRead(ps) && IsToken(t) && Marked(g, t) && done <= all
    requires forall k :: 0 <= k < |ps| && ps[k].Tok? ==> ps[k].t in all
    requires i < |ps| && Stray(ps[i..], done, g, t)
    ensures Marks(ReplaceAll(Partly(ps, done, g), t, Lookup(g, t))) + WholeDue(ps, done, t) > Marks(Partly(ps, all, g))
  {
    MarksAfter(Partly(ps, done, g), t, Lookup(g, t));
    StrayOccurs(ps, i, done, g, t);
    MarksIntended(ps, done, all, g, t);
  }

  lemma {:induction false} DueIsListed(ps: seq<Piece>, t: string)
    requires Times(ps, t) > 0
    ensures t in Tokens(ps)
  {
    if ps[0] != Tok(t) {
      DueIsListed(ps[1..], t);
    }
  }

  lemma ListedWhere(tokens: seq<string>, p: nat, t: string)
    requires p < |tokens| && t in tokens
    ensures t in TokenSet(tokens[..p]) || t == tokens[p] || t in tokens[p + 1..]
  {
    assert tokens == tokens[..p] + [tokens[p]] + tokens[p + 1..];
  }

  /** And those come. */
  lemma WholeComes(ps: seq<Piece>, tokens: seq<string>, p: nat, g: map<string, string>)
    requires tokens == Tokens(ps) && p < |tokens| && OneWhole(tokens) && Marked(g, tokens[p])
    requires forall k :: 0 <= k < |tokens| ==> tokens[k] != ""
    ensures var done, t := TokenSet(tokens[..p]), tokens[p];
      var next := ReplaceAll(Partly(ps, done, g), t, Lookup(g, t));
      Marks(Sequential(next, tokens[p + 1..], g)) >= Marks(next) + WholeDue(ps, done, t)
  {
    var done, t, rest := TokenSet(tokens[..p]), tokens[p], tokens[p + 1..];
    var s := Partly(ps, done, g);
    var next := ReplaceAll(s, t, Lookup(g, t));
    WholeAdds(next, rest, g);
    if WholeDue(ps, done, t) > 0 {
      DueIsListed(ps, WHOLE);
      ListedWhere(tokens, p, WHOLE);
      WholeStays(s, t, Lookup(g, t));
      IntendedOccur(ps, done, g, WHOLE);
    }
  }

  // ---------------------------------------------------------------------------------------------
  // Groups that make a stray occurrence
  // ---------------------------------------------------------------------------------------------

  /** A group number, written without leading zeros. */
  predicate Numbered(t: string) { IsToken(t) && Itoa(ParseNat(t[1..])) == t[1..] }

  function Number(t: string): nat
    requires IsToken(t)
  {
    ParseNat(t[1..])
  }

  lemma SameNumber(t: string, u: string)
    requires Numbered(t) && Numbered(u) && Number(t) == Number(u)
    ensures t == u
  {
    assert t == "$" + t[1..] && u == "$" + u[1..];
  }

  /** A match in which w captures some digits and t, besides that, a mark. */
  function Capturing(t: string, w: string, digits: string): (groups: seq<string>)
    requires IsToken(t) && IsToken(w)
    ensures groups != [] && groups[0] == digits + [MARK]
  {
    seq(Number(t) + Number(w) + 1, i =>
      (if i == 0 || i == Number(w) then digits else "") + (if i == 0 || i == Number(t) then [MARK] else ""))
  }

  lemma CapturingIsMatch(t: string, w: string, digits: string)
    requires IsToken(t) && IsToken(w)
    ensures IsMatch(Capturing(t, w, digits))
  {
    var groups := Capturing(t, w, digits);
    forall i | 0 <= i < |groups| ensures Within(groups[i], groups[0]) {
      if i != 0 && i != Number(w) {
        WithinEnd(digits, [MARK]);
      }
      assert "" + [MARK] == [MARK] && digits + "" == digits;
    }
  }

  lemma OneMark(digits: string)
    requires AllDigits(digits)
    ensures Marks(digits + [MARK]) == 1 && Marks([MARK]) == 1 && '$' !in digits + [MARK] && Marks(digits) == 0
    ensures "" + [MARK] == [MARK] && digits + "" == digits
  {
    assert MARK !in digits;
    NoMarks(digits);
    MarksPlus(digits, [MARK]);
    assert [MARK][1..] == "";
  }

  lemma WholeNumbered()
    ensures Numbered(WHOLE) && Number(WHOLE) == 0
  {
    assert WHOLE[1..] == "0" && "0"[..0] == "";
    assert Itoa(0) == "0";
  }

  lemma CapturingMarked(t: string, w: string, digits: string)
    requires Numbered(t) && Numbered(w) && AllDigits(digits)
    ensures var groups := Capturing(t, w, digits);
      var g := GroupMap(groups, |groups|);
      && DollarFree(groups) && w in g && digits <= g[w]
      && t in g && Marks(g[t]) == 1 && '$' !in g[t]
      && WHOLE in g && Marks(g[WHOLE]) == 1 && '$' !in g[WHOLE]
  {
    var groups := Capturing(t, w, digits);
    WholeNumbered();
    GroupMapKeys(groups, |groups|, t);
    GroupMapKeys(groups, |groups|, w);
    GroupMapKeys(groups, |groups|, WHOLE);
    OneMark(digits);
  }

  lemma {:induction false} GroupMapNames(groups: seq<string>, n: nat, u: string)
    requires n <= |groups| && u in GroupMap(groups, n)
    ensures Numbered(u) && Number(u) < n && GroupMap(groups, n)[u] == groups[Number(u)]
  {
    var last := "$" + Itoa(n - 1);
    assert last[1..] == Itoa(n - 1);
    ParseItoa(n - 1);
    if u != last {
      GroupMapNames(groups, n - 1, u);
    }
  }

  lemma OthersUnmarked(t: string, w: string, digits: string, u: string)
    requires Numbered(t) && Numbered(w) && AllDigits(digits)
    requires var groups := Capturing(t, w, digits); u in GroupMap(groups, |groups|) && u != t && u != WHOLE
    ensures var groups := Capturing(t, w, digits);
      Marks(GroupMap(groups, |groups|)[u]) == 0 && '$' !in GroupMap(groups, |groups|)[u]
  {
    var groups := Capturing(t, w, digits);
    GroupMapNames(groups, |groups|, u);
    WholeNumbered();
    if Number(u) == 0 {
      SameNumber(u, WHOLE);
    } else if Number(u) == Number(t) {
      SameNumber(u, t);
    }
    OneMark(digits);
  }

  lemma CapturingIsMarked(t: string, w: string, digits: string)
    requires Numbered(t) && Numbered(w) && AllDigits(digits)
    ensures var groups := Capturing(t, w, digits);
      var g := GroupMap(groups, |groups|);
      IsMatch(groups) && DollarFree(groups) && Marked(g, t) && w in g && digits <= g[w]
  {
    var groups := Capturing(t, w, digits);
    CapturingIsMatch(t, w, digits);
    CapturingMarked(t, w, digits);
    forall u | u in GroupMap(groups, |groups|) && u != t && u != WHOLE
      ensures Marks(GroupMap(groups, |groups|)[u]) == 0 && '$' !in GroupMap(groups, |groups|)[u]
    {
      OthersUnmarked(t, w, digits, u);
    }
  }

  /** The first piece makes the round of t unsound. */
  predicate UnsoundHere(ps: seq<Piece>, done: set<string>, t: string) {
    && ps != []
    && if ps[0].Lit? then ps[0].c == '$' && DoneNext(ps, done)
       else && ps[0].t !in done && ps[0].t != t
            && (ProperPrefix(t, ps[0].t) || (ProperPrefix(ps[0].t, t) && DoneNext(ps, done)))
  }

  lemma {:induction false} UnsoundAt(ps: seq<Piece>, done: set<string>, t: string) returns (i: nat)
    requires !Sound(ps, done, t)
    ensures i < |ps| && UnsoundHere(ps[i..], done, t)
  {
    if UnsoundHere(ps, done, t) {
      i := 0;
      assert ps[0..] == ps;
    } else {
      i := UnsoundAt(ps[1..], done, t);
      i := i + 1;
      assert ps[i..] == ps[1..][i - 1..];
    }
  }

  /** The token whose group fills in digits: the one after the piece, where there is one to be used. */
  function Filler(ps: seq<Piece>, done: set<string>, t: string): string {
    if DoneNext(ps, done) then ps[1].t else t
  }

  /** The digits it has to give. */
  function Digits(ps: seq<Piece>, t: string): string
    requires IsToken(t) && ps != []
  {
    if ps[0].Lit? then t[1..]
    else if ProperPrefix(ps[0].t, t) then t[|ps[0].t|..]
    else ""
  }

  /** With such groups t occurs there. */
  lemma FilledIn(ps: seq<Piece>, done: set<string>, g: map<string, string>, t: string)
    requires IsToken(t) && UnsoundHere(ps, done, t) && (ps[0].Tok? ==> ps[0].t != "")
    requires var w := Filler(ps, done, t); w in g && Digits(ps, t) <= g[w]
    ensures Stray(ps, done, g, t)
  {
    var rest := Partly(ps[1..], done, g);
    if ps[0].Tok? && ProperPrefix(t, ps[0].t) {
      assert (ps[0].t + rest)[..|t|] == ps[0].t[..|t|];
    } else {
      var w, x := ps[1].t, if ps[0].Lit? then "$" else ps[0].t;
      assert t == x + Digits(ps, t);
      assert ps[1..][0] == ps[1];
      assert g[w] <= rest;
      assert Digits(ps, t) <= rest;
      assert (x + rest)[..|t|] == x + rest[..|Digits(ps, t)|];
    }
  }

  // ---------------------------------------------------------------------------------------------
  // The exact condition
  // ---------------------------------------------------------------------------------------------

  /** Every token of the template is a group number written without leading zeros. */
  predicate AllNumbered(tokens: seq<string>) { forall i :: 0 <= i < |tokens| ==> Numbered(tokens[i]) }

  lemma {:induction false} LeadingZero(n: nat)
    requires Itoa(n)[0] == '0'
    ensures n == 0
  {
    if n >= 10 {
      LeadingZero(n / 10);
    }
  }

  lemma NumberedOneWhole(tokens: seq<string>)
    requires AllNumbered(tokens)
    ensures OneWhole(tokens)
  {
    forall i | 0 <= i < |tokens| && tokens[i][1] == '0' ensures tokens[i] == WHOLE {
      WholeNumbered();
      LeadingZero(Number(tokens[i]));
      SameNumber(tokens[i], WHOLE);
    }
  }

  /** The loop does what is intended for every match without a dollar sign. */
  ghost predicate AlwaysAgrees(template: string) {
    forall groups :: IsMatch(groups) && DollarFree(groups) ==>
      Rewritten(template, groups) == Simultaneous(Pieces(template), groups)
  }

  lemma {:induction false} FirstUnsound(ps: seq<Piece>, tokens: seq<string>, n: nat) returns (p: nat)
    requires n <= |tokens| && !SoundRounds(ps, tokens, n)
    ensures p < n && SoundRounds(ps, tokens, p) && !Sound(ps, TokenSet(tokens[..p]), tokens[p])
  {
    if SoundRounds(ps, tokens, n - 1) {
      p := n - 1;
    } else {
      p := FirstUnsound(ps, tokens, n - 1);
    }
  }

  lemma {:induction false} TokenListed(ps: seq<Piece>, i: nat)
    requires WellRead(ps) && i < |ps| && ps[i].Tok?
    ensures IsToken(ps[i].t)
  {
    if i > 0 {
      TokenListed(ps[1..], i - 1);
    }
  }

  /** Marks tell the two results apart. */
  lemma MarksDiffer(ps: seq<Piece>, tokens: seq<string>, p: nat, i: nat, g: map<string, string>, groups: seq<string>)
    requires WellRead(ps) && tokens == Tokens(ps) && g == GroupMap(groups, |groups|) && p < |tokens| && i < |ps|
    requires OneWhole(tokens)
    requires forall k :: 0 <= k < |tokens| ==> tokens[k] != ""
    requires SoundRounds(ps, tokens, p) && Marked(g, tokens[p]) && Stray(ps[i..], TokenSet(tokens[..p]), g, tokens[p])
    ensures Sequential(Partly(ps, {}, g), tokens, g) != Simultaneous(ps, groups)
  {
    var done, all, t := TokenSet(tokens[..p]), TokenSet(tokens), tokens[p];
    RoundsTo(ps, tokens, p, g);
    SequentialStep(Partly(ps, done, g), tokens, p, g);
    TooManyMarks(ps, i, done, all, g, t);
    WholeComes(ps, tokens, p, g);
    AllDone(ps, all, groups);
  }

  lemma FillerListed(ps: seq<Piece>, i: nat, done: set<string>, t: string)
    requires i < |ps| && t in Tokens(ps)
    ensures Filler(ps[i..], done, t) in Tokens(ps)
  {
    if DoneNext(ps[i..], done) {
      assert ps[i..][1] == ps[i + 1];
    }
  }

  /** Groups for which the token of an unsound round occurs where it is not meant. */
  lemma StrayGroups(ps: seq<Piece>, tokens: seq<string>, p: nat) returns (i: nat, groups: seq<string>)
    requires WellRead(ps) && tokens == Tokens(ps) && p < |tokens| && AllNumbered(tokens)
    requires !Sound(ps, TokenSet(tokens[..p]), tokens[p])
    ensures i < |ps| && IsMatch(groups) && DollarFree(groups)
    ensures var g := GroupMap(groups, |groups|);
      Marked(g, tokens[p]) && Stray(ps[i..], TokenSet(tokens[..p]), g, tokens[p])
  {
    var done, t := TokenSet(tokens[..p]), tokens[p];
    i := UnsoundAt(ps, done, t);
    var here := ps[i..];
    assert here[0] == ps[i];
    var w := Filler(here, done, t);
    if ps[i].Tok? {
      TokenListed(ps, i);
    }
    FillerListed(ps, i, done, t);
    groups := Capturing(t, w, Digits(here, t));
    CapturingIsMarked(t, w, Digits(here, t));
    FilledIn(here, done, GroupMap(groups, |groups|), t);
  }

  lemma PiecesDisagree(ps: seq<Piece>, tokens: seq<string>) returns (groups: seq<string>)
    requires WellRead(ps) && tokens == Tokens(ps) && AllNumbered(tokens) && !AllSound(ps)
    requires forall k :: 0 <= k < |tokens| ==> tokens[k] != ""
    ensures IsMatch(groups) && DollarFree(groups)
    ensures var g := GroupMap(groups, |groups|); Sequential(Partly(ps, {}, g), tokens, g) != Simultaneous(ps, groups)
  {
    var p := FirstUnsound(ps, tokens, |tokens|);
    var i;
    i, groups := StrayGroups(ps, tokens, p);
    NumberedOneWhole(tokens);
    MarksDiffer(ps, tokens, p, i, GroupMap(groups, |groups|), groups);
  }

  /** For every template with an unsound round there is a match for which the loop gives something else. */
  lemma Disagrees(template: string) returns (groups: seq<string>)
    requires AllNumbered(Tokens(Pieces(template))) && !AllSound(Pieces(template))
    ensures IsMatch(groups) && DollarFree(groups)
    ensures Rewritten(template, groups) != Simultaneous(Pieces(template), groups)
  {
    var ps := Pieces(template);
    TokensReadable(template);
    groups := PiecesDisagree(ps, Tokens(ps));
    PartlyNone(ps, GroupMap(groups, |groups|));
    TextOfPieces(template);
  }

  /** For every template without leading zeros in its tokens: replacing the tokens one after the other gives the
      simultaneous substitution for all matches without a dollar sign if and only if every round is sound. */
  lemma AgreesExactly(template: string)
    requires AllNumbered(Tokens(Pieces(template)))
    ensures AlwaysAgrees(template) <==> AllSound(Pieces(template))
  {
    if AllSound(Pieces(template)) {
      forall groups | IsMatch(groups) && DollarFree(groups)
        ensures Rewritten(template, groups) == Simultaneous(Pieces(template), groups)
      {
        SequentialIsSimultaneous(template, groups);
      }
    } else {
      var groups := Disagrees(template);
    }
  }

  // ---------------------------------------------------------------------------------------------
  // Templates that fail
  // ---------------------------------------------------------------------------------------------

  lemma {:induction false} RunOf(digits: string, rest: string)
    requires AllDigits(digits) && (rest == "" || !IsDigit(rest[0]))
    ensures DigitRun(digits + rest) == |digits|
  {
    if digits == "" {
      assert digits + rest == rest;
    } else {
      RunOf(digits[1..], rest);
      assert (digits + rest)[1..] == digits[1..] + rest;
    }
  }

  lemma ReadToken(t: string, rest: string)
    requires IsToken(t) && (rest == "" || !IsDigit(rest[0]))
    ensures Pieces(t + rest) == [Tok(t)] + Pieces(rest)
  {
    var s := t + rest;
    assert s[1..] == t[1..] + rest && IsDigit(t[1..][0]);
    RunOf(t[1..], rest);
    assert TokenAt(s) == |t| && s[..|t|] == t && s[|t|..] == rest;
  }

  lemma ReadChar(c: char, rest: string)
    requires c == '$' ==> rest == "" || !IsDigit(rest[0])
    ensures Pieces([c] + rest) == [Lit(c)] + Pieces(rest)
  {
    var s := [c] + rest;
    assert s[0] == c && s[1..] == rest;
    assert rest != "" ==> s[1] == rest[0];
  }

  lemma NoDigitAfter(ps: seq<Piece>)
    requires ps != [] && WellRead(ps) && (ps[0].Tok? || ps[0].c == '$')
    ensures var rest := Text(ps[1..]); rest == "" || !IsDigit(rest[0])
  {
    if |ps| > 1 {
      assert ps[1..][0] == ps[1];
    }
  }

  lemma PieceOfText(ps: seq<Piece>)
    requires ps != [] && WellRead(ps)
    ensures Pieces(Text(ps)) == [ps[0]] + Pieces(Text(ps[1..]))
  {
    if ps[0].Tok? {
      NoDigitAfter(ps);
      ReadToken(ps[0].t, Text(ps[1..]));
    } else {
      if ps[0].c == '$' {
        NoDigitAfter(ps);
      }
      ReadChar(ps[0].c, Text(ps[1..]));
    }
  }

  /** Well-read pieces are the pieces of their own text: every list of them is a template. */
  lemma {:induction false} PiecesOfText(ps: seq<Piece>)
    requires WellRead(ps)
    ensures Pieces(Text(ps)) == ps
  {
    if ps != [] {
      PiecesOfText(ps[1..]);
      PieceOfText(ps);
      assert ps == [ps[0]] + ps[1..];
    }
  }

  /** A template whose round p is unsound because of piece i. */
  lemma TemplateFails(ps: seq<Piece>, tokens: seq<string>, p: nat, i: nat) returns (groups: seq<string>)
    requires WellRead(ps) && tokens == Tokens(ps) && AllNumbered(tokens) && p < |tokens| && i < |ps|
    requires UnsoundHere(ps[i..], TokenSet(tokens[..p]), tokens[p])
    ensures Pieces(Text(ps)) == ps && IsMatch(groups) && DollarFree(groups)
    ensures Rewritten(Text(ps), groups) != Simultaneous(ps, groups)
  {
    PiecesOfText(ps);
    UnsoundBefore(ps, i, TokenSet(tokens[..p]), tokens[p]);
    groups := Disagrees(Text(ps));
  }

  lemma {:induction false} UnsoundBefore(ps: seq<Piece>, i: nat, done: set<string>, t: string)
    requires i < |ps| && UnsoundHere(ps[i..], done, t)
    ensures !Sound(ps, done, t)
    decreases i
  {
    if i == 0 {
      assert ps[0..] == ps;
    } else {
      assert ps[1..][i - 1..] == ps[i..];
      UnsoundBefore(ps[1..], i - 1, done, t);
    }
  }

  lemma Cons(p: Piece, rest: seq<Piece>)
    ensures Tokens([p] + rest) == (if p.Tok? then [p.t] else []) + Tokens(rest)
    ensures Text([p] + rest) == PieceText(p) + Text(rest)
    ensures WellRead([p] + rest) <==>
      && (p.Tok? ==> IsToken(p.t))
      && (rest != [] && rest[0].Lit? && (p.Tok? || p.c == '$') ==> !IsDigit(rest[0].c))
      && WellRead(rest)
  {
    assert ([p] + rest)[1..] == rest;
  }

  /** The template of a token, a character and a token. */
  lemma TwoTokens(t: string, c: char, u: string, ps: seq<Piece>)
    requires IsToken(t) && IsToken(u) && !IsDigit(c) && ps == [Tok(t), Lit(c), Tok(u)]
    ensures WellRead(ps) && Tokens(ps) == [t, u] && Text(ps) == t + [c] + u
    ensures ps[1..] == [Lit(c), Tok(u)] && ps[2..] == [Tok(u)]
  {
    Cons(Tok(u), []);
    Cons(Lit(c), [Tok(u)]);
    Cons(Tok(t), [Lit(c), Tok(u)]);
    assert [Tok(u)] + [] == [Tok(u)] && [Lit(c)] + [Tok(u)] == [Lit(c), Tok(u)] && [Tok(t)] + [Lit(c), Tok(u)] == ps;
    assert u + "" == u && [] + [u] == [u];
    assert t + ([c] + u) == t + [c] + u;
  }

  /** `$1` before `$10`: for every such pair of tokens some match is rewritten to something else. */
  lemma ShorterFirstFails(t: string, u: string) returns (groups: seq<string>)
    requires Numbered(t) && Numbered(u) && ProperPrefix(t, u)
    ensures Pieces(t + "/" + u) == [Tok(t), Lit('/'), Tok(u)] && IsMatch(groups) && DollarFree(groups)
    ensures Rewritten(t + "/" + u, groups) != Simultaneous([Tok(t), Lit('/'), Tok(u)], groups)
  {
    var ps := [Tok(t), Lit('/'), Tok(u)];
    TwoTokens(t, '/', u, ps);
    assert TokenSet([t, u][..0]) == {};
    groups := TemplateFails(ps, [t, u], 0, 2);
  }

  /** A dollar sign between a token and its repetition, as in `$1$$1`, starts an occurrence once the first is
      replaced. */
  lemma StrayDollarFails(t: string) returns (groups: seq<string>)
    requires Numbered(t)
    ensures Pieces(t + "$" + t) == [Tok(t), Lit('$'), Tok(t)] && IsMatch(groups) && DollarFree(groups)
    ensures Rewritten(t + "$" + t, groups) != Simultaneous([Tok(t), Lit('$'), Tok(t)], groups)
  {
    var ps := [Tok(t), Lit('$'), Tok(t)];
    TwoTokens(t, '$', t, ps);
    assert [t, t][..1] == [t] && t in TokenSet([t]);
    groups := TemplateFails(ps, [t, t], 1, 1);
  }

  // ---------------------------------------------------------------------------------------------
  // Groups that hold a dollar sign
  // ---------------------------------------------------------------------------------------------

  lemma ReplaceHere(t: string, rest: string, v: string)
    requires t != ""
    ensures ReplaceAll(t + rest, t, v) == v + ReplaceAll(rest, t, v)
  {
    assert (t + rest)[..|t|] == t && (t + rest)[|t|..] == rest;
  }

  lemma BothRounds(t: string, u: string, x: string)
    requires IsToken(t) && IsToken(u) && t != u && !ProperPrefix(t, u) && !ProperPrefix(u, t) && '$' !in x
    ensures ReplaceAll(ReplaceAll(t + "/" + u, t, u), u, x) == x + "/" + x
  {
    assert t + "/" + u == t + ("/" + u);
    ReplaceHere(t, "/" + u, u);
    SkipPlain("/", u, t, u);
    KeepToken(u, "", t, u);
    assert u + "" == u;
    ReplaceHere(u, "/" + u, x);
    SkipPlain("/", u, u, x);
    ReplaceHere(u, "", x);
    assert x + ("/" + x) == x + "/" + x;
  }

  /** A match in which t captures u's own text, and u captures x. */
  function Holding(t: string, u: string, x: string): (groups: seq<string>)
    requires IsToken(t) && IsToken(u)
    ensures groups != [] && groups[0] == u + x
  {
    seq(Number(t) + Number(u) + 1, i =>
      if i == 0 then u + x else if i == Number(t) then u else if i == Number(u) then x else "")
  }

  lemma HoldingIsMatch(t: string, u: string, x: string)
    requires IsToken(t) && IsToken(u)
    ensures IsMatch(Holding(t, u, x))
  {
    var groups := Holding(t, u, x);
    forall i | 0 <= i < |groups| ensures Within(groups[i], groups[0]) {
      WithinEnd(u, x);
    }
  }

  /** A captured group that holds a later token is itself substituted: for every two groups besides the whole match of
      which neither number starts with the other, and whatever the second captures. */
  lemma GroupWithTokenFails(t: string, u: string, x: string)
    requires Numbered(t) && Numbered(u) && Number(t) > 0 && Number(u) > 0
    requires t != u && !ProperPrefix(t, u) && !ProperPrefix(u, t) && '$' !in x
    ensures IsMatch(Holding(t, u, x))
    ensures Rewritten(t + "/" + u, Holding(t, u, x)) == x + "/" + x
    ensures Simultaneous(Pieces(t + "/" + u), Holding(t, u, x)) == u + "/" + x
    ensures Rewritten(t + "/" + u, Holding(t, u, x)) != Simultaneous(Pieces(t + "/" + u), Holding(t, u, x))
  {
    var ps, groups := [Tok(t), Lit('/'), Tok(u)], Holding(t, u, x);
    var g := GroupMap(groups, |groups|);
    HoldingIsMatch(t, u, x);
    TwoTokens(t, '/', u, ps);
    PiecesOfText(ps);
    if Number(t) == Number(u) {
      SameNumber(t, u);
    }
    HoldingSays(t, u, x);
    TwoRounds(t + "/" + u, t, u, g);
    BothRounds(t, u, x);
    SimultaneousOfThree(Tok(t), '/', Tok(u), groups);
    assert (u + "/" + x)[0] == '$' && '$' !in x + "/" + x;
  }

  lemma HoldingSays(t: string, u: string, x: string)
    requires Numbered(t) && Numbered(u) && Number(t) != Number(u) && Number(t) > 0 && Number(u) > 0
    ensures var groups := Holding(t, u, x); var g := GroupMap(groups, |groups|);
      && Lookup(g, t) == Capture(groups, t) == u && Lookup(g, u) == Capture(groups, u) == x
  {
    var groups := Holding(t, u, x);
    GroupMapKeys(groups, |groups|, t);
    GroupMapKeys(groups, |groups|, u);
  }

  lemma TwoRounds(s: string, t: string, u: string, g: map<string, string>)
    requires t != "" && u != ""
    ensures Sequential(s, [t, u], g) == ReplaceAll(ReplaceAll(s, t, Lookup(g, t)), u, Lookup(g, u))
  {
    SequentialStep(s, [t, u], 0, g);
    SequentialStep(ReplaceAll(s, t, Lookup(g, t)), [t, u], 1, g);
    assert [t, u][0..] == [t, u] && [t, u][2..] == [];
  }

  lemma SimultaneousOfThree(p: Piece, c: char, r: Piece, groups: seq<string>)
    requires p.Tok? && r.Tok?
    ensures Simultaneous([p, Lit(c), r], groups) == Capture(groups, p.t) + [c] + Capture(groups, r.t)
  {
    var ps := [p, Lit(c), r];
    assert ps[1..] == [Lit(c), r] && [Lit(c), r][1..] == [r] && [r][1..] == [];
    assert Simultaneous([r], groups) == Capture(groups, r.t) + "";
    assert Simultaneous([Lit(c), r], groups) == [c] + Capture(groups, r.t);
  }
}
