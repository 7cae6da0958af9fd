/** Splitting and joining, as `strings.Split` and `strings.Join` do with a one-character separator. */
module Sequences {

  function Split<T(==)>(s: seq<T>, sep: T): (parts: seq<seq<T>>)
    ensures |parts| >= 1
  {
    if s == [] then [[]]
    else
      var rest := Split(s[1..], sep);
      if s[0] == sep then [[]] + rest else [[s[0]] + rest[0]] + rest[1..]
  }

  function Join<T>(parts: seq<seq<T>>, sep: T): seq<T>
    requires parts != []
  {
    if |parts| == 1 then parts[0] else parts[0] + [sep] + Join(parts[1..], sep)
  }

  lemma Regrouped<T>(a: seq<T>, b: seq<T>, c: seq<T>)
    ensures (a + b) + c == a + (b + c)
  {
  }

  lemma {:induction false} SplitOne<T>(s: seq<T>, sep: T)
    ensures |Split(s, sep)| == 1 <==> sep !in s
    ensures sep !in s ==> Split(s, sep) == [s]
  {
    if s != [] {
      SplitOne(s[1..], sep);
      assert s == [s[0]] + s[1..];
    }
  }

  lemma {:induction false} SplitFirst<T>(a: seq<T>, sep: T, b: seq<T>)
    requires sep !in a
    ensures Split(a + [sep] + b, sep) == [a] + Split(b, sep)
  {
    var s := a + [sep] + b;
    if a == [] {
      assert s[1..] == b;
    } else {
      SplitFirst(a[1..], sep, b);
      assert s[1..] == a[1..] + [sep] + b;
      assert s[0] == a[0];
      assert ([a[1..]] + Split(b, sep))[1..] == Split(b, sep);
      assert [a[0]] + a[1..] == a;
    }
  }

  /** Splitting undoes joining when no part holds the separator. */
  lemma {:induction false} SplitJoin<T>(parts: seq<seq<T>>, sep: T)
    requires parts != [] && forall i :: 0 <= i < |parts| ==> sep !in parts[i]
    ensures Split(Join(parts, sep), sep) == parts
  {
    if |parts| == 1 {
      SplitOne(parts[0], sep);
    } else {
      SplitJoin(parts[1..], sep);
      SplitFirst(parts[0], sep, Join(parts[1..], sep));
      assert parts == [parts[0]] + parts[1..];
    }
  }

  /** Joining keeps parts of the same lengths apart. */
  lemma {:induction false} JoinSameLengths<T>(a: seq<seq<T>>, b: seq<seq<T>>, sep: T)
    requires a != [] && |a| == |b| && forall i :: 0 <= i < |a| ==> |a[i]| == |b[i]|
    requires Join(a, sep) == Join(b, sep)
    ensures a == b
  {
    var ja, jb := Join(a, sep), Join(b, sep);
    assert ja[..|a[0]|] == a[0] && jb[..|b[0]|] == b[0];
    if |a| > 1 {
      assert ja[|a[0]| + 1..] == Join(a[1..], sep) && jb[|b[0]| + 1..] == Join(b[1..], sep);
      JoinSameLengths(a[1..], b[1..], sep);
      assert a == [a[0]] + a[1..] && b == [b[0]] + b[1..];
    }
  }

  /** Joining shorter parts gives a shorter result. */
  lemma {:induction false} JoinShorter<T>(a: seq<seq<T>>, b: seq<seq<T>>, sep: T)
    requires a != [] && |a| == |b| && forall i :: 0 <= i < |a| ==> |a[i]| <= |b[i]|
    ensures |Join(a, sep)| <= |Join(b, sep)|
    ensures (exists i :: 0 <= i < |a| && |a[i]| < |b[i]|) ==> |Join(a, sep)| < |Join(b, sep)|
  {
    if |a| > 1 {
      JoinShorter(a[1..], b[1..], sep);
      if i :| 0 <= i < |a| && |a[i]| < |b[i]| {
        if i > 0 {
          assert a[1..][i - 1] == a[i] && b[1..][i - 1] == b[i];
        }
      }
    }
  }
}
