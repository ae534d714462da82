/** Python's order on text and the sequences `sorted` makes of distinct texts. */
module Ordering {
  import opened Prelude

  /** Lexicographic, by code point. */
  predicate Before(a: string, b: string) {
    b != "" && (a == "" || a[0] < b[0] || (a[0] == b[0] && Before(a[1..], b[1..])))
  }

  lemma {:induction false} BeforeIsStrict(a: string, b: string)
    ensures !(Before(a, b) && Before(b, a)) && !Before(a, a)
  {
    if a != "" {
      BeforeIsStrict(a[1..], if b == "" then "" else b[1..]);
    }
  }

  lemma {:induction false} BeforeIsTransitive(a: string, b: string, c: string)
    requires Before(a, b) && Before(b, c)
    ensures Before(a, c)
  {
    if a != "" && a[0] == b[0] && b[0] == c[0] {
      BeforeIsTransitive(a[1..], b[1..], c[1..]);
    }
  }

  lemma {:induction false} BeforeIsTotal(a: string, b: string)
    requires a != b
    ensures Before(a, b) || Before(b, a)
  {
    if a != "" && b != "" && a[0] == b[0] {
      assert a == [a[0]] + a[1..] && b == [b[0]] + b[1..];
      BeforeIsTotal(a[1..], b[1..]);
    }
  }

  /** Strictly ascending, or strictly descending for `reverse=True`. */
  predicate InOrder(reverse: bool, a: string, b: string) {
    if reverse then Before(b, a) else Before(a, b)
  }

  ghost predicate Ordered(reverse: bool, s: seq<string>) {
    forall i, j :: 0 <= i < j < |s| ==> InOrder(reverse, s[i], s[j])
  }

  function Members<T(==)>(s: seq<T>): set<T> {
    set i | 0 <= i < |s| :: s[i]
  }

  /** An order leaves no choice: two ordered sequences of the same texts are the same sequence. */
  lemma {:induction false} OrderedIsUnique(reverse: bool, s: seq<string>, t: seq<string>)
    requires Ordered(reverse, s) && Ordered(reverse, t) && Members(s) == Members(t)
    ensures s == t
  {
    NoMembers(s);
    NoMembers(t);
    if s != [] {
      SameFirst(reverse, s, t);
      TailMembers(reverse, s);
      TailMembers(reverse, t);
      OrderedIsUnique(reverse, s[1..], t[1..]);
      assert s == [s[0]] + s[1..] && t == [t[0]] + t[1..];
    }
  }

  lemma NoMembers<T>(s: seq<T>)
    ensures Members(s) == {} <==> s == []
  {
    if s != [] {
      assert s[0] in Members(s);
    }
  }

  lemma SameFirst(reverse: bool, s: seq<string>, t: seq<string>)
    requires Ordered(reverse, s) && Ordered(reverse, t) && Members(s) == Members(t) && s != [] && t != []
    ensures s[0] == t[0]
  {
    assert s[0] in Members(s) && t[0] in Members(t);
    var i :| 0 <= i < |s| && s[i] == t[0];
    var j :| 0 <= j < |t| && t[j] == s[0];
    BeforeIsStrict(s[0], t[0]);
  }

  lemma TailMembers(reverse: bool, s: seq<string>)
    requires Ordered(reverse, s) && s != []
    ensures Ordered(reverse, s[1..]) && Members(s[1..]) == Members(s) - {s[0]}
  {
    BeforeIsStrict(s[0], s[0]);
    forall text | text in Members(s) - {s[0]} ensures text in Members(s[1..]) {
      var i :| 0 <= i < |s| && s[i] == text;
      assert s[1..][i - 1] == text;
    }
    forall text | text in Members(s[1..]) ensures text in Members(s) - {s[0]} {
      var i :| 0 <= i < |s[1..]| && s[1..][i] == text;
      assert s[i + 1] == text;
      BeforeIsStrict(s[0], s[i + 1]);
    }
  }

  lemma OrderedIsDistinct(reverse: bool, s: seq<string>)
    requires Ordered(reverse, s)
    ensures Distinct(s)
  {
    forall i, j | 0 <= i < j < |s| ensures s[i] != s[j] {
      BeforeIsStrict(s[i], s[i]);
    }
  }

  lemma Append<T>(s: seq<T>, x: T)
    requires Distinct(s) && x !in Members(s)
    ensures Distinct(s + [x]) && Members(s + [x]) == Members(s) + {x}
  {
    var r := s + [x];
    forall i | 0 <= i < |s| ensures r[i] != x {
      assert s[i] in Members(s);
    }
    forall y | y in Members(s) + {x} ensures y in Members(r) {
      if y == x {
        assert r[|s|] == y;
      } else {
        var i :| 0 <= i < |s| && s[i] == y;
        assert r[i] == y;
      }
    }
  }

  lemma {:induction false} DistinctMembers<T>(s: seq<T>)
    requires Distinct(s)
    ensures |Members(s)| == |s|
  {
    if s != [] {
      var rest, last := s[..|s| - 1], s[|s| - 1];
      DistinctMembers(rest);
      NotIn(rest, last);
      Append(rest, last);
      assert s == rest + [last];
    }
  }

  lemma NotIn<T>(s: seq<T>, x: T)
    requires forall i :: 0 <= i < |s| ==> s[i] != x
    ensures x !in Members(s)
  {
  }

  /** One text put where it belongs. */
  function Insert(reverse: bool, text: string, s: seq<string>): seq<string> {
    if s == [] || InOrder(reverse, text, s[0]) then [text] + s else [s[0]] + Insert(reverse, text, s[1..])
  }

  lemma {:induction false} InsertKeepsOrder(reverse: bool, text: string, s: seq<string>)
    requires Ordered(reverse, s) && text !in Members(s)
    ensures Ordered(reverse, Insert(reverse, text, s)) && Members(Insert(reverse, text, s)) == Members(s) + {text}
    ensures |Insert(reverse, text, s)| == |s| + 1
  {
    var r := Insert(reverse, text, s);
    if s == [] || InOrder(reverse, text, s[0]) {
      assert r[0] == text && forall i :: 1 <= i < |r| ==> r[i] == s[i - 1];
      forall i | 1 <= i < |r| ensures InOrder(reverse, text, r[i]) {
        if i > 1 {
          if reverse {
            BeforeIsTransitive(s[i - 1], s[0], text);
          } else {
            BeforeIsTransitive(text, s[0], s[i - 1]);
          }
        }
      }
      PrependMembers(text, s);
    } else {
      assert s[0] in Members(s);
      BeforeIsTotal(text, s[0]);
      TailMembers(reverse, s);
      InsertKeepsOrder(reverse, text, s[1..]);
      var rest := Insert(reverse, text, s[1..]);
      forall i | 0 <= i < |rest| ensures InOrder(reverse, s[0], rest[i]) {
        assert rest[i] in Members(rest);
        if rest[i] != text {
          var j :| 0 <= j < |s[1..]| && s[1..][j] == rest[i];
          assert s[j + 1] == rest[i];
        }
      }
      assert r == [s[0]] + rest;
      PrependMembers(s[0], rest);
    }
  }

  lemma PrependMembers<T>(x: T, s: seq<T>)
    ensures Members([x] + s) == {x} + Members(s)
  {
    var r := [x] + s;
    forall y | y in {x} + Members(s) ensures y in Members(r) {
      if y == x {
        assert r[0] == y;
      } else {
        var i :| 0 <= i < |s| && s[i] == y;
        assert r[i + 1] == y;
      }
    }
  }

  /** `sorted(texts, reverse=...)` of a collection without repetitions. */
  method Sort(reverse: bool, texts: set<string>) returns (sorted: seq<string>)
    ensures Ordered(reverse, sorted) && Members(sorted) == texts && |sorted| == |texts|
  {
    var rest := texts;
    sorted := [];
    while rest != {}
      invariant rest <= texts && Ordered(reverse, sorted) && Members(sorted) == texts - rest
      invariant |sorted| + |rest| == |texts|
      decreases |rest|
    {
      var text :| text in rest;
      InsertKeepsOrder(reverse, text, sorted);
      sorted := Insert(reverse, text, sorted);
      rest := rest - {text};
    }
  }

  lemma {:induction false} OrderedExists(reverse: bool, texts: set<string>)
    ensures exists s :: Ordered(reverse, s) && Members(s) == texts
  {
    if texts == {} {
      var none: seq<string> := [];
      assert Ordered(reverse, none) && Members(none) == texts;
    } else {
      var text :| text in texts;
      OrderedExists(reverse, texts - {text});
      var s :| Ordered(reverse, s) && Members(s) == texts - {text};
      InsertKeepsOrder(reverse, text, s);
      assert Members(Insert(reverse, text, s)) == texts;
    }
  }

  /** The one ordered sequence of these texts. */
  ghost function Sorted(reverse: bool, texts: set<string>): (s: seq<string>)
    ensures Ordered(reverse, s) && Members(s) == texts
  {
    OrderedExists(reverse, texts);
    var s :| Ordered(reverse, s) && Members(s) == texts;
    s
  }
}
