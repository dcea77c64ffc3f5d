/** Cutting a sequence at every occurrence of a separator, as `strings.Split` does. */
module Splitting {

  /** One more element in front: a new empty piece, or one more element of the first piece. */
  function Grown<T(==)>(c: T, pieces: seq<seq<T>>, sep: T): seq<seq<T>>
    requires |pieces| > 0
  {
    if c == sep then [[]] + pieces else [[c] + pieces[0]] + pieces[1..]
  }

  /** The pieces between separators. */
  function Split<T(==)>(s: seq<T>, sep: T): (r: seq<seq<T>>)
    ensures |r| > 0
  {
    if s == [] then [[]] else Grown(s[0], Split(s[1..], sep), sep)
  }

  function Join<T>(pieces: seq<seq<T>>, sep: T): seq<T>
    requires |pieces| > 0
  {
    if |pieces| == 1 then pieces[0] else pieces[0] + [sep] + Join(pieces[1..], sep)
  }

  lemma {:induction false} JoinGrows<T>(c: T, pieces: seq<seq<T>>, sep: T)
    requires |pieces| > 0
    ensures Join([[c] + pieces[0]] + pieces[1..], sep) == [c] + Join(pieces, sep)
  {
    var grown := [[c] + pieces[0]] + pieces[1..];
    assert grown[1..] == pieces[1..];
  }

  lemma {:induction false} SplitJoins<T>(s: seq<T>, sep: T)
    ensures Join(Split(s, sep), sep) == s && forall i :: 0 <= i < |Split(s, sep)| ==> sep !in Split(s, sep)[i]
  {
    if s != [] {
      var rest := Split(s[1..], sep);
      SplitJoins(s[1..], sep);
      assert s == [s[0]] + s[1..];
      if s[0] == sep {
        assert ([[]] + rest)[1..] == rest;
        assert [] + [sep] + s[1..] == s;
      } else {
        JoinGrows(s[0], rest, sep);
      }
    }
  }

  lemma {:induction false} SplitPlain<T>(p: seq<T>, sep: T)
    requires sep !in p
    ensures Split(p, sep) == [p]
  {
    if p != [] {
      SplitPlain(p[1..], sep);
      assert p == [p[0]] + p[1..];
    }
  }

  lemma GrownSep<T>(pieces: seq<seq<T>>, sep: T)
    requires |pieces| > 0
    ensures Grown(sep, pieces, sep) == [[]] + pieces
  {
  }

  lemma GrownAppend<T>(c: T, a: seq<seq<T>>, b: seq<seq<T>>, sep: T)
    requires |a| > 0
    ensures Grown(c, a + b, sep) == Grown(c, a, sep) + b
  {
    assert (a + b)[1..] == a[1..] + b;
  }

  /** Splitting what was put together with a separator gives the pieces of both parts. */
  lemma {:induction false} SplitConcat<T>(a: seq<T>, sep: T, b: seq<T>)
    ensures Split(a + [sep] + b, sep) == Split(a, sep) + Split(b, sep)
  {
    hide Grown;
    var s := a + [sep] + b;
    if a == [] {
      assert s[0] == sep && s[1..] == b;
      GrownSep(Split(b, sep), sep);
    } else {
      assert s[0] == a[0] && s[1..] == a[1..] + [sep] + b;
      SplitConcat(a[1..], sep, b);
      GrownAppend(a[0], Split(a[1..], sep), Split(b, sep), sep);
    }
  }

  lemma {:induction false} SplitOfJoin<T>(pieces: seq<seq<T>>, sep: T)
    requires |pieces| > 0 && forall i :: 0 <= i < |pieces| ==> sep !in pieces[i]
    ensures Split(Join(pieces, sep), sep) == pieces
  {
    SplitPlain(pieces[0], sep);
    if |pieces| == 1 {
      assert pieces == [pieces[0]];
    } else {
      SplitOfJoin(pieces[1..], sep);
      SplitConcat(pieces[0], sep, Join(pieces[1..], sep));
      assert pieces == [pieces[0]] + pieces[1..];
    }
  }

  /** The split is the one list of separator-free pieces that joins to the text. */
  lemma SplitIff<T>(s: seq<T>, sep: T, pieces: seq<seq<T>>)
    requires |pieces| > 0
    ensures pieces == Split(s, sep) <==> Join(pieces, sep) == s && forall i :: 0 <= i < |pieces| ==> sep !in pieces[i]
  {
    SplitJoins(s, sep);
    if Join(pieces, sep) == s && forall i :: 0 <= i < |pieces| ==> sep !in pieces[i] {
      SplitOfJoin(pieces, sep);
    }
  }
}
