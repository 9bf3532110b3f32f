/** What equal sorted word texts say: the same words, each as often. */
module Words {
  import opened Pieces
  import opened Overlap

  // ---- code-point order ---------------------------------------------------------- //

  lemma {:induction false} OrderTotal(u: string, v: string)
    ensures NotAfter(u, v) || NotAfter(v, u)
    ensures NotAfter(u, v) && NotAfter(v, u) ==> u == v
    decreases |u|
  {
    if u != "" && v != "" {
      OrderTotal(u[1..], v[1..]);
      assert u == [u[0]] + u[1..] && v == [v[0]] + v[1..];
    }
  }

  lemma {:induction false} OrderTransitive(u: string, v: string, w: string)
    requires NotAfter(u, v) && NotAfter(v, w)
    ensures NotAfter(u, w)
    decreases |u|
  {
    if u != "" && u[0] == v[0] == w[0] {
      OrderTransitive(u[1..], v[1..], w[1..]);
    }
  }

  ghost predicate Ordered(words: seq<string>) {
    forall i, j :: 0 <= i < j < |words| ==> NotAfter(words[i], words[j])
  }

  // ---- sorting ---------------------------------------------------------------------- //

  lemma {:induction false} InsertKeepsWords(w: string, words: seq<string>)
    ensures multiset(InsertWord(w, words)) == multiset(words) + multiset{w}
    decreases |words|
  {
    if words != [] {
      assert words == [words[0]] + words[1..];
      if !NotAfter(w, words[0]) { InsertKeepsWords(w, words[1..]); }
    }
  }

  lemma OrderedCons(w: string, words: seq<string>)
    requires Ordered(words) && forall v :: v in multiset(words) ==> NotAfter(w, v)
    ensures Ordered([w] + words)
  {
    forall j | 0 <= j < |words| ensures NotAfter(w, words[j]) {
      assert words[j] in multiset(words);
    }
  }

  lemma {:induction false} InsertOrders(w: string, words: seq<string>)
    requires Ordered(words)
    ensures Ordered(InsertWord(w, words))
    decreases |words|
  {
    if words != [] {
      var first, rest := words[0], words[1..];
      OrderTotal(w, first);
      if NotAfter(w, first) {
        forall v | v in multiset(words) ensures NotAfter(w, v) {
          var i :| 0 <= i < |words| && words[i] == v;
          if i > 0 { OrderTransitive(w, first, v); }
        }
        OrderedCons(w, words);
      } else {
        InsertOrders(w, rest);
        InsertKeepsWords(w, rest);
        forall v | v in multiset(InsertWord(w, rest)) ensures NotAfter(first, v) {
          if v != w {
            var i :| 0 <= i < |rest| && rest[i] == v;
            assert words[i + 1] == v;
          }
        }
        OrderedCons(first, InsertWord(w, rest));
      }
    }
  }

  lemma {:induction false} SortedIsSorted(words: seq<string>)
    ensures Ordered(Sorted(words)) && multiset(Sorted(words)) == multiset(words)
    decreases |words|
  {
    if words != [] {
      SortedIsSorted(words[1..]);
      InsertOrders(words[0], Sorted(words[1..]));
      InsertKeepsWords(words[0], Sorted(words[1..]));
      assert words == [words[0]] + words[1..];
    }
  }

  lemma FirstIsLeast(a: seq<string>, b: seq<string>)
    requires Ordered(a) && Ordered(b) && multiset(a) == multiset(b) && a != [] && b != []
    ensures a[0] == b[0]
  {
    assert a[0] in multiset(b) && b[0] in multiset(a);
    var i :| 0 <= i < |b| && b[i] == a[0];
    var j :| 0 <= j < |a| && a[j] == b[0];
    OrderTotal(a[0], b[0]);
    assert i > 0 ==> NotAfter(b[0], a[0]);
    assert j > 0 ==> NotAfter(a[0], b[0]);
  }

  /** Only one order of the words is sorted. */
  lemma {:induction false} OneOrder(a: seq<string>, b: seq<string>)
    requires Ordered(a) && Ordered(b) && multiset(a) == multiset(b)
    ensures a == b
    decreases |a|
  {
    assert |multiset(a)| == |a| && |multiset(b)| == |b|;
    if a != [] {
      FirstIsLeast(a, b);
      assert a == [a[0]] + a[1..] && b == [b[0]] + b[1..];
      assert multiset(a[1..]) == multiset(a) - multiset{a[0]} == multiset(b[1..]);
      OneOrder(a[1..], b[1..]);
    }
  }

  // ---- word texts ------------------------------------------------------------------- //

  function WordsOf(s: string): seq<string> { NonEmpty(Split(' ', s)) }

  predicate Bare(words: seq<string>) { forall w :: w in words ==> w != "" && ' ' !in w }

  lemma {:induction false} NonEmptyKeeps(words: seq<string>)
    requires forall w :: w in words ==> ' ' !in w
    ensures Bare(NonEmpty(words))
    decreases |words|
  {
    if words != [] {
      NonEmptyKeeps(words[1..]);
    }
  }

  lemma {:induction false} PiecesUnspaced(s: string)
    ensures forall w :: w in Split(' ', s) ==> ' ' !in w
    decreases |s|
  {
    if s != "" {
      PiecesUnspaced(s[1..]);
      assert Split(' ', s[1..])[0] in Split(' ', s[1..]);
    }
  }

  lemma {:induction false} NonEmptyAll(words: seq<string>)
    requires Bare(words)
    ensures NonEmpty(words) == words
    decreases |words|
  {
    if words != [] {
      assert words[0] in words;
      assert forall w :: w in words[1..] ==> w in words;
      NonEmptyAll(words[1..]);
      assert words == [words[0]] + words[1..];
    }
  }

  /** Sorted words can be read off their text. */
  lemma WordsReadBack(words: seq<string>)
    requires Bare(words)
    ensures WordsOf(Join(' ', words)) == words
  {
    if words == [] {
      assert Split(' ', "") == [""];
    } else {
      assert forall i :: 0 <= i < |words| ==> words[i] in words;
      SplitJoin(' ', words);
      NonEmptyAll(words);
    }
  }

  lemma SortedBare(words: seq<string>)
    requires Bare(words)
    ensures Bare(Sorted(words))
  {
    SortedIsSorted(words);
    forall w | w in Sorted(words) ensures w in words {
      assert w in multiset(Sorted(words));
    }
  }

  /** Two texts have the same sorted word text exactly if they have the same words, each as
      often. */
  lemma SameWordsIff(s: string, t: string)
    ensures SortedWords(s) == SortedWords(t) <==> multiset(WordsOf(s)) == multiset(WordsOf(t))
  {
    PiecesUnspaced(s);
    PiecesUnspaced(t);
    NonEmptyKeeps(Split(' ', s));
    NonEmptyKeeps(Split(' ', t));
    SortedIsSorted(WordsOf(s));
    SortedIsSorted(WordsOf(t));
    SortedBare(WordsOf(s));
    SortedBare(WordsOf(t));
    WordsReadBack(Sorted(WordsOf(s)));
    WordsReadBack(Sorted(WordsOf(t)));
    if multiset(WordsOf(s)) == multiset(WordsOf(t)) {
      OneOrder(Sorted(WordsOf(s)), Sorted(WordsOf(t)));
    }
  }
}
