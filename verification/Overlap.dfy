/** The multiset overlap of two texts, and the sorted word list that is compared to
    detect reordered words. */
module Overlap {
  import opened Pieces

  // ---- overlap ------------------------------------------------------------- //

  /** How many characters of `a` find a partner in `b`. */
  function Shared(a: string, b: string): nat { |multiset(a) * multiset(b)| }

  function OverlapRatio(a: string, b: string): real {
    if a == "" then 1.0 else Shared(a, b) as real / |a| as real
  }

  lemma SharedAppend(a: string, b: string, c: char)
    ensures Shared(a + [c], b) == Shared(a, b) + (if multiset(a)[c] < multiset(b)[c] then 1 else 0)
  {
    var m, n := multiset(a) * multiset(b), multiset(a + [c]) * multiset(b);
    assert multiset(a + [c]) == multiset(a) + multiset{c};
    if multiset(a)[c] < multiset(b)[c] {
      assert n == m + multiset{c};
    } else {
      assert n == m;
    }
  }

  /** The dictionary pool still holding what `a` has not used up of `b`. */
  ghost predicate PoolLeft(pool: map<char, nat>, a: string, b: string) {
    forall c :: Left(pool, c) ==
                (if multiset(a)[c] < multiset(b)[c] then multiset(b)[c] - multiset(a)[c] else 0)
  }

  function Left(pool: map<char, nat>, c: char): nat { if c in pool then pool[c] else 0 }

  method CountChars(b: string) returns (pool: map<char, nat>)
    ensures forall c :: Left(pool, c) == multiset(b)[c]
  {
    pool := map[];
    for i := 0 to |b|
      invariant forall c :: Left(pool, c) == multiset(b[..i])[c]
    {
      assert b[..i + 1] == b[..i] + [b[i]];
      pool := pool[b[i] := Left(pool, b[i]) + 1];
    }
    assert b[..|b|] == b;
  }

  lemma UseOne(pool: map<char, nat>, a: string, b: string, c: char)
    requires PoolLeft(pool, a, b)
    ensures PoolLeft(if Left(pool, c) > 0 then pool[c := Left(pool, c) - 1] else pool, a + [c], b)
  {
    assert multiset(a + [c]) == multiset(a) + multiset{c};
  }

  /** One more character of `a`: it hits iff the pool still has one, and uses it up. */
  lemma CountStep(pool: map<char, nat>, a: string, b: string, i: nat)
    requires i < |a| && PoolLeft(pool, a[..i], b)
    ensures var n := Left(pool, a[i]);
            && Shared(a[..i + 1], b) == Shared(a[..i], b) + (if n > 0 then 1 else 0)
            && PoolLeft(if n > 0 then pool[a[i] := n - 1] else pool, a[..i + 1], b)
  {
    assert a[..i + 1] == a[..i] + [a[i]];
    SharedAppend(a[..i], b, a[i]);
    UseOne(pool, a[..i], b, a[i]);
  }

  method CountOverlap(a: string, b: string) returns (ratio: real)
    ensures ratio == OverlapRatio(a, b)
  {
    if a == "" {
      return 1.0;
    }
    var pool := CountChars(b);
    var hit := 0;
    assert a[..0] == "";
    for i := 0 to |a|
      invariant PoolLeft(pool, a[..i], b)
      invariant hit == Shared(a[..i], b)
    {
      var c := a[i];
      var n := Left(pool, c);
      CountStep(pool, a, b, i);
      if n > 0 {
        hit := hit + 1;
        pool := pool[c := n - 1];
      }
    }
    assert a[..|a|] == a;
    ratio := hit as real / |a| as real;
  }

  lemma DivideBySelf(x: real)
    requires x > 0.0
    ensures x / x == 1.0
  {
  }

  lemma FullOverlap(a: string, b: string)
    requires multiset(a) == multiset(b)
    ensures OverlapRatio(a, b) == 1.0
  {
    if a != "" {
      assert multiset(a) * multiset(b) == multiset(a);
      assert Shared(a, b) == |multiset(a)| == |a|;
      DivideBySelf(|a| as real);
    }
  }

  lemma EmptyOverlap(a: string)
    requires a != ""
    ensures OverlapRatio(a, "") == 0.0
  {
    assert multiset(a) * multiset("") == multiset{};
  }

  // ---- words ----------------------------------------------------------------- //

  function NonEmpty(words: seq<string>): seq<string> {
    if words == [] then [] else (if words[0] == "" then [] else [words[0]]) + NonEmpty(words[1..])
  }

  /** Code-point order. */
  predicate NotAfter(u: string, v: string) {
    u == "" || (v != "" && (u[0] < v[0] || (u[0] == v[0] && NotAfter(u[1..], v[1..]))))
  }

  function InsertWord(w: string, words: seq<string>): seq<string> {
    if words == [] || NotAfter(w, words[0]) then [w] + words
    else [words[0]] + InsertWord(w, words[1..])
  }

  function Sorted(words: seq<string>): seq<string> {
    if words == [] then [] else InsertWord(words[0], Sorted(words[1..]))
  }

  function SortedWords(s: string): string { Join(' ', Sorted(NonEmpty(Split(' ', s)))) }

  lemma JoinCons(w: string, words: seq<string>)
    ensures multiset(Join(' ', [w] + words)) ==
            multiset(w) + (if words == [] then multiset{} else multiset{' '}) + multiset(Join(' ', words))
  {
    assert ([w] + words)[1..] == words;
  }

  /** A word may change places with the first of the list. */
  lemma ExchangeFirst(w: string, u: string, rest: seq<string>, merged: seq<string>)
    requires merged != [] && multiset(Join(' ', merged)) == multiset(Join(' ', [w] + rest))
    ensures multiset(Join(' ', [u] + merged)) == multiset(Join(' ', [w] + ([u] + rest)))
  {
    JoinCons(u, merged);
    JoinCons(w, [u] + rest);
    JoinCons(w, rest);
    JoinCons(u, rest);
  }

  lemma {:induction false} InsertKeepsChars(w: string, words: seq<string>)
    ensures multiset(Join(' ', InsertWord(w, words))) == multiset(Join(' ', [w] + words))
    ensures InsertWord(w, words) != []
  {
    if words != [] && !NotAfter(w, words[0]) {
      var rest := words[1..];
      InsertKeepsChars(w, rest);
      ExchangeFirst(w, words[0], rest, InsertWord(w, rest));
      assert words == [words[0]] + rest;
    }
  }

  lemma {:induction false} SortKeepsChars(words: seq<string>)
    ensures multiset(Join(' ', Sorted(words))) == multiset(Join(' ', words)) && |Sorted(words)| == |words|
  {
    if words != [] {
      SortKeepsChars(words[1..]);
      InsertKeepsChars(words[0], Sorted(words[1..]));
      InsertLength(words[0], Sorted(words[1..]));
      JoinCons(words[0], Sorted(words[1..]));
      JoinCons(words[0], words[1..]);
      assert words == [words[0]] + words[1..];
    }
  }

  lemma {:induction false} InsertLength(w: string, words: seq<string>)
    ensures |InsertWord(w, words)| == |words| + 1
  {
    if words != [] && !NotAfter(w, words[0]) {
      InsertLength(w, words[1..]);
    }
  }

  lemma {:induction false} JoinSplit(s: string)
    ensures Join(' ', Split(' ', s)) == s
  {
    if s != "" {
      JoinSplit(s[1..]);
      var rest := Split(' ', s[1..]);
      if s[0] == ' ' {
        JoinCons("", rest);
        assert s == "" + " " + s[1..];
      } else {
        JoinLonger(s[0], rest);
        assert s == [s[0]] + s[1..];
      }
    }
  }

  lemma JoinLonger(c: char, words: seq<string>)
    requires words != []
    ensures Join(' ', [[c] + words[0]] + words[1..]) == [c] + Join(' ', words)
  {
    var longer := [[c] + words[0]] + words[1..];
    assert longer[1..] == words[1..];
  }

  /** No space at the end, and none right after a space. */
  predicate Spaced(s: string, afterSpace: bool) {
    if s == "" then !afterSpace
    else if s[0] == ' ' then !afterSpace && Spaced(s[1..], true)
    else Spaced(s[1..], false)
  }

  /** Single spaces only, and only between words. */
  predicate SingleSpaced(s: string) { s == "" || Spaced(s, true) }

  lemma {:induction false} NoEmptyWords(s: string, afterSpace: bool)
    requires Spaced(s, afterSpace)
    ensures forall i :: 1 <= i < |Split(' ', s)| ==> Split(' ', s)[i] != ""
    ensures afterSpace ==> Split(' ', s)[0] != ""
  {
    if s != "" {
      NoEmptyWords(s[1..], s[0] == ' ');
    }
  }

  lemma {:induction false} NothingToDrop(words: seq<string>)
    requires forall i :: 0 <= i < |words| ==> words[i] != ""
    ensures NonEmpty(words) == words
  {
    if words != [] {
      NothingToDrop(words[1..]);
    }
  }

  /** Sorting the words of a single-spaced text permutes its characters. */
  lemma SortedWordsPermute(s: string)
    requires SingleSpaced(s)
    ensures multiset(SortedWords(s)) == multiset(s)
  {
    if s == "" {
      assert NonEmpty([""]) == [];
    } else {
      NoEmptyWords(s, true);
      NothingToDrop(Split(' ', s));
      SortKeepsChars(Split(' ', s));
      JoinSplit(s);
    }
  }
}
