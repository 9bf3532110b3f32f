/** Splitting texts on a separator, joining them, and the smaller and larger of two numbers. */
module Pieces {
  function Min(a: int, b: int): int { if a <= b then a else b }

  function Max(a: int, b: int): int { if a >= b then a else b }

  /** `sep.join(items)`. */
  function Join(sep: char, items: seq<string>): string {
    if items == [] then "" else if |items| == 1 then items[0]
    else items[0] + [sep] + Join(sep, items[1..])
  }

  /** `text.split(sep)`. */
  function Split(sep: char, text: string): (parts: seq<string>)
    ensures parts != []
  {
    if text == "" then [""]
    else
      var rest := Split(sep, text[1..]);
      if text[0] == sep then [""] + rest else [[text[0]] + rest[0]] + rest[1..]
  }

  lemma {:induction false} SplitOne(sep: char, item: string)
    requires sep !in item
    ensures Split(sep, item) == [item]
    decreases |item|
  {
    if item != "" {
      SplitOne(sep, item[1..]);
      assert [item[0]] + item[1..] == item;
    }
  }

  lemma {:induction false} SplitFirst(sep: char, item: string, rest: string)
    requires sep !in item
    ensures Split(sep, item + [sep] + rest) == [item] + Split(sep, rest)
    decreases |item|
  {
    var text := item + [sep] + rest;
    if item == "" {
      assert text[1..] == rest;
    } else {
      SplitFirst(sep, item[1..], rest);
      assert text[1..] == item[1..] + [sep] + rest;
      assert [item[0]] + item[1..] == item;
      var parts := Split(sep, text[1..]);
      assert parts[0] == item[1..] && parts[1..] == Split(sep, rest);
    }
  }

  lemma {:induction false} SplitJoin(sep: char, items: seq<string>)
    requires items != [] && forall i :: 0 <= i < |items| ==> sep !in items[i]
    ensures Split(sep, Join(sep, items)) == items
    decreases |items|
  {
    if |items| == 1 {
      SplitOne(sep, items[0]);
    } else {
      SplitJoin(sep, items[1..]);
      SplitFirst(sep, items[0], Join(sep, items[1..]));
      assert [items[0]] + items[1..] == items;
    }
  }
}
