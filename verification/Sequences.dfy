/** Concatenation. The verifier knows these facts but does not look for them. */
module Sequences {

  lemma ConcatIsAssociative<T>(a: seq<T>, b: seq<T>, c: seq<T>)
    ensures a + (b + c) == a + b + c
  {
  }

  lemma NothingAfter<T>(a: seq<T>)
    ensures a + [] == a
  {
  }

  /** All the `texts`, one after the other. */
  function Concat(texts: seq<string>): string
  {
    if texts == [] then "" else texts[0] + Concat(texts[1..])
  }

  lemma ConcatCons(text: string, texts: seq<string>)
    ensures Concat([text] + texts) == text + Concat(texts)
  {
    assert ([text] + texts)[1..] == texts;
  }

  lemma {:induction false} ConcatOne(texts: seq<string>, last: string)
    ensures Concat(texts + [last]) == Concat(texts) + last
  {
    if texts == [] {
      ConcatCons(last, []);
      NothingAfter(last);
    } else {
      ConcatOne(texts[1..], last);
      assert texts + [last] == [texts[0]] + (texts[1..] + [last]);
      ConcatCons(texts[0], texts[1..] + [last]);
      ConcatIsAssociative(texts[0], Concat(texts[1..]), last);
    }
  }
}
