/**
  Joining sentences into one text, as Python's `str.join` does, and reading
  such a text back. Reading back works over any vocabulary of sentences none
  of which is a prefix of another: the first sentence that starts the text is
  the only one that can, so the split is forced.
 */
module Sentences {

  import opened Wrappers

  function SumLengths(parts: seq<string>): nat
  {
    if parts == [] then 0 else |parts[0]| + SumLengths(parts[1..])
  }

  /** Python's `sep.join(parts)`. */
  function Join(parts: seq<string>, sep: string): (s: string)
    ensures parts == [] ==> s == []
    ensures parts != [] ==> parts[0] <= s
    ensures parts != [] ==> |s| == SumLengths(parts) + (|parts| - 1) * |sep|
  {
    if |parts| == 0 then []
    else if |parts| == 1 then parts[0]
    else parts[0] + sep + Join(parts[1..], sep)
  }

  /** The sentence of each element, in order. */
  function Spell<T>(text: T -> string, xs: seq<T>): (ts: seq<string>)
    ensures |ts| == |xs|
    ensures forall i :: 0 <= i < |xs| ==> ts[i] == text(xs[i])
  {
    if xs == [] then [] else [text(xs[0])] + Spell(text, xs[1..])
  }

  /** The sentences of `xs` joined by single spaces. */
  function Render<T>(text: T -> string, xs: seq<T>): (s: string)
    ensures xs == [] ==> s == []
    ensures xs != [] ==> text(xs[0]) <= s
    ensures xs != [] ==> |s| == SumLengths(Spell(text, xs)) + |xs| - 1
  {
    Join(Spell(text, xs), " ")
  }

  /** Every sentence of the vocabulary is non-empty. */
  predicate NonEmpty<T>(text: T -> string, vocab: seq<T>)
  {
    forall i :: 0 <= i < |vocab| ==> |text(vocab[i])| > 0
  }

  /** No sentence of the vocabulary is a prefix of the sentence of a different word. */
  predicate PrefixFree<T(==)>(text: T -> string, vocab: seq<T>)
  {
    forall i, j ::
      0 <= i < |vocab| && 0 <= j < |vocab| && vocab[i] != vocab[j] ==>
        !(text(vocab[i]) <= text(vocab[j]))
  }

  /** The first word of `candidates` whose sentence starts `s`. */
  function FirstMatch<T>(text: T -> string, candidates: seq<T>, s: string): (r: Option<T>)
    ensures r.Some? ==> r.value in candidates && text(r.value) <= s
    ensures r.None? ==> forall i :: 0 <= i < |candidates| ==> !(text(candidates[i]) <= s)
  {
    if candidates == [] then None
    else if text(candidates[0]) <= s then Some(candidates[0])
    else FirstMatch(text, candidates[1..], s)
  }

  /** Splits `s` into vocabulary sentences separated by single spaces; None if it is not such a text. */
  function Decode<T>(text: T -> string, vocab: seq<T>, s: string): Option<seq<T>>
    requires NonEmpty(text, vocab)
    decreases |s|
  {
    if s == [] then Some([])
    else
      match FirstMatch(text, vocab, s)
      case None => None
      case Some(x) =>
        var n := |text(x)|;
        if n == |s| then Some([x])
        else if s[n] == ' ' && n + 1 < |s| then
          match Decode(text, vocab, s[n + 1..])
          case None => None
          case Some(rest) => Some([x] + rest)
        else None
  }

  /** In a prefix-free vocabulary the sentence that starts `s` is the one found. */
  lemma FirstMatchUnique<T>(text: T -> string, vocab: seq<T>, s: string, x: T)
    requires PrefixFree(text, vocab)
    requires x in vocab && text(x) <= s
    ensures FirstMatch(text, vocab, s) == Some(x)
  {
  }

  /** Decoding inverts rendering: a rendered text determines its word list. */
  lemma {:induction false} DecodeRender<T>(text: T -> string, vocab: seq<T>, xs: seq<T>)
    requires NonEmpty(text, vocab) && PrefixFree(text, vocab)
    requires forall i :: 0 <= i < |xs| ==> xs[i] in vocab
    ensures Decode(text, vocab, Render(text, xs)) == Some(xs)
  {
    if xs != [] {
      var s := Render(text, xs);
      var x := xs[0];
      var n := |text(x)|;
      assert Spell(text, xs)[0] == text(x);
      FirstMatchUnique(text, vocab, s, x);
      var j :| 0 <= j < |vocab| && vocab[j] == x;
      assert n > 0;
      if |xs| == 1 {
        assert s == text(x);
        assert xs == [x];
      } else {
        var tail := Render(text, xs[1..]);
        assert Spell(text, xs)[1..] == Spell(text, xs[1..]);
        assert s == text(x) + " " + tail;
        var k :| 0 <= k < |vocab| && vocab[k] == xs[1];
        assert Spell(text, xs[1..])[0] == text(xs[1]);
        assert |tail| > 0;
        assert s[n] == ' ';
        assert s[n + 1..] == tail;
        DecodeRender(text, vocab, xs[1..]);
        assert [x] + xs[1..] == xs;
      }
    }
  }

  /** Decoding is sound: a text that decodes to a word list is that list rendered. */
  lemma {:induction false} DecodeSound<T>(text: T -> string, vocab: seq<T>, s: string, xs: seq<T>)
    requires NonEmpty(text, vocab)
    requires Decode(text, vocab, s) == Some(xs)
    ensures s == Render(text, xs)
    decreases |s|
  {
    if s != [] {
      var x := FirstMatch(text, vocab, s).value;
      var n := |text(x)|;
      assert text(x) <= s;
      if n == |s| {
        assert xs == [x];
        assert s == text(x);
      } else {
        var rest := Decode(text, vocab, s[n + 1..]).value;
        assert xs == [x] + rest;
        DecodeSound(text, vocab, s[n + 1..], rest);
        assert rest != [];
        assert Spell(text, xs) == [text(x)] + Spell(text, rest);
        assert s == text(x) + " " + s[n + 1..];
      }
    }
  }
}
