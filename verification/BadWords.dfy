/** NoBadWordsLogitsProcessor: which tokens it bans, and why a generation that respects it
    never contains a bad word. */
module BadWords {

  /** A logit as IEEE arithmetic sees it, with exact reals for the finite values. */
  datatype Logit = NegInf | Finite(value: real) | PosInf | NaN {
    /** Can be sampled: compares greater than minus infinity. */
    predicate Above() { Finite? || PosInf? }
  }

  function Add(a: Logit, b: Logit): Logit
  {
    if a.NaN? || b.NaN? then NaN
    else if a.Finite? && b.Finite? then Finite(a.value + b.value)
    else if a.Finite? then b
    else if b.Finite? then a
    else if a == b then a
    else NaN
  }

  type Word = seq<int>

  /** Token tok after past completes word w. */
  ghost predicate Completes(past: seq<int>, w: Word, tok: int)
  {
    && 0 < |w| <= |past| + 1 && w[|w| - 1] == tok
    && past[|past| - (|w| - 1)..] == w[..|w| - 1]
  }

  ghost predicate Banned(words: seq<Word>, past: seq<int>, tok: int)
  {
    exists i :: 0 <= i < |words| && Completes(past, words[i], tok)
  }

  predicate InVocabulary(words: seq<Word>, n: nat)
  {
    forall i, j :: 0 <= i < |words| && 0 <= j < |words[i]| ==> 0 <= words[i][j] < n
  }

  /** Some token of some word is negative or not below n. */
  ghost predicate SomeOutside(words: seq<Word>, n: nat)
  {
    exists w: Word, tok: int :: w in words && tok in w && (tok < 0 || n <= tok)
  }

  lemma OutsideIsOutside(words: seq<Word>, n: nat)
    ensures SomeOutside(words, n) <==> !InVocabulary(words, n)
  {
    if !InVocabulary(words, n) {
      var i, j :| 0 <= i < |words| && 0 <= j < |words[i]| && !(0 <= words[i][j] < n);
      assert words[i] in words && words[i][j] in words[i];
    }
  }

  // ---- the processor ------------------------------------------------------

  /** The bias tensor, built on the first call. */
  datatype WordBias = Unset | Bias(values: seq<Logit>)

  datatype Result = Logits(values: seq<Logit>) | ValueError | IndexError

  const ZERO: Logit := Finite(0.0)

  /** A bias that bans exactly the tokens banned by the words seen so far. */
  ghost predicate BansExactly(bias: seq<Logit>, banned: int -> bool)
  {
    forall tok :: 0 <= tok < |bias| ==> bias[tok] == if banned(tok) then NegInf else ZERO
  }

  class NoBadWordsLogitsProcessor {
    const words: seq<Word>
    var wordBias: WordBias

    constructor (words: seq<Word>)
      ensures this.words == words && wordBias == Unset && Valid()
    {
      this.words, wordBias := words, Unset;
    }

    /** A bias once built bans the one-token words and nothing else. */
    ghost predicate Valid()
      reads this
    {
      wordBias.Bias? ==>
        InVocabulary(words, |wordBias.values|) && BansExactly(wordBias.values, tok => [tok] in words)
    }

    method InitWordBias(vocabulary: nat) returns (ok: bool)
      requires wordBias == Unset
      modifies this
      ensures Valid() && (ok <==> !SomeOutside(words, vocabulary))
      ensures if ok then wordBias.Bias? && |wordBias.values| == vocabulary else wordBias == Unset
    {
      OutsideIsOutside(words, vocabulary);
      ok := InVocabulary(words, vocabulary);
      if !ok { return; }
      var bias := seq(vocabulary, _ => ZERO);
      for i := 0 to |words|
        invariant |bias| == vocabulary && BansExactly(bias, tok => [tok] in words[..i])
      {
        if |words[i]| == 1 {
          assert words[i] == [words[i][0]];
          bias := bias[words[i][0] := NegInf];
        }
        assert words[..i + 1] == words[..i] + [words[i]];
      }
      assert words[..|words|] == words;
      wordBias := Bias(bias);
    }

    /** One call: a token that would complete a bad word ends at minus infinity, or at NaN if it was
        NaN or plus infinity; every other logit comes back unchanged. */
    method Call(past: seq<int>, logits: seq<Logit>) returns (r: Result)
      requires Valid() && (wordBias.Bias? ==> |wordBias.values| == |logits|)
      modifies this
      ensures Valid()
      ensures wordBias.Bias? ==> |wordBias.values| == |logits|
      ensures r.ValueError? <==> SomeOutside(words, |logits|)
      ensures r.IndexError? <==> !SomeOutside(words, |logits|) && [] in words
      ensures r.Logits? ==>
        && |r.values| == |logits|
        && forall tok :: 0 <= tok < |logits| ==>
             r.values[tok] == if !Banned(words, past, tok) then logits[tok]
                              else if logits[tok].NaN? || logits[tok].PosInf? then NaN else NegInf
    {
      OutsideIsOutside(words, |logits|);
      hide InVocabulary, SomeOutside, Completes;
      if wordBias.Unset? {
        var ok := InitWordBias(|logits|);
        if !ok { return ValueError; }
      }
      var last := seq(|logits|, _ => ZERO);
      for i := 0 to |words|
        invariant Valid() && wordBias.Bias? && |wordBias.values| == |logits|
        invariant |last| == |logits| && [] !in words[..i]
        invariant BansExactly(last, tok => LongBanned(words[..i], past, tok))
      {
        var w := words[i];
        assert words[..i + 1] == words[..i] + [w];
        LongSnoc(words[..i], w, past);
        if |w| == 1 { continue; }
        if |w| > |past| + 1 { continue; }
        if |w| == 0 { return IndexError; }
        var n := |w| - 1;
        var isMatch := past[|past| - n..] == w[..n];
        last := last[w[n] := Add(last[w[n]], if isMatch then NegInf else ZERO)];
      }
      assert words[..|words|] == words;
      var bias := wordBias.values;
      var values := seq(|logits|, tok requires 0 <= tok < |logits| => Add(Add(logits[tok], bias[tok]), last[tok]));
      forall tok | 0 <= tok < |logits|
        ensures values[tok] == if !Banned(words, past, tok) then logits[tok]
                               else if logits[tok].NaN? || logits[tok].PosInf? then NaN else NegInf
      {
        BannedSplit(words, past, tok);
      }
      r := Logits(values);
    }
  }

  /** Banned by a word of two or more tokens. */
  ghost predicate LongBanned(words: seq<Word>, past: seq<int>, tok: int)
  {
    exists i :: 0 <= i < |words| && |words[i]| > 1 && Completes(past, words[i], tok)
  }

  lemma LongSnoc(words: seq<Word>, w: Word, past: seq<int>)
    ensures forall tok :: LongBanned(words + [w], past, tok) <==>
      LongBanned(words, past, tok) || (|w| > 1 && Completes(past, w, tok))
  {
    var all := words + [w];
    forall tok
      ensures LongBanned(all, past, tok) <==> LongBanned(words, past, tok) || (|w| > 1 && Completes(past, w, tok))
    {
      if i :| 0 <= i < |words| && |words[i]| > 1 && Completes(past, words[i], tok) {
        assert all[i] == words[i];
      }
      assert all[|words|] == w;
    }
  }

  /** A token is banned by a one-token word or by the end of a longer one. */
  lemma BannedSplit(words: seq<Word>, past: seq<int>, tok: int)
    ensures Banned(words, past, tok) <==> [tok] in words || LongBanned(words, past, tok)
  {
    if [tok] in words {
      var i :| 0 <= i < |words| && words[i] == [tok];
      assert past[|past| - 0..] == [] == words[i][..0];
      assert Completes(past, words[i], tok);
    }
    if i :| 0 <= i < |words| && Completes(past, words[i], tok) && |words[i]| == 1 {
      assert words[i] == [tok];
    }
  }

  // ---- whole generations --------------------------------------------------

  /** Word w stands in g with its last token at position e. */
  ghost predicate EndsAt(g: seq<int>, w: Word, e: int)
  {
    0 < |w| <= e + 1 <= |g| && g[e + 1 - |w|..e + 1] == w
  }

  ghost predicate BadWordEndsAt(words: seq<Word>, g: seq<int>, e: int)
  {
    exists i :: 0 <= i < |words| && EndsAt(g, words[i], e)
  }

  /** No bad word is completed by a token at position from or later. */
  ghost predicate Clean(words: seq<Word>, g: seq<int>, from: nat)
  {
    forall e :: from <= e < |g| ==> !BadWordEndsAt(words, g, e)
  }

  lemma CompletesIsEndsAt(g: seq<int>, w: Word, e: nat)
    requires e < |g|
    ensures Completes(g[..e], w, g[e]) <==> EndsAt(g, w, e)
  {
    if 0 < |w| <= e + 1 {
      var n := |w| - 1;
      var s := g[e + 1 - |w|..e + 1];
      assert s == g[..e][e - n..] + [g[e]];
      assert w == w[..n] + [w[n]];
    }
  }

  /** A generation is clean exactly when none of its steps took a banned token: the ban is
      enough, and it forbids nothing else. */
  lemma CleanIffNoBannedStep(words: seq<Word>, g: seq<int>, from: nat)
    ensures Clean(words, g, from) <==> forall e :: from <= e < |g| ==> !Banned(words, g[..e], g[e])
  {
    forall e | from <= e < |g|
      ensures Banned(words, g[..e], g[e]) <==> BadWordEndsAt(words, g, e)
    {
      forall i | 0 <= i < |words| ensures Completes(g[..e], words[i], g[e]) <==> EndsAt(g, words[i], e) {
        CompletesIsEndsAt(g, words[i], e);
      }
    }
  }

  /** One more sampled token keeps a generation clean. */
  lemma CleanStep(words: seq<Word>, g: seq<int>, from: nat, tok: int)
    requires Clean(words, g, from) && !Banned(words, g, tok)
    ensures Clean(words, g + [tok], from)
  {
    var h := g + [tok];
    CleanIffNoBannedStep(words, g, from);
    forall e | from <= e < |h| ensures !Banned(words, h[..e], h[e]) {
      if e < |g| { assert h[..e] == g[..e]; } else { assert h[..e] == g; }
    }
    CleanIffNoBannedStep(words, h, from);
  }

  /** A whole generation: whatever logits the model gives at each step and whichever token is
      sampled among those above minus infinity, no bad word is ever completed; and the generation
      ends early only where every token is banned or has no such logit. */
  method Generate(processor: NoBadWordsLogitsProcessor, prompt: seq<int>, model: seq<int> -> seq<Logit>,
                  vocabulary: nat, steps: nat)
      returns (g: seq<int>)
    requires processor.Valid() && processor.wordBias == Unset
    requires forall s :: |model(s)| == vocabulary
    requires !SomeOutside(processor.words, vocabulary) && [] !in processor.words
    modifies processor
    ensures |prompt| <= |g| <= |prompt| + steps && g[..|prompt|] == prompt
    ensures Clean(processor.words, g, |prompt|)
    ensures |g| == |prompt| + steps || forall tok :: 0 <= tok < vocabulary ==>
      Banned(processor.words, g, tok) || model(g)[tok].NegInf? || model(g)[tok].NaN?
  {
    g := prompt;
    for k := 0 to steps
      invariant processor.Valid() && (processor.wordBias.Bias? ==> |processor.wordBias.values| == vocabulary)
      invariant |prompt| <= |g| <= |prompt| + k && g[..|prompt|] == prompt
      invariant Clean(processor.words, g, |prompt|)
      invariant |g| == |prompt| + k || forall tok :: 0 <= tok < vocabulary ==>
        Banned(processor.words, g, tok) || model(g)[tok].NegInf? || model(g)[tok].NaN?
    {
      var r := processor.Call(g, model(g));
      if tok: int :| 0 <= tok < vocabulary && r.values[tok].Above() {
        assert !Banned(processor.words, g, tok) && model(g)[tok].Above();
        CleanStep(processor.words, g, |prompt|, tok);
        g := g + [tok];
      }
    }
  }
}
