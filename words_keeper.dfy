/** The successor multiset of one chain state (`WordsKeeper` in
    source/markov_text_chain.cpp): every observed occurrence is stored, in
    arrival order, next to an explicit counter. */
module Keeper {
  import opened Text

  type Word = string
  type Words = seq<Word>

  datatype WordsKeeper = WordsKeeper(totalWords: nat, words: seq<Word>) {

    /** The counter agrees with the list (the class keeps them in step). */
    predicate Valid() {
      totalWords == |words|
    }

    /** `empty()` looks at the list, not at the counter. */
    predicate Empty() {
      words == []
    }

    /** `addWord`: push the occurrence at the back and count it. */
    function AddWord(w: Word): (r: WordsKeeper)
      ensures Valid() ==> r.Valid()
      ensures r.words == words + [w] && !r.Empty()
    {
      WordsKeeper(totalWords + 1, words + [w])
    }

    /** `toString`: the counter, then every stored word, each followed by a space. */
    function ToString(): string {
      NatToString(totalWords) + " " + JoinWords(words)
    }
  }

  /** A keeper as the default constructor leaves it. */
  const EmptyKeeper := WordsKeeper(0, [])

  /** Every word followed by one space, in order. */
  function JoinWords(ws: seq<Word>): string {
    if ws == [] then "" else ws[0] + " " + JoinWords(ws[1..])
  }

  /** The word `getWord` hands out for a given value of `rand()`. */
  function Pick(k: WordsKeeper, rand: nat): Word
    requires k.Valid() && !k.Empty()
  {
    k.words[rand % k.totalWords]
  }

  /** Sampling is proportional to frequency: over one period of `rand()`
      values, 0 to totalWords - 1, exactly as many pick `w` as there are stored
      occurrences of `w`. */
  lemma PickFrequency(k: WordsKeeper, w: Word)
    requires k.Valid() && !k.Empty()
    ensures |set r | 0 <= r < k.totalWords && Pick(k, r) == w| == multiset(k.words)[w]
  {
    var picks := set r | 0 <= r < k.totalWords && Pick(k, r) == w;
    var positions := Positions(k.words, w);
    forall r | r in picks ensures r in positions {
      assert r % k.totalWords == r;
    }
    forall i | i in positions ensures i in picks {
      assert i % k.totalWords == i;
    }
    assert picks == positions;
    OccurrencePositions(k.words, w);
  }

  /** The indices of `ws` holding `w`. */
  function Positions(ws: seq<Word>, w: Word): set<int> {
    set i | 0 <= i < |ws| && ws[i] == w
  }

  /** The positions holding `w` are as many as its occurrences. */
  lemma {:induction false} OccurrencePositions(ws: seq<Word>, w: Word)
    ensures |Positions(ws, w)| == multiset(ws)[w]
  {
    if ws == [] {
      assert Positions(ws, w) == {};
    } else {
      var init := ws[..|ws| - 1];
      var last := ws[|ws| - 1];
      assert ws == init + [last];
      OccurrencePositions(init, w);
      var before := Positions(init, w);
      var all := Positions(ws, w);
      if last == w {
        assert all == before + {|init|};
        assert |init| !in before;
      } else {
        assert all == before;
      }
    }
  }

  /** Words written by `JoinWords` read back as the same tokens. */
  lemma {:induction false} JoinWordsTokens(ws: seq<Word>, rest: string)
    requires forall i :: 0 <= i < |ws| ==> IsToken(ws[i])
    ensures Tokenize(JoinWords(ws) + rest) == ws + Tokenize(rest)
  {
    if ws != [] {
      var tail := JoinWords(ws[1..]) + rest;
      JoinWordsCons(ws, rest);
      TokenizeCons(ws[0], tail, JoinWords(ws) + rest);
      JoinWordsTokens(ws[1..], rest);
      ConcatCons(ws, Tokenize(rest));
    } else {
      var x := JoinWords(ws) + rest;
      assert x == rest;
      assert ws + Tokenize(rest) == Tokenize(rest);
    }
  }

  lemma JoinWordsCons(ws: seq<Word>, rest: string)
    requires ws != []
    ensures JoinWords(ws) + rest == ws[0] + (" " + (JoinWords(ws[1..]) + rest))
  {
  }

  lemma ConcatCons<T>(xs: seq<T>, t: seq<T>)
    requires xs != []
    ensures [xs[0]] + (xs[1..] + t) == xs + t
  {
  }

  /** A token followed by a space is read as that token. */
  lemma TokenizeCons(w: string, s: string, t: string)
    requires IsToken(w) && t == w + (" " + s)
    ensures Tokenize(t) == [w] + Tokenize(s)
  {
    assert t[0] == w[0];
    assert SkipSpaces(t) == t;
    WordLengthPrefix(w, " " + s);
    assert t[..|w|] == w;
    assert t[|w|..] == " " + s;
    TokenizeSpace(s);
  }

  /** A leading space does not change the tokens. */
  lemma TokenizeSpace(s: string)
    ensures Tokenize(" " + s) == Tokenize(s)
  {
    assert (" " + s)[1..] == s;
  }

  lemma EmptySuffixes(s: string, ws: seq<Word>, t: seq<Word>)
    requires t == []
    ensures s + [] == s && ws + t == ws
  {
  }

  /** `toString` is read back as the counter followed by every stored word. */
  lemma ToStringTokens(k: WordsKeeper)
    requires k.Valid() && forall i :: 0 <= i < |k.words| ==> IsToken(k.words[i])
    ensures Tokenize(k.ToString()) == [NatToString(|k.words|)] + k.words
  {
    var n := NatToString(k.totalWords);
    var body := JoinWords(k.words);
    NatToStringIsToken(k.totalWords);
    JoinWordsTokens(k.words, []);
    EmptySuffixes(body, k.words, Tokenize([]));
    TokenizeCons(n, body, k.ToString());
  }
}
