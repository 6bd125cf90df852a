/** What learning does to a chain: the shape `addWord` keeps, how many
    successors a run of words stores and which ones, what `flush` separates,
    and how `generateWord` picks among stored successors. */
module ChainProperties {
  import opened Text
  import opened Keeper
  import opened ChainFormat
  import opened MarkovChain

  /** The shape `addWord` maintains once the order is set: the window never
      exceeds the order and every key is exactly `order` words long. */
  predicate WellFormed(c: Chain) {
    c.order > 0 && |c.window| <= c.order && forall k :: k in c.table ==> |k| == c.order
  }

  lemma StepWellFormed(c: Chain, w: Word)
    requires WellFormed(c)
    ensures WellFormed(Step(c, w))
    ensures |c.window| == c.order ==> |Step(c, w).window| == c.order
  {
  }

  lemma {:induction false} IngestWellFormed(c: Chain, ws: seq<Word>)
    requires WellFormed(c)
    ensures WellFormed(Ingest(c, ws))
    decreases |ws|
  {
    if ws != [] {
      StepWellFormed(c, ws[0]);
      IngestWellFormed(Step(c, ws[0]), ws[1..]);
    }
  }

  // ---- How many successors are stored ------------------------------------

  /** The number of successor occurrences stored in the whole table. */
  ghost function TotalWords(t: Table): nat
    decreases |t.Keys|
  {
    if t.Keys == {} then 0
    else
      var k :| k in t.Keys;
      assert (t - {k}).Keys == t.Keys - {k};
      |t[k].words| + TotalWords(t - {k})
  }

  lemma TotalWordsRemove(t: Table, k: Words)
    requires k in t
    ensures TotalWords(t) == |t[k].words| + TotalWords(t - {k})
    decreases |t.Keys|
  {
    var k' :| k' in t.Keys && TotalWords(t) == |t[k'].words| + TotalWords(t - {k'});
    if k' != k {
      RemoveKeys(t, k');
      RemoveKeys(t, k);
      TotalWordsRemove(t - {k'}, k);
      TotalWordsRemove(t - {k}, k');
      RemoveSwap(t, k, k');
    }
  }

  lemma RemoveKeys(t: Table, k: Words)
    ensures (t - {k}).Keys == t.Keys - {k}
  {
  }

  lemma RemoveSwap(t: Table, a: Words, b: Words)
    ensures (t - {a}) - {b} == (t - {b}) - {a}
  {
  }

  /** Storing `v` under `k` replaces what `k` held. */
  lemma TotalWordsStore(t: Table, k: Words, v: WordsKeeper)
    ensures TotalWords(t[k := v]) + |Lookup(t, k).words| == TotalWords(t) + |v.words|
  {
    TotalWordsRemove(t[k := v], k);
    if k in t {
      TotalWordsRemove(t, k);
      assert t[k := v] - {k} == t - {k};
    } else {
      assert t[k := v] - {k} == t;
    }
  }

  /** One `addWord` stores one successor exactly when the window is full. */
  lemma StepCount(c: Chain, w: Word)
    requires c.order > 0
    ensures TotalWords(Step(c, w).table) ==
            TotalWords(c.table) + (if |c.window| < c.order then 0 else 1)
  {
    if |c.window| >= c.order {
      TotalWordsStore(c.table, c.window, Lookup(c.table, c.window).AddWord(w));
    }
  }

  /** Ingesting `L` words into a well-formed chain whose window holds `m`
      words stores `m + L - order` new successors when that is positive, none
      otherwise, adding to what the table held. */
  lemma {:induction false} IngestCount(c: Chain, ws: seq<Word>)
    requires WellFormed(c)
    ensures TotalWords(Ingest(c, ws).table) ==
            TotalWords(c.table) +
            (if |c.window| + |ws| <= c.order then 0 else |c.window| + |ws| - c.order)
    decreases |ws|
  {
    if ws != [] {
      StepCount(c, ws[0]);
      StepWellFormed(c, ws[0]);
      IngestCount(Step(c, ws[0]), ws[1..]);
    }
  }

  /** From an empty window, `L >= order` words store exactly `L - order`
      successors. */
  lemma IngestFromEmptyCount(c: Chain, ws: seq<Word>)
    requires WellFormed(c) && c.window == [] && |ws| >= c.order
    ensures TotalWords(Ingest(c, ws).table) == TotalWords(c.table) + |ws| - c.order
  {
    IngestCount(c, ws);
  }

  // ---- Which successors are stored ---------------------------------------

  /** The successors of key `k` in the word stream `s` for order `n`: every
      word preceded by exactly the `n` words of `k`, in stream order. */
  function Successors(s: seq<Word>, n: nat, k: Words): seq<Word>
    decreases |s|
  {
    if |s| <= n then []
    else (if s[..n] == k then [s[n]] else []) + Successors(s[1..], n, k)
  }

  /** Ingesting `ws` stores, under every key, exactly that key's successors
      in the stream formed by the window and `ws`, after what the key held:
      words accumulate and are never overwritten. */
  lemma IngestSuccessors(c: Chain, ws: seq<Word>)
    requires WellFormed(c)
    ensures forall k :: Lookup(Ingest(c, ws).table, k).words ==
                        Lookup(c.table, k).words + Successors(c.window + ws, c.order, k)
  {
    forall k ensures Lookup(Ingest(c, ws).table, k).words ==
                     Lookup(c.table, k).words + Successors(c.window + ws, c.order, k) {
      IngestSuccessorsOf(c, ws, k);
    }
  }

  lemma {:induction false} IngestSuccessorsOf(c: Chain, ws: seq<Word>, k: Words)
    requires WellFormed(c)
    ensures Lookup(Ingest(c, ws).table, k).words ==
            Lookup(c.table, k).words + Successors(c.window + ws, c.order, k)
    decreases |ws|
  {
    if ws == [] {
      NoSuccessors(c.window + ws, c.order, k);
    } else {
      var c' := Step(c, ws[0]);
      StepWellFormed(c, ws[0]);
      IngestSuccessorsOf(c', ws[1..], k);
      if |c.window| < c.order {
        ShortWindowStep(c, ws);
      } else {
        FullWindowStep(c, ws, k);
      }
    }
  }

  /** With a full window, a step moves the window's successor from the
      stream into the table. */
  lemma FullWindowStep(c: Chain, ws: seq<Word>, k: Words)
    requires WellFormed(c) && |c.window| >= c.order && ws != []
    ensures Lookup(Step(c, ws[0]).table, k).words + Successors(Step(c, ws[0]).window + ws[1..], c.order, k) ==
            Lookup(c.table, k).words + Successors(c.window + ws, c.order, k)
  {
    var s := c.window + ws;
    var c' := Step(c, ws[0]);
    var here: seq<Word> := if c.window == k then [ws[0]] else [];
    StreamSlides(c.window, ws);
    assert c'.window + ws[1..] == s[1..];
    StepStores(c, ws[0], k);
    assert Successors(s, c.order, k) == here + Successors(s[1..], c.order, k);
    Reassociate(Lookup(c.table, k).words, here, Successors(s[1..], c.order, k));
  }

  lemma NoSuccessors(s: seq<Word>, n: nat, k: Words)
    requires |s| <= n
    ensures Successors(s, n, k) == []
  {
  }

  /** While the window fills, the stream is unchanged by a step. */
  lemma ShortWindowStep(c: Chain, ws: seq<Word>)
    requires c.order > 0 && |c.window| < c.order && ws != []
    ensures Step(c, ws[0]).window + ws[1..] == c.window + ws
    ensures Step(c, ws[0]).table == c.table
  {
    assert c.window + [ws[0]] + ws[1..] == c.window + ws;
  }

  /** Once the window is full the stream after the step is the old stream
      without its first word, and that word's window is the old window. */
  lemma StreamSlides(window: Words, ws: seq<Word>)
    requires |window| > 0 && ws != []
    ensures (window + ws)[..|window|] == window && (window + ws)[|window|] == ws[0]
    ensures window[1..] + [ws[0]] + ws[1..] == (window + ws)[1..]
  {
  }

  /** A full-window step adds `w` under the window and nowhere else. */
  lemma StepStores(c: Chain, w: Word, k: Words)
    requires c.order > 0 && |c.window| >= c.order
    ensures Lookup(Step(c, w).table, k).words ==
            Lookup(c.table, k).words + (if c.window == k then [w] else [])
  {
  }

  /** Learning two texts with a `flush` between them (what the chain builder
      does between sources) stores each text's successors and nothing that
      spans the boundary. */
  lemma FlushSeparatesTexts(c: Chain, a: seq<Word>, b: seq<Word>)
    requires WellFormed(c) && c.window == []
    ensures forall k :: Lookup(Ingest(Flushed(Ingest(c, a)), b).table, k).words ==
                        Lookup(c.table, k).words + Successors(a, c.order, k) + Successors(b, c.order, k)
  {
    IngestWellFormed(c, a);
    var mid := Flushed(Ingest(c, a));
    IngestSuccessors(c, a);
    IngestSuccessors(mid, b);
    assert c.window + a == a;
    assert mid.window + b == b;
  }

  /** `flush` twice is `flush` once. */
  lemma FlushIdempotent(c: Chain)
    ensures Flushed(Flushed(c)) == Flushed(c)
  {
  }

  // ---- Generation --------------------------------------------------------

  /** Over one period of `rand()` values, `0` to `count - 1`, each stored
      successor of `key` is generated as often as it was stored. */
  lemma GenerateFrequency(c: Chain, key: Words, w: Word)
    requires WellStored(c.table) && c.order > 0 && key in c.table
    ensures |set r | 0 <= r < c.table[key].totalWords && Generate(c, key, r) == Ok(w)| ==
            multiset(c.table[key].words)[w]
  {
    var k := c.table[key];
    var gen := set r | 0 <= r < k.totalWords && Generate(c, key, r) == Ok(w);
    var picks := set r | 0 <= r < k.totalWords && Pick(k, r) == w;
    assert gen == picks;
    PickFrequency(k, w);
  }
}
