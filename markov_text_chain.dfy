/** `MarkovTextChain` (source/markov_text_chain.cpp): a chain of order
    `order`, the sliding window of the last words seen and the state table.
    The value `Chain` and the functions over it say what each operation does;
    the class holds the same three fields and its methods are proved to do
    exactly that. */
module MarkovChain {
  import opened Text
  import opened Keeper
  import opened ChainFormat

  /** The exceptions the chain throws; `LoadHangs` stands for a `load` that
      never returns. */
  datatype ChainError =
    | InadmissibleChainOrder
    | CannotGenerate
    | LoadFailure(error: LoadError)
    | LoadHangs

  datatype Result<T> = Ok(value: T) | Err(error: ChainError)

  datatype Chain = Chain(order: nat, window: Words, table: Table)

  /** Every keeper in the table counts its own list and holds a word. */
  predicate WellStored(t: Table) {
    forall k :: k in t ==> t[k].Valid() && !t[k].Empty()
  }

  /** The keeper `operator[]` finds or default-constructs. */
  function Lookup(t: Table, key: Words): WordsKeeper {
    if key in t then t[key] else EmptyKeeper
  }

  /** `addWord` on a chain of non-zero order.  While the window is short the
      word only joins it; otherwise the word is stored as a successor of the
      window, and the window slides by one. */
  function Step(c: Chain, w: Word): (r: Chain)
    requires c.order > 0
    ensures r.order == c.order
    ensures |c.window| < c.order ==> r.table == c.table && r.window == c.window + [w]
    ensures |c.window| >= c.order ==>
              r.window == c.window[1..] + [w] &&
              r.table.Keys == c.table.Keys + {c.window} &&
              r.table[c.window].words == Lookup(c.table, c.window).words + [w] &&
              forall k :: k in c.table && k != c.window ==> r.table[k] == c.table[k]
  {
    if |c.window| < c.order then c.(window := c.window + [w])
    else
      c.(table := c.table[c.window := Lookup(c.table, c.window).AddWord(w)],
         window := c.window[1..] + [w])
  }

  /** A run of `addWord` calls. */
  function Ingest(c: Chain, ws: seq<Word>): (r: Chain)
    requires c.order > 0
    ensures r.order == c.order
    decreases |ws|
  {
    if ws == [] then c else Ingest(Step(c, ws[0]), ws[1..])
  }

  /** `flush`: forget the window. */
  function Flushed(c: Chain): (r: Chain)
    ensures r.order == c.order && r.table == c.table && r.window == []
  {
    c.(window := [])
  }

  /** `generateWord`: the successor `getWord` picks for the value `rand` of
      `rand()`. */
  function Generate(c: Chain, key: Words, rand: nat): (r: Result<Word>)
    requires WellStored(c.table)
    ensures r == Err(InadmissibleChainOrder) <==> c.order == 0
    ensures r == Err(CannotGenerate) <==> c.order > 0 && key !in c.table
    ensures r.Ok? ==> key in c.table && r.value in c.table[key].words
  {
    if c.order == 0 then Err(InadmissibleChainOrder)
    else if key !in c.table then Err(CannotGenerate)
    else Ok(Pick(c.table[key], rand))
  }

  /** What `load` leaves behind: on success the order read and the old table
      with the text's states added, the window untouched; on any error the
      reset chain.  `LoadHangs` marks a `load` that never returns; the chain
      given with it is the one the endless loop works on. */
  function LoadSpec(rev: Revision, c: Chain, text: string, reserveOk: bool): (Chain, Result<()>) {
    match LoadText(rev, c.order, c.table, text, reserveOk)
    case Loaded(o, t) => (Chain(o, c.window, t), Ok(()))
    case LoadFailed(e) => (Chain(0, [], map[]), Err(LoadFailure(e)))
    case Hangs(o, t) => (Chain(o, c.window, t), Err(LoadHangs))
  }

  /** Appending one more key to an enumeration prefix appends its line. */
  lemma {:induction false} StateLinesSnoc(t: Table, keys: seq<Words>, k: Words)
    requires forall i :: 0 <= i < |keys| ==> keys[i] in t
    requires k in t
    ensures StateLines(t, keys + [k]) == StateLines(t, keys) + StateLine(k, t[k])
  {
    if keys == [] {
      assert StateLines(t, [k]) == StateLine(k, t[k]) + StateLines(t, []);
    } else {
      assert (keys + [k])[1..] == keys[1..] + [k];
      StateLinesSnoc(t, keys[1..], k);
    }
  }

  /** Mid-way through `save`: `keys` were written, each once, and every key
      of `t` is either written or still `remaining`. */
  ghost predicate Listed(keys: seq<Words>, remaining: set<Words>, t: Table) {
    remaining <= t.Keys &&
    (forall i, j :: 0 <= i < j < |keys| ==> keys[i] != keys[j]) &&
    (forall i :: 0 <= i < |keys| ==> keys[i] in t && keys[i] !in remaining) &&
    (forall k :: k in t ==> k in remaining || k in keys)
  }

  lemma ListedStep(keys: seq<Words>, remaining: set<Words>, t: Table, k: Words)
    requires Listed(keys, remaining, t) && k in remaining
    ensures Listed(keys + [k], remaining - {k}, t)
  {
  }

  lemma ListedDone(keys: seq<Words>, t: Table)
    requires Listed(keys, {}, t)
    ensures Enumerates(keys, t)
  {
  }

  /** Appending the line of `k` to the text written so far. */
  lemma LineAppended(pre: string, t: Table, keys: seq<Words>, k: Words)
    requires (forall i :: 0 <= i < |keys| ==> keys[i] in t) && k in t
    ensures pre + StateLines(t, keys) + StateLine(k, t[k]) == pre + StateLines(t, keys + [k])
  {
    StateLinesSnoc(t, keys, k);
    Reassociate(pre, StateLines(t, keys), StateLine(k, t[k]));
  }

  class MarkovTextChain {
    var order: nat
    var window: Words
    var table: Table

    ghost predicate Valid()
      reads this
    {
      WellStored(table)
    }

    function State(): Chain
      reads this
    {
      Chain(order, window, table)
    }

    /** `MarkovTextChain(chainOrder = 0)`; seeding `rand` is left out. */
    constructor(chainOrder: nat := 0)
      ensures Valid() && State() == Chain(chainOrder, [], map[])
    {
      order := chainOrder;
      window := [];
      table := map[];
    }

    /** `setOrder` changes the order only: window and table stay. */
    method SetOrder(chainOrder: nat)
      modifies this
      requires Valid()
      ensures Valid() && State() == old(State()).(order := chainOrder) && Order() == chainOrder
    {
      order := chainOrder;
    }

    function Order(): nat
      reads this
    {
      order
    }

    method AddWord(w: Word) returns (r: Result<()>)
      modifies this
      requires Valid()
      ensures Valid()
      ensures old(order) == 0 ==> r == Err(InadmissibleChainOrder) && State() == old(State())
      ensures old(order) > 0 ==> r == Ok(()) && State() == Step(old(State()), w)
    {
      if order == 0 {
        return Err(InadmissibleChainOrder);
      }
      if |window| < order {
        window := window + [w];
        return Ok(());
      }
      var keeper := Lookup(table, window);
      table := table[window := keeper.AddWord(w)];
      window := window[1..] + [w];
      r := Ok(());
    }

    method GenerateWord(key: Words, rand: nat) returns (r: Result<Word>)
      requires Valid()
      ensures r == Generate(State(), key, rand)
    {
      if order == 0 {
        return Err(InadmissibleChainOrder);
      }
      if key !in table {
        return Err(CannotGenerate);
      }
      var w := GetWord(table[key], rand);
      r := Ok(w);
    }

    method Flush()
      modifies this
      requires Valid()
      ensures Valid() && State() == Flushed(old(State()))
    {
      window := [];
    }

    method Reset()
      modifies this
      ensures Valid() && State() == Chain(0, [], map[])
    {
      order := 0;
      window := [];
      table := map[];
    }

    /** `save`: the preamble, one line per state in the hash map's order
        (`keys`, which the model does not fix), then the trailer.  `buckets`
        is `bucket_count()`. */
    method Save(buckets: nat) returns (r: Result<string>, ghost keys: seq<Words>)
      requires Valid()
      ensures order == 0 ==> r == Err(InadmissibleChainOrder)
      ensures order > 0 ==> Enumerates(keys, table) &&
                            r == Ok(SavedText(order, buckets, table, keys))
    {
      keys := [];
      if order == 0 {
        return Err(InadmissibleChainOrder), keys;
      }
      var out := SavedPreamble(order, buckets);
      var remaining := table.Keys;
      while remaining != {}
        invariant Listed(keys, remaining, table)
        invariant out == SavedPreamble(order, buckets) + StateLines(table, keys)
        decreases |remaining|
      {
        var k :| k in remaining;
        var keyText := WriteWords(k);
        var valueText := KeeperToString(table[k]);
        LineAppended(SavedPreamble(order, buckets), table, keys, k);
        ListedStep(keys, remaining, table, k);
        out := out + (keyText + Delimiter + " " + valueText + "\n");
        keys := keys + [k];
        remaining := remaining - {k};
      }
      ListedDone(keys, table);
      r := Ok(out + Trailer + "\n");
    }

    /** `load` on a stream holding `text`; `reserveOk` is whether `reserve`
        got its bucket array.  Any error resets the chain.  Where the source
        would loop for ever, the method returns `LoadHangs` instead. */
    method Load(text: string, reserveOk: bool) returns (r: Result<()>)
      modifies this
      requires Valid()
      ensures Valid()
      ensures (State(), r) == LoadSpec(AsWritten, old(State()), text, reserveOk)
    {
      var outcome := ReadChain(order, table, text, reserveOk);
      LoadTextWellStored(AsWritten, order, table, text, reserveOk);
      match outcome {
        case Loaded(o, t) =>
          order, table := o, t;
          r := Ok(());
        case LoadFailed(e) =>
          Reset();
          r := Err(LoadFailure(e));
        case Hangs(o, t) =>
          order, table := o, t;
          r := Err(LoadHangs);
      }
    }
  }

  /** The body of `load` before the chain is updated: find the header, read
      the order (kept when nothing could be read, 0 when it is not a number)
      and the bucket count, reserve the buckets, skip the rest of the line,
      then read the states into `table`. */
  method ReadChain(order: nat, table: Table, text: string, reserveOk: bool) returns (outcome: LoadOutcome)
    ensures outcome == LoadText(AsWritten, order, table, text, reserveOk)
  {
    var input := Open(text);
    var buffer := "";
    while buffer != Header && input.Good()
      invariant FindHeader(input, buffer) == FindHeader(Open(text), "")
      decreases Rank(input)
    {
      var (next, got) := ReadWord(input);
      input := next;
      if got.Some? {
        buffer := got.value;
      }
    }
    if !input.Good() {
      return LoadFailed(StreamNotGood);
    }
    var (afterOrder, orderRead) := ReadNumber(input);
    var newOrder := order;
    match orderRead {
      case NotANumber => newOrder := 0;
      case Number(n) => newOrder := n;
      case NoSentry =>
    }
    if newOrder == 0 {
      return LoadFailed(InadmissibleOrder);
    }
    var (afterBuckets, _) := ReadNumber(afterOrder);
    if !reserveOk {
      return LoadFailed(OutOfMemory);
    }
    var lines := Getline(afterBuckets);
    var parsed := ParseChainStates(newOrder, ParseState(lines, "", [], 0, table));
    match parsed {
      case Parsed(t) => outcome := Loaded(newOrder, t);
      case ParseFailed(e) => outcome := LoadFailed(e);
      case Diverges(t) => outcome := Hangs(newOrder, t);
    }
  }

  /** `parseChainStates`: pass after pass while the stream is not at its
      end, until the trailer or an error.  A pass that leaves the stream as
      it was would be repeated for ever (lemma StalledPassRepeats); there the
      method returns `Diverges` instead of looping. */
  method ParseChainStates(order: nat, s0: ParseState) returns (outcome: ParseOutcome)
    ensures outcome == ParseStates(AsWritten, order, s0)
  {
    var s := s0;
    while true
      invariant ParseStates(AsWritten, order, s) == ParseStates(AsWritten, order, s0)
      decreases Rank(s.input)
    {
      if s.input.eof {
        return ParseFailed(StreamNotGood);
      }
      var pass := ReadState(order, s);
      PassThenParse(order, s, pass);
      if pass.Finished? {
        return pass.outcome;
      }
      if Rank(pass.next.input) == Rank(s.input) {
        return Diverges(pass.next.table);
      }
      s := pass.next;
    }
  }

  /** After one pass the reader goes on from where the pass left it, unless
      the pass made no progress. */
  lemma PassThenParse(order: nat, s: ParseState, pass: PassResult)
    requires !s.input.eof && pass == Pass(AsWritten, order, s)
    ensures pass.Finished? ==> ParseStates(AsWritten, order, s) == pass.outcome
    ensures pass.Continue? ==>
              Rank(pass.next.input) <= Rank(s.input) &&
              ParseStates(AsWritten, order, s) ==
                if Rank(pass.next.input) == Rank(s.input) then Diverges(pass.next.table)
                else ParseStates(AsWritten, order, pass.next)
  {
  }

  /** One pass of `parseChainStates`: the key loop, the order check, the
      count and the value loop, then the table update. */
  method ReadState(order: nat, s: ParseState) returns (r: PassResult)
    requires !s.input.eof
    ensures r == Pass(AsWritten, order, s)
  {
    var scan := ScanKeyLoop(s.input, s.tmp, s.key);
    if scan.exit == AtTrailer {
      return Finished(Parsed(s.table));
    }
    if scan.exit == Stuck {
      return Finished(Diverges(s.table));
    }
    if |scan.key| != order {
      return Finished(ParseFailed(WrongOrder));
    }
    r := ReadValue(order, s, scan);
  }

  /** The rest of a pass once a key of the right length was read: the count,
      the value loop and the table update. */
  method ReadValue(order: nat, s: ParseState, scan: KeyScan) returns (r: PassResult)
    requires !s.input.eof && scan == ScanKey(s.input, s.tmp, s.key)
    requires scan.exit != AtTrailer && scan.exit != Stuck && |scan.key| == order
    ensures r == Pass(AsWritten, order, s)
  {
    var value := Lookup(s.table, scan.key);
    // Subscripting with the moved key moves from it only on insertion.
    var key := if scan.key in s.table then scan.key else [];
    var (afterCount, count) := ReadNumber(scan.input);
    var total := s.total;
    match count {
      case NoSentry =>
      case NotANumber => total := 0;
      case Number(n) => total := n;
    }
    var values := ReadValuesLoop(afterCount, scan.tmp, total, value);
    if values.value.Empty() {
      return Finished(ParseFailed(NoValue));
    }
    r := Continue(ParseState(values.input, values.tmp, key, values.total, s.table[scan.key := values.value]));
  }

  /** `getWord`: starting at the first stored word, step the list iterator
      `rand % totalWords` times and return the word reached. */
  method GetWord(k: WordsKeeper, rand: nat) returns (w: Word)
    requires k.Valid() && !k.Empty()
    ensures w == Pick(k, rand)
  {
    var it := 0;
    var i := rand % k.totalWords;
    while i > 0
      invariant 0 <= i && it + i == rand % k.totalWords
    {
      it := it + 1;
      i := i - 1;
    }
    w := k.words[it];
  }

  /** Each word followed by one space, as `save` writes a key and
      `toString` the stored words. */
  method WriteWords(ws: seq<Word>) returns (s: string)
    ensures s == JoinWords(ws)
  {
    s := "";
    var i := 0;
    while i < |ws|
      invariant 0 <= i <= |ws|
      invariant s == JoinWords(ws[..i])
    {
      JoinWordsSnoc(ws[..i], ws[i]);
      assert ws[..i + 1] == ws[..i] + [ws[i]];
      s := s + ws[i] + " ";
      i := i + 1;
    }
    assert ws[..i] == ws;
  }

  /** `WordsKeeper::toString`. */
  method KeeperToString(k: WordsKeeper) returns (s: string)
    ensures s == k.ToString()
  {
    var words := WriteWords(k.words);
    s := NatToString(k.totalWords) + " " + words;
  }

  lemma {:induction false} JoinWordsSnoc(ws: seq<Word>, w: Word)
    ensures JoinWords(ws + [w]) == JoinWords(ws) + w + " "
  {
    if ws != [] {
      assert (ws + [w])[1..] == ws[1..] + [w];
      JoinWordsSnoc(ws[1..], w);
    }
  }

  /** The key loop of `parseChainStates`. */
  method ScanKeyLoop(input0: InputStream, tmp0: string, key0: Words) returns (r: KeyScan)
    ensures r == ScanKey(input0, tmp0, key0)
  {
    var input, tmp, key := input0, tmp0, key0;
    while true
      invariant ScanKey(input, tmp, key) == ScanKey(input0, tmp0, key0)
      decreases Rank(input), |tmp|
    {
      if input.eof {
        return KeyScan(AtEnd, input, tmp, key);
      }
      var (next, got) := ReadWord(input);
      if got.Some? {
        tmp := got.value;
      }
      if tmp == Delimiter {
        return KeyScan(AtDelimiter, next, tmp, key);
      }
      if tmp == Trailer {
        return KeyScan(AtTrailer, next, tmp, key);
      }
      if tmp != [] {
        key := key + [tmp];
        tmp := [];
      } else if next == input {
        return KeyScan(Stuck, input, tmp, key);
      }
      input := next;
    }
  }

  /** The value loop of `parseChainStates`. */
  method ReadValuesLoop(input0: InputStream, tmp0: string, total0: int, value0: WordsKeeper)
    returns (r: ValueScan)
    ensures r == ReadValues(input0, tmp0, total0, value0)
  {
    var input, tmp, total, value := input0, tmp0, total0, value0;
    while !input.eof
      invariant ReadValues(input, tmp, total, value) == ReadValues(input0, tmp0, total0, value0)
      decreases if total > 0 then total else 0
    {
      total := total - 1;
      if total < 0 {
        break;
      }
      var (next, got) := ReadWord(input);
      input := next;
      if got.Some? {
        tmp := got.value;
      }
      if tmp != [] {
        value := value.AddWord(tmp);
        tmp := [];
      }
    }
    r := ValueScan(input, tmp, total, value);
  }

  /** Reading states into a well-stored table keeps it well stored, also in
      the table an endless loop is left working on. */
  lemma ParseStatesWellStored(rev: Revision, order: nat, s: ParseState)
    requires WellStored(s.table)
    ensures !ParseStates(rev, order, s).ParseFailed? ==> WellStored(ParseStates(rev, order, s).table)
    decreases Rank(s.input)
  {
    if !(s.input.eof || (rev == Corrected && s.input.fail)) {
      var p := Pass(rev, order, s);
      if p.Continue? {
        PassWellStored(rev, order, s);
        if Rank(p.next.input) != Rank(s.input) {
          ParseStatesWellStored(rev, order, p.next);
        }
      }
    }
  }

  lemma PassWellStored(rev: Revision, order: nat, s: ParseState)
    requires WellStored(s.table)
    ensures Pass(rev, order, s).Continue? ==> WellStored(Pass(rev, order, s).next.table)
  {
  }

  /** A load that does not fail leaves a well-stored table. */
  lemma LoadTextWellStored(rev: Revision, order: nat, table: Table, text: string, reserveOk: bool)
    requires WellStored(table)
    ensures !LoadText(rev, order, table, text, reserveOk).LoadFailed? ==>
              WellStored(LoadText(rev, order, table, text, reserveOk).table)
  {
    var input := FindHeader(Open(text), "");
    if input.Good() {
      var (afterOrder, orderRead) := ReadNumber(input);
      var newOrder := match orderRead
        case NoSentry => order
        case NotANumber => 0
        case Number(n) => n;
      var (afterBuckets, _) := ReadNumber(afterOrder);
      ParseStatesWellStored(rev, newOrder, ParseState(Getline(afterBuckets), "", [], 0, table));
    }
  }

  /** The corrected `load` always returns. */
  lemma CorrectedNeverHangs(order: nat, table: Table, text: string, reserveOk: bool)
    ensures !LoadText(Corrected, order, table, text, reserveOk).Hangs?
  {
    var input := FindHeader(Open(text), "");
    if input.Good() {
      var (afterOrder, orderRead) := ReadNumber(input);
      var newOrder := match orderRead
        case NoSentry => order
        case NotANumber => 0
        case Number(n) => n;
      var (afterBuckets, _) := ReadNumber(afterOrder);
      ResultNeverHangs(newOrder, Getline(afterBuckets), table);
    }
  }

  lemma ResultNeverHangs(order: nat, lines: InputStream, table: Table)
    ensures !LoadResult(order, ParseStates(Corrected, order, ParseState(lines, "", [], 0, table))).Hangs?
  {
    CorrectedNeverDiverges(order, ParseState(lines, "", [], 0, table));
  }

  /** The corrected reader always ends: every pass starts on a good stream
      and so consumes something. */
  lemma CorrectedNeverDiverges(order: nat, s: ParseState)
    ensures !ParseStates(Corrected, order, s).Diverges?
    decreases Rank(s.input)
  {
    if !(s.input.eof || s.input.fail) {
      var p := Pass(Corrected, order, s);
      if p.Continue? {
        CorrectedNeverDiverges(order, p.next);
      }
    }
  }
}
