/** The text form of a chain: what `MarkovTextChain::save` writes and what
    `MarkovTextChain::load` / `parseChainStates` read back
    (source/markov_text_chain.cpp).  The reader is modelled read by read on
    the character-level stream of module Text, in two revisions: the code as
    written and the code with its two defects repaired (see README). */
module ChainFormat {
  import opened Text
  import opened Keeper

  /** The state table: key words to the keeper of their successors. */
  type Table = map<Words, WordsKeeper>

  const Header: string := "MARKOV_TEXT_CHAIN_BEGIN"
  const Trailer: string := "MARKOV_TEXT_CHAIN_END"
  const Delimiter: string := "->"

  // ---- Writing -----------------------------------------------------------

  /** One state as `save` writes it: each key word and a space, the
      delimiter and a space, the keeper's `toString`, and a newline. */
  function StateLine(key: Words, v: WordsKeeper): string {
    JoinWords(key) + Delimiter + " " + v.ToString() + "\n"
  }

  /** `keys` lists every key of `t` exactly once: an iteration order of the
      hash map. */
  predicate Enumerates(keys: seq<Words>, t: Table) {
    (forall i, j :: 0 <= i < j < |keys| ==> keys[i] != keys[j]) &&
    (forall i :: 0 <= i < |keys| ==> keys[i] in t) &&
    (forall k :: k in t ==> k in keys)
  }

  function StateLines(t: Table, keys: seq<Words>): string
    requires forall i :: 0 <= i < |keys| ==> keys[i] in t
  {
    if keys == [] then "" else StateLine(keys[0], t[keys[0]]) + StateLines(t, keys[1..])
  }

  /** The header, the order and the bucket count, one per line. */
  function SavedPreamble(order: nat, buckets: nat): string {
    Header + "\n" + NatToString(order) + "\n" + NatToString(buckets) + "\n"
  }

  /** The whole text `save` writes for a chain of order `order` whose table
      is iterated in the order `keys` and has `buckets` buckets. */
  function SavedText(order: nat, buckets: nat, t: Table, keys: seq<Words>): string
    requires Enumerates(keys, t)
  {
    SavedPreamble(order, buckets) + StateLines(t, keys) + Trailer + "\n"
  }

  // ---- Reading -----------------------------------------------------------

  /** `AsWritten` is the source; `Corrected` clears the key after every state
      and stops reading once the stream has failed. */
  datatype Revision = AsWritten | Corrected

  /** The exceptions `load` rethrows: stream not good, inadmissible chain
      order, chain string has wrong order, chain string has no value, and
      the `bad_alloc` of a `reserve` that could not get its bucket array. */
  datatype LoadError = StreamNotGood | InadmissibleOrder | WrongOrder | NoValue | OutOfMemory

  /** How the key loop of `parseChainStates` ended: on the delimiter, on the
      trailer (return), because eof was set, or never: the stream has failed
      without eof and `tmp` is empty, so every further iteration repeats the
      last one. */
  datatype KeyExit = AtDelimiter | AtTrailer | AtEnd | Stuck

  datatype KeyScan = KeyScan(exit: KeyExit, input: InputStream, tmp: string, key: Words)

  /** The key loop.  A failed read leaves `tmp` as it was; a word pushed into
      the key is moved out of `tmp`, which is then empty. */
  function ScanKey(input: InputStream, tmp: string, key: Words): (r: KeyScan)
    ensures Rank(r.input) <= Rank(input)
    ensures input.Good() ==> Rank(r.input) < Rank(input)
    ensures r.exit == AtEnd ==> r.input.eof
    ensures r.exit == Stuck ==> r.input.fail && !r.input.eof
    ensures r.exit == AtDelimiter ==> r.tmp == Delimiter
    decreases Rank(input), |tmp|
  {
    if input.eof then KeyScan(AtEnd, input, tmp, key)
    else
      var (next, got) := ReadWord(input);
      var word := if got.Some? then got.value else tmp;
      if word == Delimiter then KeyScan(AtDelimiter, next, word, key)
      else if word == Trailer then KeyScan(AtTrailer, next, word, key)
      else if word != [] then ScanKey(next, [], key + [word])
      else if next == input then KeyScan(Stuck, input, word, key)
      else ScanKey(next, word, key)
  }

  datatype ValueScan = ValueScan(input: InputStream, tmp: string, total: int, value: WordsKeeper)

  /** The value loop: while eof is not set, lower the count and stop once it
      is negative; otherwise read a word.  Every non-empty `tmp`, also one
      left over from an earlier read, is moved into the keeper. */
  function ReadValues(input: InputStream, tmp: string, total: int, value: WordsKeeper): (r: ValueScan)
    ensures Rank(r.input) <= Rank(input)
    ensures value.Valid() ==> r.value.Valid()
    ensures !value.Empty() ==> !r.value.Empty()
    decreases if total > 0 then total else 0
  {
    if input.eof then ValueScan(input, tmp, total, value)
    else if total - 1 < 0 then ValueScan(input, tmp, total - 1, value)
    else
      var (next, got) := ReadWord(input);
      var word := if got.Some? then got.value else tmp;
      if word != [] then
        ReadValues(next, [], total - 1, value.AddWord(word))
      else ReadValues(next, word, total - 1, value)
  }

  /** The local variables of `parseChainStates` and the table it fills. */
  datatype ParseState = ParseState(input: InputStream, tmp: string, key: Words, total: int, table: Table)

  datatype ParseOutcome =
    | Parsed(table: Table)
    | ParseFailed(error: LoadError)
      /** The loop would run forever; `table` is its contents at that point. */
    | Diverges(table: Table)

  datatype PassResult = Finished(outcome: ParseOutcome) | Continue(next: ParseState)

  /** One iteration of the outer loop of `parseChainStates`. */
  function Pass(rev: Revision, order: nat, s: ParseState): (r: PassResult)
    ensures r.Continue? ==> Rank(r.next.input) <= Rank(s.input)
    ensures r.Continue? && s.input.Good() ==> Rank(r.next.input) < Rank(s.input)
  {
    var k := ScanKey(s.input, s.tmp, s.key);
    if k.exit == AtTrailer then Finished(Parsed(s.table))
    else if k.exit == Stuck then
      Finished(if rev == AsWritten then Diverges(s.table) else ParseFailed(StreamNotGood))
    else if |k.key| != order then Finished(ParseFailed(WrongOrder))
    else
      // Subscripting the map with a moved key moves it only on insertion.
      var existed := k.key in s.table;
      var value := if existed then s.table[k.key] else EmptyKeeper;
      var key := if existed && rev == AsWritten then k.key else [];
      var (afterCount, count) := ReadNumber(k.input);
      var total := match count
        case NoSentry => s.total
        case NotANumber => 0
        case Number(n) => n;
      var v := ReadValues(afterCount, k.tmp, total, value);
      if v.value.Empty() then Finished(ParseFailed(NoValue))
      else Continue(ParseState(v.input, v.tmp, key, v.total, s.table[k.key := v.value]))
  }

  /** `parseChainStates` from state `s`.  A pass that leaves the stream as it
      was can only happen on a failed stream, where every further pass
      repeats it (lemma StalledPassRepeats): the loop never ends. */
  function ParseStates(rev: Revision, order: nat, s: ParseState): ParseOutcome
    decreases Rank(s.input)
  {
    if s.input.eof || (rev == Corrected && s.input.fail) then ParseFailed(StreamNotGood)
    else
      match Pass(rev, order, s)
      case Finished(outcome) => outcome
      case Continue(next) =>
        if Rank(next.input) == Rank(s.input) then Diverges(next.table)
        else ParseStates(rev, order, next)
  }

  /** The header search: read words into `buffer` while it is not the
      header and the stream is good. */
  function FindHeader(input: InputStream, buffer: string): (r: InputStream)
    ensures Rank(r) <= Rank(input)
    decreases Rank(input)
  {
    if buffer == Header || !input.Good() then input
    else
      var (next, got) := ReadWord(input);
      FindHeader(next, if got.Some? then got.value else buffer)
  }

  datatype LoadOutcome =
    | Loaded(order: nat, table: Table)
    | LoadFailed(error: LoadError)
      /** `load` never returns. */
    | Hangs(order: nat, table: Table)

  /** `load` on a stream holding `text`, into a chain of order `order` whose
      table is `table`.  The chain's state after a failure is not part of the
      outcome: `load` resets it.  `reserve` allocates the bucket array through
      the global `operator new`; `reserveOk` says whether that allocation
      succeeded.  It is a free parameter because the count read may be
      arbitrarily large, or, when nothing could be read, indeterminate. */
  function LoadText(rev: Revision, order: nat, table: Table, text: string, reserveOk: bool): LoadOutcome {
    var input := FindHeader(Open(text), "");
    if !input.Good() then LoadFailed(StreamNotGood)
    else
      var (afterOrder, orderRead) := ReadNumber(input);
      var newOrder := match orderRead
        case NoSentry => order
        case NotANumber => 0
        case Number(n) => n;
      if newOrder == 0 then LoadFailed(InadmissibleOrder)
      else
        var (afterBuckets, _) := ReadNumber(afterOrder);
        if !reserveOk then LoadFailed(OutOfMemory)
        else
          var lines := Getline(afterBuckets);
          LoadResult(newOrder, ParseStates(rev, newOrder, ParseState(lines, "", [], 0, table)))
  }

  /** How the end of `parseChainStates` ends `load`. */
  function LoadResult(order: nat, p: ParseOutcome): LoadOutcome {
    match p
    case Parsed(t) => Loaded(order, t)
    case ParseFailed(e) => LoadFailed(e)
    case Diverges(t) => Hangs(order, t)
  }
}
