/** Reading back what `save` writes: the reader walks a saved text state line
    by state line, so that `load` after `save` restores the order and the
    table, added into whatever table the loading chain already held.  Also the
    error paths of `load`, and the two defects of the reader as written. */
module ChainRoundTrip {
  import opened Text
  import opened Keeper
  import opened ChainFormat
  import opened MarkovChain

  /** A key word `save` can write and `load` read back as a key word. */
  predicate KeyWord(w: string) {
    IsToken(w) && w != Delimiter && w != Trailer
  }

  predicate KeyWords(ws: Words) {
    forall i :: 0 <= i < |ws| ==> KeyWord(ws[i])
  }

  predicate Tokens(ws: seq<Word>) {
    forall i :: 0 <= i < |ws| ==> IsToken(ws[i])
  }

  /** A table of a chain of order `order` whose every state survives the
      text form: keys of `order` key words, keepers valid, non-empty and made
      of tokens. */
  predicate Saveable(order: nat, t: Table) {
    order > 0 && WellStored(t) &&
    forall k :: k in t ==> |k| == order && KeyWords(k) && Tokens(t[k].words)
  }

  /** A keeper after `addWord` of each of `ws` in turn. */
  function Absorbed(k: WordsKeeper, ws: seq<Word>): WordsKeeper {
    WordsKeeper(k.totalWords + |ws|, k.words + ws)
  }

  /** `d` with the states of `c` added: shared keys keep `d`'s words first. */
  function Merged(d: Table, c: Table): Table {
    map k | k in d.Keys + c.Keys :: if k in c then Absorbed(Lookup(d, k), c[k].words) else d[k]
  }

  /** `d` after reading the lines of `keys`, one after the other. */
  function Fold(d: Table, c: Table, keys: seq<Words>): Table
    requires forall i :: 0 <= i < |keys| ==> keys[i] in c
    decreases |keys|
  {
    if keys == [] then d
    else Fold(d[keys[0] := Absorbed(Lookup(d, keys[0]), c[keys[0]].words)], c, keys[1..])
  }

  // ---- Text shapes -------------------------------------------------------

  lemma JoinWordsSplit(sp: string, ws: seq<Word>, rest: string)
    requires ws != []
    ensures sp + JoinWords(ws) + rest == sp + ws[0] + (" " + JoinWords(ws[1..]) + rest)
  {
  }

  lemma StateLineParts(sp: string, key: Words, v: WordsKeeper, more: string)
    ensures sp + StateLine(key, v) + more ==
            sp + JoinWords(key) +
            (Delimiter + (" " + NatToString(v.totalWords) + (" " + JoinWords(v.words) + ("\n" + more))))
  {
    Regroup(sp, JoinWords(key), Delimiter, " ", NatToString(v.totalWords), " ", JoinWords(v.words), "\n", more);
  }

  lemma Regroup<T>(sp: seq<T>, j: seq<T>, d: seq<T>, s1: seq<T>, n: seq<T>, s2: seq<T>, w: seq<T>, nl: seq<T>, more: seq<T>)
    ensures sp + (j + d + s1 + (n + s2 + w) + nl) + more ==
            sp + j + (d + (s1 + n + (s2 + w + (nl + more))))
  {
  }

  lemma StateLinesParts(sp: string, t: Table, keys: seq<Words>, tail: string)
    requires keys != [] && forall i :: 0 <= i < |keys| ==> keys[i] in t
    ensures sp + StateLines(t, keys) + tail ==
            sp + StateLine(keys[0], t[keys[0]]) + (StateLines(t, keys[1..]) + tail)
  {
  }

  lemma IsTokenDelimiterTrailer()
    ensures IsToken(Delimiter) && IsToken(Trailer) && IsToken(Header)
    ensures Delimiter != Trailer
  {
  }

  // ---- Reading pieces ----------------------------------------------------

  /** A key word read where a key word is expected joins the key. */
  lemma ScanKeyStep(input: InputStream, next: InputStream, w: string, tmp: string, key: Words)
    requires !input.eof && ReadWord(input) == (next, Some(w)) && KeyWord(w)
    ensures ScanKey(input, tmp, key) == ScanKey(next, [], key + [w])
  {
  }

  lemma SnocSplit<T>(acc: seq<T>, ws: seq<T>)
    requires ws != []
    ensures acc + [ws[0]] + ws[1..] == acc + ws
  {
  }

  lemma NoWords(sp: string, ws: seq<Word>, rest: string, acc: seq<Word>)
    requires ws == []
    ensures sp + JoinWords(ws) + rest == sp + rest && acc + ws == acc
  {
  }

  /** The first key word of a run is read and joins the key. */
  lemma ScanKeyFirst(sp: string, ws: Words, rest: string, acc: Words)
    requires AllSpaces(sp) && KeyWords(ws) && ws != []
    ensures ScanKey(InputStream(sp + JoinWords(ws) + rest, false, false), [], acc) ==
            ScanKey(InputStream(" " + JoinWords(ws[1..]) + rest, false, false), [], acc + [ws[0]])
  {
    var input := InputStream(sp + JoinWords(ws) + rest, false, false);
    var more := " " + JoinWords(ws[1..]) + rest;
    JoinWordsSplit(sp, ws, rest);
    ReadWordAt(input, sp, ws[0], more);
    ScanKeyStep(input, InputStream(more, false, false), ws[0], [], acc);
  }

  /** The key loop reads the key words of a line one by one. */
  lemma {:induction false} ScanKeyOver(sp: string, ws: Words, rest: string, acc: Words)
    requires AllSpaces(sp) && KeyWords(ws)
    ensures ScanKey(InputStream(sp + JoinWords(ws) + rest, false, false), [], acc) ==
            ScanKey(InputStream((if ws == [] then sp else " ") + rest, false, false), [], acc + ws)
    decreases |ws|, 1
  {
    if ws == [] {
      NoWords(sp, ws, rest, acc);
    } else {
      ScanKeyOverCons(sp, ws, rest, acc);
    }
  }

  lemma {:induction false} ScanKeyOverCons(sp: string, ws: Words, rest: string, acc: Words)
    requires AllSpaces(sp) && KeyWords(ws) && ws != []
    ensures ScanKey(InputStream(sp + JoinWords(ws) + rest, false, false), [], acc) ==
            ScanKey(InputStream(" " + rest, false, false), [], acc + ws)
    decreases |ws|, 0
  {
    ScanKeyFirst(sp, ws, rest, acc);
    KeyWordsTail(ws);
    SingleSpace();
    ScanKeyOver(" ", ws[1..], rest, acc + [ws[0]]);
    SnocSplit(acc, ws);
  }

  lemma KeyWordsTail(ws: Words)
    requires KeyWords(ws) && ws != []
    ensures KeyWords(ws[1..])
  {
    forall i | 0 <= i < |ws[1..]| ensures KeyWord(ws[1..][i]) {
      assert ws[1..][i] == ws[i + 1];
    }
  }

  lemma TokensTail(ws: seq<Word>)
    requires Tokens(ws) && ws != []
    ensures Tokens(ws[1..])
  {
    forall i | 0 <= i < |ws[1..]| ensures IsToken(ws[1..][i]) {
      assert ws[1..][i] == ws[i + 1];
    }
  }

  lemma SingleSpace()
    ensures AllSpaces(" ")
  {
  }

  /** The key loop ends on a delimiter or a trailer read as a word. */
  lemma ScanKeyAtMark(sp: string, w: string, rest: string, acc: Words)
    requires AllSpaces(sp) && (w == Delimiter || w == Trailer)
    requires rest == [] || IsSpace(rest[0])
    ensures ScanKey(InputStream(sp + w + rest, false, false), [], acc) ==
            KeyScan(if w == Delimiter then AtDelimiter else AtTrailer,
                    InputStream(rest, rest == [], false), w, acc)
  {
    IsTokenDelimiterTrailer();
    ReadWordAt(InputStream(sp + w + rest, false, false), sp, w, rest);
  }

  /** A word read while the count is positive goes into the keeper. */
  lemma ReadValuesStep(input: InputStream, next: InputStream, w: string, tmp: string, total: int, value: WordsKeeper)
    requires !input.eof && total > 0 && ReadWord(input) == (next, Some(w)) && w != []
    ensures ReadValues(input, tmp, total, value) == ReadValues(next, [], total - 1, value.AddWord(w))
  {
  }

  /** With the count at zero the value loop reads nothing more. */
  lemma ReadValuesNone(sp: string, ws: seq<Word>, rest: string, tmp: string, value: WordsKeeper)
    requires ws == []
    ensures ReadValues(InputStream(sp + JoinWords(ws) + rest, false, false), tmp, |ws|, value) ==
            ValueScan(InputStream(sp + rest, false, false), tmp, -1, Absorbed(value, ws))
  {
    assert sp + JoinWords(ws) + rest == sp + rest;
    assert value.words + ws == value.words;
  }

  lemma AbsorbedCons(value: WordsKeeper, ws: seq<Word>)
    requires ws != []
    ensures Absorbed(value.AddWord(ws[0]), ws[1..]) == Absorbed(value, ws)
  {
    SnocSplit(value.words, ws);
  }

  /** The first counted word is read and goes into the keeper. */
  lemma ReadValuesFirst(sp: string, ws: seq<Word>, rest: string, tmp: string, value: WordsKeeper)
    requires AllSpaces(sp) && Tokens(ws) && ws != []
    ensures ReadValues(InputStream(sp + JoinWords(ws) + rest, false, false), tmp, |ws|, value) ==
            ReadValues(InputStream(" " + JoinWords(ws[1..]) + rest, false, false), [], |ws[1..]|, value.AddWord(ws[0]))
  {
    var input := InputStream(sp + JoinWords(ws) + rest, false, false);
    var more := " " + JoinWords(ws[1..]) + rest;
    JoinWordsSplit(sp, ws, rest);
    ReadWordAt(input, sp, ws[0], more);
    ReadValuesStep(input, InputStream(more, false, false), ws[0], tmp, |ws|, value);
  }

  /** The value loop reads exactly the counted words. */
  lemma {:induction false} ValuesOver(sp: string, ws: seq<Word>, rest: string, tmp: string, value: WordsKeeper)
    requires AllSpaces(sp) && Tokens(ws)
    ensures ReadValues(InputStream(sp + JoinWords(ws) + rest, false, false), tmp, |ws|, value) ==
            ValueScan(InputStream((if ws == [] then sp else " ") + rest, false, false),
                      if ws == [] then tmp else [], -1, Absorbed(value, ws))
    decreases |ws|, 1
  {
    if ws == [] {
      ReadValuesNone(sp, ws, rest, tmp, value);
    } else {
      ValuesOverCons(sp, ws, rest, tmp, value);
    }
  }

  lemma {:induction false} ValuesOverCons(sp: string, ws: seq<Word>, rest: string, tmp: string, value: WordsKeeper)
    requires AllSpaces(sp) && Tokens(ws) && ws != []
    ensures ReadValues(InputStream(sp + JoinWords(ws) + rest, false, false), tmp, |ws|, value) ==
            ValueScan(InputStream(" " + rest, false, false), [], -1, Absorbed(value, ws))
    decreases |ws|, 0
  {
    ReadValuesFirst(sp, ws, rest, tmp, value);
    TokensTail(ws);
    SingleSpace();
    ValuesOver(" ", ws[1..], rest, [], value.AddWord(ws[0]));
    AbsorbedCons(value, ws);
  }

  lemma SpaceNewline(more: string)
    ensures " " + ("\n" + more) == " \n" + more
  {
  }

  /** One pass that reads a full key, a count and that many words. */
  lemma PassReads(rev: Revision, order: nat, s: ParseState, key: Words, afterKey: InputStream,
                  n: nat, afterCount: InputStream, afterValues: InputStream, value: WordsKeeper)
    requires ScanKey(s.input, s.tmp, s.key) == KeyScan(AtDelimiter, afterKey, Delimiter, key)
    requires |key| == order
    requires ReadNumber(afterKey) == (afterCount, Number(n))
    requires ReadValues(afterCount, Delimiter, n, Lookup(s.table, key)) == ValueScan(afterValues, [], -1, value)
    requires !value.Empty()
    ensures Pass(rev, order, s) ==
            Continue(ParseState(afterValues, [], if key in s.table && rev == AsWritten then key else [], -1,
                                s.table[key := value]))
  {
  }

  lemma EmptyConcat<T>(xs: seq<T>)
    ensures [] + xs == xs && xs + [] == xs
  {
  }

  /** The key of a state line is read up to and including the delimiter;
      its words go after those already in the key. */
  lemma KeyOnLine(sp: string, acc: Words, key: Words, r1: string)
    requires AllSpaces(sp) && KeyWords(key) && (r1 == [] || IsSpace(r1[0]))
    ensures ScanKey(InputStream(sp + JoinWords(key) + (Delimiter + r1), false, false), [], acc) ==
            KeyScan(AtDelimiter, InputStream(r1, r1 == [], false), Delimiter, acc + key)
  {
    var gap := if key == [] then sp else " ";
    ScanKeyOver(sp, key, Delimiter + r1, acc);
    Reassociate(gap, Delimiter, r1);
    ScanKeyAtMark(gap, Delimiter, r1, acc + key);
  }

  /** One pass over a state line written by `save`, when the key is not left
      over from the line before. */
  lemma PassOnLine(rev: Revision, order: nat, s: ParseState, sp: string,
                   key: Words, v: WordsKeeper, more: string)
    requires s.input == InputStream(sp + StateLine(key, v) + more, false, false)
    requires AllSpaces(sp) && s.tmp == [] && s.key == []
    requires order > 0 && |key| == order && KeyWords(key)
    requires v.Valid() && !v.Empty() && Tokens(v.words)
    ensures Pass(rev, order, s) ==
            Continue(ParseState(InputStream(" \n" + more, false, false), [],
                                if key in s.table && rev == AsWritten then key else [], -1,
                                s.table[key := Absorbed(Lookup(s.table, key), v.words)]))
  {
    var n := v.totalWords;
    var r2 := " " + JoinWords(v.words) + ("\n" + more);
    var afterKey := InputStream(" " + NatToString(n) + r2, false, false);
    var afterCount := InputStream(r2, false, false);
    var afterValues := InputStream(" \n" + more, false, false);
    var value := Absorbed(Lookup(s.table, key), v.words);
    KeyOfLine(sp, [], key, v, more);
    EmptyConcat(key);
    ReadNumberAt(afterKey, " ", n, r2);
    ValuesOfLine(v, more, Lookup(s.table, key));
    PassReads(rev, order, s, key, afterKey, n, afterCount, afterValues, value);
  }

  /** The key of a state line written by `save` is read. */
  lemma KeyOfLine(sp: string, acc: Words, key: Words, v: WordsKeeper, more: string)
    requires AllSpaces(sp) && KeyWords(key)
    ensures ScanKey(InputStream(sp + StateLine(key, v) + more, false, false), [], acc) ==
            KeyScan(AtDelimiter, InputStream(" " + NatToString(v.totalWords) + (" " + JoinWords(v.words) + ("\n" + more)), false, false),
                    Delimiter, acc + key)
  {
    StateLineParts(sp, key, v, more);
    KeyOnLine(sp, acc, key, " " + NatToString(v.totalWords) + (" " + JoinWords(v.words) + ("\n" + more)));
  }

  lemma ValuesOfLine(v: WordsKeeper, more: string, value: WordsKeeper)
    requires v.Valid() && Tokens(v.words) && !v.Empty()
    ensures ReadValues(InputStream(" " + JoinWords(v.words) + ("\n" + more), false, false), Delimiter, v.totalWords, value) ==
            ValueScan(InputStream(" \n" + more, false, false), [], -1, Absorbed(value, v.words))
  {
    ValuesOver(" ", v.words, "\n" + more, Delimiter, value);
    SpaceNewline(more);
  }

  /** A pass that goes on from a good stream hands over to the next pass. */
  lemma ParseContinues(rev: Revision, order: nat, s: ParseState, next: ParseState)
    requires s.input.Good() && Pass(rev, order, s) == Continue(next)
    ensures ParseStates(rev, order, s) == ParseStates(rev, order, next)
  {
  }

  /** What reading the lines of `keys` needs: the keys are listed once
      each, their states can be saved, and the reader as written finds none
      of them already in the table. */
  predicate LinesFit(rev: Revision, order: nat, c: Table, keys: seq<Words>, d: Table) {
    Saveable(order, c) &&
    (forall i, j :: 0 <= i < j < |keys| ==> keys[i] != keys[j]) &&
    (forall i :: 0 <= i < |keys| ==> keys[i] in c) &&
    (rev == Corrected || forall i :: 0 <= i < |keys| ==> keys[i] !in d)
  }

  /** The first of the state lines of `keys` is read as one pass. */
  lemma FirstLineParse(rev: Revision, order: nat, sp: string, c: Table,
                       keys: seq<Words>, tail: string, d: Table, total: int)
    requires AllSpaces(sp) && keys != [] && LinesFit(rev, order, c, keys, d)
    ensures ParseStates(rev, order, ParseState(InputStream(sp + StateLines(c, keys) + tail, false, false), [], [], total, d)) ==
            ParseStates(rev, order, ParseState(InputStream(" \n" + StateLines(c, keys[1..]) + tail, false, false), [], [], -1,
                                               d[keys[0] := Absorbed(Lookup(d, keys[0]), c[keys[0]].words)]))
  {
    var k := keys[0];
    var more := StateLines(c, keys[1..]) + tail;
    var s := ParseState(InputStream(sp + StateLines(c, keys) + tail, false, false), [], [], total, d);
    StateLinesParts(sp, c, keys, tail);
    PassOnLine(rev, order, s, sp, k, c[k], more);
    var next := ParseState(InputStream(" \n" + more, false, false), [], [], -1,
                           d[k := Absorbed(Lookup(d, k), c[k].words)]);
    ParseContinues(rev, order, s, next);
    Reassociate(" \n", StateLines(c, keys[1..]), tail);
  }

  lemma NoLines(sp: string, c: Table, keys: seq<Words>, tail: string)
    requires keys == []
    ensures sp + StateLines(c, keys) + tail == sp + tail
  {
  }

  lemma TailKeys(rev: Revision, order: nat, c: Table, keys: seq<Words>, d: Table)
    requires keys != [] && LinesFit(rev, order, c, keys, d)
    ensures LinesFit(rev, order, c, keys[1..], d[keys[0] := Absorbed(Lookup(d, keys[0]), c[keys[0]].words)])
  {
    var d' := d[keys[0] := Absorbed(Lookup(d, keys[0]), c[keys[0]].words)];
    forall i | 0 <= i < |keys[1..]| ensures keys[1..][i] in c && (rev == Corrected || keys[1..][i] !in d') {
      assert keys[1..][i] == keys[i + 1];
    }
  }

  lemma FoldCons(d: Table, c: Table, keys: seq<Words>)
    requires keys != [] && forall i :: 0 <= i < |keys| ==> keys[i] in c
    ensures Fold(d, c, keys) == Fold(d[keys[0] := Absorbed(Lookup(d, keys[0]), c[keys[0]].words)], c, keys[1..])
  {
  }

  /** The state lines of `keys`, read one after the other, add each key's
      words under it. */
  lemma {:induction false} LinesParse(rev: Revision, order: nat, sp: string, c: Table,
                                      keys: seq<Words>, tail: string, d: Table, total: int)
    requires AllSpaces(sp) && LinesFit(rev, order, c, keys, d)
    ensures ParseStates(rev, order, ParseState(InputStream(sp + StateLines(c, keys) + tail, false, false), [], [], total, d)) ==
            ParseStates(rev, order, ParseState(InputStream((if keys == [] then sp else " \n") + tail, false, false),
                                               [], [], if keys == [] then total else -1, Fold(d, c, keys)))
    decreases |keys|, 2
  {
    if keys == [] {
      NoLines(sp, c, keys, tail);
    } else {
      LinesParseCons(rev, order, sp, c, keys, tail, d, total);
    }
  }

  lemma {:induction false} LinesParseCons(rev: Revision, order: nat, sp: string, c: Table,
                                          keys: seq<Words>, tail: string, d: Table, total: int)
    requires AllSpaces(sp) && keys != [] && LinesFit(rev, order, c, keys, d)
    ensures ParseStates(rev, order, ParseState(InputStream(sp + StateLines(c, keys) + tail, false, false), [], [], total, d)) ==
            ParseStates(rev, order, ParseState(InputStream(" \n" + tail, false, false), [], [], -1, Fold(d, c, keys)))
    decreases |keys|, 1
  {
    FirstLineParse(rev, order, sp, c, keys, tail, d, total);
    LinesAfterFirst(rev, order, c, keys, tail, d);
  }

  /** The lines after the first, read from the state the first line left. */
  lemma {:induction false} LinesAfterFirst(rev: Revision, order: nat, c: Table, keys: seq<Words>, tail: string, d: Table)
    requires keys != [] && LinesFit(rev, order, c, keys, d)
    ensures var d' := d[keys[0] := Absorbed(Lookup(d, keys[0]), c[keys[0]].words)];
            ParseStates(rev, order, ParseState(InputStream(" \n" + StateLines(c, keys[1..]) + tail, false, false), [], [], -1, d')) ==
            ParseStates(rev, order, ParseState(InputStream(" \n" + tail, false, false), [], [], -1, Fold(d, c, keys)))
    decreases |keys|, 0
  {
    var d' := d[keys[0] := Absorbed(Lookup(d, keys[0]), c[keys[0]].words)];
    TailKeys(rev, order, c, keys, d);
    SpaceNewlineGap();
    LinesParse(rev, order, " \n", c, keys[1..], tail, d', -1);
    FoldCons(d, c, keys);
  }

  lemma SpaceNewlineGap()
    ensures AllSpaces(" \n")
  {
  }

  /** A pass that ends the loop from a good stream ends the parse. */
  lemma ParseFinishes(rev: Revision, order: nat, s: ParseState, outcome: ParseOutcome)
    requires s.input.Good() && Pass(rev, order, s) == Finished(outcome)
    ensures ParseStates(rev, order, s) == outcome
  {
  }

  /** The trailer read where a key word is expected ends the parse. */
  lemma TrailerParse(rev: Revision, order: nat, sp: string, rest: string, total: int, d: Table)
    requires AllSpaces(sp) && (rest == [] || IsSpace(rest[0]))
    ensures ParseStates(rev, order, ParseState(InputStream(sp + Trailer + rest, false, false), [], [], total, d)) ==
            Parsed(d)
  {
    ScanKeyAtMark(sp, Trailer, rest, []);
  }

  /** Only whitespace left: `>>` extracts nothing and sets eof and fail. */
  lemma ReadWordSpaces(input: InputStream)
    requires input.Good() && AllSpaces(input.rest)
    ensures ReadWord(input) == (InputStream([], true, true), None)
  {
    SkipSpacesPrefix(input.rest, []);
    EmptyConcat(input.rest);
  }

  lemma ScanKeyEnd(input: InputStream, key: Words)
    requires input.Good() && AllSpaces(input.rest)
    ensures ScanKey(input, [], key) == KeyScan(AtEnd, InputStream([], true, true), [], key)
  {
    ReadWordSpaces(input);
  }

  /** Whitespace up to the end of the text where a key is expected: the key
      loop stops on eof with no words. */
  lemma EndParse(rev: Revision, order: nat, sp: string, total: int, d: Table)
    requires AllSpaces(sp) && order > 0
    ensures ParseStates(rev, order, ParseState(InputStream(sp, false, false), [], [], total, d)) ==
            ParseFailed(WrongOrder)
  {
    var s := ParseState(InputStream(sp, false, false), [], [], total, d);
    ScanKeyEnd(s.input, []);
    ParseFinishes(rev, order, s, ParseFailed(WrongOrder));
  }

  // ---- The preamble --------------------------------------------------------

  /** A header at the start of the text is found at once. */
  lemma HeaderAt(text: string, r0: string)
    requires text == [] + Header + r0 && (r0 == [] || IsSpace(r0[0]))
    ensures FindHeader(Open(text), "") == InputStream(r0, r0 == [], false)
  {
    IsTokenDelimiterTrailer();
    ReadWordAt(Open(text), [], Header, r0);
  }

  /** `load` once the header is found and the order is a positive number. */
  lemma LoadAfterHeader(rev: Revision, o: nat, d: Table, text: string, afterHeader: InputStream,
                        order: nat, afterOrder: InputStream, afterBuckets: InputStream)
    requires FindHeader(Open(text), "") == afterHeader && afterHeader.Good()
    requires ReadNumber(afterHeader) == (afterOrder, Number(order)) && order > 0
    requires ReadNumber(afterOrder).0 == afterBuckets
    ensures LoadText(rev, o, d, text, true) ==
            LoadResult(order, ParseStates(rev, order, ParseState(Getline(afterBuckets), [], [], 0, d)))
    ensures LoadText(rev, o, d, text, false) == LoadFailed(OutOfMemory)
  {
  }

  lemma GetlineNewline(body: string)
    ensures Getline(InputStream("\n" + body, false, false)) == InputStream(body, false, false)
  {
    assert ("\n" + body)[1..] == body;
  }

  lemma PreambleSplit(order: nat, buckets: nat, body: string)
    ensures SavedPreamble(order, buckets) + body ==
            [] + Header + ("\n" + NatToString(order) + ("\n" + NatToString(buckets) + ("\n" + body)))
  {
  }

  /** `load` reads the preamble `save` writes and goes on with the lines. */
  lemma LoadPreamble(rev: Revision, o: nat, d: Table, order: nat, buckets: nat, body: string)
    requires order > 0
    ensures LoadText(rev, o, d, SavedPreamble(order, buckets) + body, true) ==
            LoadResult(order, ParseStates(rev, order, ParseState(InputStream(body, false, false), [], [], 0, d)))
    ensures LoadText(rev, o, d, SavedPreamble(order, buckets) + body, false) == LoadFailed(OutOfMemory)
  {
    var r2 := "\n" + body;
    var r1 := "\n" + NatToString(buckets) + r2;
    var r0 := "\n" + NatToString(order) + r1;
    var afterHeader := InputStream(r0, false, false);
    var afterOrder := InputStream(r1, false, false);
    var afterBuckets := InputStream(r2, false, false);
    PreambleSplit(order, buckets, body);
    HeaderAt(SavedPreamble(order, buckets) + body, r0);
    ReadNumberAt(afterHeader, "\n", order, r1);
    ReadNumberAt(afterOrder, "\n", buckets, r2);
    GetlineNewline(body);
    LoadAfterHeader(rev, o, d, SavedPreamble(order, buckets) + body, afterHeader, order, afterOrder, afterBuckets);
  }

  // ---- Folding the lines into the table ----------------------------------

  lemma {:induction false} FoldLookup(d: Table, c: Table, keys: seq<Words>, k: Words)
    requires forall i, j :: 0 <= i < j < |keys| ==> keys[i] != keys[j]
    requires forall i :: 0 <= i < |keys| ==> keys[i] in c
    ensures (k in Fold(d, c, keys)) <==> (k in d || k in keys)
    ensures k in Fold(d, c, keys) ==>
              Fold(d, c, keys)[k] == if k in keys then Absorbed(Lookup(d, k), c[k].words) else d[k]
    decreases |keys|
  {
    if keys != [] {
      var d' := d[keys[0] := Absorbed(Lookup(d, keys[0]), c[keys[0]].words)];
      FoldLookup(d', c, keys[1..], k);
      if k == keys[0] {
        assert k !in keys[1..];
      } else {
        assert k in keys <==> k in keys[1..];
      }
    }
  }

  lemma FoldIsMerged(d: Table, c: Table, keys: seq<Words>)
    requires Enumerates(keys, c)
    ensures Fold(d, c, keys) == Merged(d, c)
  {
    forall k ensures (k in Fold(d, c, keys)) <==> (k in Merged(d, c)) {
      FoldLookup(d, c, keys, k);
    }
    forall k | k in Merged(d, c) ensures Fold(d, c, keys)[k] == Merged(d, c)[k] {
      FoldLookup(d, c, keys, k);
    }
  }

  // ---- Round trip ----------------------------------------------------------

  lemma FitFromEnumerates(rev: Revision, order: nat, c: Table, keys: seq<Words>, d: Table)
    requires Enumerates(keys, c) && Saveable(order, c)
    requires rev == Corrected || d.Keys !! c.Keys
    ensures LinesFit(rev, order, c, keys, d)
  {
  }

  lemma SavedSplit(order: nat, buckets: nat, c: Table, keys: seq<Words>)
    requires Enumerates(keys, c)
    ensures SavedText(order, buckets, c, keys) ==
            SavedPreamble(order, buckets) + ([] + StateLines(c, keys) + (Trailer + "\n"))
  {
  }

  /** The lines and the trailer `save` writes parse into `c` added to `d`. */
  lemma LinesAndTrailerParse(rev: Revision, order: nat, d: Table, c: Table, keys: seq<Words>, rest: string)
    requires Enumerates(keys, c) && Saveable(order, c)
    requires rev == Corrected || d.Keys !! c.Keys
    requires rest == [] || IsSpace(rest[0])
    ensures ParseStates(rev, order, ParseState(InputStream([] + StateLines(c, keys) + (Trailer + rest), false, false), [], [], 0, d)) ==
            Parsed(Merged(d, c))
  {
    FitFromEnumerates(rev, order, c, keys, d);
    FoldIsMerged(d, c, keys);
    if keys == [] {
      OnlyTrailerParse(rev, order, d, c, keys, rest);
    } else {
      SomeLinesParse(rev, order, d, c, keys, rest);
    }
  }

  lemma OnlyTrailerParse(rev: Revision, order: nat, d: Table, c: Table, keys: seq<Words>, rest: string)
    requires keys == [] && (rest == [] || IsSpace(rest[0]))
    ensures ParseStates(rev, order, ParseState(InputStream([] + StateLines(c, keys) + (Trailer + rest), false, false), [], [], 0, d)) ==
            Parsed(d)
  {
    NoLines([], c, keys, Trailer + rest);
    Reassociate([], Trailer, rest);
    TrailerParse(rev, order, [], rest, 0, d);
  }

  lemma SomeLinesParse(rev: Revision, order: nat, d: Table, c: Table, keys: seq<Words>, rest: string)
    requires keys != [] && LinesFit(rev, order, c, keys, d) && (rest == [] || IsSpace(rest[0]))
    ensures ParseStates(rev, order, ParseState(InputStream([] + StateLines(c, keys) + (Trailer + rest), false, false), [], [], 0, d)) ==
            Parsed(Fold(d, c, keys))
  {
    LinesParseCons(rev, order, [], c, keys, Trailer + rest, d, 0);
    TrailerAfterLines(rev, order, rest, Fold(d, c, keys));
  }

  /** The trailer on the line after the last state line ends the parse. */
  lemma TrailerAfterLines(rev: Revision, order: nat, rest: string, t: Table)
    requires rest == [] || IsSpace(rest[0])
    ensures ParseStates(rev, order, ParseState(InputStream(" \n" + (Trailer + rest), false, false), [], [], -1, t)) ==
            Parsed(t)
  {
    Reassociate(" \n", Trailer, rest);
    SpaceNewlineGap();
    TrailerParse(rev, order, " \n", rest, -1, t);
  }

  /** `load` of what `save` wrote for a table `c` of order `order`, into a
      chain holding table `d`: the order is restored and `c`'s states are
      added into `d`.  The reader as written needs `d` to share no key with
      `c` (see KeyReuseAsWritten); the corrected reader does not. */
  lemma RoundTrip(rev: Revision, o: nat, d: Table, order: nat, buckets: nat, c: Table, keys: seq<Words>)
    requires Enumerates(keys, c) && Saveable(order, c)
    requires rev == Corrected || d.Keys !! c.Keys
    ensures LoadText(rev, o, d, SavedText(order, buckets, c, keys), true) == Loaded(order, Merged(d, c))
  {
    SavedSplit(order, buckets, c, keys);
    LoadPreamble(rev, o, d, order, buckets, [] + StateLines(c, keys) + (Trailer + "\n"));
    LinesAndTrailerParse(rev, order, d, c, keys, "\n");
  }

  /** Into a chain with an empty table, `load` after `save` restores the
      table exactly; the window of the loading chain is kept. */
  lemma SaveLoadRestores(rev: Revision, chain: Chain, c: Chain, buckets: nat, keys: seq<Words>)
    requires Enumerates(keys, c.table) && Saveable(c.order, c.table) && chain.table == map[]
    ensures LoadSpec(rev, chain, SavedText(c.order, buckets, c.table, keys), true) ==
            (Chain(c.order, chain.window, c.table), Ok(()))
  {
    RoundTrip(rev, chain.order, map[], c.order, buckets, c.table, keys);
    MergedIntoEmpty(c.table);
    LoadSpecLoaded(rev, chain, SavedText(c.order, buckets, c.table, keys), true, c.order, c.table);
  }

  /** When `reserve` cannot get the bucket array for a saved chain, `load`
      resets the chain and rethrows the `bad_alloc`, whatever it held. */
  lemma FailedReserveResets(rev: Revision, chain: Chain, order: nat, buckets: nat, c: Table, keys: seq<Words>)
    requires Enumerates(keys, c) && order > 0
    ensures LoadSpec(rev, chain, SavedText(order, buckets, c, keys), false) ==
            (Chain(0, [], map[]), Err(LoadFailure(OutOfMemory)))
  {
    SavedSplit(order, buckets, c, keys);
    LoadPreamble(rev, chain.order, chain.table, order, buckets, [] + StateLines(c, keys) + (Trailer + "\n"));
  }

  lemma MergedIntoEmpty(c: Table)
    requires WellStored(c)
    ensures Merged(map[], c) == c
  {
    forall k | k in c ensures Merged(map[], c)[k] == c[k] {
      EmptyConcat(c[k].words);
    }
  }

  lemma LoadSpecLoaded(rev: Revision, chain: Chain, text: string, reserveOk: bool, order: nat, t: Table)
    requires LoadText(rev, chain.order, chain.table, text, reserveOk) == Loaded(order, t)
    ensures LoadSpec(rev, chain, text, reserveOk) == (Chain(order, chain.window, t), Ok(()))
  {
  }

  // ---- Error paths ---------------------------------------------------------

  /** `load` depends on the text only through where the header search stops. */
  lemma LoadFromHeader(rev: Revision, o: nat, d: Table, a: string, b: string, reserveOk: bool)
    requires FindHeader(Open(a), "") == FindHeader(Open(b), "")
    ensures LoadText(rev, o, d, a, reserveOk) == LoadText(rev, o, d, b, reserveOk)
  {
  }

  /** Leading whitespace does not change what `>>` reads. */
  lemma ReadWordSkipsSpaces(sp: string, text: string)
    requires AllSpaces(sp) && text != [] && !IsSpace(text[0])
    ensures ReadWord(InputStream(sp + text, false, false)) == ReadWord(InputStream(text, false, false))
  {
    SkipSpacesPrefix(sp, text);
    SkipSpacesPrefix([], text);
    EmptyConcat(text);
  }

  lemma FindHeaderAfterSpaces(sp: string, text: string, buffer: string)
    requires AllSpaces(sp) && text != [] && !IsSpace(text[0]) && buffer != Header
    ensures FindHeader(InputStream(sp + text, false, false), buffer) == FindHeader(Open(text), "")
  {
    ReadWordSkipsSpaces(sp, text);
  }

  lemma FindHeaderFirst(sp: string, junk: seq<Word>, text: string, buffer: string)
    requires AllSpaces(sp) && Tokens(junk) && junk != [] && buffer != Header
    ensures FindHeader(InputStream(sp + JoinWords(junk) + text, false, false), buffer) ==
            FindHeader(InputStream(" " + JoinWords(junk[1..]) + text, false, false), junk[0])
  {
    var input := InputStream(sp + JoinWords(junk) + text, false, false);
    JoinWordsSplit(sp, junk, text);
    ReadWordAt(input, sp, junk[0], " " + JoinWords(junk[1..]) + text);
  }

  /** Words that are not the header. */
  predicate Junk(ws: seq<Word>) {
    Tokens(ws) && forall i :: 0 <= i < |ws| ==> ws[i] != Header
  }

  lemma JunkTail(ws: seq<Word>)
    requires Junk(ws) && ws != []
    ensures Junk(ws[1..]) && ws[0] != Header
  {
    TokensTail(ws);
    forall i | 0 <= i < |ws[1..]| ensures ws[1..][i] != Header {
      assert ws[1..][i] == ws[i + 1];
    }
  }

  lemma {:induction false} FindHeaderSkips(sp: string, junk: seq<Word>, text: string, buffer: string)
    requires AllSpaces(sp) && Junk(junk)
    requires text != [] && !IsSpace(text[0]) && buffer != Header
    ensures FindHeader(InputStream(sp + JoinWords(junk) + text, false, false), buffer) ==
            FindHeader(Open(text), "")
    decreases |junk|, 1
  {
    if junk == [] {
      NoWords(sp, junk, text, []);
      FindHeaderAfterSpaces(sp, text, buffer);
    } else {
      FindHeaderSkipsCons(sp, junk, text, buffer);
    }
  }

  lemma {:induction false} FindHeaderSkipsCons(sp: string, junk: seq<Word>, text: string, buffer: string)
    requires AllSpaces(sp) && Junk(junk) && junk != []
    requires text != [] && !IsSpace(text[0]) && buffer != Header
    ensures FindHeader(InputStream(sp + JoinWords(junk) + text, false, false), buffer) ==
            FindHeader(Open(text), "")
    decreases |junk|, 0
  {
    FindHeaderFirst(sp, junk, text, buffer);
    JunkTail(junk);
    SingleSpace();
    FindHeaderSkips(" ", junk[1..], text, junk[0]);
  }

  /** Words before the header are skipped. */
  lemma SkipsWordsBeforeHeader(rev: Revision, o: nat, d: Table, junk: seq<Word>, text: string, reserveOk: bool)
    requires Junk(junk)
    requires text != [] && !IsSpace(text[0])
    ensures LoadText(rev, o, d, JoinWords(junk) + text, reserveOk) == LoadText(rev, o, d, text, reserveOk)
  {
    FindHeaderSkips([], junk, text, "");
    EmptyConcat(JoinWords(junk));
    LoadFromHeader(rev, o, d, JoinWords(junk) + text, text, reserveOk);
  }

  /** A chain order of 0 in the text is rejected. */
  lemma RejectsOrderZero(rev: Revision, o: nat, d: Table, rest: string, reserveOk: bool)
    requires rest == [] || IsSpace(rest[0])
    ensures LoadText(rev, o, d, Header + "\n" + "0" + rest, reserveOk) == LoadFailed(InadmissibleOrder)
  {
    var r0 := "\n" + NatToString(0) + rest;
    assert NatToString(0) == "0";
    assert Header + "\n" + "0" + rest == [] + Header + r0;
    HeaderAt(Header + "\n" + "0" + rest, r0);
    ReadNumberAt(InputStream(r0, false, false), "\n", 0, rest);
  }

  /** A key with a number of words other than the order is rejected: the
      words already in the key (none on a fresh line) and those read from
      the line together are not `order` words. */
  lemma RejectsWrongKeyLength(rev: Revision, order: nat, sp: string, acc: Words, key: Words,
                              v: WordsKeeper, more: string, total: int, d: Table)
    requires AllSpaces(sp) && KeyWords(key) && |acc + key| != order
    ensures ParseStates(rev, order, ParseState(InputStream(sp + StateLine(key, v) + more, false, false), [], acc, total, d)) ==
            ParseFailed(WrongOrder)
  {
    var s := ParseState(InputStream(sp + StateLine(key, v) + more, false, false), [], acc, total, d);
    KeyOfLine(sp, acc, key, v, more);
    ParseFinishes(rev, order, s, ParseFailed(WrongOrder));
  }

  lemma EmptyKeeperLine(more: string)
    ensures " " + NatToString(EmptyKeeper.totalWords) + (" " + JoinWords(EmptyKeeper.words) + ("\n" + more)) ==
            " " + NatToString(0) + (" " + ("\n" + more))
  {
  }

  /** A new key whose line holds no words is rejected. */
  lemma RejectsEmptyValue(rev: Revision, order: nat, sp: string, key: Words, more: string,
                          total: int, d: Table)
    requires AllSpaces(sp) && KeyWords(key) && |key| == order && key !in d
    ensures ParseStates(rev, order, ParseState(InputStream(sp + StateLine(key, EmptyKeeper) + more, false, false), [], [], total, d)) ==
            ParseFailed(NoValue)
  {
    var s := ParseState(InputStream(sp + StateLine(key, EmptyKeeper) + more, false, false), [], [], total, d);
    var r2 := " " + ("\n" + more);
    KeyOfLine(sp, [], key, EmptyKeeper, more);
    EmptyConcat(key);
    EmptyKeeperLine(more);
    ReadNumberAt(InputStream(" " + NatToString(0) + r2, false, false), " ", 0, r2);
    ParseFinishes(rev, order, s, ParseFailed(NoValue));
  }

  /** A saved text cut off before the trailer is rejected, whatever
      whitespace follows the last line: the key loop meets eof with no key
      words. */
  lemma RejectsMissingTrailer(rev: Revision, o: nat, d: Table, order: nat, buckets: nat, c: Table,
                              keys: seq<Words>, rest: string)
    requires Enumerates(keys, c) && Saveable(order, c)
    requires rev == Corrected || d.Keys !! c.Keys
    requires AllSpaces(rest)
    ensures LoadText(rev, o, d, SavedPreamble(order, buckets) + StateLines(c, keys) + rest, true) == LoadFailed(WrongOrder)
  {
    Reassociate(SavedPreamble(order, buckets), [] + StateLines(c, keys), rest);
    EmptyConcat(StateLines(c, keys));
    LoadPreamble(rev, o, d, order, buckets, [] + StateLines(c, keys) + rest);
    FitFromEnumerates(rev, order, c, keys, d);
    MissingTrailerParse(rev, order, c, keys, rest, d);
  }

  lemma MissingTrailerParse(rev: Revision, order: nat, c: Table, keys: seq<Words>, rest: string, d: Table)
    requires LinesFit(rev, order, c, keys, d) && AllSpaces(rest)
    ensures ParseStates(rev, order, ParseState(InputStream([] + StateLines(c, keys) + rest, false, false), [], [], 0, d)) ==
            ParseFailed(WrongOrder)
  {
    if keys == [] {
      NoLines([], c, keys, rest);
      EndParse(rev, order, [] + rest, 0, d);
    } else {
      MissingTrailerAfterLines(rev, order, c, keys, rest, d);
    }
  }

  lemma MissingTrailerAfterLines(rev: Revision, order: nat, c: Table, keys: seq<Words>, rest: string, d: Table)
    requires keys != [] && LinesFit(rev, order, c, keys, d) && AllSpaces(rest)
    ensures ParseStates(rev, order, ParseState(InputStream([] + StateLines(c, keys) + rest, false, false), [], [], 0, d)) ==
            ParseFailed(WrongOrder)
  {
    LinesParseCons(rev, order, [], c, keys, rest, d, 0);
    EndAfterLines(rev, order, rest, Fold(d, c, keys));
  }

  /** Only whitespace after the last state line: the parse fails. */
  lemma EndAfterLines(rev: Revision, order: nat, rest: string, t: Table)
    requires order > 0 && AllSpaces(rest)
    ensures ParseStates(rev, order, ParseState(InputStream(" \n" + rest, false, false), [], [], -1, t)) ==
            ParseFailed(WrongOrder)
  {
    SpacesConcat(" \n", rest);
    EndParse(rev, order, " \n" + rest, -1, t);
  }

  lemma SpacesConcat(a: string, b: string)
    requires AllSpaces(a) && AllSpaces(b)
    ensures AllSpaces(a + b)
  {
  }

  /** The trailer ends the parse even in the middle of a key: the words read
      so far are dropped and the table is kept. */
  lemma TrailerInsideKey(rev: Revision, order: nat, sp: string, ws: Words, rest: string, total: int, d: Table)
    requires AllSpaces(sp) && KeyWords(ws) && (rest == [] || IsSpace(rest[0]))
    ensures ParseStates(rev, order, ParseState(InputStream(sp + JoinWords(ws) + Trailer + rest, false, false), [], [], total, d)) ==
            Parsed(d)
  {
    var gap := if ws == [] then sp else " ";
    var s := ParseState(InputStream(sp + JoinWords(ws) + Trailer + rest, false, false), [], [], total, d);
    Reassociate(sp + JoinWords(ws), Trailer, rest);
    ScanKeyOver(sp, ws, Trailer + rest, []);
    Reassociate(gap, Trailer, rest);
    ScanKeyAtMark(gap, Trailer, rest, [] + ws);
    ParseFinishes(rev, order, s, Parsed(d));
  }

  // ---- The reader as written ---------------------------------------------

  /** The reader as written on the first of the lines of `keys` whose key is
      already in the table: the key stays in `key` for the next line. */
  lemma FirstLineKeepsKey(order: nat, c: Table, keys: seq<Words>, tail: string, d: Table)
    requires Saveable(order, c) && keys != [] && (forall i :: 0 <= i < |keys| ==> keys[i] in c) && keys[0] in d
    ensures ParseStates(AsWritten, order, ParseState(InputStream([] + StateLines(c, keys) + tail, false, false), [], [], 0, d)) ==
            ParseStates(AsWritten, order, ParseState(InputStream(" \n" + (StateLines(c, keys[1..]) + tail), false, false), [], keys[0], -1,
                                                     d[keys[0] := Absorbed(Lookup(d, keys[0]), c[keys[0]].words)]))
  {
    var k := keys[0];
    var more := StateLines(c, keys[1..]) + tail;
    var s := ParseState(InputStream([] + StateLines(c, keys) + tail, false, false), [], [], 0, d);
    StateLinesParts([], c, keys, tail);
    PassOnLine(AsWritten, order, s, [], k, c[k], more);
    ParseContinues(AsWritten, order, s, ParseState(InputStream(" \n" + more, false, false), [], k, -1,
                                                   d[k := Absorbed(Lookup(d, k), c[k].words)]));
  }

  /** Defect: when a line's key is already in the table, the map does not
      move it out of `key`, so the next line's key words are appended to it
      and that line fails with "wrong order".  Loading a saved chain into a
      chain that already holds the state of the first line saved fails. */
  lemma KeyReuseAsWritten(o: nat, d: Table, order: nat, buckets: nat, c: Table, keys: seq<Words>)
    requires Enumerates(keys, c) && Saveable(order, c)
    requires |keys| >= 2 && keys[0] in d
    ensures LoadText(AsWritten, o, d, SavedText(order, buckets, c, keys), true) == LoadFailed(WrongOrder)
  {
    SavedSplit(order, buckets, c, keys);
    LoadPreamble(AsWritten, o, d, order, buckets, [] + StateLines(c, keys) + (Trailer + "\n"));
    KeyReuseParse(order, c, keys, Trailer + "\n", d);
  }

  lemma KeyReuseParse(order: nat, c: Table, keys: seq<Words>, tail: string, d: Table)
    requires Enumerates(keys, c) && Saveable(order, c)
    requires |keys| >= 2 && keys[0] in d
    ensures ParseStates(AsWritten, order, ParseState(InputStream([] + StateLines(c, keys) + tail, false, false), [], [], 0, d)) ==
            ParseFailed(WrongOrder)
  {
    FirstLineKeepsKey(order, c, keys, tail, d);
    SecondLineWrongOrder(order, c, keys, tail, d[keys[0] := Absorbed(Lookup(d, keys[0]), c[keys[0]].words)]);
  }

  /** The line after one whose key was kept: its key words go after the kept
      key, which is then twice the order long. */
  lemma SecondLineWrongOrder(order: nat, c: Table, keys: seq<Words>, tail: string, d: Table)
    requires Enumerates(keys, c) && Saveable(order, c) && |keys| >= 2
    ensures ParseStates(AsWritten, order, ParseState(InputStream(" \n" + (StateLines(c, keys[1..]) + tail), false, false), [], keys[0], -1, d)) ==
            ParseFailed(WrongOrder)
  {
    var ks := keys[1..];
    SecondKey(order, c, keys);
    SpaceNewlineGap();
    StateLinesParts(" \n", c, ks, tail);
    Reassociate(" \n", StateLines(c, ks), tail);
    RejectsWrongKeyLength(AsWritten, order, " \n", keys[0], ks[0], c[ks[0]], StateLines(c, ks[1..]) + tail, -1, d);
  }

  /** The second key is made of key words, and after the first key it is
      twice the order long. */
  lemma SecondKey(order: nat, c: Table, keys: seq<Words>)
    requires Enumerates(keys, c) && Saveable(order, c) && |keys| >= 2
    ensures keys[1..] != [] && keys[1..][0] == keys[1] && keys[1] in c
    ensures (forall i :: 0 <= i < |keys[1..]| ==> keys[1..][i] in c)
    ensures KeyWords(keys[1]) && |keys[0] + keys[1]| != order
  {
    assert keys[0] in c && keys[1] in c;
    forall i | 0 <= i < |keys[1..]| ensures keys[1..][i] in c {
      assert keys[1..][i] == keys[i + 1];
    }
  }

  lemma BadCountSplit(order: nat, junk: string)
    ensures Header + "\n" + NatToString(order) + "\n" + junk ==
            [] + Header + ("\n" + NatToString(order) + ("\n" + junk))
  {
  }

  /** No digit where a number is expected: the fail flag is set, eof is not. */
  lemma NotANumberAt(sp: string, junk: string)
    requires AllSpaces(sp) && junk != [] && !IsSpace(junk[0]) && !IsDigit(junk[0])
    ensures ReadNumber(InputStream(sp + junk, false, false)) == (InputStream(junk, false, true), NotANumber)
  {
    SkipSpacesPrefix(sp, junk);
  }

  /** Defect: a bucket count that is not a number sets the fail flag without
      eof; the parse loop only watches eof, so `load` never returns.  The
      corrected reader stops with "stream not good". */
  lemma BadBucketCountHangsAsWritten(o: nat, d: Table, order: nat, junk: string)
    requires order > 0 && junk != [] && !IsSpace(junk[0]) && !IsDigit(junk[0])
    ensures LoadText(AsWritten, o, d, Header + "\n" + NatToString(order) + "\n" + junk, true) == Hangs(order, d)
    ensures LoadText(Corrected, o, d, Header + "\n" + NatToString(order) + "\n" + junk, true) == LoadFailed(StreamNotGood)
  {
    BadCountText(AsWritten, o, d, order, junk);
    BadCountText(Corrected, o, d, order, junk);
    StalledParse(order, InputStream(junk, false, true), d);
  }

  /** `load` reads the header and the order, fails on the bucket count and
      hands the failed stream to `parseChainStates`. */
  lemma BadCountText(rev: Revision, o: nat, d: Table, order: nat, junk: string)
    requires order > 0 && junk != [] && !IsSpace(junk[0]) && !IsDigit(junk[0])
    ensures LoadText(rev, o, d, Header + "\n" + NatToString(order) + "\n" + junk, true) ==
            LoadResult(order, ParseStates(rev, order, ParseState(InputStream(junk, false, true), [], [], 0, d)))
  {
    var text := Header + "\n" + NatToString(order) + "\n" + junk;
    var r1 := "\n" + junk;
    var r0 := "\n" + NatToString(order) + r1;
    var afterHeader := InputStream(r0, false, false);
    var afterOrder := InputStream(r1, false, false);
    var stalled := InputStream(junk, false, true);
    BadCountSplit(order, junk);
    HeaderAt(text, r0);
    ReadNumberAt(afterHeader, "\n", order, r1);
    NotANumberAt("\n", junk);
    LoadAfterHeader(rev, o, d, text, afterHeader, order, afterOrder, stalled);
    assert Getline(stalled) == stalled;
  }

  /** From a stream that failed without eof, the reader as written spins in
      the key loop; the corrected one stops at once. */
  lemma StalledParse(order: nat, stalled: InputStream, d: Table)
    requires stalled.fail && !stalled.eof
    ensures Getline(stalled) == stalled
    ensures ParseStates(AsWritten, order, ParseState(stalled, [], [], 0, d)) == Diverges(d)
    ensures ParseStates(Corrected, order, ParseState(stalled, [], [], 0, d)) == ParseFailed(StreamNotGood)
  {
    assert ReadWord(stalled) == (stalled, None);
  }

  // ---- Why a pass without progress is a hang -------------------------------

  /** The key loop on a stream that failed without eof: it reads nothing,
      ends on the delimiter exactly when that is the word left in `tmp`, and
      spins when `tmp` is empty. */
  lemma FailedScan(input: InputStream, tmp: string, key: Words)
    requires input.fail && !input.eof
    ensures ScanKey(input, tmp, key).input == input
    ensures ScanKey(input, tmp, key).exit == AtDelimiter <==> tmp == Delimiter
    ensures tmp == Delimiter ==> ScanKey(input, tmp, key) == KeyScan(AtDelimiter, input, Delimiter, key)
    ensures tmp == [] ==> ScanKey(input, tmp, key).exit == Stuck
  {
    assert ReadWord(input) == (input, None);
    if tmp != [] && tmp != Delimiter && tmp != Trailer {
      assert ScanKey(input, tmp, key) == ScanKey(input, [], key + [tmp]);
      assert ScanKey(input, [], key + [tmp]).exit == Stuck;
    }
  }

  /** On a failed stream the value loop stores a left-over `tmp` once, then
      counts down without reading. */
  lemma {:induction false} StalledValues(input: InputStream, tmp: string, total: int, value: WordsKeeper)
    requires input.fail && !input.eof && total > 0
    ensures ReadValues(input, tmp, total, value).input == input
    ensures ReadValues(input, tmp, total, value).tmp == []
    decreases total
  {
    assert ReadWord(input) == (input, None);
    if tmp != [] {
      StalledValuesEmpty(input, total - 1, value.AddWord(tmp));
    } else {
      StalledValuesEmpty(input, total - 1, value);
    }
  }

  lemma {:induction false} StalledValuesEmpty(input: InputStream, total: int, value: WordsKeeper)
    requires input.fail && !input.eof
    ensures ReadValues(input, [], total, value).input == input
    ensures ReadValues(input, [], total, value).tmp == []
    decreases if total > 0 then total else 0
  {
    assert ReadWord(input) == (input, None);
    if total - 1 >= 0 {
      StalledValuesEmpty(input, total - 1, value);
    }
  }

  /** A pass of the reader as written that goes on from a stream that failed
      without eof leaves the stream as it was, and the pass after it either
      spins in the key loop for ever or goes on in the same way with only
      the count lower: the loop never ends, which is what ParseStates
      reports as `Diverges`. */
  lemma StalledPassRepeats(order: nat, s: ParseState)
    requires s.input.fail && !s.input.eof
    requires Pass(AsWritten, order, s).Continue?
    ensures Pass(AsWritten, order, s).next.input == s.input
    ensures var next := Pass(AsWritten, order, s).next;
            if next.tmp == [] then ScanKey(next.input, next.tmp, next.key).exit == Stuck
            else Pass(AsWritten, order, next) == Continue(next.(total := next.total - 1))
  {
    var input := s.input;
    FailedScan(input, s.tmp, s.key);
    assert s.tmp == Delimiter;
    assert ReadNumber(input) == (input, NoSentry);
    var value := Lookup(s.table, s.key);
    if s.total > 0 {
      StalledValues(input, Delimiter, s.total, value);
      FailedScan(input, [], Pass(AsWritten, order, s).next.key);
    } else {
      StalledTotal(order, s);
    }
  }

  /** The case of StalledPassRepeats where the count is used up: the key was
      already in the table, stays in `key`, and nothing changes but the count. */
  lemma StalledTotal(order: nat, s: ParseState)
    requires s.input.fail && !s.input.eof && s.tmp == Delimiter && s.total <= 0
    requires Pass(AsWritten, order, s).Continue?
    ensures Pass(AsWritten, order, s) == Continue(s.(total := s.total - 1))
  {
    var input := s.input;
    FailedScan(input, s.tmp, s.key);
    assert ReadNumber(input) == (input, NoSentry);
    assert s.key in s.table;
    assert s.table[s.key := s.table[s.key]] == s.table;
  }
}
