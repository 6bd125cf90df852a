/** `WordSplitter` (source/word_splitter.cpp): text arrives in chunks, is
    written into a `stringstream` buffer, and words are extracted from the
    buffer with `>>` and handed to a handler.  The buffer is the stream of
    module Text: its unread text plus the eof and fail flags.  The handler is
    an outside callback; the model returns the words it would receive, in
    order. */
module Splitter {
  import opened Text

  /** `std::logic_error` from `addText` without a handler, and
      `std::bad_function_call` from `flush` calling an empty handler. */
  datatype SplitError = NoHandler | EmptyHandlerCalled

  datatype Outcome = Handled(words: seq<string>) | Raised(error: SplitError)

  /** A buffer and what was extracted from it on the way there. */
  datatype Extraction = Extraction(buffer: InputStream, words: seq<string>)

  /** `std::count(text, text + size, ' ')`: only the ASCII space counts. */
  function SpaceCount(text: string): (n: nat)
    ensures n <= |text|
  {
    if text == [] then 0 else (if text[0] == ' ' then 1 else 0) + SpaceCount(text[1..])
  }

  /** `m_Buffer.write`: the text is appended when the stream is good; on a
      stream that is not good the sentry fails and nothing is written. */
  function Write(b: InputStream, text: string): InputStream {
    if b.Good() then b.(rest := b.rest + text) else b
  }

  /** `n` extractions into a fresh string each; the non-empty ones are the
      words the handler gets. */
  function Extract(b: InputStream, n: nat): Extraction
    decreases n
  {
    if n == 0 then Extraction(b, [])
    else
      var (next, got) := ReadWord(b);
      var e := Extract(next, n - 1);
      Extraction(e.buffer, (if got.Some? then [got.value] else []) + e.words)
  }

  /** Extractions until one yields an empty word. */
  function Drain(b: InputStream): Extraction
    decreases Rank(b)
  {
    var (next, got) := ReadWord(b);
    if got.None? then Extraction(next, [])
    else
      var e := Drain(next);
      Extraction(e.buffer, [got.value] + e.words)
  }

  /** `addText`: the new buffer and what the handler receives.  The flags are
      cleared at the end; the unread text stays. */
  function AddTextStep(handlerSet: bool, b: InputStream, text: string): Extraction {
    if !handlerSet then Extraction(b, [])
    else
      var e := Extract(Write(b, text), SpaceCount(text));
      Extraction(e.buffer.(eof := false, fail := false), e.words)
  }

  /** `flush` without a handler: the first word extracted is passed to an
      empty `std::function`, which throws. */
  function FlushStep(handlerSet: bool, b: InputStream): (InputStream, Outcome) {
    if handlerSet then
      var e := Drain(b);
      (e.buffer, Handled(e.words))
    else
      var (next, got) := ReadWord(b);
      (next, if got.None? then Handled([]) else Raised(EmptyHandlerCalled))
  }

  class WordSplitter {
    var handlerSet: bool
    var buffer: InputStream

    constructor()
      ensures !handlerSet && buffer == Open("")
    {
      handlerSet := false;
      buffer := Open("");
    }

    /** `setHandler`: only whether a handler is set matters here. */
    method SetHandler(present: bool)
      modifies this
      ensures handlerSet == present && buffer == old(buffer)
    {
      handlerSet := present;
    }

    method AddText(text: string) returns (r: Outcome)
      modifies this
      ensures handlerSet == old(handlerSet)
      ensures !handlerSet ==> r == Raised(NoHandler) && buffer == old(buffer)
      ensures handlerSet ==>
                var e := AddTextStep(true, old(buffer), text);
                r == Handled(e.words) && buffer == e.buffer
    {
      if !handlerSet {
        return Raised(NoHandler);
      }
      var newWords := SpaceCount(text);
      buffer := Write(buffer, text);
      ghost var target := Extract(buffer, newWords);
      var words: seq<string> := [];
      for i := 0 to newWords
        invariant handlerSet
        invariant Extract(buffer, newWords - i).buffer == target.buffer
        invariant words + Extract(buffer, newWords - i).words == target.words
      {
        var (next, got) := ReadWord(buffer);
        buffer := next;
        if got.Some? {
          words := words + [got.value];
        }
      }
      buffer := buffer.(eof := false, fail := false);
      r := Handled(words);
    }

    method Flush() returns (r: Outcome)
      modifies this
      ensures handlerSet == old(handlerSet)
      ensures (buffer, r) == FlushStep(handlerSet, old(buffer))
    {
      ghost var target := Drain(buffer);
      var words: seq<string> := [];
      while true
        invariant handlerSet == old(handlerSet)
        invariant !handlerSet ==> buffer == old(buffer)
        invariant Drain(buffer).buffer == target.buffer
        invariant words + Drain(buffer).words == target.words
        invariant !handlerSet ==> words == []
        decreases Rank(buffer)
      {
        var (next, got) := ReadWord(buffer);
        buffer := next;
        if got.None? {
          assert words == target.words;
          break;
        }
        if !handlerSet {
          assert (buffer, Raised(EmptyHandlerCalled)) == FlushStep(handlerSet, old(buffer));
          return Raised(EmptyHandlerCalled);
        }
        words := words + [got.value];
      }
      assert buffer == target.buffer;
      assert handlerSet ==> (buffer, Handled(words)) == FlushStep(handlerSet, old(buffer));
      r := Handled(words);
    }
  }

  // ---- What the handler receives ----------------------------------------

  /** One extraction from a good buffer takes its first token, or finds that
      none is left. */
  lemma ReadWordTokens(b: InputStream)
    requires b.Good()
    ensures ReadWord(b).1.Some? ==>
              [ReadWord(b).1.value] + Tokenize(ReadWord(b).0.rest) == Tokenize(b.rest)
    ensures ReadWord(b).1.None? ==>
              ReadWord(b).0 == InputStream([], true, true) && Tokenize(b.rest) == []
  {
  }

  /** On a buffer that is not good every extraction fails: nothing is
      extracted and the unread text stays. */
  lemma {:induction false} ExtractStopped(b: InputStream, n: nat)
    requires !b.Good()
    ensures Extract(b, n).words == [] && Extract(b, n).buffer.rest == b.rest
    ensures !Extract(b, n).buffer.Good()
    decreases n
  {
    if n > 0 {
      ExtractStopped(ReadWord(b).0, n - 1);
    }
  }

  /** `n` extractions call the handler at most `n` times. */
  lemma {:induction false} ExtractBound(b: InputStream, n: nat)
    ensures |Extract(b, n).words| <= n
    decreases n
  {
    if n > 0 {
      ExtractBound(ReadWord(b).0, n - 1);
    }
  }

  /** Extraction from a good buffer hands over its tokens in order, each
      once: what was extracted followed by the tokens still unread is every
      token the buffer held. */
  lemma {:induction false} ExtractTokens(b: InputStream, n: nat)
    requires b.Good()
    ensures Extract(b, n).words + Tokenize(Extract(b, n).buffer.rest) == Tokenize(b.rest)
    decreases n
  {
    if n > 0 {
      ReadWordTokens(b);
      var (next, got) := ReadWord(b);
      if next.Good() {
        ExtractTokens(next, n - 1);
      } else {
        ExtractStopped(next, n - 1);
        assert Tokenize(next.rest) == [];
      }
    }
  }

  /** `addText` with a handler: the handler is called at most once per space
      of the chunk, only with tokens, in buffer order, and the words it got
      plus the words left in the buffer are the tokens of the old unread text
      followed by the chunk.  The buffer is good again afterwards. */
  lemma AddTextTokens(b: InputStream, text: string)
    requires b.Good()
    ensures var e := AddTextStep(true, b, text);
              e.buffer.Good() && |e.words| <= SpaceCount(text) &&
              (forall i :: 0 <= i < |e.words| ==> IsToken(e.words[i])) &&
              e.words + Tokenize(e.buffer.rest) == Tokenize(b.rest + text)
  {
    var w := Write(b, text);
    ExtractBound(w, SpaceCount(text));
    ExtractTokens(w, SpaceCount(text));
    var e := Extract(w, SpaceCount(text));
    var ts := Tokenize(b.rest + text);
    forall i | 0 <= i < |e.words|
      ensures IsToken(e.words[i])
    {
      assert e.words[i] == ts[i];
    }
  }

  /** Draining a good buffer hands over all its tokens and leaves it empty
      with eof and fail set. */
  lemma {:induction false} DrainTokens(b: InputStream)
    requires b.Good()
    ensures Drain(b) == Extraction(InputStream([], true, true), Tokenize(b.rest))
    decreases Rank(b)
  {
    ReadWordTokens(b);
    var (next, got) := ReadWord(b);
    if got.Some? {
      if next.Good() {
        DrainTokens(next);
      } else {
        assert next.rest == [];
        assert Drain(next) == Extraction(InputStream([], true, true), []);
      }
    }
  }

  /** `flush` with a handler emits every token left in a good buffer, in
      order, and leaves the stream failed at its end. */
  lemma FlushEmitsRest(b: InputStream)
    requires b.Good()
    ensures FlushStep(true, b) == (InputStream([], true, true), Handled(Tokenize(b.rest)))
  {
    DrainTokens(b);
  }

  // ---- The chunk after a flush ------------------------------------------

  /** As written, `addText` right after `flush` writes into a failed stream:
      the whole chunk is lost, and only then are the flags cleared. */
  lemma FlushLosesNextChunk(b: InputStream, text: string)
    requires b.Good()
    ensures AddTextStep(true, FlushStep(true, b).0, text) == Extraction(Open(""), [])
  {
    FlushEmitsRest(b);
    ExtractStopped(InputStream([], true, true), SpaceCount(text));
  }

  /** `flush` followed by `m_Buffer.clear()`. */
  function FlushCorrected(b: InputStream): Extraction {
    var e := Drain(b);
    Extraction(e.buffer.(eof := false, fail := false), e.words)
  }

  /** With the flags cleared after a flush, the next chunk is read like the
      first one. */
  lemma CorrectedFlushKeepsNextChunk(b: InputStream, text: string)
    requires b.Good()
    ensures FlushCorrected(b).words == Tokenize(b.rest)
    ensures var e := AddTextStep(true, FlushCorrected(b).buffer, text);
              e.words + Tokenize(e.buffer.rest) == Tokenize(text)
  {
    DrainTokens(b);
    assert FlushCorrected(b).buffer == Open("");
    AddTextTokens(Open(""), text);
    assert Open("").rest + text == text;
  }

  // ---- Words cut at the end of a chunk ------------------------------------

  /** As written, a chunk with more spaces than complete words lets the last
      extraction take the unfinished word at the buffer's end: "a  b" then
      "c " hands over "a", "b", "c" (this lemma and the next), while the text
      holds "a" and "bc" (ChunkedTextTokens). */
  lemma WordSplitAtChunkEnd()
    ensures AddTextStep(true, Open(""), "a  b") == Extraction(Open(""), ["a", "b"])
  {
    assert Write(Open(""), "a  b") == Open("a  b");
    assert SpaceCount("a  b") == 2;
    FirstChunkReads();
  }

  lemma FirstChunkReads()
    ensures Extract(Open("a  b"), 2) == Extraction(InputStream("", true, false), ["a", "b"])
  {
    var b0, b1, b2 := Open("a  b"), InputStream("  b", false, false), InputStream("", true, false);
    assert "" + "a" + "  b" == "a  b";
    ReadWordAt(b0, "", "a", "  b");
    assert "  " + "b" + "" == "  b";
    ReadWordAt(b1, "  ", "b", "");
    assert Extract(b1, 1) == Extraction(b2, ["b"]);
    assert Extract(b0, 2) == Extraction(b2, ["a", "b"]);
  }

  lemma WordTailChunk()
    ensures AddTextStep(true, Open(""), "c ") == Extraction(Open(" "), ["c"])
  {
    assert Write(Open(""), "c ") == Open("c ");
    ReadWordAt(Open("c "), "", "c", " ");
  }

  lemma ChunkedTextTokens()
    ensures Tokenize("a  b" + "c ") == ["a", "bc"]
  {
    assert "a  b" + "c " == "" + "a" + "  bc ";
    TokenizeAfterSpaces("", "a", "  bc ");
    TailTokens();
  }

  lemma TailTokens()
    ensures Tokenize("  bc ") == ["bc"]
  {
    assert "  bc " == "  " + "bc" + " ";
    TokenizeAfterSpaces("  ", "bc", " ");
    assert Tokenize(" ") == [];
  }

  /** Whitespace, a token and then whitespace or nothing: the token comes
      first. */
  lemma TokenizeAfterSpaces(sp: string, w: string, more: string)
    requires AllSpaces(sp) && IsToken(w) && (more == [] || IsSpace(more[0]))
    ensures Tokenize(sp + w + more) == [w] + Tokenize(more)
  {
    ReadWordAt(Open(sp + w + more), sp, w, more);
    ReadWordTokens(Open(sp + w + more));
  }

  predicate EndsAtSpace(p: string) {
    p == [] || IsSpace(p[|p| - 1])
  }

  predicate NoSpace(s: string) {
    forall i :: 0 <= i < |s| ==> !IsSpace(s[i])
  }

  /** Where the complete words of `s` end: after its last whitespace. */
  function CompleteEnd(s: string): (j: nat)
    ensures j <= |s| && EndsAtSpace(s[..j]) && NoSpace(s[j..])
  {
    if s == [] then 0
    else if IsSpace(s[|s| - 1]) then |s|
    else
      var j := CompleteEnd(s[..|s| - 1]);
      assert s[..|s| - 1][..j] == s[..j];
      assert forall i :: j <= i < |s| ==> !IsSpace(s[i]) by {
        forall i | j <= i < |s| ensures !IsSpace(s[i]) {
          if i < |s| - 1 {
            assert s[..|s| - 1][j..][i - j] == s[i];
          }
        }
      }
      j
  }

  /** `addText` as evidently intended: every word followed by whitespace is
      handed over, the unfinished word at the end stays in the buffer. */
  function AddTextCorrected(rest: string, text: string): Extraction {
    var s := rest + text;
    var j := CompleteEnd(s);
    Extraction(Open(s[j..]), Tokenize(s[..j]))
  }

  function Concat(chunks: seq<string>): string {
    if chunks == [] then "" else chunks[0] + Concat(chunks[1..])
  }

  /** The corrected `addText` over a run of chunks. */
  function FeedCorrected(rest: string, chunks: seq<string>): (r: Extraction)
    ensures r.buffer.Good()
    decreases |chunks|
  {
    if chunks == [] then Extraction(Open(rest), [])
    else
      var e := AddTextCorrected(rest, chunks[0]);
      var f := FeedCorrected(e.buffer.rest, chunks[1..]);
      Extraction(f.buffer, e.words + f.words)
  }

  lemma {:induction false} SkipSpacesConcat(p: string, z: string)
    ensures SkipSpaces(p) != [] ==> SkipSpaces(p + z) == SkipSpaces(p) + z
    ensures SkipSpaces(p) == [] ==> SkipSpaces(p + z) == SkipSpaces(z)
  {
    if p != [] && IsSpace(p[0]) {
      assert (p + z)[1..] == p[1..] + z;
      SkipSpacesConcat(p[1..], z);
    } else if p == [] {
      assert p + z == z;
    }
  }

  lemma {:induction false} SkipSpacesSuffix(p: string)
    ensures SkipSpaces(p) == p[|p| - |SkipSpaces(p)|..]
  {
    if p != [] && IsSpace(p[0]) {
      SkipSpacesSuffix(p[1..]);
    }
  }

  lemma SkippedEndsAtSpace(p: string)
    requires EndsAtSpace(p) && SkipSpaces(p) != []
    ensures IsSpace(SkipSpaces(p)[|SkipSpaces(p)| - 1])
  {
    SkipSpacesSuffix(p);
  }

  /** The first word of `r`, which ends in whitespace, ends inside `r`. */
  lemma FirstWordInside(r: string, z: string)
    requires r != [] && !IsSpace(r[0]) && IsSpace(r[|r| - 1])
    ensures var n := WordLength(r);
              0 < n < |r| && WordLength(r + z) == n &&
              (r + z)[..n] == r[..n] && (r + z)[n..] == r[n..] + z &&
              EndsAtSpace(r[n..])
  {
    var n := WordLength(r);
    assert n < |r|;
    assert r + z == r[..n] + (r[n..] + z);
    WordLengthPrefix(r[..n], r[n..] + z);
  }

  /** A text cut right after whitespace tokenizes piece by piece. */
  lemma {:induction false} TokenizeSplit(p: string, z: string)
    requires EndsAtSpace(p)
    ensures Tokenize(p + z) == Tokenize(p) + Tokenize(z)
    decreases |p|
  {
    var r := SkipSpaces(p);
    SkipSpacesConcat(p, z);
    if r != [] {
      SkippedEndsAtSpace(p);
      FirstWordInside(r, z);
      var n := WordLength(r);
      TokenizeSplit(r[n..], z);
    } else {
      assert Tokenize(p) == [];
    }
  }

  lemma NoSpaceTokens(s: string)
    requires NoSpace(s)
    ensures Tokenize(s) == if s == [] then [] else [s]
  {
    if s != [] {
      WordLengthPrefix(s, []);
      assert s + [] == s;
      assert s[|s|..] == [];
    }
  }

  lemma EndsAtSpaceConcat(q: string, t: string)
    requires EndsAtSpace(q) && EndsAtSpace(t)
    ensures EndsAtSpace(q + t)
  {
    if t != [] {
      assert (q + t)[|q + t| - 1] == t[|t| - 1];
    } else {
      assert q + t == q;
    }
  }

  lemma CutRejoins(q: string, rest: string, chunk: string, more: string, j: nat)
    requires j <= |rest + chunk|
    ensures q + (rest + chunk)[..j] + (rest + chunk)[j..] + more == q + rest + (chunk + more)
  {
    var s := rest + chunk;
    assert s[..j] + s[j..] == s;
  }

  lemma {:induction false} FeedTokens(q: string, rest: string, chunks: seq<string>)
    requires EndsAtSpace(q) && NoSpace(rest)
    ensures var f := FeedCorrected(rest, chunks);
              Tokenize(q) + f.words + Tokenize(f.buffer.rest) == Tokenize(q + rest + Concat(chunks))
    decreases |chunks|
  {
    if chunks == [] {
      TokenizeSplit(q, rest);
      assert q + rest + Concat(chunks) == q + rest;
    } else {
      var s := rest + chunks[0];
      var j := CompleteEnd(s);
      var e := AddTextCorrected(rest, chunks[0]);
      var f := FeedCorrected(s[j..], chunks[1..]);
      EndsAtSpaceConcat(q, s[..j]);
      TokenizeSplit(q, s[..j]);
      CutRejoins(q, rest, chunks[0], Concat(chunks[1..]), j);
      FeedTokens(q + s[..j], s[j..], chunks[1..]);
      Reassociate(Tokenize(q), e.words, f.words);
    }
  }

  lemma FedAllTokens(chunks: seq<string>)
    ensures var f := FeedCorrected("", chunks);
              f.words + Tokenize(f.buffer.rest) == Tokenize(Concat(chunks))
  {
    var none: string := [];
    var f := FeedCorrected(none, chunks);
    FeedTokens(none, none, chunks);
    assert Tokenize(none) == [];
    calc {
      Tokenize(Concat(chunks));
      { assert none + none + Concat(chunks) == Concat(chunks); }
      Tokenize(none + none + Concat(chunks));
      Tokenize(none) + f.words + Tokenize(f.buffer.rest);
      { assert Tokenize(none) + f.words == f.words; }
      f.words + Tokenize(f.buffer.rest);
    }
  }

  /** With the corrected `addText`, the words handed over for a text do not
      depend on how it was cut into chunks: all chunks and a final `flush`
      give exactly the tokens of the whole text. */
  lemma CorrectedChunkingInvariant(chunks: seq<string>)
    ensures var f := FeedCorrected("", chunks);
              f.words + Drain(f.buffer).words == Tokenize(Concat(chunks))
  {
    FedAllTokens(chunks);
    DrainTokens(FeedCorrected("", chunks).buffer);
  }
}
