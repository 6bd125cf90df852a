/** Characters, whitespace-delimited tokens and the formatted-input stream the
    chain is loaded from.  The stream is the unread rest of its text plus the
    two flags of a C++ input stream that matter here: end-of-file and failure. */
module Text {

  datatype Option<T> = None | Some(value: T)

  /** Whitespace as the C locale classifies it (what `>>` skips). */
  predicate IsSpace(c: char) {
    c == ' ' || c == '\t' || c == '\n' || c == '\U{000B}' || c == '\U{000C}' || c == '\r'
  }

  predicate AllSpaces(s: string) {
    forall i :: 0 <= i < |s| ==> IsSpace(s[i])
  }

  /** A word that can be written and read back: non-empty, no whitespace. */
  predicate IsToken(w: string) {
    |w| > 0 && forall i :: 0 <= i < |w| ==> !IsSpace(w[i])
  }

  predicate IsDigit(c: char) { '0' <= c <= '9' }

  predicate AllDigits(s: string) {
    forall i :: 0 <= i < |s| ==> IsDigit(s[i])
  }

  /** The text with its leading whitespace removed. */
  function SkipSpaces(s: string): (r: string)
    ensures |r| <= |s|
    ensures r == [] || !IsSpace(r[0])
    ensures r == [] ==> AllSpaces(s)
  {
    if s != [] && IsSpace(s[0]) then SkipSpaces(s[1..]) else s
  }

  /** Length of the leading run of non-whitespace characters. */
  function WordLength(s: string): (n: nat)
    ensures n <= |s|
    ensures forall i :: 0 <= i < n ==> !IsSpace(s[i])
    ensures n < |s| ==> IsSpace(s[n])
  {
    if s == [] || IsSpace(s[0]) then 0 else 1 + WordLength(s[1..])
  }

  /** Length of the leading run of decimal digits. */
  function DigitsLength(s: string): (n: nat)
    ensures n <= |s|
    ensures AllDigits(s[..n])
    ensures n < |s| ==> !IsDigit(s[n])
  {
    if s == [] || !IsDigit(s[0]) then 0 else 1 + DigitsLength(s[1..])
  }

  /** Every whitespace-delimited token of the text, in order. */
  function Tokenize(s: string): (ts: seq<string>)
    ensures forall i :: 0 <= i < |ts| ==> IsToken(ts[i])
    decreases |s|
  {
    var r := SkipSpaces(s);
    if r == [] then []
    else
      var n := WordLength(r);
      [r[..n]] + Tokenize(r[n..])
  }

  /** Numeric value of a run of decimal digits. */
  function DigitsValue(s: string): nat
    requires AllDigits(s)
  {
    if s == [] then 0 else 10 * DigitsValue(s[..|s| - 1]) + (s[|s| - 1] as int - '0' as int)
  }

  function DigitChar(d: nat): (c: char)
    requires d < 10
    ensures IsDigit(c) && c as int - '0' as int == d
  {
    ('0' as int + d) as char
  }

  /** Decimal rendering of a natural number, as `std::to_string` writes it. */
  function NatToString(n: nat): (s: string)
    ensures |s| > 0 && AllDigits(s)
  {
    if n < 10 then [DigitChar(n)] else NatToString(n / 10) + [DigitChar(n % 10)]
  }

  lemma {:induction false} NatToStringValue(n: nat)
    ensures DigitsValue(NatToString(n)) == n
  {
    if n >= 10 {
      var s := NatToString(n);
      assert s[..|s| - 1] == NatToString(n / 10);
      NatToStringValue(n / 10);
    }
  }

  lemma NatToStringIsToken(n: nat)
    ensures IsToken(NatToString(n))
  {
    var s := NatToString(n);
    forall i | 0 <= i < |s| ensures !IsSpace(s[i]) {
      assert IsDigit(s[i]);
    }
  }

  /** A formatted input stream: the text not yet extracted, the eof flag and
      the fail flag.  `Good()` is `std::istream::good()`. */
  datatype InputStream = InputStream(rest: string, eof: bool, fail: bool) {
    predicate Good() { !eof && !fail }
  }

  function Open(text: string): InputStream {
    InputStream(text, false, false)
  }

  /** Termination measure of every loop that reads from a stream: it never
      grows, and it drops whenever a read changes the stream (the unread text
      shrinks or a flag is raised). */
  function Rank(a: InputStream): nat {
    4 * |a.rest| + (if a.eof then 0 else 2) + (if a.fail then 0 else 1)
  }

  /** `in >> word` into a std::string.  `None` when nothing was extracted: the
      sentry failed or only whitespace was left; the caller's string then keeps
      its previous contents, as libstdc++ erases it only after the sentry. */
  function ReadWord(input: InputStream): (r: (InputStream, Option<string>))
    ensures Rank(r.0) <= Rank(input) && (input.Good() ==> Rank(r.0) < Rank(input))
    ensures r.1.Some? ==> input.Good() && IsToken(r.1.value) &&
                          !r.0.fail && (r.0.eof <==> r.0.rest == [])
    ensures r.1.None? ==> r.0.fail && (input.Good() ==> r.0.eof && AllSpaces(input.rest))
    ensures r.1.None? && !input.Good() ==> r.0 == input.(fail := true)
  {
    if !input.Good() then (input.(fail := true), None)
    else
      var s := SkipSpaces(input.rest);
      if s == [] then (InputStream([], true, true), None)
      else
        var n := WordLength(s);
        assert s[..n][0] == s[0];
        (InputStream(s[n..], n == |s|, false), Some(s[..n]))
  }

  datatype NumberRead = NoSentry | NotANumber | Number(value: nat)

  /** `in >> n` into an unsigned or int variable.  `NoSentry`: the stream was
      not good or held only whitespace, and the variable is left unchanged.
      `NotANumber`: no digit at the read position; the variable becomes 0 and
      the fail flag is set without eof. */
  function ReadNumber(input: InputStream): (r: (InputStream, NumberRead))
    ensures Rank(r.0) <= Rank(input) && (input.Good() ==> Rank(r.0) < Rank(input))
    ensures r.1.NoSentry? && !input.Good() ==> r.0 == input.(fail := true)
    ensures r.1.Number? ==> input.Good() && !r.0.fail
    ensures r.1.NoSentry? ==> r.0.fail && (input.Good() ==> r.0.eof)
    ensures r.1.NotANumber? ==> input.Good() && r.0.fail && !r.0.eof
  {
    if !input.Good() then (input.(fail := true), NoSentry)
    else
      var s := SkipSpaces(input.rest);
      if s == [] then (InputStream([], true, true), NoSentry)
      else
        var n := DigitsLength(s);
        if n == 0 then (InputStream(s, false, true), NotANumber)
        else (InputStream(s[n..], n == |s|, false), Number(DigitsValue(s[..n])))
  }

  /** `std::getline`: extract up to and including the next newline. */
  function Getline(input: InputStream): (r: InputStream)
    ensures Rank(r) <= Rank(input) && (input.Good() ==> Rank(r) < Rank(input))
    ensures !input.Good() ==> r == input.(fail := true)
  {
    if !input.Good() then input.(fail := true)
    else
      var n := LineLength(input.rest);
      if n < |input.rest| then input.(rest := input.rest[n + 1..])
      else InputStream([], true, input.rest == [])
  }

  /** Number of characters before the first newline. */
  function LineLength(s: string): (n: nat)
    ensures n <= |s|
    ensures forall i :: 0 <= i < n ==> s[i] != '\n'
    ensures n < |s| ==> s[n] == '\n'
  {
    if s == [] || s[0] == '\n' then 0 else 1 + LineLength(s[1..])
  }

  lemma Reassociate<T>(a: seq<T>, b: seq<T>, c: seq<T>)
    ensures a + (b + c) == a + b + c
  {
  }

  // ---- Reading back what was written -------------------------------------

  lemma SkipSpacesPrefix(sp: string, s: string)
    requires AllSpaces(sp) && (s == [] || !IsSpace(s[0]))
    ensures SkipSpaces(sp + s) == s
  {
    if sp != [] {
      assert (sp + s)[1..] == sp[1..] + s;
      SkipSpacesPrefix(sp[1..], s);
    }
  }

  lemma WordLengthPrefix(w: string, s: string)
    requires forall i :: 0 <= i < |w| ==> !IsSpace(w[i])
    requires s == [] || IsSpace(s[0])
    ensures WordLength(w + s) == |w|
  {
    if w != [] {
      assert (w + s)[1..] == w[1..] + s;
      WordLengthPrefix(w[1..], s);
    }
  }

  lemma DigitsLengthPrefix(d: string, s: string)
    requires AllDigits(d)
    requires s == [] || IsSpace(s[0])
    ensures DigitsLength(d + s) == |d|
  {
    if d != [] {
      assert (d + s)[1..] == d[1..] + s;
      DigitsLengthPrefix(d[1..], s);
    }
  }

  /** Reading from `sp + w + more`, with `w` a token followed by whitespace or
      the end, yields exactly `w` and leaves `more`. */
  lemma {:induction false} ReadWordAt(input: InputStream, sp: string, w: string, more: string)
    requires input.Good() && input.rest == sp + w + more
    requires AllSpaces(sp) && IsToken(w) && (more == [] || IsSpace(more[0]))
    ensures ReadWord(input) == (InputStream(more, more == [], false), Some(w))
  {
    assert sp + w + more == sp + (w + more);
    SkipSpacesPrefix(sp, w + more);
    var s := SkipSpaces(input.rest);
    assert s == w + more;
    WordLengthPrefix(w, more);
    var n := WordLength(s);
    assert n == |w|;
    assert s[..n] == w;
    assert s[n..] == more;
  }

  lemma SplitAt(d: string, more: string)
    ensures (d + more)[..|d|] == d && (d + more)[|d|..] == more
  {
  }

  /** Once the whitespace is skipped, a digit run followed by whitespace or
      the end is read as its value. */
  lemma DigitsRead(input: InputStream, d: string, more: string)
    requires input.Good() && SkipSpaces(input.rest) == d + more
    requires d != [] && AllDigits(d) && (more == [] || IsSpace(more[0]))
    ensures ReadNumber(input) == (InputStream(more, more == [], false), Number(DigitsValue(d)))
  {
    DigitsLengthPrefix(d, more);
    SplitAt(d, more);
  }

  lemma LeadingDigit(n: nat)
    ensures !IsSpace(NatToString(n)[0])
  {
    assert IsDigit(NatToString(n)[0]);
  }

  /** Reading a number from `sp + NatToString(n) + more` yields `n`. */
  lemma {:induction false} ReadNumberAt(input: InputStream, sp: string, n: nat, more: string)
    requires input.Good() && input.rest == sp + NatToString(n) + more
    requires AllSpaces(sp) && (more == [] || IsSpace(more[0]))
    ensures ReadNumber(input) == (InputStream(more, more == [], false), Number(n))
  {
    var d := NatToString(n);
    assert sp + d + more == sp + (d + more);
    LeadingDigit(n);
    SkipSpacesPrefix(sp, d + more);
    DigitsRead(input, d, more);
    NatToStringValue(n);
  }
}
