/** The word normaliser: a byte-level pass over one UTF-8 word that lower-cases
    ASCII letters, keeps digits and one interior hyphen, lower-cases two-byte
    Cyrillic letters through a table and drops everything else.  Words are
    byte strings; the normalised word goes to a handler, modelled as the
    outcome of `adjust`. */
module Adjuster {
  import opened Text

  newtype byte = x: int | 0 <= x < 256

  type Bytes = seq<byte>

  const Hyphen: byte := 0x2D

  /** Length of a UTF-8 symbol announced by its first byte, in the original
      UTF-8 scheme (lead bytes up to 0xFF announce up to 8 bytes).  Bytes
      0x80 to 0xBF, which cannot start a symbol, count as one-byte symbols. */
  function SymbolSize(b: byte): (n: nat)
    ensures 1 <= n <= 8
    ensures n == 1 <==> b < 0xC0
    ensures n == 2 <==> 0xC0 <= b < 0xE0
  {
    if b < 0xC0 then 1
    else if b < 0xE0 then 2
    else if b < 0xF0 then 3
    else if b < 0xF8 then 4
    else if b < 0xFC then 5
    else if b < 0xFE then 6
    else if b == 0xFE then 7
    else 8
  }

  /** The Cyrillic table, as byte pairs in stream order: upper- and
      lower-case letters to lower case, or `None` for a pair the table does
      not hold.  The table is written below as four runs, in its own order. */
  function CyrillicUtf8Map(p: (byte, byte)): Option<(byte, byte)> {
    if p in CyrillicUpperAtoP then Some(CyrillicUpperAtoP[p])
    else if p in CyrillicUpperRtoYa then Some(CyrillicUpperRtoYa[p])
    else if p in CyrillicLowerAtoP then Some(CyrillicLowerAtoP[p])
    else if p in CyrillicLowerRtoYa then Some(CyrillicLowerRtoYa[p])
    else None
  }

  /** А to П, with Ё after Е. */
  const CyrillicUpperAtoP: map<(byte, byte), (byte, byte)> := map[
    (0xD0, 0x90) := (0xD0, 0xB0), (0xD0, 0x91) := (0xD0, 0xB1), (0xD0, 0x92) := (0xD0, 0xB2),
    (0xD0, 0x93) := (0xD0, 0xB3), (0xD0, 0x94) := (0xD0, 0xB4), (0xD0, 0x95) := (0xD0, 0xB5),
    (0xD0, 0x81) := (0xD1, 0x91), (0xD0, 0x96) := (0xD0, 0xB6), (0xD0, 0x97) := (0xD0, 0xB7),
    (0xD0, 0x98) := (0xD0, 0xB8), (0xD0, 0x99) := (0xD0, 0xB9), (0xD0, 0x9A) := (0xD0, 0xBA),
    (0xD0, 0x9B) := (0xD0, 0xBB), (0xD0, 0x9C) := (0xD0, 0xBC), (0xD0, 0x9D) := (0xD0, 0xBD),
    (0xD0, 0x9E) := (0xD0, 0xBE), (0xD0, 0x9F) := (0xD0, 0xBF)
  ]

  /** Р to Я. */
  const CyrillicUpperRtoYa: map<(byte, byte), (byte, byte)> := map[
    (0xD0, 0xA0) := (0xD1, 0x80), (0xD0, 0xA1) := (0xD1, 0x81), (0xD0, 0xA2) := (0xD1, 0x82),
    (0xD0, 0xA3) := (0xD1, 0x83), (0xD0, 0xA4) := (0xD1, 0x84), (0xD0, 0xA5) := (0xD1, 0x85),
    (0xD0, 0xA6) := (0xD1, 0x86), (0xD0, 0xA7) := (0xD1, 0x87), (0xD0, 0xA8) := (0xD1, 0x88),
    (0xD0, 0xA9) := (0xD1, 0x89), (0xD0, 0xAA) := (0xD1, 0x8A), (0xD0, 0xAB) := (0xD1, 0x8B),
    (0xD0, 0xAC) := (0xD1, 0x8C), (0xD0, 0xAD) := (0xD1, 0x8D), (0xD0, 0xAE) := (0xD1, 0x8E),
    (0xD0, 0xAF) := (0xD1, 0x8F)
  ]

  /** а to п, with ё after е: already lower case. */
  const CyrillicLowerAtoP: map<(byte, byte), (byte, byte)> := map[
    (0xD0, 0xB0) := (0xD0, 0xB0), (0xD0, 0xB1) := (0xD0, 0xB1), (0xD0, 0xB2) := (0xD0, 0xB2),
    (0xD0, 0xB3) := (0xD0, 0xB3), (0xD0, 0xB4) := (0xD0, 0xB4), (0xD0, 0xB5) := (0xD0, 0xB5),
    (0xD1, 0x91) := (0xD1, 0x91), (0xD0, 0xB6) := (0xD0, 0xB6), (0xD0, 0xB7) := (0xD0, 0xB7),
    (0xD0, 0xB8) := (0xD0, 0xB8), (0xD0, 0xB9) := (0xD0, 0xB9), (0xD0, 0xBA) := (0xD0, 0xBA),
    (0xD0, 0xBB) := (0xD0, 0xBB), (0xD0, 0xBC) := (0xD0, 0xBC), (0xD0, 0xBD) := (0xD0, 0xBD),
    (0xD0, 0xBE) := (0xD0, 0xBE), (0xD0, 0xBF) := (0xD0, 0xBF)
  ]

  /** р to я: already lower case. */
  const CyrillicLowerRtoYa: map<(byte, byte), (byte, byte)> := map[
    (0xD1, 0x80) := (0xD1, 0x80), (0xD1, 0x81) := (0xD1, 0x81), (0xD1, 0x82) := (0xD1, 0x82),
    (0xD1, 0x83) := (0xD1, 0x83), (0xD1, 0x84) := (0xD1, 0x84), (0xD1, 0x85) := (0xD1, 0x85),
    (0xD1, 0x86) := (0xD1, 0x86), (0xD1, 0x87) := (0xD1, 0x87), (0xD1, 0x88) := (0xD1, 0x88),
    (0xD1, 0x89) := (0xD1, 0x89), (0xD1, 0x8A) := (0xD1, 0x8A), (0xD1, 0x8B) := (0xD1, 0x8B),
    (0xD1, 0x8C) := (0xD1, 0x8C), (0xD1, 0x8D) := (0xD1, 0x8D), (0xD1, 0x8E) := (0xD1, 0x8E),
    (0xD1, 0x8F) := (0xD1, 0x8F)
  ]

  // ---- The output alphabet -------------------------------------------------

  predicate IsUpper(b: byte) { 0x41 <= b <= 0x5A }
  predicate IsLower(b: byte) { 0x61 <= b <= 0x7A }
  predicate IsDigit(b: byte) { 0x30 <= b <= 0x39 }

  /** A one-byte symbol the normaliser can emit. */
  predicate IsKept(b: byte) { IsLower(b) || IsDigit(b) || b == Hyphen }

  /** A lower-case Cyrillic letter: а to п, р to я, or ё. */
  predicate IsLowerCyrillic(p: (byte, byte)) {
    (p.0 == 0xD0 && 0xB0 <= p.1 <= 0xBF) || (p.0 == 0xD1 && (0x80 <= p.1 <= 0x8F || p.1 == 0x91))
  }

  /** A byte string made of kept one-byte symbols and lower-case Cyrillic
      pairs. */
  predicate NormalForm(s: Bytes)
    decreases |s|
  {
    s == [] ||
    (IsKept(s[0]) && NormalForm(s[1..])) ||
    (|s| >= 2 && IsLowerCyrillic((s[0], s[1])) && NormalForm(s[2..]))
  }

  function Hyphens(s: Bytes): nat {
    multiset(s)[Hyphen]
  }

  // ---- One symbol ----------------------------------------------------------

  /** `adjustOneByteSymbol` on the byte at `i` of `w`: the bytes it appends and
      the new hyphen flag.  Upper-case ASCII is lowered, lower-case letters and
      digits are copied, and a hyphen is kept only as the first hyphen that is
      neither the first nor the last byte of the word. */
  function AdjustOneByteSymbol(w: Bytes, i: nat, hyphen: bool): (r: (bool, Bytes))
    requires i < |w|
    ensures |r.1| <= 1 && NormalFormByte(r.1)
    ensures r.0 <==> hyphen || r.1 == [Hyphen]
    ensures r.1 == [Hyphen] ==> !hyphen && w[i] == Hyphen && 0 < i < |w| - 1
    ensures IsUpper(w[i]) ==> r.1 == [w[i] + 0x20]
    ensures IsLower(w[i]) || IsDigit(w[i]) ==> r.1 == [w[i]]
    ensures !IsUpper(w[i]) && !IsKept(w[i]) ==> r == (hyphen, [])
  {
    var c := w[i];
    if IsUpper(c) then (hyphen, [c - 0x41 + 0x61])
    else if IsLower(c) || IsDigit(c) then (hyphen, [c])
    else if c == Hyphen && !hyphen && i != 0 && i != |w| - 1 then (true, [c])
    else (hyphen, [])
  }

  predicate NormalFormByte(s: Bytes) {
    forall j :: 0 <= j < |s| ==> IsKept(s[j])
  }

  /** `adjustTwoByteSymbol`: the mapped lower-case pair when the symbol is in
      the table, nothing otherwise. */
  function AdjustTwoByteSymbol(b0: byte, b1: byte): (r: Bytes)
    ensures CyrillicUtf8Map((b0, b1)).Some? ==>
              r == [CyrillicUtf8Map((b0, b1)).value.0, CyrillicUtf8Map((b0, b1)).value.1]
    ensures CyrillicUtf8Map((b0, b1)).None? ==> r == []
  {
    match CyrillicUtf8Map((b0, b1))
    case Some(p) => [p.0, p.1]
    case None => []
  }

  // ---- The whole word ------------------------------------------------------

  datatype Normalized = NotUtf8 | Normal(word: Bytes)

  /** The loop of `adjust` from byte `i` on, with the hyphen flag and the bytes
      produced so far. */
  function AdjustFrom(w: Bytes, i: nat, hyphen: bool, acc: Bytes): Normalized
    requires i <= |w|
    decreases |w| - i
  {
    if i == |w| then Normal(acc)
    else
      var size := SymbolSize(w[i]);
      if |w| - i < size then NotUtf8
      else if size == 1 then
        var (h, out) := AdjustOneByteSymbol(w, i, hyphen);
        AdjustFrom(w, i + 1, h, acc + out)
      else if size == 2 then AdjustFrom(w, i + 2, hyphen, acc + AdjustTwoByteSymbol(w[i], w[i + 1]))
      else AdjustFrom(w, i + size, hyphen, acc)
  }

  function Normalize(w: Bytes): Normalized {
    AdjustFrom(w, 0, false, [])
  }

  datatype AdjustError = NoHandlerSet | NotUtf8Text

  /** What one call of `adjust` does: fail, hand one word to the handler, or
      hand nothing (an empty result or a lone hyphen). */
  datatype Adjusted = Failed(error: AdjustError) | Passed(word: Bytes) | Dropped

  function AdjustOutcome(handlerSet: bool, w: Bytes): Adjusted {
    if !handlerSet then Failed(NoHandlerSet)
    else match Normalize(w)
      case NotUtf8 => Failed(NotUtf8Text)
      case Normal(out) => if out == [] || out == [Hyphen] then Dropped else Passed(out)
  }

  // ---- The Cyrillic table -------------------------------------------------

  /** An upper-case Cyrillic letter: А to Я, or Ё. */
  predicate IsUpperCyrillic(p: (byte, byte)) {
    p.0 == 0xD0 && (0x90 <= p.1 <= 0xAF || p.1 == 0x81)
  }

  /** Lower case by code point arithmetic: А..П are 0x20 below а..п, Р..Я
      sit in the lead byte 0xD0 but р..я in 0xD1, and Ё maps to ё. */
  function CyrillicToLower(p: (byte, byte)): (byte, byte)
    requires IsUpperCyrillic(p) || IsLowerCyrillic(p)
  {
    if IsLowerCyrillic(p) then p
    else if p.1 == 0x81 then (0xD1, 0x91)
    else if p.1 < 0xA0 then (0xD0, p.1 + 0x20)
    else (0xD1, p.1 - 0x20)
  }

  /** The table holds exactly the Cyrillic letters of both cases and maps each
      to its lower case. */
  lemma CyrillicTableLowers(p: (byte, byte))
    ensures CyrillicUtf8Map(p).Some? <==> IsUpperCyrillic(p) || IsLowerCyrillic(p)
    ensures CyrillicUtf8Map(p).Some? ==>
              CyrillicUtf8Map(p).value == CyrillicToLower(p) && IsLowerCyrillic(CyrillicUtf8Map(p).value)
  {
    UpperAtoPLowers(p);
    UpperRtoYaLowers(p);
    LowerAtoPKept(p);
    LowerRtoYaKept(p);
    if IsUpperCyrillic(p) || IsLowerCyrillic(p) {
      CyrillicCovered(p);
    }
  }

  /** Every entry of each run maps a Cyrillic letter to its lower case. */
  lemma UpperAtoPLowers(p: (byte, byte))
    ensures p in CyrillicUpperAtoP ==> IsUpperCyrillic(p) && CyrillicUpperAtoP[p] == CyrillicToLower(p)
  {
  }

  lemma UpperRtoYaLowers(p: (byte, byte))
    ensures p in CyrillicUpperRtoYa ==> IsUpperCyrillic(p) && CyrillicUpperRtoYa[p] == CyrillicToLower(p)
  {
  }

  lemma LowerAtoPKept(p: (byte, byte))
    ensures p in CyrillicLowerAtoP ==> IsLowerCyrillic(p) && CyrillicLowerAtoP[p] == p
  {
  }

  lemma LowerRtoYaKept(p: (byte, byte))
    ensures p in CyrillicLowerRtoYa ==> IsLowerCyrillic(p) && CyrillicLowerRtoYa[p] == p
  {
  }

  /** Every Cyrillic letter of either case is in one of the runs. */
  lemma CyrillicCovered(p: (byte, byte))
    requires IsUpperCyrillic(p) || IsLowerCyrillic(p)
    ensures p in CyrillicUpperAtoP || p in CyrillicUpperRtoYa || p in CyrillicLowerAtoP || p in CyrillicLowerRtoYa
  {
  }

  // ---- What the normaliser produces ----------------------------------------

  lemma {:induction false} NormalFormConcat(a: Bytes, b: Bytes)
    requires NormalForm(a) && NormalForm(b)
    ensures NormalForm(a + b)
    decreases |a|
  {
    if a != [] {
      var ab := a + b;
      if IsKept(a[0]) && NormalForm(a[1..]) {
        NormalFormConcat(a[1..], b);
        assert ab[1..] == a[1..] + b;
        assert IsKept(ab[0]) && NormalForm(ab[1..]);
      } else {
        NormalFormConcat(a[2..], b);
        assert ab[2..] == a[2..] + b;
        assert IsLowerCyrillic((ab[0], ab[1])) && NormalForm(ab[2..]);
      }
    } else {
      assert a + b == b;
    }
  }

  /** What one step appends is in normal form and holds a hyphen exactly when
      it sets the flag. */
  lemma OneByteAppends(w: Bytes, i: nat, hyphen: bool)
    requires i < |w|
    ensures NormalForm(AdjustOneByteSymbol(w, i, hyphen).1)
    ensures Hyphens(AdjustOneByteSymbol(w, i, hyphen).1) ==
            if AdjustOneByteSymbol(w, i, hyphen).0 && !hyphen then 1 else 0
  {
    var out := AdjustOneByteSymbol(w, i, hyphen).1;
    if out != [] {
      assert out == [out[0]] && IsKept(out[0]);
      assert NormalForm(out[1..]);
    }
  }

  lemma TwoByteAppends(b0: byte, b1: byte)
    ensures NormalForm(AdjustTwoByteSymbol(b0, b1)) && Hyphens(AdjustTwoByteSymbol(b0, b1)) == 0
  {
    var out := AdjustTwoByteSymbol(b0, b1);
    if out != [] {
      CyrillicTableLowers((b0, b1));
      assert IsLowerCyrillic((out[0], out[1]));
      assert NormalForm(out[2..]);
    }
  }

  /** The loop keeps its result in normal form, never longer than the bytes
      read, and with at most one hyphen, which the flag records. */
  lemma {:induction false} AdjustFromShape(w: Bytes, i: nat, hyphen: bool, acc: Bytes)
    requires i <= |w| && NormalForm(acc) && Hyphens(acc) == (if hyphen then 1 else 0)
    ensures AdjustFrom(w, i, hyphen, acc).Normal? ==>
              var out := AdjustFrom(w, i, hyphen, acc).word;
              NormalForm(out) && |out| <= |acc| + (|w| - i) && Hyphens(out) <= 1
    decreases |w| - i
  {
    if i < |w| {
      var size := SymbolSize(w[i]);
      if |w| - i >= size {
        if size == 1 {
          var (h, out) := AdjustOneByteSymbol(w, i, hyphen);
          OneByteAppends(w, i, hyphen);
          NormalFormConcat(acc, out);
          AdjustFromShape(w, i + 1, h, acc + out);
        } else if size == 2 {
          var out := AdjustTwoByteSymbol(w[i], w[i + 1]);
          TwoByteAppends(w[i], w[i + 1]);
          NormalFormConcat(acc, out);
          AdjustFromShape(w, i + 2, hyphen, acc + out);
        } else {
          AdjustFromShape(w, i + size, hyphen, acc);
        }
      }
    }
  }

  /** A word the handler receives is in normal form, no longer than the input
      word, holds at most one hyphen, and is neither empty nor a lone hyphen. */
  lemma PassedWordShape(w: Bytes)
    requires AdjustOutcome(true, w).Passed?
    ensures var out := AdjustOutcome(true, w).word;
            NormalForm(out) && |out| <= |w| && Hyphens(out) <= 1 && out != [] && out != [Hyphen]
  {
    AdjustFromShape(w, 0, false, []);
  }

  // ---- When the word is rejected -------------------------------------------

  /** The word splits into whole symbols from byte `i` on. */
  predicate WellSized(w: Bytes, i: nat)
    requires i <= |w|
    decreases |w| - i
  {
    i == |w| || (SymbolSize(w[i]) <= |w| - i && WellSized(w, i + SymbolSize(w[i])))
  }

  lemma {:induction false} NotUtf8Exactly(w: Bytes, i: nat, hyphen: bool, acc: Bytes)
    requires i <= |w|
    ensures AdjustFrom(w, i, hyphen, acc).NotUtf8? <==> !WellSized(w, i)
    decreases |w| - i
  {
    if i < |w| {
      var size := SymbolSize(w[i]);
      if |w| - i >= size {
        if size == 1 {
          var (h, out) := AdjustOneByteSymbol(w, i, hyphen);
          NotUtf8Exactly(w, i + 1, h, acc + out);
        } else if size == 2 {
          NotUtf8Exactly(w, i + 2, hyphen, acc + AdjustTwoByteSymbol(w[i], w[i + 1]));
        } else {
          NotUtf8Exactly(w, i + size, hyphen, acc);
        }
      }
    }
  }

  /** With a handler set, `adjust` fails exactly when a lead byte announces
      more bytes than the word has left, and the handler gets a word exactly
      when the result is neither empty nor a lone hyphen. */
  lemma AdjustOutcomes(w: Bytes)
    ensures AdjustOutcome(true, w) == Failed(NotUtf8Text) <==> !WellSized(w, 0)
    ensures AdjustOutcome(true, w).Passed? <==>
              WellSized(w, 0) && Normalize(w).word != [] && Normalize(w).word != [Hyphen]
    ensures AdjustOutcome(false, w) == Failed(NoHandlerSet)
  {
    NotUtf8Exactly(w, 0, false, []);
  }

  lemma EmptyWordDropped()
    ensures AdjustOutcome(true, []) == Dropped
  {
  }

  // ---- Reference behaviour -------------------------------------------------

  /** Every byte an ASCII letter or digit. */
  predicate Alphanumeric(w: Bytes) {
    forall j :: 0 <= j < |w| ==> IsUpper(w[j]) || IsLower(w[j]) || IsDigit(w[j])
  }

  function LowerAscii(b: byte): byte {
    if IsUpper(b) then b + 0x20 else b
  }

  lemma {:induction false} AlphanumericFrom(w: Bytes, i: nat, hyphen: bool, acc: Bytes)
    requires i <= |w| && Alphanumeric(w)
    ensures AdjustFrom(w, i, hyphen, acc) == Normal(acc + seq(|w| - i, j requires 0 <= j < |w| - i => LowerAscii(w[i + j])))
    decreases |w| - i
  {
    var rest := seq(|w| - i, j requires 0 <= j < |w| - i => LowerAscii(w[i + j]));
    if i < |w| {
      var next := seq(|w| - (i + 1), j requires 0 <= j < |w| - (i + 1) => LowerAscii(w[i + 1 + j]));
      assert rest == [LowerAscii(w[i])] + next;
      AlphanumericFrom(w, i + 1, hyphen, acc + [LowerAscii(w[i])]);
      assert acc + [LowerAscii(w[i])] + next == acc + rest;
    }
  }

  /** A word of ASCII letters and digits comes out lower-cased and otherwise
      unchanged. */
  lemma AlphanumericLowered(w: Bytes)
    requires Alphanumeric(w)
    ensures Normalize(w) == Normal(seq(|w|, j requires 0 <= j < |w| => LowerAscii(w[j])))
  {
    AlphanumericFrom(w, 0, false, []);
    assert seq(|w| - 0, j requires 0 <= j < |w| - 0 => LowerAscii(w[0 + j])) ==
           seq(|w|, j requires 0 <= j < |w| => LowerAscii(w[j]));
  }

  /** Hyphen positions are judged on the input word: in "a-!" the hyphen is
      not the last byte, so it is kept and ends the result. */
  lemma HyphenJudgedOnInput()
    ensures AdjustOutcome(true, [0x61, 0x2D, 0x21]) == Passed([0x61, 0x2D])
  {
  }

  /** A hyphen that is the first or last byte is dropped, and only the first
      interior hyphen is kept: "-ab-" gives "ab", "a-b-c" gives "a-bc", and
      "!-!" leaves a lone hyphen, which the handler does not get. */
  lemma HyphenPlacement()
    ensures Normalize([0x2D, 0x61, 0x62, 0x2D]) == Normal([0x61, 0x62])
    ensures Normalize([0x61, 0x2D, 0x62, 0x2D, 0x63]) == Normal([0x61, 0x2D, 0x62, 0x63])
    ensures AdjustOutcome(true, [0x21, 0x2D, 0x21]) == Dropped
  {
  }

  /** "Ёж" is lowered to "ёж". */
  lemma CyrillicWordLowered()
    ensures Normalize([0xD0, 0x81, 0xD0, 0xB6]) == Normal([0xD1, 0x91, 0xD0, 0xB6])
  {
    assert CyrillicUtf8Map((0xD0, 0x81)) == Some((0xD1, 0x91));
    assert CyrillicUtf8Map((0xD0, 0xB6)) == Some((0xD0, 0xB6));
  }

  /** The three-byte "€" between two letters is skipped whole. */
  lemma LongSymbolSkipped()
    ensures Normalize([0x61, 0xE2, 0x82, 0xAC, 0x62]) == Normal([0x61, 0x62])
  {
    var w: Bytes := [0x61, 0xE2, 0x82, 0xAC, 0x62];
    assert SymbolSize(w[1]) == 3;
    assert AdjustFrom(w, 4, false, [0x61]) == Normal([0x61, 0x62]);
    assert AdjustFrom(w, 1, false, [0x61]) == AdjustFrom(w, 4, false, [0x61]);
  }

  /** A two-byte lead byte at the end of the word is not UTF-8. */
  lemma TruncatedSymbolRejected()
    ensures AdjustOutcome(true, [0x61, 0xD0]) == Failed(NotUtf8Text)
  {
  }

  class TextAdjuster {
    var handlerSet: bool

    constructor()
      ensures !handlerSet
    {
      handlerSet := false;
    }

    /** `setHandler`: only whether a handler is set matters to `adjust`. */
    method SetHandler(present: bool)
      modifies this
      ensures handlerSet == present
    {
      handlerSet := present;
    }

    /** `adjust`: the pointer loop over the word's bytes. */
    method Adjust(word: Bytes) returns (r: Adjusted)
      ensures r == AdjustOutcome(handlerSet, word)
    {
      if !handlerSet {
        return Failed(NoHandlerSet);
      }
      var result: Bytes := [];
      var i := 0;
      var hyphen := false;
      while i < |word|
        invariant 0 <= i <= |word|
        invariant AdjustFrom(word, i, hyphen, result) == Normalize(word)
        decreases |word| - i
      {
        var size := SymbolSize(word[i]);
        if |word| - i < size {
          return Failed(NotUtf8Text);
        }
        if size == 1 {
          var (h, out) := AdjustOneByteSymbol(word, i, hyphen);
          hyphen := h;
          result := result + out;
          i := i + 1;
        } else if size == 2 {
          result := result + AdjustTwoByteSymbol(word[i], word[i + 1]);
          i := i + 2;
        } else {
          i := i + size;
        }
      }
      if result == [] || result == [Hyphen] {
        r := Dropped;
      } else {
        r := Passed(result);
      }
    }
  }
}
