/**
 * String helpers that stand in for the Foundation and Swift standard-library
 * calls the report parser and the report group use: splitting, trimming,
 * prefix and substring search, and decimal numbers.
 *
 * Text is a sequence of Unicode scalar values; Swift's grapheme clusters are
 * modelled only where they change a result (a "\r\n" pair is one character
 * and therefore not a "\n" separator).
 */
module Text {
  import opened Wrappers

  // ---------------------------------------------------------------------
  // Character classes
  // ---------------------------------------------------------------------

  /** Unicode general category Zs (space separators). */
  predicate IsSpaceSeparator(c: char) {
    c == ' ' || c == '\U{00A0}' || c == '\U{1680}' || ('\U{2000}' <= c <= '\U{200A}')
    || c == '\U{202F}' || c == '\U{205F}' || c == '\U{3000}'
  }

  /** Members of `CharacterSet.whitespaces`: category Zs and the horizontal tab. */
  predicate IsTrimmable(c: char) {
    IsSpaceSeparator(c) || c == '\t'
  }

  predicate IsDigit(c: char) {
    '0' <= c <= '9'
  }

  predicate AllDigits(s: string) {
    forall k :: 0 <= k < |s| ==> IsDigit(s[k])
  }

  // ---------------------------------------------------------------------
  // Prefixes and substring search
  // ---------------------------------------------------------------------

  /** `String.hasPrefix`: an exact, case-sensitive comparison, one character at a time. */
  predicate HasPrefix(s: string, prefix: string) {
    prefix == [] || (s != [] && s[0] == prefix[0] && HasPrefix(s[1..], prefix[1..]))
  }

  /** `HasPrefix` is the comparison of the leading slice. */
  lemma {:induction false} HasPrefixIff(s: string, prefix: string)
    ensures HasPrefix(s, prefix) <==> |prefix| <= |s| && s[..|prefix|] == prefix
  {
    if prefix != [] && s != [] {
      HasPrefixIff(s[1..], prefix[1..]);
      if |prefix| <= |s| && s[..|prefix|] == prefix {
        assert s[1..][..|prefix| - 1] == s[..|prefix|][1..];
      }
      if HasPrefix(s, prefix) {
        assert s[..|prefix|] == [s[0]] + s[1..][..|prefix| - 1];
      }
    }
  }

  predicate OccursAt(s: string, needle: string, k: nat) {
    k + |needle| <= |s| && s[k..k + |needle|] == needle
  }

  /** The first position at or after `from` where `needle` occurs in `s`. */
  function FindFrom(s: string, needle: string, from: nat): (r: Option<nat>)
    decreases |s| - from
    ensures r.Some? ==> from <= r.value && OccursAt(s, needle, r.value)
    ensures r.Some? ==> forall k :: from <= k < r.value ==> !OccursAt(s, needle, k)
    ensures r.None? ==> forall k :: from <= k ==> !OccursAt(s, needle, k)
  {
    if from + |needle| > |s| then None
    else if s[from..from + |needle|] == needle then Some(from)
    else FindFrom(s, needle, from + 1)
  }

  /** NSString `range(of:)`: the location of the first occurrence, if any. */
  function Find(s: string, needle: string): Option<nat> {
    FindFrom(s, needle, 0)
  }

  // ---------------------------------------------------------------------
  // Trimming with CharacterSet.whitespaces
  // ---------------------------------------------------------------------

  function TrimStart(s: string): (r: string)
    ensures |r| <= |s| && r == s[|s| - |r|..]
    ensures forall k :: 0 <= k < |s| - |r| ==> IsTrimmable(s[k])
    ensures r == [] || !IsTrimmable(r[0])
  {
    if s != [] && IsTrimmable(s[0]) then TrimStart(s[1..]) else s
  }

  function TrimEnd(s: string): (r: string)
    ensures |r| <= |s| && r == s[..|r|]
    ensures forall k :: |r| <= k < |s| ==> IsTrimmable(s[k])
    ensures r == [] || !IsTrimmable(r[|r| - 1])
  {
    if s != [] && IsTrimmable(s[|s| - 1]) then TrimEnd(s[..|s| - 1]) else s
  }

  /** `trimmingCharacters(in: .whitespaces)`. */
  function Trim(s: string): string {
    TrimEnd(TrimStart(s))
  }

  /**
   * The trimmed value neither starts nor ends with a space or a tab, and it is
   * empty exactly when the text held nothing but spaces and tabs.
   */
  lemma TrimProperties(s: string)
    ensures Trim(s) == [] || (!IsTrimmable(Trim(s)[0]) && !IsTrimmable(Trim(s)[|Trim(s)| - 1]))
    ensures Trim(s) == [] <==> forall k :: 0 <= k < |s| ==> IsTrimmable(s[k])
  {
    var a := TrimStart(s);
    var t := TrimEnd(a);
    if t != [] {
      assert t[0] == a[0];
      assert !IsTrimmable(s[|s| - |a|]);
    }
  }

  // ---------------------------------------------------------------------
  // Splitting
  // ---------------------------------------------------------------------

  /**
   * A "\n" separates lines unless it follows a "\r": Swift treats "\r\n" as a
   * single character, which is not equal to the separator "\n".
   */
  predicate IsLineBreakAt(s: string, k: nat)
    requires k < |s|
  {
    s[k] == '\n' && (k == 0 || s[k - 1] != '\r')
  }

  function NextLineBreak(s: string, i: nat): (k: nat)
    requires i <= |s|
    decreases |s| - i
    ensures i <= k <= |s|
    ensures k < |s| ==> IsLineBreakAt(s, k)
  {
    if i == |s| || IsLineBreakAt(s, i) then i else NextLineBreak(s, i + 1)
  }

  /** No line break lies between `i` and the next one. */
  lemma {:induction false} NextLineBreakIsFirst(s: string, i: nat)
    requires i <= |s|
    decreases |s| - i
    ensures forall j :: i <= j < NextLineBreak(s, i) ==> !IsLineBreakAt(s, j)
  {
    if i < |s| && !IsLineBreakAt(s, i) {
      NextLineBreakIsFirst(s, i + 1);
    }
  }

  function LinesFrom(s: string, i: nat): seq<string>
    requires i <= |s|
    decreases |s| - i
  {
    if i == |s| then []
    else
      var k := NextLineBreak(s, i);
      (if k > i then [s[i..k]] else [])
      + (if k < |s| then LinesFrom(s, k + 1) else [])
  }

  /** `split(separator: "\n")`: the non-empty pieces between line breaks. */
  function Lines(s: string): seq<string> {
    LinesFrom(s, 0)
  }

  /** A line of `split(separator: "\n")`: non-empty, and any "\n" in it ends a "\r\n" pair. */
  predicate WellFormedLine(l: string) {
    l != [] && forall j :: 0 <= j < |l| ==> NewlineEndsCrLf(l, j)
  }

  /** A "\n" at `j` is the second half of a "\r\n" pair. */
  predicate NewlineEndsCrLf(l: string, j: nat)
    requires j < |l|
  {
    l[j] == '\n' ==> 0 < j && l[j - 1] == '\r'
  }

  lemma PieceWellFormed(s: string, i: nat)
    requires i < |s|
    requires i == 0 || s[i - 1] == '\n'
    requires NextLineBreak(s, i) > i
    ensures WellFormedLine(s[i..NextLineBreak(s, i)])
  {
    var k := NextLineBreak(s, i);
    NextLineBreakIsFirst(s, i);
    var l := s[i..k];
    forall j | 0 <= j < |l| ensures NewlineEndsCrLf(l, j) {
      assert !IsLineBreakAt(s, i + j);
    }
  }

  /** The lines from `i` on: the piece up to the next break, if non-empty, then the lines after it. */
  lemma LinesFromStep(s: string, i: nat)
    requires i < |s|
    ensures var k := NextLineBreak(s, i);
      LinesFrom(s, i) == (if k > i then [s[i..k]] else []) + (if k < |s| then LinesFrom(s, k + 1) else [])
  {
  }

  /** Every line of `ls` is well formed, stated one line at a time. */
  predicate AllWellFormed(ls: seq<string>) {
    ls == [] || (WellFormedLine(ls[0]) && AllWellFormed(ls[1..]))
  }

  lemma {:induction false} AllWellFormedConcat(a: seq<string>, b: seq<string>)
    requires AllWellFormed(a) && AllWellFormed(b)
    ensures AllWellFormed(a + b)
  {
    if a != [] {
      assert (a + b)[1..] == a[1..] + b;
      AllWellFormedConcat(a[1..], b);
    } else {
      assert a + b == b;
    }
  }

  lemma {:induction false} AllWellFormedMembers(ls: seq<string>)
    requires AllWellFormed(ls)
    ensures forall l :: l in ls ==> WellFormedLine(l)
  {
    if ls != [] {
      AllWellFormedMembers(ls[1..]);
      forall l | l in ls ensures WellFormedLine(l) {
        if l != ls[0] {
          assert l in ls[1..];
        }
      }
    }
  }

  lemma {:induction false} LinesFromWellFormed(s: string, i: nat)
    requires i <= |s|
    requires i == 0 || s[i - 1] == '\n'
    decreases |s| - i
    ensures AllWellFormed(LinesFrom(s, i))
  {
    if i < |s| {
      var k := NextLineBreak(s, i);
      var piece: seq<string> := if k > i then [s[i..k]] else [];
      var rest := if k < |s| then LinesFrom(s, k + 1) else [];
      LinesFromStep(s, i);
      if k > i {
        PieceWellFormed(s, i);
        assert piece[1..] == [];
      }
      if k < |s| {
        LinesFromWellFormed(s, k + 1);
      }
      AllWellFormedConcat(piece, rest);
    }
  }

  /**
   * Every line is non-empty, and the only "\n" a line can hold is the second
   * half of a "\r\n" pair.
   */
  lemma LinesWellFormed(s: string)
    ensures forall l :: l in Lines(s) ==> WellFormedLine(l)
  {
    LinesFromWellFormed(s, 0);
    AllWellFormedMembers(Lines(s));
  }

  /** The characters of `s` from `i` on, the line breaks left out. */
  function Unbroken(s: string, i: nat): string
    requires i <= |s|
    decreases |s| - i
  {
    if i == |s| then []
    else (if IsLineBreakAt(s, i) then [] else [s[i]]) + Unbroken(s, i + 1)
  }

  /** The lines written one after another. */
  function Concat(ls: seq<string>): string {
    if ls == [] then [] else ls[0] + Concat(ls[1..])
  }

  lemma {:induction false} UnbrokenSpan(s: string, i: nat, k: nat)
    requires i <= k <= |s|
    requires forall j :: i <= j < k ==> !IsLineBreakAt(s, j)
    decreases k - i
    ensures Unbroken(s, i) == s[i..k] + Unbroken(s, k)
  {
    if i < k {
      UnbrokenSpan(s, i + 1, k);
      assert !IsLineBreakAt(s, i);
      assert Unbroken(s, i) == [s[i]] + Unbroken(s, i + 1);
      calc {
        Unbroken(s, i);
        [s[i]] + (s[i + 1..k] + Unbroken(s, k));
        { assert [s[i]] + s[i + 1..k] == s[i..k]; }
        s[i..k] + Unbroken(s, k);
      }
    }
  }

  lemma {:induction false} LinesFromContent(s: string, i: nat)
    requires i <= |s|
    decreases |s| - i
    ensures Concat(LinesFrom(s, i)) == Unbroken(s, i)
  {
    if i < |s| {
      var k := NextLineBreak(s, i);
      NextLineBreakIsFirst(s, i);
      UnbrokenSpan(s, i, k);
      LinesFromStep(s, i);
      var piece: seq<string> := if k > i then [s[i..k]] else [];
      var rest := if k < |s| then LinesFrom(s, k + 1) else [];
      assert LinesFrom(s, i) == piece + rest;
      RestContent(s, k);
      ConcatPiece(piece, rest, s[i..k]);
    }
  }

  /** What follows the piece ending at `k` holds the characters after the break at `k`. */
  lemma {:induction false} RestContent(s: string, k: nat)
    requires k <= |s| && (k < |s| ==> IsLineBreakAt(s, k))
    decreases |s| - k, 0
    ensures Concat(if k < |s| then LinesFrom(s, k + 1) else []) == Unbroken(s, k)
  {
    if k < |s| {
      LinesFromContent(s, k + 1);
      var u := Unbroken(s, k + 1);
      assert Unbroken(s, k) == [] + u;
      assert [] + u == u;
    }
  }

  lemma ConcatPiece(piece: seq<string>, rest: seq<string>, t: string)
    requires piece == [t] || (piece == [] && t == [])
    ensures Concat(piece + rest) == t + Concat(rest)
  {
    if piece == [t] {
      assert (piece + rest)[0] == t && (piece + rest)[1..] == rest;
    } else {
      assert piece + rest == rest;
    }
  }

  /** The lines hold every character of the text but the line breaks, in order. */
  lemma LinesContent(s: string)
    ensures Concat(Lines(s)) == Unbroken(s, 0)
  {
    LinesFromContent(s, 0);
  }

  /** `s[a..b]` is a whole non-empty piece: it runs from a break (or the start) to the next break (or the end). */
  predicate PieceAt(s: string, a: nat, b: nat) {
    a < b <= |s|
    && (a == 0 || IsLineBreakAt(s, a - 1))
    && (b == |s| || IsLineBreakAt(s, b))
    && forall j :: a <= j < b ==> !IsLineBreakAt(s, j)
  }

  lemma {:induction false} LinesFromArePieces(s: string, i: nat)
    requires i <= |s|
    requires i == 0 || IsLineBreakAt(s, i - 1)
    decreases |s| - i
    ensures forall l :: l in LinesFrom(s, i) ==> exists a: nat, b: nat :: i <= a && PieceAt(s, a, b) && l == s[a..b]
  {
    if i < |s| {
      var k := NextLineBreak(s, i);
      NextLineBreakIsFirst(s, i);
      LinesFromStep(s, i);
      if k < |s| {
        LinesFromArePieces(s, k + 1);
      }
      forall l | l in LinesFrom(s, i) ensures exists a: nat, b: nat :: i <= a && PieceAt(s, a, b) && l == s[a..b] {
        if k > i && l == s[i..k] {
          assert PieceAt(s, i, k);
        } else {
          assert k < |s| && l in LinesFrom(s, k + 1);
          var a: nat, b: nat :| k + 1 <= a && PieceAt(s, a, b) && l == s[a..b];
        }
      }
    }
  }

  /** Every line is a whole piece of the text between two line breaks, never a part of one. */
  lemma LinesArePieces(s: string)
    ensures forall l :: l in Lines(s) ==> exists a: nat, b: nat :: PieceAt(s, a, b) && l == s[a..b]
  {
    LinesFromArePieces(s, 0);
  }

  /** Length of the leading run of non-space characters. */
  function WordEnd(s: string): (n: nat)
    ensures n <= |s|
    ensures n == |s| || s[n] == ' '
  {
    if s == [] || s[0] == ' ' then 0 else 1 + WordEnd(s[1..])
  }

  /** The leading run holds no space. */
  lemma {:induction false} WordEndIsWord(s: string)
    ensures ' ' !in s[..WordEnd(s)]
  {
    if s != [] && s[0] != ' ' {
      WordEndIsWord(s[1..]);
      assert s[..WordEnd(s)] == [s[0]] + s[1..][..WordEnd(s[1..])];
    }
  }

  /** `split(separator: " ")`: the non-empty pieces between space characters. */
  function Tokens(s: string): seq<string>
    decreases |s|
  {
    if s == [] then []
    else if s[0] == ' ' then Tokens(s[1..])
    else
      var n := WordEnd(s);
      [s[..n]] + Tokens(s[n..])
  }

  predicate IsToken(w: string) {
    w != [] && ' ' !in w
  }

  /** `joined(separator: " ")`. */
  function JoinSpaced(ws: seq<string>): string {
    if |ws| == 0 then ""
    else if |ws| == 1 then ws[0]
    else ws[0] + " " + JoinSpaced(ws[1..])
  }

  /** Every piece of a split is a non-empty run without spaces. */
  lemma {:induction false} TokensAreTokens(s: string)
    decreases |s|
    ensures forall w :: w in Tokens(s) ==> IsToken(w)
  {
    if s != [] {
      if s[0] == ' ' {
        TokensAreTokens(s[1..]);
      } else {
        var n := WordEnd(s);
        TokensAreTokens(s[n..]);
        assert Tokens(s) == [s[..n]] + Tokens(s[n..]);
        WordEndIsWord(s);
      }
    }
  }

  lemma {:induction false} WordEndOfWord(w: string, rest: string)
    requires ' ' !in w
    requires rest == [] || rest[0] == ' '
    ensures WordEnd(w + rest) == |w|
  {
    if w != [] {
      assert (w + rest)[0] == w[0];
      assert (w + rest)[1..] == w[1..] + rest;
      WordEndOfWord(w[1..], rest);
    } else {
      assert w + rest == rest;
    }
  }

  lemma {:induction false} TokensOfLeadingSpace(s: string)
    ensures Tokens(" " + s) == Tokens(s)
  {
    assert (" " + s)[1..] == s;
  }

  /** Splitting a space-joined list of tokens gives the list back. */
  lemma {:induction false} TokensOfJoin(ws: seq<string>)
    requires forall w :: w in ws ==> IsToken(w)
    ensures Tokens(JoinSpaced(ws)) == ws
  {
    if |ws| == 1 {
      var w := ws[0];
      assert w in ws;
      WordEndOfWord(w, "");
      assert w + "" == w;
      assert w[|w|..] == [];
    } else if |ws| > 1 {
      var w := ws[0];
      assert w in ws;
      var rest := " " + JoinSpaced(ws[1..]);
      var s := w + rest;
      assert JoinSpaced(ws) == s;
      WordEndOfWord(w, rest);
      assert s[..|w|] == w;
      assert s[|w|..] == rest;
      TokensOfLeadingSpace(JoinSpaced(ws[1..]));
      TokensOfJoin(ws[1..]);
    }
  }

  /**
   * Two texts glued with no separator: their tokens, except that when the first
   * text ends and the second begins with a non-space character, the last token
   * of the first and the first token of the second fuse into one.
   */
  predicate Fuses(a: string, b: string) {
    a != [] && b != [] && a[|a| - 1] != ' ' && b[0] != ' '
  }

  lemma {:induction false} TokensNonEmptyWhenEndsInWord(a: string)
    requires a != [] && a[|a| - 1] != ' '
    decreases |a|
    ensures Tokens(a) != []
  {
    if a[0] == ' ' {
      TokensNonEmptyWhenEndsInWord(a[1..]);
    }
  }

  /** A single word glued in front of a text fuses with that text's first token, if it has one. */
  lemma TokensOfWordConcat(a: string, b: string)
    requires a != [] && ' ' !in a
    ensures Fuses(a, b) ==> Tokens(b) != [] && Tokens(a + b) == [a + Tokens(b)[0]] + Tokens(b)[1..]
    ensures !Fuses(a, b) ==> Tokens(a + b) == [a] + Tokens(b)
  {
    var m := WordEnd(b);
    WordEndIsWord(b);
    WordEndOfWord(a + b[..m], b[m..]);
    assert a + b == (a + b[..m]) + b[m..];
    assert (a + b)[..|a| + m] == a + b[..m];
    assert (a + b)[|a| + m..] == b[m..];
    assert Tokens(a + b) == [a + b[..m]] + Tokens(b[m..]);
    if b != [] && b[0] != ' ' {
      assert Tokens(b) == [b[..m]] + Tokens(b[m..]);
    } else {
      assert m == 0 && b[..m] == [] && b[m..] == b;
      assert a + [] == a;
    }
  }

  /** A word followed by a space: that word, then the tokens of the rest. */
  lemma TokensOfFirstWord(w: string, rest: string)
    requires w != [] && ' ' !in w && rest != [] && rest[0] == ' '
    ensures Tokens(w + rest) == [w] + Tokens(rest)
  {
    WordEndOfWord(w, rest);
    assert (w + rest)[..|w|] == w;
    assert (w + rest)[|w|..] == rest;
  }

  lemma {:induction false} TokensOfConcat(a: string, b: string)
    decreases |a|
    ensures Fuses(a, b) ==>
      var ta, tb := Tokens(a), Tokens(b);
      ta != [] && tb != [] &&
      Tokens(a + b) == ta[..|ta| - 1] + [ta[|ta| - 1] + tb[0]] + tb[1..]
    ensures !Fuses(a, b) ==> Tokens(a + b) == Tokens(a) + Tokens(b)
  {
    if a == [] {
      assert a + b == b;
    } else if a[0] == ' ' {
      assert (a + b)[1..] == a[1..] + b;
      TokensOfConcat(a[1..], b);
      if |a| == 1 {
        assert Tokens(a[1..]) == [];
      } else {
        assert Fuses(a, b) == Fuses(a[1..], b);
      }
    } else {
      var n := WordEnd(a);
      if n < |a| {
        TokensOfConcatAfterWord(a, b, n);
      } else {
        assert a[..n] == a && a[n..] == [];
        assert Tokens(a) == [a];
        WordEndIsWord(a);
        TokensOfWordConcat(a, b);
      }
    }
  }

  /** The step of `TokensOfConcat` past a first word that does not reach the end of `a`. */
  lemma {:induction false} TokensOfConcatAfterWord(a: string, b: string, n: nat)
    requires a != [] && a[0] != ' ' && n == WordEnd(a) && n < |a|
    decreases |a|, 0
    ensures Fuses(a, b) ==>
      var ta, tb := Tokens(a), Tokens(b);
      ta != [] && tb != [] &&
      Tokens(a + b) == ta[..|ta| - 1] + [ta[|ta| - 1] + tb[0]] + tb[1..]
    ensures !Fuses(a, b) ==> Tokens(a + b) == Tokens(a) + Tokens(b)
  {
    var w, rest := a[..n], a[n..];
    WordEndIsWord(a);
    assert a == w + rest;
    assert a + b == w + (rest + b);
    TokensOfFirstWord(w, rest);
    TokensOfFirstWord(w, rest + b);
    TokensOfConcat(rest, b);
    assert Fuses(a, b) == Fuses(rest, b);
    if Fuses(a, b) {
      TokensNonEmptyWhenEndsInWord(a[n..]);
    }
  }

  // ---------------------------------------------------------------------
  // Decimal numbers
  // ---------------------------------------------------------------------

  function DigitValue(c: char): nat
    requires IsDigit(c)
  {
    c as int - '0' as int
  }

  function DigitChar(d: nat): (c: char)
    requires d < 10
    ensures IsDigit(c) && DigitValue(c) == d
  {
    ('0' as int + d) as char
  }

  /** The value of a string of decimal digits (leading zeros allowed). */
  function DecimalValue(ds: string): nat
    requires AllDigits(ds)
  {
    if ds == [] then 0
    else 10 * DecimalValue(ds[..|ds| - 1]) + DigitValue(ds[|ds| - 1])
  }

  /** Decimal rendering without leading zeros, as `%u` prints. */
  function Decimal(n: nat): (s: string)
    ensures s != [] && AllDigits(s)
    ensures |s| > 1 ==> s[0] != '0'
  {
    if n < 10 then [DigitChar(n)] else Decimal(n / 10) + [DigitChar(n % 10)]
  }

  lemma {:induction false} DecimalRoundTrip(n: nat)
    ensures DecimalValue(Decimal(n)) == n
  {
    if n >= 10 {
      var s := Decimal(n);
      assert s[..|s| - 1] == Decimal(n / 10);
      DecimalRoundTrip(n / 10);
    }
  }

  /** The largest value of a 64-bit `UInt`. */
  const UIntMax: nat := 0xFFFF_FFFF_FFFF_FFFF

  /** `UInt(ds) ?? 0`: the value of the digits, or 0 when it does not fit in 64 bits. */
  function ParseUInt(ds: string): (n: nat)
    requires AllDigits(ds)
    ensures n <= UIntMax
    ensures n == DecimalValue(ds) || (n == 0 && DecimalValue(ds) > UIntMax)
  {
    var v := DecimalValue(ds);
    if v <= UIntMax then v else 0
  }
}
