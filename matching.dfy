/**
 * Hand-written matchers for the three regular-expression shapes the report
 * parser uses, with the semantics of an ICU regular expression compiled
 * case-insensitively and searched without anchors, the first match winning:
 *
 *   Remainder(prefix)   prefix\s+(.*)
 *   Number(prefix)      prefix\s+([0-9]+)
 *   NameAndPid(prefix)  prefix\s+([^\[]+)\[([0-9]+)\]
 *
 * `MatchAt` gives the captures of the match that the backtracking engine
 * finds when it starts at one position; `FirstMatchFrom` is the leftmost
 * search; `Matches` is the whole of `DiagnosticReport.matches`.
 */
module Matching {
  import opened Wrappers
  import opened Text

  /**
   * ICU's `\s`, which its regular-expression compiler builds from
   * `\p{White_Space}`: U+0009 to U+000D, U+0085, the space separators (Zs),
   * and the line and paragraph separators.
   */
  predicate IsRegexSpace(c: char) {
    ('\t' <= c <= '\r') || c == '\U{0085}'
    || IsSpaceSeparator(c) || c == '\U{2028}' || c == '\U{2029}'
  }

  /** The characters ICU's `.` does not match without the dot-all flag. */
  predicate IsLineTerminator(c: char) {
    c == '\n' || c == '\U{000B}' || c == '\U{000C}' || c == '\r'
    || c == '\U{0085}' || c == '\U{2028}' || c == '\U{2029}'
  }

  /** Case folding for the ASCII letters the labels are written in. */
  function FoldCase(c: char): char {
    if 'A' <= c <= 'Z' then (c as int + 32) as char else c
  }

  /** The prefix occurs at `i`, letters compared without regard to case. */
  predicate LabelAt(line: string, i: nat, prefix: string) {
    i + |prefix| <= |line|
    && forall k :: 0 <= k < |prefix| ==> FoldCase(line[i + k]) == FoldCase(prefix[k])
  }

  datatype CharClass = RegexSpace | Digit | NotTerminator | NotBracket

  predicate InClass(c: char, cls: CharClass) {
    match cls
    case RegexSpace => IsRegexSpace(c)
    case Digit => IsDigit(c)
    case NotTerminator => !IsLineTerminator(c)
    case NotBracket => c != '['
  }

  /** Length of the longest run of `cls` characters starting at `p` (a greedy `cls*`). */
  function Run(s: string, p: nat, cls: CharClass): (n: nat)
    requires p <= |s|
    decreases |s| - p
    ensures p + n <= |s|
  {
    if p == |s| || !InClass(s[p], cls) then 0 else 1 + Run(s, p + 1, cls)
  }

  /** The run is made of `cls` characters and stops at the end or at the first other character. */
  lemma {:induction false} RunFacts(s: string, p: nat, cls: CharClass)
    requires p <= |s|
    decreases |s| - p
    ensures forall k :: p <= k < p + Run(s, p, cls) ==> InClass(s[k], cls)
    ensures p + Run(s, p, cls) == |s| || !InClass(s[p + Run(s, p, cls)], cls)
  {
    if p < |s| && InClass(s[p], cls) {
      RunFacts(s, p + 1, cls);
    }
  }

  /** Conversely, `n` characters of `cls` followed by the end or another character are the run. */
  lemma {:induction false} RunExact(s: string, p: nat, cls: CharClass, n: nat)
    requires p + n <= |s|
    requires forall k :: p <= k < p + n ==> InClass(s[k], cls)
    requires p + n == |s| || !InClass(s[p + n], cls)
    ensures Run(s, p, cls) == n
    decreases n
  {
    if n > 0 {
      RunExact(s, p + 1, cls, n - 1);
    }
  }

  /** A run stops at the first character outside its class. */
  lemma RunStopsBefore(s: string, p: nat, cls: CharClass, m: nat)
    requires p <= m < |s| && !InClass(s[m], cls)
    ensures p + Run(s, p, cls) <= m
  {
    RunFacts(s, p, cls);
  }

  datatype Pattern =
    | Remainder(prefix: string)
    | Number(prefix: string)
    | NameAndPid(prefix: string)

  function Arity(pat: Pattern): nat {
    if pat.NameAndPid? then 2 else 1
  }

  /**
   * The captures of the match beginning at `i`, if there is one. `\s+` is
   * greedy; for NameAndPid it gives back one whitespace character when the
   * `[` follows the whitespace directly, since `[^\[]+` needs one character.
   */
  function MatchAt(line: string, i: nat, pat: Pattern): (r: Option<seq<string>>)
    requires i <= |line|
    ensures r.Some? ==> |r.value| == Arity(pat)
  {
    if !LabelAt(line, i, pat.prefix) then None
    else
      var p := i + |pat.prefix|;
      var w := Run(line, p, RegexSpace);
      if w == 0 then None
      else
        match pat
        case Remainder(_) => Some([CaptureRemainder(line, p + w)])
        case Number(_) => CaptureNumber(line, p + w)
        case NameAndPid(_) => CaptureNameAndPid(line, p + w, w)
  }

  /** `(.*)` at `q`: everything up to the first line terminator. */
  function CaptureRemainder(line: string, q: nat): string
    requires q <= |line|
  {
    line[q..q + Run(line, q, NotTerminator)]
  }

  /** `([0-9]+)` at `q`. */
  function CaptureNumber(line: string, q: nat): (r: Option<seq<string>>)
    requires q <= |line|
    ensures r.Some? ==> |r.value| == 1
  {
    var d := Run(line, q, Digit);
    if d == 0 then None else Some([line[q..q + d]])
  }

  /** `([^\[]+)\[([0-9]+)\]` at `q`, after `w` whitespace characters. */
  function CaptureNameAndPid(line: string, q: nat, w: nat): (r: Option<seq<string>>)
    requires w <= q <= |line|
    ensures r.Some? ==> |r.value| == 2
  {
    var j := q + Run(line, q, NotBracket);
    if j == |line| || (j == q && w < 2) then None
    else
      var d := Run(line, j + 1, Digit);
      if d == 0 || j + 1 + d == |line| || line[j + 1 + d] != ']' then None
      else
        var name := if j > q then line[q..j] else line[q - 1..q];
        Some([name, line[j + 1..j + 1 + d]])
  }

  /** The leftmost position at or after `from` where a match begins. */
  function FirstMatchFrom(line: string, pat: Pattern, from: nat): (r: Option<nat>)
    requires from <= |line|
    decreases |line| - from
    ensures r.Some? ==> from <= r.value <= |line|
  {
    if MatchAt(line, from, pat).Some? then Some(from)
    else if from == |line| then None
    else FirstMatchFrom(line, pat, from + 1)
  }

  /** The search finds a match exactly where one begins, and none before it. */
  lemma {:induction false} FirstMatchFromLeftmost(line: string, pat: Pattern, from: nat)
    requires from <= |line|
    decreases |line| - from
    ensures var r := FirstMatchFrom(line, pat, from);
      r.Some? ==> (MatchAt(line, r.value, pat).Some?
        && forall k :: from <= k < r.value ==> MatchAt(line, k, pat).None?)
    ensures FirstMatchFrom(line, pat, from).None? ==>
      forall k :: from <= k <= |line| ==> MatchAt(line, k, pat).None?
  {
    if MatchAt(line, from, pat).None? && from < |line| {
      FirstMatchFromLeftmost(line, pat, from + 1);
    }
  }

  /** `DiagnosticReport.matches`: the captures of the first match, or none. */
  function Matches(line: string, pat: Pattern): (r: Option<seq<string>>)
    ensures r.Some? ==> |r.value| == Arity(pat)
  {
    if line == [] then None
    else
      match FirstMatchFrom(line, pat, 0)
      case None => None
      case Some(i) => MatchAt(line, i, pat)
  }

  /** `Matches` finds a match exactly when one begins at some position, and takes the leftmost. */
  lemma MatchesLeftmost(line: string, pat: Pattern)
    ensures Matches(line, pat).Some? <==> exists i :: 0 <= i <= |line| && MatchAt(line, i, pat).Some?
    ensures Matches(line, pat).Some? ==>
      exists i :: 0 <= i <= |line| && Matches(line, pat) == MatchAt(line, i, pat)
        && forall k :: 0 <= k < i ==> MatchAt(line, k, pat).None?
  {
    if line == [] {
      assert MatchAt(line, 0, pat).None?;
    } else {
      FirstMatchFromLeftmost(line, pat, 0);
    }
  }

  // ---------------------------------------------------------------------
  // What a match means, stated without the matcher
  // ---------------------------------------------------------------------

  /** `w` whitespace characters start at `p`, and no more. */
  predicate SpaceRun(line: string, p: nat, w: nat) {
    1 <= w && p + w <= |line|
    && (forall k :: p <= k < p + w ==> IsRegexSpace(line[k]))
  }

  /**
   * `prefix\s+(.*)` matches at `i` capturing `c`: the prefix, all the whitespace
   * that follows it, then `c`, which runs up to the end of the line or the
   * first line terminator.
   */
  predicate RemainderAt(line: string, i: nat, prefix: string, w: nat, c: string) {
    LabelAt(line, i, prefix)
    && var q := i + |prefix| + w;
    SpaceRun(line, i + |prefix|, w)
    && (q == |line| || !IsRegexSpace(line[q]))
    && q + |c| <= |line| && line[q..q + |c|] == c
    && (forall k :: 0 <= k < |c| ==> !IsLineTerminator(c[k]))
    && (q + |c| == |line| || IsLineTerminator(line[q + |c|]))
  }

  /** `prefix\s+([0-9]+)` matches at `i` capturing the digits `d`, as many as there are. */
  predicate NumberAt(line: string, i: nat, prefix: string, w: nat, d: string) {
    LabelAt(line, i, prefix)
    && var q := i + |prefix| + w;
    SpaceRun(line, i + |prefix|, w)
    && d != [] && AllDigits(d)
    && q + |d| <= |line| && line[q..q + |d|] == d
    && (q + |d| == |line| || !IsDigit(line[q + |d|]))
  }

  /** `([^\[]+)\[([0-9]+)\]` at `q`: `name`, then `digits` in square brackets. */
  predicate BracketedAt(line: string, q: nat, name: string, digits: string) {
    var b := q + |name|;
    name != [] && '[' !in name && digits != [] && AllDigits(digits)
    && b + |digits| + 2 <= |line|
    && line[q..b] == name && line[b] == '['
    && line[b + 1..b + 1 + |digits|] == digits && line[b + 1 + |digits|] == ']'
  }

  /**
   * `prefix\s+([^\[]+)\[([0-9]+)\]` matches at `i` with `w` whitespace characters
   * for `\s+`, capturing `name` and `digits`.
   */
  predicate NameAndPidAt(line: string, i: nat, prefix: string, w: nat, name: string, digits: string) {
    LabelAt(line, i, prefix)
    && SpaceRun(line, i + |prefix|, w)
    && BracketedAt(line, i + |prefix| + w, name, digits)
  }

  lemma {:induction false} RemainderMatchIff(line: string, i: nat, prefix: string, c: string)
    requires i <= |line|
    ensures MatchAt(line, i, Remainder(prefix)) == Some([c])
        <==> exists w :: RemainderAt(line, i, prefix, w, c)
  {
    if MatchAt(line, i, Remainder(prefix)) == Some([c]) {
      RemainderSound(line, i, prefix, c);
    }
    if w: nat :| RemainderAt(line, i, prefix, w, c) {
      RemainderComplete(line, i, prefix, w, c);
    }
  }

  /** A match at `i` has the prefix there and a whitespace run after it, and its captures start after the run. */
  lemma {:induction false} MatchAtShape(line: string, i: nat, pat: Pattern)
    requires i <= |line| && MatchAt(line, i, pat).Some?
    ensures LabelAt(line, i, pat.prefix)
    ensures var p := i + |pat.prefix|;
      SpaceRun(line, p, Run(line, p, RegexSpace))
      && (p + Run(line, p, RegexSpace) == |line| || !IsRegexSpace(line[p + Run(line, p, RegexSpace)]))
    ensures var p := i + |pat.prefix|;
      var w := Run(line, p, RegexSpace);
      match pat
      case Remainder(_) => MatchAt(line, i, pat) == Some([CaptureRemainder(line, p + w)])
      case Number(_) => MatchAt(line, i, pat) == CaptureNumber(line, p + w)
      case NameAndPid(_) => MatchAt(line, i, pat) == CaptureNameAndPid(line, p + w, w)
  {
    var p := i + |pat.prefix|;
    var w := Run(line, p, RegexSpace);
    assert LabelAt(line, i, pat.prefix) && w != 0;
    RunFacts(line, p, RegexSpace);
    assert SpaceRun(line, p, w);
    match pat
    case Remainder(_) => assert MatchAt(line, i, pat) == Some([CaptureRemainder(line, p + w)]);
    case Number(_) => assert MatchAt(line, i, pat) == CaptureNumber(line, p + w);
    case NameAndPid(_) => assert MatchAt(line, i, pat) == CaptureNameAndPid(line, p + w, w);
  }

  lemma {:induction false} RemainderSound(line: string, i: nat, prefix: string, c: string)
    requires i <= |line|
    requires MatchAt(line, i, Remainder(prefix)) == Some([c])
    ensures RemainderAt(line, i, prefix, Run(line, i + |prefix|, RegexSpace), c)
  {
    MatchAtShape(line, i, Remainder(prefix));
    var q := i + |prefix| + Run(line, i + |prefix|, RegexSpace);
    assert c == CaptureRemainder(line, q);
    RunFacts(line, q, NotTerminator);
    forall k | 0 <= k < |c| ensures !IsLineTerminator(c[k]) {
      assert c[k] == line[q + k];
    }
  }

  lemma {:induction false} RemainderComplete(line: string, i: nat, prefix: string, w: nat, c: string)
    requires RemainderAt(line, i, prefix, w, c)
    ensures MatchAt(line, i, Remainder(prefix)) == Some([c])
  {
    var p := i + |prefix|;
    RunExact(line, p, RegexSpace, w);
    forall k | p + w <= k < p + w + |c| ensures InClass(line[k], NotTerminator) {
      assert line[k] == c[k - (p + w)];
    }
    RunExact(line, p + w, NotTerminator, |c|);
  }

  lemma {:induction false} NumberMatchIff(line: string, i: nat, prefix: string, d: string)
    requires i <= |line|
    ensures MatchAt(line, i, Number(prefix)) == Some([d])
        <==> exists w :: NumberAt(line, i, prefix, w, d)
  {
    if MatchAt(line, i, Number(prefix)) == Some([d]) {
      NumberSound(line, i, prefix, d);
    }
    if w: nat :| NumberAt(line, i, prefix, w, d) {
      NumberComplete(line, i, prefix, w, d);
    }
  }

  lemma {:induction false} NumberSound(line: string, i: nat, prefix: string, d: string)
    requires i <= |line|
    requires MatchAt(line, i, Number(prefix)) == Some([d])
    ensures NumberAt(line, i, prefix, Run(line, i + |prefix|, RegexSpace), d)
  {
    MatchAtShape(line, i, Number(prefix));
    var q := i + |prefix| + Run(line, i + |prefix|, RegexSpace);
    assert Some([d]) == CaptureNumber(line, q);
    assert d == line[q..q + Run(line, q, Digit)];
    DigitRunIsDigits(line, q);
    RunFacts(line, q, Digit);
  }

  lemma {:induction false} NumberComplete(line: string, i: nat, prefix: string, w: nat, d: string)
    requires NumberAt(line, i, prefix, w, d)
    ensures MatchAt(line, i, Number(prefix)) == Some([d])
  {
    var p := i + |prefix|;
    assert line[p + w] == d[0];
    RunExact(line, p, RegexSpace, w);
    forall k | p + w <= k < p + w + |d| ensures InClass(line[k], Digit) {
      assert line[k] == d[k - (p + w)];
    }
    RunExact(line, p + w, Digit, |d|);
  }

  /** Every match the matcher reports is a match of the pattern. */
  lemma {:induction false} NameAndPidSound(line: string, i: nat, prefix: string, name: string, digits: string)
    requires i <= |line|
    requires MatchAt(line, i, NameAndPid(prefix)) == Some([name, digits])
    ensures exists w :: NameAndPidAt(line, i, prefix, w, name, digits)
  {
    var w := Run(line, i + |prefix|, RegexSpace);
    NameAndPidShape(line, i, prefix, w);
    NameAndPidOfCapture(line, i, prefix, w, name, digits);
  }

  /** `MatchAtShape` for the process pattern, with the whitespace run named. */
  lemma {:induction false} NameAndPidShape(line: string, i: nat, prefix: string, w: nat)
    requires i <= |line| && MatchAt(line, i, NameAndPid(prefix)).Some?
    requires w == Run(line, i + |prefix|, RegexSpace)
    ensures LabelAt(line, i, prefix) && SpaceRun(line, i + |prefix|, w)
    ensures MatchAt(line, i, NameAndPid(prefix)) == CaptureNameAndPid(line, i + |prefix| + w, w)
  {
    MatchAtShape(line, i, NameAndPid(prefix));
  }

  lemma {:induction false} NameAndPidOfCapture(line: string, i: nat, prefix: string, w: nat, name: string, digits: string)
    requires LabelAt(line, i, prefix) && SpaceRun(line, i + |prefix|, w)
    requires CaptureNameAndPid(line, i + |prefix| + w, w) == Some([name, digits])
    ensures exists w' :: NameAndPidAt(line, i, prefix, w', name, digits)
  {
    var w' := CaptureNameAndPidShape(line, i + |prefix|, w, name, digits);
    assert NameAndPidAt(line, i, prefix, w', name, digits);
  }

  /** A run of digits is all digits. */
  lemma {:induction false} DigitRunIsDigits(line: string, s: nat)
    requires s <= |line|
    ensures AllDigits(line[s..s + Run(line, s, Digit)])
  {
    var ds := line[s..s + Run(line, s, Digit)];
    RunFacts(line, s, Digit);
    forall k | 0 <= k < |ds| ensures IsDigit(ds[k]) {
      assert InClass(line[s + k], Digit);
    }
  }

  /** A run of non-brackets holds no bracket. */
  lemma {:induction false} NotBracketRunHasNoBracket(line: string, q: nat)
    requires q <= |line|
    ensures '[' !in line[q..q + Run(line, q, NotBracket)]
  {
    var ns := line[q..q + Run(line, q, NotBracket)];
    RunFacts(line, q, NotBracket);
    forall k | 0 <= k < |ns| ensures ns[k] != '[' {
      assert InClass(line[q + k], NotBracket);
    }
  }

  /** The digits and closing bracket `CaptureNameAndPid` accepted after the `[` at `j`. */
  lemma {:induction false} CaptureNameAndPidDigits(line: string, q: nat, w: nat, name: string, digits: string)
    requires w <= q <= |line|
    requires CaptureNameAndPid(line, q, w) == Some([name, digits])
    ensures var j := q + Run(line, q, NotBracket);
      j < |line| && line[j] == '['
      && digits != [] && AllDigits(digits)
      && j + |digits| + 2 <= |line|
      && line[j + 1..j + 1 + |digits|] == digits && line[j + 1 + |digits|] == ']'
  {
    var j := q + Run(line, q, NotBracket);
    RunFacts(line, q, NotBracket);
    DigitRunIsDigits(line, j + 1);
  }

  /** The name `CaptureNameAndPid` accepted: the text before the `[`, or the last whitespace character. */
  lemma {:induction false} CaptureNameAndPidName(line: string, q: nat, w: nat, name: string, digits: string)
    requires w <= q <= |line|
    requires CaptureNameAndPid(line, q, w) == Some([name, digits])
    ensures var j := q + Run(line, q, NotBracket);
      (j > q ==> name == line[q..j]) && (j == q ==> w >= 2 && name == line[q - 1..q])
  {
  }

  /** The captures of `CaptureNameAndPid` lie where the pattern puts them. */
  lemma {:induction false} CaptureNameAndPidShape(line: string, p: nat, w: nat, name: string, digits: string) returns (w': nat)
    requires SpaceRun(line, p, w)
    requires CaptureNameAndPid(line, p + w, w) == Some([name, digits])
    ensures SpaceRun(line, p, w') && BracketedAt(line, p + w', name, digits)
  {
    var q := p + w;
    var j := q + Run(line, q, NotBracket);
    CaptureNameAndPidDigits(line, q, w, name, digits);
    CaptureNameAndPidName(line, q, w, name, digits);
    if j > q {
      w' := w;
      NotBracketRunHasNoBracket(line, q);
      assert name == line[q..j] && q + |name| == j;
    } else {
      w' := w - 1;
      assert name == line[q - 1..q] && (p + w') + |name| == j;
      assert IsRegexSpace(line[p + w']) && name[0] == line[p + w'];
      assert '[' !in name;
    }
    assert SpaceRun(line, p, w');
  }

  /**
   * Whenever the pattern can match at `i`, the matcher finds a match there,
   * and its pid capture is the one in the brackets (the bracket is always the
   * first `[` after the whitespace).
   */
  lemma {:induction false} NameAndPidComplete(line: string, i: nat, prefix: string, w: nat, name: string, digits: string)
    requires NameAndPidAt(line, i, prefix, w, name, digits)
    ensures MatchAt(line, i, NameAndPid(prefix)).Some?
    ensures MatchAt(line, i, NameAndPid(prefix)).value[1] == digits
  {
    var p := i + |prefix|;
    var bw := Run(line, p, RegexSpace);
    CaptureNameAndPidComplete(line, p, w, name, digits);
    assert MatchAt(line, i, NameAndPid(prefix)) == CaptureNameAndPid(line, p + bw, bw);
  }

  /** The first `[` after the greedy whitespace run is the bracket of any match. */
  lemma {:induction false} BracketAfterRun(line: string, p: nat, w: nat, name: string, digits: string)
    requires SpaceRun(line, p, w)
    requires BracketedAt(line, p + w, name, digits)
    ensures var q := p + Run(line, p, RegexSpace);
      q <= p + w + |name| && q + Run(line, q, NotBracket) == p + w + |name|
  {
    var q := p + Run(line, p, RegexSpace);
    var b := p + w + |name|;
    assert line[b] == '[';
    RunStopsBefore(line, p, RegexSpace, b);
    RunFacts(line, p, RegexSpace);
    forall k | q <= k < b ensures InClass(line[k], NotBracket) {
      assert line[k] == name[k - (p + w)];
    }
    RunExact(line, q, NotBracket, b - q);
  }

  lemma {:induction false} CaptureNameAndPidComplete(line: string, p: nat, w: nat, name: string, digits: string)
    requires SpaceRun(line, p, w)
    requires BracketedAt(line, p + w, name, digits)
    ensures var bw := Run(line, p, RegexSpace);
      CaptureNameAndPid(line, p + bw, bw).Some?
      && CaptureNameAndPid(line, p + bw, bw).value[1] == digits
  {
    var bw := Run(line, p, RegexSpace);
    var b := p + w + |name|;
    BracketAfterRun(line, p, w, name, digits);
    forall k | b + 1 <= k < b + 1 + |digits| ensures InClass(line[k], Digit) {
      assert line[k] == digits[k - (b + 1)];
    }
    RunExact(line, b + 1, Digit, |digits|);
  }
}
