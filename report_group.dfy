/**
 * `DiagnosticReportGroup`: the reports of one process, the icon of the first
 * report that had one, and a search index of the distinct space-separated
 * words seen so far.
 */
module Groups {
  import opened Wrappers
  import opened Text
  import opened Reports

  /** The icon of the first report that has one: `addReport` sets the group's icon only while it is nil. */
  function FirstIcon(rs: seq<Report>): Option<Icon> {
    if rs == [] then None
    else if rs[0].icon.Some? then rs[0].icon
    else FirstIcon(rs[1..])
  }

  lemma {:induction false} FirstIconAppend(rs: seq<Report>, r: Report)
    ensures FirstIcon(rs + [r]) == if FirstIcon(rs).Some? then FirstIcon(rs) else r.icon
  {
    if rs == [] {
      assert [] + [r] == [r];
    } else {
      assert (rs + [r])[1..] == rs[1..] + [r];
      FirstIconAppend(rs[1..], r);
    }
  }

  predicate Distinct<T(==)>(xs: seq<T>) {
    forall i, j :: 0 <= i < j < |xs| ==> xs[i] != xs[j]
  }

  function Elements<T>(xs: seq<T>): set<T> {
    set x | x in xs
  }

  /** An index text: distinct words joined by single spaces. */
  predicate IndexWellFormed(index: string) {
    Distinct(Tokens(index)) && JoinSpaced(Tokens(index)) == index
  }

  /** The words the index holds after a report is added: those of the old index text followed directly by the contents. */
  function NextIndexWords(index: Option<string>, contents: string): set<string> {
    Elements(Tokens(index.GetOr("") + contents))
  }

  /** `Set(words).joined(separator: " ")`: the words in an order the set chooses. */
  method Arrange(words: set<string>) returns (ws: seq<string>)
    ensures Distinct(ws) && Elements(ws) == words
  {
    ws := [];
    var remaining := words;
    while remaining != {}
      invariant Distinct(ws)
      invariant remaining !! Elements(ws)
      invariant Elements(ws) + remaining == words
      decreases |remaining|
    {
      var w :| w in remaining;
      ws := ws + [w];
      remaining := remaining - {w};
    }
  }

  class ReportGroup {
    var name: string
    var reports: seq<Report>
    var icon: Option<Icon>
    var index: Option<string>

    /** The icon is the first report's icon that exists, and the index exists once a report is added. */
    predicate Valid()
      reads this
    {
      icon == FirstIcon(reports) && (index.None? <==> reports == [])
    }

    constructor(name: string)
      ensures Valid()
      ensures this.name == name && reports == [] && icon.None? && index.None?
    {
      this.name := name;
      reports := [];
      icon := None;
      index := None;
    }

    /** `addReport`: keep the icon once set, append the report, re-index. */
    method AddReport(r: Report)
      requires Valid()
      modifies this
      ensures Valid()
      ensures name == old(name)
      ensures reports == old(reports) + [r]
      ensures icon == if old(icon).Some? then old(icon) else r.icon
      ensures index.Some? && IndexWellFormed(index.value)
      ensures Elements(Tokens(index.value)) == NextIndexWords(old(index), r.contents)
    {
      FirstIconAppend(reports, r);
      if icon.None? {
        icon := r.icon;
      }
      reports := reports + [r];
      var text := index.GetOr("") + r.contents;
      var words := Tokens(text);
      var unique := set w | w in words;
      var arranged := Arrange(unique);
      TokensAreTokens(text);
      forall w | w in arranged
        ensures IsToken(w)
      {
        assert w in Elements(arranged);
        assert w in unique;
      }
      TokensOfJoin(arranged);
      index := Some(JoinSpaced(arranged));
    }
  }

  // ---------------------------------------------------------------------
  // What the index holds
  // ---------------------------------------------------------------------

  /** On the first add the index holds exactly the distinct words of the report's contents. */
  lemma FirstIndexWords(contents: string)
    ensures NextIndexWords(None, contents) == Elements(Tokens(contents))
  {
    assert "" + contents == contents;
  }

  /**
   * On a later add, every word of the old index but its last and every word
   * of the new contents but its first are kept. The two in between are kept
   * too when a space separates them; otherwise they fuse into one word,
   * since the texts are concatenated without a separator.
   */
  lemma NextIndexWordsOfConcat(index: string, contents: string)
    ensures var ta, tb, next := Tokens(index), Tokens(contents), NextIndexWords(Some(index), contents);
      (forall k :: 0 <= k < |ta| - 1 ==> ta[k] in next)
      && (forall k :: 1 <= k < |tb| ==> tb[k] in next)
      && (!Fuses(index, contents) ==> next == Elements(ta) + Elements(tb))
      && (Fuses(index, contents) ==>
            ta != [] && tb != []
            && next == Elements(ta[..|ta| - 1]) + {ta[|ta| - 1] + tb[0]} + Elements(tb[1..]))
  {
    TokensOfConcat(index, contents);
    var ta, tb := Tokens(index), Tokens(contents);
    if Fuses(index, contents) {
      var t := Tokens(index + contents);
      var mid := [ta[|ta| - 1] + tb[0]];
      assert t == ta[..|ta| - 1] + mid + tb[1..];
      forall k | 0 <= k < |ta| - 1 ensures ta[k] in t {
        assert t[k] == ta[k];
      }
      forall k | 1 <= k < |tb| ensures tb[k] in t {
        assert t[|ta| + k - 1] == tb[k];
      }
    } else {
      var t := Tokens(index + contents);
      forall k | 0 <= k < |ta| ensures ta[k] in t {
        assert t[k] == ta[k];
      }
      forall k | 0 <= k < |tb| ensures tb[k] in t {
        assert t[|ta| + k] == tb[k];
      }
    }
  }

  /**
   * The index depends on the order the reports arrive in: contents "a" then
   * "b" index the word "ab", contents "b" then "a" the word "ba".
   */
  lemma IndexDependsOnArrivalOrder()
    ensures NextIndexWords(None, "a") == {"a"} && NextIndexWords(None, "b") == {"b"}
    ensures NextIndexWords(Some("a"), "b") == {"ab"}
    ensures NextIndexWords(Some("b"), "a") == {"ba"}
    ensures NextIndexWords(Some("a"), "b") != NextIndexWords(Some("b"), "a")
  {
    FirstIndexWords("a");
    FirstIndexWords("b");
    TokensOfFirstWordOnly("a");
    TokensOfFirstWordOnly("b");
    TokensOfFirstWordOnly("ab");
    TokensOfFirstWordOnly("ba");
    assert "a" + "b" == "ab";
    assert "b" + "a" == "ba";
    assert "ab" != "ba" by { assert "ab"[0] != "ba"[0]; }
  }

  /** A single word splits into itself. */
  lemma TokensOfFirstWordOnly(w: string)
    requires IsToken(w)
    ensures Tokens(w) == [w]
  {
    TokensOfJoin([w]);
  }
}
