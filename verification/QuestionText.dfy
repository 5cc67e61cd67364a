/** Normalising a question: lower case, runs of white space made one space, ends trimmed. */
module QuestionText {

  /** unicode.IsSpace and unicode.ToLower, of which the model needs only this: lowering twice is
      lowering once, it neither makes nor removes white space, and ' ' is white space. */
  datatype Unicode = Unicode(space: char -> bool, lower: char -> char)
  {
    ghost predicate Valid() {
      && space(' ') && lower(' ') == ' '
      && (forall c :: lower(lower(c)) == lower(c))
      && (forall c :: space(lower(c)) == space(c))
    }
  }

  function TrimLeft(u: Unicode, s: string): (r: string)
    ensures r == [] || !u.space(r[0])
  {
    if s == [] || !u.space(s[0]) then s else TrimLeft(u, s[1..])
  }

  function TrimRight(u: Unicode, s: string): (r: string)
    ensures r == [] || !u.space(r[|r| - 1])
    ensures r != [] ==> s != [] && r[0] == s[0]
  {
    if s == [] || !u.space(s[|s| - 1]) then s else TrimRight(u, s[..|s| - 1])
  }

  /** strings.TrimSpace */
  function Trim(u: Unicode, s: string): string {
    TrimRight(u, TrimLeft(u, s))
  }

  /** What is trimmed away is white space, and what is left neither begins nor ends with any. */
  lemma TrimIs(u: Unicode, s: string)
    ensures exists before, after ::
      && s == before + Trim(u, s) + after
      && (forall c :: c in before + after ==> u.space(c))
    ensures Trim(u, s) != "" ==> !u.space(Trim(u, s)[0]) && !u.space(Trim(u, s)[|Trim(u, s)| - 1])
  {
    var before := TrimmedLeft(u, s);
    var after := TrimmedRight(u, TrimLeft(u, s));
    assert s == before + Trim(u, s) + after;
  }

  lemma {:induction false} TrimmedLeft(u: Unicode, s: string) returns (cut: string)
    ensures s == cut + TrimLeft(u, s) && forall c :: c in cut ==> u.space(c)
  {
    cut := "";
    if s != [] && u.space(s[0]) {
      var more := TrimmedLeft(u, s[1..]);
      cut := [s[0]] + more;
    }
  }

  lemma {:induction false} TrimmedRight(u: Unicode, s: string) returns (cut: string)
    ensures s == TrimRight(u, s) + cut && forall c :: c in cut ==> u.space(c)
  {
    cut := "";
    if s != [] && u.space(s[|s| - 1]) {
      var more := TrimmedRight(u, s[..|s| - 1]);
      cut := more + [s[|s| - 1]];
    }
  }

  /** strings.ToLower */
  function Lower(u: Unicode, s: string): (r: string)
    ensures |r| == |s|
  {
    seq(|s|, i requires 0 <= i < |s| => u.lower(s[i]))
  }

  /** The builder loop: the text built so far and whether it ends in a collapsed space. */
  function Collapse(u: Unicode, s: string): (string, bool) {
    if s == [] then ([], false)
    else
      var (out, lastWasSpace) := Collapse(u, s[..|s| - 1]);
      var c := s[|s| - 1];
      if !u.space(c) then (out + [c], false)
      else if lastWasSpace then (out, true)
      else (out + " ", true)
  }

  function Normalize(u: Unicode, question: string): string {
    Trim(u, Collapse(u, Lower(u, Trim(u, question))).0)
  }

  method NormalizeQuestion(u: Unicode, question: string) returns (text: string)
    ensures text == Normalize(u, question)
  {
    var lowered := Lower(u, Trim(u, question));
    var builder: string := [];
    var lastWasSpace := false;
    for i := 0 to |lowered|
      invariant (builder, lastWasSpace) == Collapse(u, lowered[..i])
    {
      assert lowered[..i + 1][..i] == lowered[..i];
      var r := lowered[i];
      if u.space(r) {
        if !lastWasSpace {
          builder := builder + " ";
          lastWasSpace := true;
        }
        continue;
      }
      builder := builder + [r];
      lastWasSpace := false;
    }
    assert lowered[..|lowered|] == lowered;
    return Trim(u, builder);
  }

  // ---------- Words ----------

  /** The lower-cased words of a text, and whether it ends inside one. */
  function WordsOf(u: Unicode, s: string): (seq<string>, bool) {
    if s == [] then ([], false)
    else
      var (words, open) := WordsOf(u, s[..|s| - 1]);
      var c := s[|s| - 1];
      if u.space(c) then (words, false)
      else if open && words != [] then (words[|words| - 1 := words[|words| - 1] + [u.lower(c)]], true)
      else (words + [[u.lower(c)]], true)
  }

  function Words(u: Unicode, s: string): seq<string> {
    WordsOf(u, s).0
  }

  function Join(words: seq<string>): string {
    if words == [] then []
    else if |words| == 1 then words[0]
    else Join(words[..|words| - 1]) + " " + words[|words| - 1]
  }

  /** A word as WordsOf makes them: not empty, no white space, lower case. */
  ghost predicate IsWord(u: Unicode, w: string) {
    w != [] && forall i :: 0 <= i < |w| ==> !u.space(w[i]) && u.lower(w[i]) == w[i]
  }

  lemma WordsSnoc(u: Unicode, s: string, c: char)
    ensures WordsOf(u, s + [c]) ==
            var (words, open) := WordsOf(u, s);
            if u.space(c) then (words, false)
            else if open && words != [] then (words[|words| - 1 := words[|words| - 1] + [u.lower(c)]], true)
            else (words + [[u.lower(c)]], true)
  {}

  lemma {:induction false} WordsAreWords(u: Unicode, s: string)
    requires u.Valid()
    ensures forall w :: w in Words(u, s) ==> IsWord(u, w)
    ensures s != [] ==> (WordsOf(u, s).1 <==> !u.space(s[|s| - 1]))
    ensures WordsOf(u, s).1 ==> Words(u, s) != []
  {
    if s != [] {
      WordsAreWords(u, s[..|s| - 1]);
      var words, words' := Words(u, s[..|s| - 1]), Words(u, s);
      forall w | w in words' ensures IsWord(u, w) {
        assert w in words || w == words'[|words'| - 1];
        if words != [] {
          assert IsWord(u, words[|words| - 1]);
        }
      }
    }
  }

  lemma {:induction false} LeadingSpace(u: Unicode, c: char, s: string)
    requires u.Valid() && u.space(c)
    ensures WordsOf(u, [c] + s) == WordsOf(u, s)
  {
    if s == [] {
      assert [c] + s == [] + [c];
      WordsSnoc(u, [], c);
    } else {
      var init := s[..|s| - 1];
      LeadingSpace(u, c, init);
      assert [c] + s == ([c] + init) + [s[|s| - 1]];
      WordsSnoc(u, [c] + init, s[|s| - 1]);
    }
  }

  lemma {:induction false} TrimLeftKeepsWords(u: Unicode, s: string)
    requires u.Valid()
    ensures Words(u, TrimLeft(u, s)) == Words(u, s)
  {
    if s != [] && u.space(s[0]) {
      LeadingSpace(u, s[0], s[1..]);
      assert s == [s[0]] + s[1..];
      TrimLeftKeepsWords(u, s[1..]);
    }
  }

  lemma {:induction false} TrimRightKeepsWords(u: Unicode, s: string)
    requires u.Valid()
    ensures Words(u, TrimRight(u, s)) == Words(u, s)
  {
    if s != [] && u.space(s[|s| - 1]) {
      TrimRightKeepsWords(u, s[..|s| - 1]);
    }
  }

  lemma {:induction false} LowerKeepsWords(u: Unicode, s: string)
    requires u.Valid()
    ensures WordsOf(u, Lower(u, s)) == WordsOf(u, s)
  {
    if s != [] {
      var init := s[..|s| - 1];
      LowerKeepsWords(u, init);
      assert Lower(u, s) == Lower(u, init) + [u.lower(s[|s| - 1])];
      WordsSnoc(u, Lower(u, init), u.lower(s[|s| - 1]));
    }
  }

  /** On lower-case text that starts inside a word the loop builds the words joined by spaces. */
  lemma {:induction false} CollapseJoins(u: Unicode, s: string)
    requires u.Valid() && (s == [] || !u.space(s[0]))
    requires forall i :: 0 <= i < |s| ==> u.lower(s[i]) == s[i]
    ensures var (out, lastWasSpace) := Collapse(u, s);
            && out == Join(Words(u, s)) + (if lastWasSpace then " " else "")
            && (s != [] ==> (lastWasSpace <==> !WordsOf(u, s).1) && Words(u, s) != [])
            && (s == [] ==> !lastWasSpace)
  {
    if s != [] {
      var init, c := s[..|s| - 1], s[|s| - 1];
      CollapseJoins(u, init);
      WordsAreWords(u, init);
      var words, words' := Words(u, init), Words(u, s);
      if !u.space(c) {
        if WordsOf(u, init).1 {
          assert words'[..|words'| - 1] == words[..|words| - 1];
          assert Join(words') == Join(words) + [c];
        } else {
          assert words'[..|words'| - 1] == words;
        }
      }
    }
  }

  lemma {:induction false} JoinEnds(u: Unicode, words: seq<string>)
    requires u.Valid() && forall w :: w in words ==> IsWord(u, w)
    ensures Join(words) == [] <==> words == []
    ensures words != [] ==> !u.space(Join(words)[0]) && !u.space(Join(words)[|Join(words)| - 1])
  {
    if words != [] {
      assert IsWord(u, words[|words| - 1]);
      JoinEnds(u, words[..|words| - 1]);
    }
  }

  /** MAIN RESULT.  The normal form is the lower-cased words joined by single spaces. */
  lemma NormalizeJoinsWords(u: Unicode, question: string)
    requires u.Valid()
    ensures Normalize(u, question) == Join(Words(u, question))
  {
    var trimmed := Trim(u, question);
    var lowered := Lower(u, trimmed);
    TrimLeftKeepsWords(u, question);
    TrimRightKeepsWords(u, TrimLeft(u, question));
    LowerKeepsWords(u, trimmed);
    CollapseJoins(u, lowered);
    WordsAreWords(u, lowered);
    JoinEnds(u, Words(u, lowered));
    assert Collapse(u, lowered).0 == Join(Words(u, lowered));
  }

  lemma {:induction false} AppendWord(u: Unicode, s: string, w: string)
    requires u.Valid() && IsWord(u, w) && !WordsOf(u, s).1
    ensures WordsOf(u, s + w) == (Words(u, s) + [w], true)
  {
    var n := |w| - 1;
    assert s + w == (s + w[..n]) + [w[n]];
    WordsSnoc(u, s + w[..n], w[n]);
    if n == 0 {
      assert s + w[..n] == s;
      assert w == [w[0]];
    } else {
      AppendWord(u, s, w[..n]);
      assert w == w[..n] + [w[n]];
      var words := Words(u, s) + [w[..n]];
      assert words[|words| - 1 := w] == Words(u, s) + [w];
    }
  }

  /** Splitting undoes joining. */
  lemma {:induction false} WordsOfJoin(u: Unicode, words: seq<string>)
    requires u.Valid() && forall w :: w in words ==> IsWord(u, w)
    ensures Words(u, Join(words)) == words
  {
    if |words| == 1 {
      AppendWord(u, [], words[0]);
      assert [] + words[0] == words[0];
    } else if |words| > 1 {
      var init, last := words[..|words| - 1], words[|words| - 1];
      WordsOfJoin(u, init);
      WordsSnoc(u, Join(init), ' ');
      AppendWord(u, Join(init) + " ", last);
    }
  }

  /** MAIN RESULT.  Two questions share a cache key exactly when they have the same lower-cased
      words in the same order; so normalising again changes nothing. */
  lemma SameNormalFormIff(u: Unicode, a: string, b: string)
    requires u.Valid()
    ensures Normalize(u, a) == Normalize(u, b) <==> Words(u, a) == Words(u, b)
    ensures Normalize(u, Normalize(u, a)) == Normalize(u, a)
  {
    NormalizeJoinsWords(u, a);
    NormalizeJoinsWords(u, b);
    NormalizeJoinsWords(u, Normalize(u, a));
    WordsAreWords(u, a);
    WordsAreWords(u, b);
    WordsOfJoin(u, Words(u, a));
    WordsOfJoin(u, Words(u, b));
  }

  /** At `i` the text has no white space, or a single ' ' between words. */
  ghost predicate SpacedAt(u: Unicode, text: string, i: nat)
    requires i < |text|
  {
    u.space(text[i]) ==>
      && text[i] == ' ' && 0 < i < |text| - 1
      && !u.space(text[i - 1]) && !u.space(text[i + 1])
  }

  lemma {:induction false} JoinHasSingleSpaces(u: Unicode, words: seq<string>, i: nat)
    requires u.Valid() && (forall w :: w in words ==> IsWord(u, w))
    requires i < |Join(words)|
    ensures SpacedAt(u, Join(words), i)
  {
    var init, last := words[..|words| - 1], words[|words| - 1];
    assert IsWord(u, last);
    if |words| > 1 {
      JoinEnds(u, init);
      if i < |Join(init)| {
        JoinHasSingleSpaces(u, init, i);
      }
    }
  }

  /** No white space at either end, none doubled, and none other than ' '. */
  lemma NormalFormShape(u: Unicode, question: string, i: nat)
    requires u.Valid() && i < |Normalize(u, question)|
    ensures SpacedAt(u, Normalize(u, question), i)
  {
    NormalizeJoinsWords(u, question);
    WordsAreWords(u, question);
    JoinHasSingleSpaces(u, Words(u, question), i);
  }
}
