/** How planner and router read an acquisition task's scope from a text about it. */
module AcquisitionScopes {

  datatype AcquisitionScope = Company | Peer | ResearchNews

  function Lower(c: char): char {
    if 'A' <= c <= 'Z' then (c as int + 32) as char else c
  }

  /** Lower case with underscores read as hyphens. */
  function Normalise(s: string): string {
    seq(|s|, i requires 0 <= i < |s| => if s[i] == '_' then '-' else Lower(s[i]))
  }

  predicate Mentions(text: string, word: string) {
    exists i :: 0 <= i <= |text| && word <= text[i..]
  }

  predicate MentionsPeer(text: string) {
    Mentions(text, "peer") || Mentions(text, "comparable")
  }

  predicate MentionsNews(text: string) {
    Mentions(text, "news") || Mentions(text, "transcript")
  }

  function HintedScope(hint: string): AcquisitionScope {
    if MentionsPeer(Normalise(hint)) then Peer
    else if MentionsNews(Normalise(hint)) then ResearchNews
    else Company
  }

  /** A text that hints at no scope. */
  predicate Neutral(text: string) {
    !MentionsPeer(Normalise(text)) && !MentionsNews(Normalise(text))
  }

  /** Upper and lower case, and the two separators, are read alike. */
  lemma CaseIsIgnored(a: char, b: char)
    requires 'a' <= a <= 'z' && b as int + 32 == a as int
    ensures Normalise([b]) == Normalise([a]) == [a] && Normalise("_") == Normalise("-") == "-"
  {
  }

  // ---- Words in joined texts ------------------------------------------------------------

  lemma LettersOf(text: string, i: nat, word: string)
    requires i <= |text| && word <= text[i..]
    ensures forall m :: i <= m < i + |word| ==> text[m] in word
  {
    forall m | i <= m < i + |word| ensures text[m] in word {
      assert text[m] == text[i..][m - i] == word[m - i];
    }
  }

  /** A word without the separator stands on one side of it or on the other. */
  lemma MentionsJoined(a: string, separator: char, b: string, word: string)
    requires word != [] && separator !in word
    ensures Mentions(a + [separator] + b, word) <==> Mentions(a, word) || Mentions(b, word)
  {
    var t := a + [separator] + b;
    if i :| 0 <= i <= |t| && word <= t[i..] {
      LettersOf(t, i, word);
      assert t[|a|] == separator;
      if i + |word| <= |a| {
        assert word <= a[i..];
      } else if i > |a| {
        assert t[i..] == b[i - |a| - 1..];
      }
    }
    if i :| 0 <= i <= |a| && word <= a[i..] {
      assert t[i..] == a[i..] + [separator] + b;
    }
    if i :| 0 <= i <= |b| && word <= b[i..] {
      assert t[|a| + 1 + i..] == b[i..];
    }
  }

  lemma WordsHaveNoColon()
    ensures ':' !in "peer" && ':' !in "comparable" && ':' !in "news" && ':' !in "transcript"
  {
  }

  /** What a run id and a text say together, joined by a colon. */
  lemma HintsJoined(a: string, b: string)
    ensures MentionsPeer(Normalise(a + ":" + b)) <==> MentionsPeer(Normalise(a)) || MentionsPeer(Normalise(b))
    ensures MentionsNews(Normalise(a + ":" + b)) <==> MentionsNews(Normalise(a)) || MentionsNews(Normalise(b))
  {
    hide Mentions;
    assert Normalise(a + ":" + b) == Normalise(a) + [':'] + Normalise(b);
    WordsHaveNoColon();
    MentionsJoined(Normalise(a), ':', Normalise(b), "peer");
    MentionsJoined(Normalise(a), ':', Normalise(b), "comparable");
    MentionsJoined(Normalise(a), ':', Normalise(b), "news");
    MentionsJoined(Normalise(a), ':', Normalise(b), "transcript");
  }

  lemma TooShort(text: string, word: string)
    requires |text| < |word|
    ensures !Mentions(text, word)
  {
  }

  /** A word does not occur where one of its letters does not. */
  lemma MissingLetter(text: string, word: string, k: nat)
    requires k < |word| && word[k] !in text
    ensures !Mentions(text, word)
  {
    forall i | 0 <= i <= |text| ensures !(word <= text[i..]) {
      assert i + k < |text| ==> text[i..][k] == text[i + k] && text[i + k] in text;
    }
  }

  lemma MentionedFirst(text: string, word: string)
    requires word <= text
    ensures Mentions(text, word)
  {
    assert text[0..] == text;
  }

  /** Without p, t and w no scope is hinted at. */
  lemma NeutralWithoutLetters(text: string)
    requires 'p' !in Normalise(text) && 't' !in Normalise(text) && 'w' !in Normalise(text)
    ensures Neutral(text)
  {
    hide Mentions, Normalise;
    MissingLetter(Normalise(text), "peer", 0);
    MissingLetter(Normalise(text), "comparable", 3);
    MissingLetter(Normalise(text), "news", 2);
    MissingLetter(Normalise(text), "transcript", 0);
  }

  /** The run ids that are generated, RUN and a hexadecimal id, hint at no scope. */
  lemma GeneratedIdsAreNeutral(suffix: string)
    requires forall c :: c in suffix ==> c == '-' || '0' <= c <= '9' || 'a' <= c <= 'f'
    ensures Neutral("RUN-" + suffix)
  {
    var text := "RUN-" + suffix;
    forall i | 0 <= i < |text| ensures Normalise(text)[i] !in {'p', 't', 'w'} {
      assert i >= 4 ==> text[i] == suffix[i - 4] && text[i] in suffix;
    }
    NeutralWithoutLetters(text);
  }
}
