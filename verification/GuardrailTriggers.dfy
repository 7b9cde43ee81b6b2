/** On which texts the output interceptors act, and what they make of them (rhetorical_question_detector.py,
    direct_answer_detector.py, open_endedness_classifier.py). */
module GuardrailTriggers {
  import opened Text
  import opened Sentences
  import opened Interceptors

  /** The rhetorical interceptor acts on a reply exactly when at least eight words precede its first question mark and it
      asks nothing open; a reply that holds a question mark always has a sentence. */
  lemma RhetoricalIff(a: string, rest: string, question: string)
    requires '?' !in a
    ensures var reply := a + "?" + rest;
            Appends(false, reply, question) == if |Tokens(a)| >= 8 && !HasOpen(reply) then 1 else 0
  {
    hide HasOpen, Tokens, Append, SplitSentences, RStrip, LStrip;
    var reply := a + "?" + rest;
    assert reply[|a|] == '?' && !IsSpace('?') && reply[..|a|] == a;
    FirstMarkIs(a, rest);
    BlankHasNoSentence(reply);
    BlankIff(reply);
  }

  lemma {:induction false} FirstMarkIs(a: string, rest: string)
    requires '?' !in a
    ensures FirstIndex(a + "?" + rest, '?') == |a|
  {
    var reply := a + "?" + rest;
    if a == "" {
      assert reply[0] == '?';
    } else {
      assert reply[0] == a[0] && a[0] in a && reply[1..] == a[1..] + "?" + rest;
      assert forall c | c in a[1..] :: c in a;
      FirstMarkIs(a[1..], rest);
    }
  }

  lemma NoMarkIsNotRhetorical(reply: string, question: string)
    requires '?' !in reply
    ensures Appends(false, reply, question) == 0
  {
  }

  // ----- direct openings -----

  predicate IsToken(s: string) {
    s != "" && forall i | 0 <= i < |s| :: !IsSpace(s[i])
  }

  lemma {:induction false} FirstRun(cur: string, s: string, p: string)
    requires cur != "" || (s != "" && !IsSpace(s[0]))
    requires forall i | 0 <= i < |p| :: !IsSpace(p[i])
    ensures Runs(TokenKind, cur, s) != [] && (p <= Runs(TokenKind, cur, s)[0] <==> p <= cur + s)
    decreases |s|
  {
    hide IsSpace;
    if s == "" {
      assert cur + s == cur;
    } else if !IsSpace(s[0]) {
      FirstRun(cur + [s[0]], s[1..], p);
      assert cur + [s[0]] + s[1..] == cur + s;
    } else {
      PrefixStopsAtSpace(cur, s, p);
    }
  }

  lemma PrefixStopsAtSpace(cur: string, s: string, p: string)
    requires s != "" && IsSpace(s[0]) && forall i | 0 <= i < |p| :: !IsSpace(p[i])
    ensures p <= cur <==> p <= cur + s
  {
    hide IsSpace;
    if |p| > |cur| {
      assert (cur + s)[|cur|] == s[0] && !IsSpace(p[|cur|]);
    } else {
      assert (cur + s)[..|p|] == cur[..|p|];
    }
  }

  lemma {:induction false} OneRun(cur: string, s: string)
    requires cur + s != "" && forall i | 0 <= i < |s| :: !IsSpace(s[i])
    ensures Runs(TokenKind, cur, s) == [cur + s]
    decreases |s|
  {
    hide IsSpace;
    if s == "" {
      assert cur + s == cur;
    } else {
      OneRun(cur + [s[0]], s[1..]);
      assert cur + [s[0]] + s[1..] == cur + s;
    }
  }

  lemma OneToken(s: string)
    requires IsToken(s)
    ensures Tokens(s) == [FoldAll(s)]
  {
    hide IsSpace;
    var f := FoldAll(s);
    forall i | 0 <= i < |f| ensures !IsSpace(f[i]) { FoldKeepsClass(s[i]); }
    OneRun("", f);
    assert "" + f == f;
  }

  lemma FirstToken(s: string, p: string)
    requires s != "" && !IsSpace(s[0]) && forall i | 0 <= i < |p| :: !IsSpace(p[i])
    ensures Tokens(s) != [] && (p <= Tokens(s)[0] <==> p <= FoldAll(s))
  {
    hide IsSpace;
    FoldKeepsClass(s[0]);
    FirstRun("", FoldAll(s), p);
    assert "" + FoldAll(s) == FoldAll(s);
  }

  lemma ThreeTokens(w0: string, a: string, w1: string, b: string, w2: string, c: string)
    requires AllSpace(w0) && IsToken(a) && AllSpace(w1) && w1 != "" && IsToken(b) && AllSpace(w2) && w2 != ""
    requires c != "" && !IsSpace(c[0])
    ensures var t := Tokens(w0 + a + w1 + b + w2 + c);
            && |t| >= 3 && t[0] == FoldAll(a) && t[1] == FoldAll(b)
            && ("es" <= t[2] <==> "es" <= FoldAll(c)) && ("is" <= t[2] <==> "is" <= FoldAll(c))
  {
    hide IsSpace, Tokens, FoldAll;
    TokensOfJoin(w0 + a + w1 + b, w2, c);
    TokensOfJoin(w0 + a, w1, b);
    if w0 == "" {
      assert w0 + a == a;
    } else {
      TokensOfJoin("", w0, a);
      assert "" + w0 + a == w0 + a && Tokens("") == [] by { NoTokens(); }
    }
    OneToken(a);
    OneToken(b);
    NoSpaceInForms();
    FirstToken(c, "es");
    FirstToken(c, "is");
  }

  lemma NoTokens()
    ensures Tokens("") == []
  {
  }

  lemma NoSpaceInForms()
    ensures !IsSpace('e') && !IsSpace('s') && !IsSpace('i')
  {
  }

  /** For a reply that asks openly the question is appended all the same exactly when it opens, up to case and leading space,
      with one of six phrases; what follows "es" or "is" in the same word does not matter. */
  lemma DirectOpeningIff(w0: string, a: string, w1: string, b: string, w2: string, c: string, question: string)
    requires AllSpace(w0) && IsToken(a) && AllSpace(w1) && w1 != "" && IsToken(b) && AllSpace(w2) && w2 != ""
    requires c != "" && !IsSpace(c[0])
    requires HasOpen(w0 + a + w1 + b + w2 + c)
    ensures var (x, y, z) := (FoldAll(a), FoldAll(b), FoldAll(c));
            Appends(true, w0 + a + w1 + b + w2 + c, question) ==
            if || ("es" <= z && x == "la" && (y == "respuesta" || y == "soluci\U{F3}n" || y == "solucion"))
               || ("es" <= z && x == "el" && y == "resultado")
               || ("is" <= z && x == "the" && (y == "answer" || y == "result"))
            then 1 else 0
  {
    hide HasOpen, Tokens, Append, IsSpace, FoldAll;
    ThreeTokens(w0, a, w1, b, w2, c);
    assert w0 + a + w1 + b + w2 + c != "";
  }

  lemma FewWordsAreNoDirectOpening(raw: string, question: string)
    requires HasOpen(raw) && |Tokens(raw)| < 3
    ensures Appends(true, raw, question) == 0
  {
    hide HasOpen, Tokens;
    EmptyAsksNothing(question);
  }

  // ----- what the guardrail returns -----

  /** The text that comes back: an empty reply is replaced by the question under the guardrail and left alone without it;
      any other is kept, or right-stripped and followed by a blank line and the question, once or twice. */
  lemma CheckedTextIs(forbid: bool, raw: string, question: string)
    ensures var text := Checked(forbid, raw, question).text;
            var once := RStrip(raw) + "\n\n" + question;
            var n := Appends(forbid, raw, question);
            && n <= 2 && (n == 2 ==> forbid)
            && text == if n == 0 then raw
                       else if raw == "" then question
                       else if n == 1 then once
                       else RStrip(once) + "\n\n" + question
    ensures Appends(true, "", question) == 1 && Appends(false, "", question) == 0
  {
    hide HasOpen, StartsDirect, RStrip, Tokens;
    CheckedUnfolds(forbid, raw, question);
    EmptyAsksNothing(question);
  }

  // ----- case -----

  /** The cased letters the classifier folds: ASCII and Latin-1. */
  predicate IsUpper(c: char) {
    'A' <= c <= 'Z' || ('\U{C0}' <= c <= '\U{DE}' && c != '\U{D7}')
  }

  predicate SameLetter(a: char, b: char) {
    a == b || (IsUpper(a) && b as int == a as int + 32) || (IsUpper(b) && a as int == b as int + 32)
  }

  predicate SameButCase(a: string, b: string) {
    |a| == |b| && forall i | 0 <= i < |a| :: SameLetter(a[i], b[i])
  }

  /** Upper and lower case ask alike. */
  lemma CaseDoesNotMatter(a: string, b: string)
    requires SameButCase(a, b)
    ensures IsOpen(a) <==> IsOpen(b)
    ensures Tokens(a) == Tokens(b)
  {
    hide IsOpen, HasStem, Runs;
    OpenIff(a);
    OpenIff(b);
    forall i | 0 <= i < |a|
      ensures Fold(a[i]) == Fold(b[i])
      ensures a[i] == '?' <==> b[i] == '?'
    {
      assert SameLetter(a[i], b[i]);
    }
    assert FoldAll(a) == FoldAll(b);
  }
}
