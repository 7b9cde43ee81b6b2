/** Output guardrail: open-endedness classifier, the two interceptors, and check_output. */
module Interceptors {
  import opened Text
  import opened Sentences

  // ----- words and tokens -----

  /** Case folding over the Latin-1 letters. */
  function Fold(c: char): char {
    if 'A' <= c <= 'Z' || ('\U{C0}' <= c <= '\U{DE}' && c != '\U{D7}') then ((c as int) + 32) as char else c
  }

  function FoldAll(s: string): (r: string)
    ensures |r| == |s|
  {
    seq(|s|, i requires 0 <= i < |s| => Fold(s[i]))
  }

  /** Maximal runs of word characters, folded. */
  function Words(s: string): seq<string> {
    Runs(WordKind, "", FoldAll(s))
  }

  /** str.split(), folded. */
  function Tokens(s: string): seq<string> {
    Runs(TokenKind, "", FoldAll(s))
  }

  lemma FoldKeepsClass(c: char)
    ensures IsWord(Fold(c)) == IsWord(c) && IsSpace(Fold(c)) == IsSpace(c)
  {
  }

  lemma FoldAppend(a: string, b: string)
    ensures FoldAll(a + b) == FoldAll(a) + FoldAll(b)
  {
  }

  // ----- classifier -----

  const STEMS := {
    "que", "qu\U{E9}", "cual", "cu\U{E1}l", "cuales", "cu\U{E1}les", "como", "c\U{F3}mo", "donde", "d\U{F3}nde",
    "cuando", "cu\U{E1}ndo", "quien", "qui\U{E9}n", "quienes", "qui\U{E9}nes", "cuanto", "cu\U{E1}nto",
    "what", "why", "how", "which", "where", "when", "who"
  }

  /** A wh-stem delimited by word boundaries occurs; "por que" and "para que" contain "que". */
  predicate HasStem(words: seq<string>) {
    exists i | 0 <= i < |words| :: words[i] in STEMS
  }

  const CLOSED_WORDS := {
    "si", "s\U{ED}", "no", "verdad", "cierto", "ok", "okay", "entendiste", "entendi", "entendieron", "right"
  }

  predicate IsClosedPhrase(words: seq<string>) {
    || (|words| == 1 && words[0] in CLOSED_WORDS)
    || words == ["esta", "claro"] || words == ["est\U{E1}", "claro"] || words == ["tiene", "sentido"]
    || words == ["de", "acuerdo"] || words == ["got", "it"] || words == ["make", "sense"]
    || words == ["does", "that", "make", "sense"] || words == ["do", "you", "understand"] || words == ["you", "see"]
  }

  predicate IsMark(c: char) {
    c in "\U{BF}?\U{A1}!.,;:"
  }

  function TrimMarksRight(s: string): (r: string)
    ensures r <= s && forall i | |r| <= i < |s| :: IsMark(s[i])
  {
    if s != "" && IsMark(s[|s| - 1]) then TrimMarksRight(s[..|s| - 1]) else s
  }

  function TrimMarksLeft(s: string): (r: string)
    ensures |r| <= |s| && r == s[|s| - |r|..] && forall i | 0 <= i < |s| - |r| :: IsMark(s[i])
  {
    if s != "" && IsMark(s[0]) then TrimMarksLeft(s[1..]) else s
  }

  function Core(sentence: string): string {
    Strip(TrimMarksLeft(TrimMarksRight(Strip(sentence))))
  }

  /** The whole core is one of the closed forms, its words separated by space only. */
  predicate IsClosedForm(core: string) {
    (forall i | 0 <= i < |core| :: IsWord(core[i]) || IsSpace(core[i])) && IsClosedPhrase(Words(core))
  }

  function Score(sentence: string): real {
    if '?' !in sentence then 0.0
    else if IsClosedForm(Core(sentence)) then 0.1
    else if HasStem(Words(sentence)) then 0.7
    else 0.3
  }

  const OPEN_ENDED_THRESHOLD := 0.5

  predicate IsOpen(sentence: string) {
    Score(sentence) >= OPEN_ENDED_THRESHOLD
  }

  predicate Any<T>(p: T -> bool, s: seq<T>) {
    exists i | 0 <= i < |s| :: p(s[i])
  }

  predicate HasOpen(text: string) {
    Any(IsOpen, SplitSentences(text))
  }

  lemma AnyAt<T>(p: T -> bool, s: seq<T>, i: nat)
    requires i < |s| && p(s[i])
    ensures Any(p, s)
  {
  }

  lemma AnyAppend<T>(p: T -> bool, a: seq<T>, b: seq<T>)
    ensures Any(p, a + b) <==> Any(p, a) || Any(p, b)
  {
    if i :| 0 <= i < |a| && p(a[i]) { assert p((a + b)[i]); }
    if i :| 0 <= i < |b| && p(b[i]) { assert p((a + b)[|a| + i]); }
  }

  lemma ClosedWordIsNoStem(w: string)
    requires w in CLOSED_WORDS
    ensures w !in STEMS
  {
  }

  lemma ClosedPhraseHasNoStem(words: seq<string>)
    requires IsClosedPhrase(words)
    ensures !HasStem(words)
  {
    if i :| 0 <= i < |words| && words[i] in STEMS {
      ClosedWordIsNoStem(words[i]);
    }
  }

  lemma WordsOfCut(s: string, i: nat, j: nat)
    requires i <= j <= |s|
    requires forall k | 0 <= k < i || j <= k < |s| :: !IsWord(s[k])
    ensures Words(s[i..j]) == Words(s)
  {
    var pre, mid, post := s[..i], s[i..j], s[j..];
    assert s == pre + mid + post;
    FoldAppend(pre + mid, post);
    FoldAppend(pre, mid);
    RunsTrim(WordKind, FoldAll(pre), FoldAll(mid), FoldAll(post));
  }

  lemma SpaceHasNoWord(w: string)
    requires AllSpace(w)
    ensures forall i | 0 <= i < |w| :: !IsWord(w[i])
  {
  }

  lemma WordsOfStrip(s: string)
    ensures Words(Strip(s)) == Words(s)
  {
    hide RStrip, LStrip, Words, IsSpace, IsWord;
    var r := RStrip(s);
    var i := |r| - |LStrip(r)|;
    SpaceHasNoWord(r[..i]);
    SpaceHasNoWord(s[|r|..]);
    assert forall k | 0 <= k < i :: s[k] == r[..i][k];
    assert forall k | |r| <= k < |s| :: s[k] == s[|r|..][k - |r|];
    assert s[i..|r|] == LStrip(r);
    WordsOfCut(s, i, |r|);
  }

  lemma MarkIsNoWord(c: char)
    requires IsMark(c)
    ensures !IsWord(c)
  {
  }

  lemma WordsOfMarks(s: string)
    ensures Words(TrimMarksLeft(TrimMarksRight(s))) == Words(s)
  {
    hide Words, IsWord, IsMark, TrimMarksRight, TrimMarksLeft;
    var r := TrimMarksRight(s);
    var i := |r| - |TrimMarksLeft(r)|;
    assert s[i..|r|] == TrimMarksLeft(r);
    forall k | 0 <= k < i || |r| <= k < |s| ensures !IsWord(s[k]) { MarkIsNoWord(s[k]); }
    WordsOfCut(s, i, |r|);
  }

  lemma WordsOfCore(s: string)
    ensures Words(Core(s)) == Words(s)
  {
    WordsOfStrip(s);
    WordsOfMarks(Strip(s));
    WordsOfStrip(TrimMarksLeft(TrimMarksRight(Strip(s))));
  }

  /** The closed forms never hide a stem: a sentence is open exactly when it asks and has one. */
  lemma OpenIff(sentence: string)
    ensures IsOpen(sentence) <==> '?' in sentence && HasStem(Words(sentence))
  {
    WordsOfCore(sentence);
    if IsClosedForm(Core(sentence)) { ClosedPhraseHasNoStem(Words(sentence)); }
  }

  // ----- interceptors -----

  datatype Interceptor = RhetoricalQuestion | DirectAnswer

  datatype Outcome = Outcome(modified: bool, text: string)

  const DEFAULT_INTERCEPTORS := [RhetoricalQuestion, DirectAnswer]

  const ASSERTIVE_PREFIX_MIN_WORDS := 8

  function Append(reply: string, question: string): string {
    RStrip(reply) + "\n\n" + question
  }

  function FirstIndex(s: string, c: char): (k: nat)
    requires c in s
    ensures k < |s| && s[k] == c && c !in s[..k]
  {
    if s[0] == c then 0 else 1 + FirstIndex(s[1..], c)
  }

  /** A long assertion whose only questions are closed ones. */
  predicate IsRhetorical(reply: string) {
    && '?' in reply
    && SplitSentences(reply) != []
    && !HasOpen(reply)
    && |Tokens(reply[..FirstIndex(reply, '?')])| >= ASSERTIVE_PREFIX_MIN_WORDS
  }

  /** The reply opens with one of the direct-answer phrases. */
  predicate StartsDirect(reply: string) {
    StartsDirectTokens(Tokens(reply))
  }

  predicate StartsDirectTokens(t: seq<string>) {
    && |t| >= 3
    && (|| (t[0] == "la" && t[1] in {"respuesta", "soluci\U{F3}n", "solucion"} && "es" <= t[2])
        || (t[0] == "el" && t[1] == "resultado" && "es" <= t[2])
        || (t[0] == "the" && t[1] in {"answer", "result"} && "is" <= t[2]))
  }

  function Process(i: Interceptor, reply: string, question: string): Outcome {
    match i
    case RhetoricalQuestion =>
      if IsRhetorical(reply) then Outcome(true, Append(reply, question)) else Outcome(false, reply)
    case DirectAnswer =>
      if reply == "" then Outcome(true, question)
      else if HasOpen(reply) && !StartsDirect(reply) then Outcome(false, reply)
      else Outcome(true, Append(reply, question))
  }

  /** The interceptors in order, the direct-answer one skipped when the plan relaxes the guardrail. */
  function Intercepted(chain: seq<Interceptor>, forbid: bool, raw: string, question: string): Outcome {
    if chain == [] then Outcome(false, raw)
    else
      var before := Intercepted(chain[..|chain| - 1], forbid, raw, question);
      var i := chain[|chain| - 1];
      if i == DirectAnswer && !forbid then before
      else
        var after := Process(i, before.text, question);
        Outcome(before.modified || after.modified, after.text)
  }

  method CheckOutput(raw: string, chain: seq<Interceptor>, forbid: bool, question: string)
    returns (modified: bool, text: string)
    ensures Outcome(modified, text) == Intercepted(chain, forbid, raw, question)
  {
    text, modified := raw, false;
    for k := 0 to |chain|
      invariant Outcome(modified, text) == Intercepted(chain[..k], forbid, raw, question)
    {
      assert chain[..k + 1][..k] == chain[..k];
      if chain[k] == DirectAnswer && !forbid { continue; }
      var o := Process(chain[k], text, question);
      text := o.text;
      if o.modified { modified := true; }
    }
    assert chain[..|chain|] == chain;
  }

  // ----- guarantees -----

  /** Leading space does not change the sentences. */
  lemma SplitSkip(w: string, s: string)
    requires AllSpace(w)
    ensures SplitSentences(w + s) == SplitSentences(s)
  {
    SplitIsScan(w + s); SplitIsScan(s);
    ScanSkip(w, s);
  }

  lemma WordsOfJoin(a: string, w: string, b: string)
    requires w != "" && AllSpace(w)
    ensures Words(a + w + b) == Words(a) + Words(b)
  {
    FoldAppend(a + w, b);
    FoldAppend(a, w);
    forall i | 0 <= i < |w| ensures !IsWord(FoldAll(w)[i]) { FoldKeepsClass(w[i]); }
    RunsJoin(WordKind, FoldAll(a), FoldAll(w), FoldAll(b));
  }

  lemma OpenGrows(pre: string, w: string, s: string)
    requires AllSpace(w) && w != "" && IsOpen(s)
    ensures IsOpen(pre + w + s)
  {
    hide IsOpen, Words;
    OpenIff(s); OpenIff(pre + w + s);
    WordsOfJoin(pre, w, s);
    var words, i :| words == Words(s) && 0 <= i < |words| && words[i] in STEMS;
    assert (Words(pre) + words)[|Words(pre)| + i] in STEMS;
  }

  /** A joined sentence is open exactly when it asks and has a stem on either side. */
  lemma JoinOpenIff(a: string, w: string, b: string)
    requires AllSpace(w) && w != ""
    ensures IsOpen(a + w + b) <==> ('?' in a || '?' in b) && (HasStem(Words(a)) || HasStem(Words(b)))
  {
    hide IsOpen, Words, HasStem;
    OpenIff(a + w + b);
    WordsOfJoin(a, w, b);
    StemAppend(Words(a), Words(b));
    MarkOfJoin(a, w, b);
  }

  lemma StemAppend(a: seq<string>, b: seq<string>)
    ensures HasStem(a + b) <==> HasStem(a) || HasStem(b)
  {
    if i :| 0 <= i < |a| && a[i] in STEMS { assert (a + b)[i] in STEMS; }
    if i :| 0 <= i < |b| && b[i] in STEMS { assert (a + b)[|a| + i] in STEMS; }
  }

  lemma MarkOfJoin(a: string, w: string, b: string)
    requires AllSpace(w)
    ensures '?' in a + w + b <==> '?' in a || '?' in b
  {
  }

  /** The last sentence of `a` and the first of `b` become one, `w` between them. */
  function Glue(a: seq<string>, w: string, b: seq<string>): seq<string>
    requires a != [] && b != []
  {
    Init(a) + [Last(a) + w + b[0]] + b[1..]
  }

  lemma GlueIsOpen(a: seq<string>, w: string, b: seq<string>)
    requires a != [] && b != [] && w != "" && AllSpace(w) && Any(IsOpen, b)
    ensures Any(IsOpen, Glue(a, w, b))
  {
    var m := Last(a) + w + b[0];
    if IsOpen(b[0]) { OpenGrows(Last(a), w, b[0]); }
    AnyHead(IsOpen, b);
    AnyMiddle(IsOpen, Init(a), m, b[1..]);
  }

  lemma AnyHead<T>(p: T -> bool, b: seq<T>)
    requires b != []
    ensures Any(p, b) <==> p(b[0]) || Any(p, b[1..])
  {
    assert [b[0]] + b[1..] == b;
    AnyAppend(p, [b[0]], b[1..]);
    if p(b[0]) { AnyAt(p, b, 0); }
  }

  lemma AnyMiddle<T>(p: T -> bool, a: seq<T>, m: T, b: seq<T>)
    ensures Any(p, a + [m] + b) <==> Any(p, a) || p(m) || Any(p, b)
  {
    AnyAppend(p, a + [m], b);
    AnyAppend(p, a, [m]);
    if p(m) { AnyAt(p, [m], 0); }
  }

  /** The space between the reply and the first solid character of the appended question. */
  function Gap(question: string): (w: string)
    ensures w != "" && AllSpace(w)
  {
    "\n\n" + question[..|question| - |LStrip(question)|]
  }

  lemma CutLeft(s: string)
    ensures |LStrip(s)| <= |s| && s == s[..|s| - |LStrip(s)|] + LStrip(s)
  {
  }

  lemma AppendParts(reply: string, question: string)
    ensures Append(reply, question) == RStrip(reply) + ("\n\n" + question)
    ensures Append(reply, question) == RStrip(reply) + Gap(question) + LStrip(question)
  {
    var lead := question[..|question| - |LStrip(question)|];
    CutLeft(question);
    Assoc(RStrip(reply), "\n\n", question);
    Assoc("\n\n", lead, LStrip(question));
    Assoc(RStrip(reply), "\n\n" + lead, LStrip(question));
  }

  lemma SplitOfLStrip(s: string)
    ensures SplitSentences(LStrip(s)) == SplitSentences(s)
  {
    CutLeft(s);
    SplitSkip(s[..|s| - |LStrip(s)|], LStrip(s));
  }

  lemma SplitAtGap(a: string, w: string, b: string)
    requires (a == "" || EndsSentence(a)) && w != "" && AllSpace(w)
    ensures SplitSentences(a + (w + b)) == SplitSentences(a) + SplitSentences(b)
  {
    SplitAtBreak(a, w + b);
    SplitSkip(w, b);
  }

  /** After a finished sentence the appended question keeps its own sentences. */
  lemma AppendAfterSentence(reply: string, question: string)
    requires RStrip(reply) == "" || EndsSentence(RStrip(reply))
    ensures SplitSentences(Append(reply, question)) == SplitSentences(RStrip(reply)) + SplitSentences(question)
  {
    hide SplitSentences;
    Assoc(RStrip(reply), "\n\n", question);
    SplitAtGap(RStrip(reply), "\n\n", question);
  }

  /** After an unfinished one its first sentence is glued to the last of the reply. */
  lemma AppendInsideSentence(reply: string, question: string)
    requires RStrip(reply) != "" && !EndsSentence(RStrip(reply)) && LStrip(question) != ""
    ensures SplitSentences(RStrip(reply)) != [] && SplitSentences(question) != []
    ensures SplitSentences(Append(reply, question))
         == Glue(SplitSentences(RStrip(reply)), Gap(question), SplitSentences(question))
  {
    AppendParts(reply, question);
    SplitOfLStrip(question);
    SplitMerge(RStrip(reply), Gap(question), LStrip(question));
  }

  lemma SplitOfRStrip(s: string)
    ensures SplitSentences(RStrip(s)) == SplitSentences(s)
  {
    var r := RStrip(s);
    assert s == r + s[|r|..];
    SplitIsScan(s); SplitIsScan(r);
    ScanTrail("", r, s[|r|..]);
  }

  lemma OpenIsNotBlank(text: string)
    requires HasOpen(text)
    ensures LStrip(text) != ""
  {
    SplitOfLStrip(text);
    StripEnds("");
  }

  /** Appending a planned question that has an open sentence leaves one in the text. */
  lemma AppendIsOpen(reply: string, question: string)
    requires HasOpen(question)
    ensures HasOpen(Append(reply, question))
  {
    if RStrip(reply) == "" || EndsSentence(RStrip(reply)) {
      AppendAfterSentence(reply, question);
      AnyAppend(IsOpen, SplitSentences(RStrip(reply)), SplitSentences(question));
    } else {
      OpenIsNotBlank(question);
      AppendInsideSentence(reply, question);
      GlueIsOpen(SplitSentences(RStrip(reply)), Gap(question), SplitSentences(question));
    }
  }

  /** The reply breaks off inside a sentence, and that sentence with the first one of the question is open. */
  predicate GluedOpen(reply: string, question: string) {
    var (a, b) := (SplitSentences(RStrip(reply)), SplitSentences(question));
    && RStrip(reply) != "" && !EndsSentence(RStrip(reply)) && a != [] && b != []
    && IsOpen(Last(a) + Gap(question) + b[0])
  }

  lemma BlankHasNoSentence(text: string)
    ensures LStrip(text) == "" <==> SplitSentences(text) == []
  {
    hide SplitAtBreaks, RStrip;
    SplitOfLStrip(text);
    if LStrip(text) != "" {
      StripEnds(text);
      BlankIff(text);
      SplitKeepsSolid(text);
      SolidOfSolid(text);
    } else {
      StripEnds("");
    }
  }

  lemma BlankIff(text: string)
    ensures LStrip(text) == "" <==> AllSpace(text)
  {
    CutLeft(text);
    if LStrip(text) != "" { assert !IsSpace(text[|text| - |LStrip(text)|]); }
  }

  lemma SolidOfSolid(text: string)
    requires !AllSpace(text)
    ensures Solid(text) != ""
  {
    var i :| 0 <= i < |text| && !IsSpace(text[i]);
    assert text == text[..i] + text[i..];
    SolidAppend(text[..i], text[i..]);
  }

  /** For any reply and any question: the appended text asks openly exactly when the reply or the question does, or the
      sentence they form together. */
  lemma AppendOpenIff(reply: string, question: string)
    ensures HasOpen(Append(reply, question)) <==> HasOpen(reply) || HasOpen(question) || GluedOpen(reply, question)
  {
    hide IsOpen, SplitSentences, Append;
    SplitOfRStrip(reply);
    BlankHasNoSentence(question);
    if RStrip(reply) == "" || EndsSentence(RStrip(reply)) {
      AppendAfterSentence(reply, question);
      AnyAppend(IsOpen, SplitSentences(RStrip(reply)), SplitSentences(question));
    } else if LStrip(question) == "" {
      AppendBlank(reply, question);
    } else {
      AppendInsideSentence(reply, question);
      GlueOpenIff(SplitSentences(RStrip(reply)), Gap(question), SplitSentences(question));
    }
  }

  lemma AppendBlank(reply: string, question: string)
    requires LStrip(question) == ""
    ensures RStrip(Append(reply, question)) == RStrip(reply)
    ensures SplitSentences(Append(reply, question)) == SplitSentences(RStrip(reply))
  {
    hide RStrip, LStrip, SplitSentences, IsSpace;
    BlankIff(question);
    AppendParts(reply, question);
    AllSpaceAppend("\n\n", question);
    RStripEnds(reply);
    RStripUnique(RStrip(reply), "\n\n" + question);
    SplitOfRStrip(Append(reply, question));
  }

  lemma AllSpaceAppend(a: string, b: string)
    ensures AllSpace(a + b) <==> AllSpace(a) && AllSpace(b)
    ensures AllSpace("\n\n")
  {
    if AllSpace(a + b) {
      forall i | 0 <= i < |a| ensures IsSpace(a[i]) { assert IsSpace((a + b)[i]); }
      forall i | 0 <= i < |b| ensures IsSpace(b[i]) { assert IsSpace((a + b)[|a| + i]); }
    }
  }

  lemma RStripEnds(s: string)
    ensures RStrip(s) == "" || EndsSolid(RStrip(s))
    ensures RStrip(s) == "" <==> AllSpace(s)
  {
  }

  lemma GlueOpenIff(a: seq<string>, w: string, b: seq<string>)
    requires a != [] && b != [] && w != "" && AllSpace(w)
    ensures Any(IsOpen, Glue(a, w, b)) <==> Any(IsOpen, a) || Any(IsOpen, b) || IsOpen(Last(a) + w + b[0])
  {
    hide IsOpen, Words, HasStem;
    assert Init(a) + [Last(a)] == a;
    AnyMiddle(IsOpen, Init(a), Last(a), []);
    assert Init(a) + [Last(a)] + [] == a;
    AnyHead(IsOpen, b);
    AnyMiddle(IsOpen, Init(a), Last(a) + w + b[0], b[1..]);
    JoinOpenIff(Last(a), w, b[0]);
    OpenIff(Last(a)); OpenIff(b[0]);
  }

  // ----- direct-answer prefixes survive an append -----

  lemma TokensOfAppend(reply: string, question: string)
    ensures Tokens(Append(reply, question)) == Tokens(reply) + Tokens(question)
  {
    TokensOfJoin(RStrip(reply), "\n\n", question);
    TokensOfRStrip(reply);
  }

  lemma TokensOfRStrip(s: string)
    ensures Tokens(RStrip(s)) == Tokens(s)
  {
    var r := RStrip(s);
    var trail := s[|r|..];
    assert s == r + trail + "";
    if trail == "" {
      assert s == r;
    } else {
      TokensOfJoin(r, trail, "");
      assert Tokens("") == [];
    }
  }

  lemma TokensOfJoin(a: string, w: string, b: string)
    requires w != "" && AllSpace(w)
    ensures Tokens(a + w + b) == Tokens(a) + Tokens(b)
  {
    FoldAppend(a + w, b);
    FoldAppend(a, w);
    forall i | 0 <= i < |w| ensures !Keeps(TokenKind, FoldAll(w)[i]) { FoldKeepsClass(w[i]); }
    RunsJoin(TokenKind, FoldAll(a), FoldAll(w), FoldAll(b));
  }

  lemma {:induction false} RunsGrow(kind: Kind, cur: string, a: string, b: string)
    ensures |Runs(kind, cur, a + b)| >= |Runs(kind, cur, a)|
    decreases |a|
  {
    if a == "" {
      assert a + b == b;
      OpenRunStays(kind, cur, b);
    } else {
      assert (a + b)[1..] == a[1..] + b;
      if Keeps(kind, a[0]) { RunsGrow(kind, cur + [a[0]], a[1..], b); } else { RunsGrow(kind, "", a[1..], b); }
    }
  }

  lemma {:induction false} OpenRunStays(kind: Kind, cur: string, b: string)
    ensures |Runs(kind, cur, b)| >= |Open(cur)|
    decreases |b|
  {
    if b != "" && Keeps(kind, b[0]) { OpenRunStays(kind, cur + [b[0]], b[1..]); }
  }

  lemma TokensOfPrefix(s: string, k: nat)
    requires k <= |s|
    ensures |Tokens(s)| >= |Tokens(s[..k])|
  {
    assert s == s[..k] + s[k..];
    FoldAppend(s[..k], s[k..]);
    RunsGrow(TokenKind, "", FoldAll(s[..k]), FoldAll(s[k..]));
  }

  lemma RhetoricalHasTokens(reply: string)
    requires IsRhetorical(reply)
    ensures |Tokens(reply)| >= ASSERTIVE_PREFIX_MIN_WORDS
  {
    TokensOfPrefix(reply, FirstIndex(reply, '?'));
  }

  /** What the rhetorical interceptor appends cannot create or remove a direct-answer prefix. */
  lemma AppendKeepsPrefix(reply: string, question: string)
    requires |Tokens(reply)| >= 3
    ensures StartsDirect(Append(reply, question)) <==> StartsDirect(reply)
  {
    TokensOfAppend(reply, question);
    var t, u := Tokens(reply), Tokens(reply) + Tokens(question);
    assert u[0] == t[0] && u[1] == t[1] && u[2] == t[2];
  }

  // ----- main results -----

  function Checked(forbid: bool, raw: string, question: string): Outcome {
    Intercepted(DEFAULT_INTERCEPTORS, forbid, raw, question)
  }

  lemma CheckedUnfolds(forbid: bool, raw: string, question: string)
    ensures Checked(forbid, raw, question) ==
            var first := Process(RhetoricalQuestion, raw, question);
            if !forbid then first
            else var second := Process(DirectAnswer, first.text, question);
                 Outcome(first.modified || second.modified, second.text)
  {
    assert DEFAULT_INTERCEPTORS[..1] == [RhetoricalQuestion];
    assert [RhetoricalQuestion][..0] == [];
    assert Intercepted([RhetoricalQuestion], forbid, raw, question) == Process(RhetoricalQuestion, raw, question);
  }

  /** The text starts with the right-stripped reply and ends with the planned question. */
  predicate Wraps(text: string, reply: string, question: string) {
    RStrip(reply) <= text && |question| <= |text| && text[|text| - |question|..] == question
  }

  lemma AppendWraps(reply: string, question: string)
    requires LStrip(question) != ""
    ensures Wraps(Append(reply, question), reply, question)
    ensures Wraps(Append(Append(reply, question), question), reply, question)
  {
    hide LStrip, RStrip;
    AppendEnd(reply, question);
    EndsWith(RStrip(reply), "\n\n", question);
    AppendsWrap(RStrip(reply), RStrip(question), question);
  }

  lemma EndsWith(a: string, w: string, b: string)
    ensures a <= a + w + b && |b| <= |a + w + b| && (a + w + b)[|a + w + b| - |b|..] == b
  {
  }

  lemma AppendsWrap(r: string, core: string, question: string)
    ensures var text := (r + "\n\n" + core) + "\n\n" + question;
            r <= text && |question| <= |text| && text[|text| - |question|..] == question
  {
    var once := r + "\n\n" + core;
    EndsWith(once, "\n\n", question);
    assert r <= once;
  }

  /** With the guardrail on and an open planned question, what reaches the student asks openly. */
  lemma GuardrailOutput(raw: string, question: string)
    requires HasOpen(question)
    ensures HasOpen(Checked(true, raw, question).text)
    ensures !Checked(true, raw, question).modified ==> Checked(true, raw, question).text == raw
    ensures Checked(true, raw, question).modified ==> Wraps(Checked(true, raw, question).text, raw, question)
  {
    hide HasOpen;
    AsksOpenlyIff(true, raw, question);
    OpenIsNotBlank(question);
    CheckedWraps(true, raw, question);
  }

  /** How many interceptors appended the planned question. */
  function Appends(forbid: bool, raw: string, question: string): nat {
    var first := Process(RhetoricalQuestion, raw, question);
    (if first.modified then 1 else 0) +
    (if forbid && Process(DirectAnswer, first.text, question).modified then 1 else 0)
  }

  lemma AppendsCountsChecked(forbid: bool, raw: string, question: string)
    ensures Checked(forbid, raw, question).modified <==> Appends(forbid, raw, question) > 0
  {
    CheckedUnfolds(forbid, raw, question);
  }

  /** For any reply and any question: both interceptors append exactly to a rhetorical reply that opens with a direct
      answer, or that even with the question asks nothing open. */
  lemma AppendedTwiceIff(raw: string, question: string)
    ensures Appends(true, raw, question) == 2 <==>
            IsRhetorical(raw) && (StartsDirect(raw) || !(HasOpen(question) || GluedOpen(raw, question)))
  {
    hide HasOpen, StartsDirect, GluedOpen, RStrip, Tokens;
    AppendOpenIff(raw, question);
    if IsRhetorical(raw) {
      RhetoricalIsClosed(raw);
      RhetoricalHasTokens(raw);
      AppendKeepsPrefix(raw, question);
    }
  }

  lemma RhetoricalIsClosed(raw: string)
    requires IsRhetorical(raw)
    ensures !HasOpen(raw)
  {
  }

  // ----- what the guarded output asks -----

  /** Where a once appended text ends, if the question is not blank. */
  lemma AppendEnd(raw: string, question: string)
    requires LStrip(question) != ""
    ensures RStrip(Append(raw, question)) == RStrip(raw) + "\n\n" + RStrip(question)
    ensures RStrip(question) != ""
    ensures RStrip(Append(raw, question)) != ""
    ensures EndsSentence(RStrip(Append(raw, question))) <==> EndsSentence(RStrip(question))
  {
    BlankIff(question);
    RStripAppend(RStrip(raw) + "\n\n", question);
    RStripEnds(question);
    var r := RStrip(raw) + "\n\n" + RStrip(question);
    assert r[|r| - 1] == RStrip(question)[|RStrip(question)| - 1];
  }

  /** The sentence a once appended text ends with: the question's own last one, or, when the reply breaks off and the
      question is a single sentence, the two together. */
  lemma AppendLast(raw: string, question: string)
    requires LStrip(question) != ""
    ensures SplitSentences(question) != [] && SplitSentences(Append(raw, question)) != []
    ensures var (a, b) := (SplitSentences(RStrip(raw)), SplitSentences(question));
            Last(SplitSentences(Append(raw, question))) ==
            if RStrip(raw) != "" && !EndsSentence(RStrip(raw)) && a != [] && |b| == 1
            then Last(a) + Gap(question) + b[0] else Last(b)
  {
    hide SplitSentences, RStrip;
    BlankHasNoSentence(question);
    var b := SplitSentences(question);
    if RStrip(raw) == "" || EndsSentence(RStrip(raw)) {
      AppendAfterSentence(raw, question);
      assert Last(SplitSentences(RStrip(raw)) + b) == Last(b);
    } else {
      AppendInsideSentence(raw, question);
    }
  }

  /** Appending a second time opens nothing that was not open before, unless the question is open with itself. */
  lemma GluedTwiceIff(raw: string, question: string)
    ensures HasOpen(question) || GluedOpen(raw, question) || GluedOpen(Append(raw, question), question)
       <==> HasOpen(question) || GluedOpen(raw, question) || GluedOpen(question, question)
  {
    hide GluedOpen, SplitSentences, RStrip, LStrip, IsOpen, HasOpen, Append, Gap, EndsSentence;
    BlankHasNoSentence(question);
    GluedIs(raw, question); GluedIs(question, question); GluedIs(Append(raw, question), question);
    if LStrip(question) != "" {
      AppendEnd(raw, question);
      AppendLast(raw, question);
      SplitOfRStrip(raw);
      var (a, b) := (SplitSentences(raw), SplitSentences(question));
      if RStrip(raw) != "" && !EndsSentence(RStrip(raw)) && a != [] && |b| == 1 {
        ThreeJoined(Last(a), Gap(question), b[0]);
        OneSentenceOpen(question);
      }
    }
  }

  lemma GluedIs(reply: string, question: string)
    ensures var (a, b) := (SplitSentences(reply), SplitSentences(question));
            GluedOpen(reply, question) <==>
            RStrip(reply) != "" && !EndsSentence(RStrip(reply)) && a != [] && b != [] && IsOpen(Last(a) + Gap(question) + b[0])
  {
    hide SplitSentences, IsOpen, RStrip;
    SplitOfRStrip(reply);
  }

  lemma OneSentenceOpen(question: string)
    requires |SplitSentences(question)| == 1
    ensures HasOpen(question) <==> IsOpen(SplitSentences(question)[0])
  {
    hide SplitSentences, IsOpen;
  }

  lemma ThreeJoined(a: string, w: string, b: string)
    requires AllSpace(w) && w != ""
    ensures IsOpen(a + w + b + w + b) ==> IsOpen(a + w + b)
    ensures IsOpen(b + w + b) ==> IsOpen(b)
  {
    hide IsOpen, Words, HasStem;
    JoinOpenIff(a + w + b, w, b);
    JoinOpenIff(a, w, b);
    JoinOpenIff(b, w, b);
    OpenIff(b);
    WordsOfJoin(a, w, b);
    StemAppend(Words(a), Words(b));
    MarkOfJoin(a, w, b);
  }

  /** For any reply, planned question and guardrail, when the student reads an open question: the reply has one; or, the
      question being appended, it has one or they form one where the reply breaks off; or, appended twice, it forms one
      with itself. */
  lemma AsksOpenlyIff(forbid: bool, raw: string, question: string)
    ensures HasOpen(Checked(forbid, raw, question).text) <==>
            || HasOpen(raw)
            || (Appends(forbid, raw, question) >= 1 && (HasOpen(question) || GluedOpen(raw, question)))
            || (Appends(forbid, raw, question) == 2 && GluedOpen(question, question))
    ensures forbid && Appends(forbid, raw, question) == 0 ==> HasOpen(raw)
  {
    hide HasOpen, StartsDirect, GluedOpen, IsRhetorical, Append;
    CheckedUnfolds(forbid, raw, question);
    AppendOpenIff(raw, question);
    AppendOpenIff(Append(raw, question), question);
    GluedTwiceIff(raw, question);
    AppendIsNotEmpty(raw, question);
    EmptyAsksNothing(question);
  }

  /** A question that is not blank is appended whole, behind the right-stripped reply. */
  lemma CheckedWraps(forbid: bool, raw: string, question: string)
    requires LStrip(question) != ""
    ensures var o := Checked(forbid, raw, question);
            if o.modified then Wraps(o.text, raw, question) else o.text == raw
  {
    hide HasOpen, StartsDirect, IsRhetorical, Append, Wraps, LStrip;
    CheckedUnfolds(forbid, raw, question);
    AppendWraps(raw, question);
    AppendIsNotEmpty(raw, question);
    EmptyAsksNothing(question);
    WrapsItself(question);
  }

  lemma WrapsItself(question: string)
    ensures Wraps(question, "", question)
  {
  }

  lemma AppendIsNotEmpty(raw: string, question: string)
    ensures Append(raw, question) != ""
  {
  }

  lemma EmptyAsksNothing(question: string)
    ensures !HasOpen("") && !GluedOpen("", question) && !IsRhetorical("")
  {
    BlankHasNoSentence("");
  }

  /** An open text asks with a stem, so neither an interceptor nor a planned question without one makes a reply ask. */
  lemma OpenNeedsStem(text: string)
    requires HasOpen(text)
    ensures HasStem(Words(text)) && '?' in text
  {
    hide IsOpen, Words, HasStem, SplitSentences, Scan;
    SplitIsScan(text);
    var i :| 0 <= i < |SplitSentences(text)| && IsOpen(SplitSentences(text)[i]);
    OpenIff(SplitSentences(text)[i]);
    ScanStem("", text, i);
    ScanMark("", text, i);
    assert "" + text == text;
  }

  lemma {:induction false} ScanStem(cur: string, s: string, i: nat)
    requires i < |Scan(cur, s)| && HasStem(Words(Scan(cur, s)[i]))
    ensures HasStem(Words(cur + s))
    decreases |s|
  {
    hide HasStem, Words, IsSpace;
    if s == "" {
      assert cur + s == cur;
      WordsOfRStrip(cur);
    } else if IsSpace(s[0]) && (cur == "" || EndsSentence(cur)) {
      assert s == [s[0]] + s[1..] && cur + s == cur + [s[0]] + s[1..];
      WordsOfJoin(cur, [s[0]], s[1..]);
      StemAppend(Words(cur), Words(s[1..]));
      assert "" + s[1..] == s[1..];
      if i >= |Open(cur)| { ScanStem("", s[1..], i - |Open(cur)|); }
    } else {
      assert cur + s == (cur + [s[0]]) + s[1..];
      ScanStem(cur + [s[0]], s[1..], i);
    }
  }

  predicate Asks(s: string) {
    '?' in s
  }

  lemma AsksAppend(a: string, b: string)
    ensures Asks(a + b) <==> Asks(a) || Asks(b)
  {
  }

  lemma AsksRStrip(s: string)
    requires Asks(RStrip(s))
    ensures Asks(s)
  {
    assert s == RStrip(s) + s[|RStrip(s)|..];
  }

  lemma {:induction false} ScanMark(cur: string, s: string, i: nat)
    requires i < |Scan(cur, s)| && Asks(Scan(cur, s)[i])
    ensures Asks(cur + s)
    decreases |s|
  {
    hide IsSpace, Asks, RStrip;
    AsksAppend(cur, s);
    if s == "" {
      AsksRStrip(cur);
    } else if IsSpace(s[0]) && (cur == "" || EndsSentence(cur)) {
      if i >= |Open(cur)| {
        ScanMark("", s[1..], i - |Open(cur)|);
        AsksAppend([s[0]], s[1..]);
        assert "" + s[1..] == s[1..] && s == [s[0]] + s[1..];
      }
    } else {
      ScanMark(cur + [s[0]], s[1..], i);
      assert cur + s == (cur + [s[0]]) + s[1..];
    }
  }

  lemma WordsOfRStrip(s: string)
    ensures Words(RStrip(s)) == Words(s)
  {
    hide Words, IsSpace, IsWord;
    var r := RStrip(s);
    SpaceHasNoWord(s[|r|..]);
    assert forall k | |r| <= k < |s| :: s[k] == s[|r|..][k - |r|];
    assert s[0..|r|] == r;
    WordsOfCut(s, 0, |r|);
  }

  /** Without an interrogative word in the reply or the question, the guarded output asks nothing open. */
  lemma NoStemAsksNothing(raw: string, question: string)
    requires !HasStem(Words(raw)) && !HasStem(Words(question))
    ensures !HasOpen(Checked(true, raw, question).text)
  {
    hide HasStem, Words, HasOpen, Append, StartsDirect, IsRhetorical;
    CheckedUnfolds(true, raw, question);
    WordsOfAppend(raw, question);
    StemAppend(Words(raw), Words(question));
    WordsOfAppend(Append(raw, question), question);
    StemAppend(Words(raw) + Words(question), Words(question));
    if HasOpen(Checked(true, raw, question).text) { OpenNeedsStem(Checked(true, raw, question).text); }
  }

  /** And then a rhetorical reply gets the question twice. */
  lemma NoStemAppendsTwice(raw: string, question: string)
    requires !HasStem(Words(raw)) && !HasStem(Words(question))
    ensures IsRhetorical(raw) ==> Appends(true, raw, question) == 2
  {
    hide HasStem, Words, HasOpen, IsRhetorical, StartsDirect, Append, GluedOpen, Appends;
    AppendedTwiceIff(raw, question);
    AppendOpenIff(raw, question);
    WordsOfAppend(raw, question);
    StemAppend(Words(raw), Words(question));
    if HasOpen(Append(raw, question)) { OpenNeedsStem(Append(raw, question)); }
  }

  lemma WordsOfAppend(raw: string, question: string)
    ensures Words(Append(raw, question)) == Words(raw) + Words(question)
  {
    hide Words;
    WordsOfRStrip(raw);
    WordsOfJoin(RStrip(raw), "\n\n", question);
  }

  // ----- the correction chunk on the wire -----

  /** final_text[len(raw):] */
  function SentCorrection(raw: string, text: string): string {
    if |raw| <= |text| then text[|raw|..] else ""
  }

  lemma SentCorrectionIff(r: string, trail: string, tail: string)
    ensures (r + trail) + SentCorrection(r + trail, r + tail) == r + tail <==> trail <= tail
  {
    var raw, text := r + trail, r + tail;
    if trail <= tail {
      assert text[|raw|..] == tail[|trail|..];
    } else {
      var wire := raw + SentCorrection(raw, text);
      assert wire[|r|..] == trail + SentCorrection(raw, text);
      assert text[|r|..] == tail;
      assert trail <= wire[|r|..];
    }
  }

  /** The corrected text, however often the question was appended: the reply, the gap, then nothing or a solid character. */
  lemma AppendTail(raw: string, question: string, twice: bool) returns (rest: string)
    ensures var text := if twice then Append(Append(raw, question), question) else Append(raw, question);
            text == RStrip(raw) + (Gap(question) + rest) && (rest == "" || StartsSolid(rest))
  {
    hide RStrip, IsSpace;
    AppendParts(raw, question);
    LStripStarts(question);
    rest := LStrip(question);
    Assoc(RStrip(raw), Gap(question), rest);
    if twice && LStrip(question) == "" {
      AppendBlank(raw, question);
    } else if twice {
      rest := RStrip(LStrip(question)) + "\n\n" + question;
      TwiceTail(raw, question);
    }
  }

  lemma TwiceTail(raw: string, question: string)
    requires LStrip(question) != ""
    ensures var rest := RStrip(LStrip(question)) + "\n\n" + question;
            Append(Append(raw, question), question) == RStrip(raw) + (Gap(question) + rest) && StartsSolid(rest)
  {
    hide RStrip, LStrip, IsSpace;
    var lead := question[..|question| - |LStrip(question)|];
    var core := RStrip(LStrip(question));
    AppendEnd(raw, question);
    CutLeft(question);
    LStripStarts(question);
    RStripStarts(LStrip(question));
    RStripEnds(LStrip(question));
    RStripAppend(lead, LStrip(question));
    Regroup(RStrip(raw), lead, core, question);
    assert (core + "\n\n" + question)[0] == core[0];
  }

  lemma Regroup(r: string, lead: string, core: string, question: string)
    ensures r + "\n\n" + (lead + core) + "\n\n" + question
         == r + (("\n\n" + lead) + (core + "\n\n" + question))
  {
  }

  lemma LStripStarts(s: string)
    ensures LStrip(s) == "" || StartsSolid(LStrip(s))
  {
  }

  lemma RStripStarts(s: string)
    requires StartsSolid(s)
    ensures StartsSolid(RStrip(s))
  {
    RStripEnds(s);
  }

  /** A run of space opens "gap, then solid text" exactly when it opens the gap. */
  lemma SpaceOpensGap(trail: string, gap: string, rest: string)
    requires AllSpace(trail) && (rest == "" || StartsSolid(rest))
    ensures trail <= gap + rest <==> trail <= gap
  {
    if |trail| > |gap| && rest != "" {
      assert (gap + rest)[|gap|] == rest[0] && IsSpace(trail[|gap|]);
    }
    if trail <= gap { assert (gap + rest)[..|trail|] == gap[..|trail|]; }
  }

  /** For any reply, question and guardrail: the client ends up with the checked text exactly when nothing was appended,
      or the trailing space of the reply opens the gap before the question. */
  lemma WireTextIff(forbid: bool, raw: string, question: string)
    ensures var text := Checked(forbid, raw, question).text;
            raw + SentCorrection(raw, text) == text
            <==> Appends(forbid, raw, question) == 0 || raw[|RStrip(raw)|..] <= Gap(question)
  {
    hide RStrip, HasOpen, StartsDirect, IsRhetorical, IsSpace, Append, Gap, SentCorrection;
    CheckedUnfolds(forbid, raw, question);
    EmptyAsksNothing(question);
    AppendIsNotEmpty(raw, question);
    if Appends(forbid, raw, question) == 0 {
      NothingSent(raw, raw);
    } else if raw == "" {
      NothingSent("", question);
    } else {
      AppendedWireIff(raw, question, Appends(forbid, raw, question) == 2);
    }
  }

  lemma NothingSent(raw: string, text: string)
    requires raw <= text
    ensures raw + SentCorrection(raw, text) == text
    ensures raw == "" ==> raw[|RStrip(raw)|..] == ""
  {
  }

  lemma AppendedWireIff(raw: string, question: string, twice: bool)
    ensures var text := if twice then Append(Append(raw, question), question) else Append(raw, question);
            raw + SentCorrection(raw, text) == text <==> raw[|RStrip(raw)|..] <= Gap(question)
  {
    hide RStrip, IsSpace, Append, Gap, SentCorrection;
    var rest := AppendTail(raw, question, twice);
    var trail := raw[|RStrip(raw)|..];
    assert raw == RStrip(raw) + trail;
    SentCorrectionIff(RStrip(raw), trail, Gap(question) + rest);
    SpaceOpensGap(trail, Gap(question), rest);
  }

  /** One trailing blank after a reply that asks nothing is enough to lose the first character of the correction. */
  lemma BlankLosesCharacter(raw: string, question: string)
    requires '?' !in raw && |raw| >= 2 && raw[|raw| - 1] == ' ' && !IsSpace(raw[|raw| - 2])
    ensures var text := Checked(true, raw, question).text; raw + SentCorrection(raw, text) != text
  {
    var r := raw[..|raw| - 1];
    RStripUnique(r, " ");
    assert r + " " == raw && raw[|RStrip(raw)|..] == " ";
    GapStarts(question);
    if HasOpen(raw) { OpenNeedsStem(raw); }
    hide RStrip, HasOpen, StartsDirect, IsRhetorical, IsSpace, Append;
    WireTextIff(true, raw, question);
  }

  lemma GapStarts(question: string)
    ensures !(" " <= Gap(question))
  {
    assert Gap(question)[0] == '\n' && " "[0] == ' ';
  }
}
