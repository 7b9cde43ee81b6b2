/** Option type and the string primitives the text-processing modules share. */
module Text {

  datatype Option<+T> = None | Some(value: T)

  /** The characters removed by strip() and matched by the pattern \s. */
  predicate IsSpace(c: char) {
    || '\t' <= c <= '\r'
    || '\U{1C}' <= c <= ' '
    || c == '\U{85}' || c == '\U{A0}' || c == '\U{1680}'
    || '\U{2000}' <= c <= '\U{200A}'
    || c == '\U{2028}' || c == '\U{2029}' || c == '\U{202F}' || c == '\U{205F}' || c == '\U{3000}'
  }

  /** \w for the Latin alphabets. */
  predicate IsWord(c: char) {
    || '0' <= c <= '9' || 'A' <= c <= 'Z' || c == '_' || 'a' <= c <= 'z'
    || c == '\U{AA}' || c == '\U{B5}' || c == '\U{BA}'
    || '\U{B2}' <= c <= '\U{B3}' || c == '\U{B9}' || '\U{BC}' <= c <= '\U{BE}'
    || ('\U{C0}' <= c <= '\U{24F}' && c != '\U{D7}' && c != '\U{F7}')
  }

  predicate IsTerminator(c: char) {
    c == '?' || c == '!' || c == '.'
  }

  predicate AllSpace(s: string) {
    forall i | 0 <= i < |s| :: IsSpace(s[i])
  }

  predicate EndsSentence(s: string) {
    s != "" && IsTerminator(s[|s| - 1])
  }

  predicate StartsSolid(s: string) {
    s != "" && !IsSpace(s[0])
  }

  predicate EndsSolid(s: string) {
    s != "" && !IsSpace(s[|s| - 1])
  }

  function RStrip(s: string): (r: string)
    ensures r <= s && AllSpace(s[|r|..])
    ensures r == "" || EndsSolid(r)
  {
    if s != "" && IsSpace(s[|s| - 1]) then RStrip(s[..|s| - 1]) else s
  }

  /** How many spaces a string starts with. */
  function Leading(s: string): (k: nat)
    ensures k <= |s| && (forall i | 0 <= i < k :: IsSpace(s[i])) && (k < |s| ==> !IsSpace(s[k]))
  {
    hide IsSpace;
    if s != "" && IsSpace(s[0]) then 1 + Leading(s[1..]) else 0
  }

  function LStrip(s: string): (r: string)
    ensures |r| <= |s| && r == s[|s| - |r|..] && AllSpace(s[..|s| - |r|])
    ensures r == "" || StartsSolid(r)
  {
    hide IsSpace;
    s[Leading(s)..]
  }

  function Strip(s: string): string {
    LStrip(RStrip(s))
  }

  /** A stripped string has no space at either end. */
  lemma StripEnds(s: string)
    ensures Strip(s) == "" || (StartsSolid(Strip(s)) && EndsSolid(Strip(s)))
    ensures Strip(s) == "" <==> AllSpace(s)
  {
    var r := RStrip(s);
    if r != "" {
      var t := LStrip(r);
      assert t[|t| - 1] == r[|r| - 1];
    }
  }

  /** RStrip is the only way to cut trailing space off. */
  lemma {:induction false} RStripUnique(r: string, w: string)
    requires AllSpace(w) && (r == "" || EndsSolid(r))
    ensures RStrip(r + w) == r
    decreases |w|
  {
    if w == "" {
      assert r + w == r;
    } else {
      var n := |w| - 1;
      assert (r + w)[..|r + w| - 1] == r + w[..n];
      RStripUnique(r, w[..n]);
    }
  }

  lemma RStripAppend(x: string, y: string)
    requires !AllSpace(y)
    ensures RStrip(x + y) == x + RStrip(y)
  {
    var r := RStrip(y);
    assert x + y == (x + r) + y[|r|..];
    RStripUnique(x + r, y[|r|..]);
  }

  lemma {:induction false} LStripPrefix(w: string, s: string)
    requires AllSpace(w)
    ensures LStrip(w + s) == LStrip(s)
  {
    if w == "" {
      assert w + s == s;
    } else {
      assert (w + s)[1..] == w[1..] + s;
      LStripPrefix(w[1..], s);
    }
  }

  function Concat(parts: seq<string>): string {
    if parts == [] then "" else parts[0] + Concat(parts[1..])
  }

  lemma Assoc<T>(a: seq<T>, b: seq<T>, c: seq<T>)
    ensures a + b + c == a + (b + c)
  {
  }

  lemma {:induction false} ConcatAppend(a: seq<string>, b: seq<string>)
    ensures Concat(a + b) == Concat(a) + Concat(b)
  {
    if a == [] {
      assert a + b == b;
    } else {
      ConcatAppend(a[1..], b);
      ConcatUnfolds(a);
      ConcatUnfolds(a + b);
      hide Concat;
      assert (a + b)[0] == a[0] && (a + b)[1..] == a[1..] + b;
      Assoc(a[0], Concat(a[1..]), Concat(b));
    }
  }

  lemma ConcatUnfolds(parts: seq<string>)
    requires parts != []
    ensures Concat(parts) == parts[0] + Concat(parts[1..])
  {
  }

  /** The characters of `s` that are not space, in order. */
  function Solid(s: string): string {
    if s == "" then "" else if IsSpace(s[0]) then Solid(s[1..]) else [s[0]] + Solid(s[1..])
  }

  lemma {:induction false} SolidAppend(a: string, b: string)
    ensures Solid(a + b) == Solid(a) + Solid(b)
  {
    if a == "" {
      assert a + b == b;
    } else {
      SolidAppend(a[1..], b);
      SolidUnfolds(a);
      SolidUnfolds(a + b);
      hide Solid, IsSpace;
      assert (a + b)[1..] == a[1..] + b;
      assert (a + b)[0] == a[0];
      if !IsSpace(a[0]) { Assoc([a[0]], Solid(a[1..]), Solid(b)); }
    }
  }

  lemma SolidUnfolds(s: string)
    requires s != ""
    ensures Solid(s) == if IsSpace(s[0]) then Solid(s[1..]) else [s[0]] + Solid(s[1..])
  {
  }

  lemma {:induction false} SolidOfSpace(w: string)
    requires AllSpace(w)
    ensures Solid(w) == ""
  {
    if w != "" { SolidOfSpace(w[1..]); }
  }

  /** `word` occurs in `s` at position `i`. */
  predicate OccursAt(s: string, word: string, i: nat) {
    i + |word| <= |s| && s[i..i + |word|] == word
  }

  predicate Contains(s: string, word: string) {
    exists i: nat | i <= |s| :: OccursAt(s, word, i)
  }

  /** Leftmost, non-overlapping replacement. */
  function ReplaceAll(s: string, word: string, sub: string): string
    requires word != ""
    decreases |s|
  {
    if s == "" then ""
    else if OccursAt(s, word, 0) then sub + ReplaceAll(s[|word|..], word, sub)
    else [s[0]] + ReplaceAll(s[1..], word, sub)
  }

  /** The two kinds of character runs: words (\w) and whitespace-separated tokens. */
  datatype Kind = WordKind | TokenKind

  predicate Keeps(kind: Kind, c: char) {
    match kind
    case WordKind => IsWord(c)
    case TokenKind => !IsSpace(c)
  }

  /** Maximal runs of characters of one kind, `cur` being the run already open. */
  function Runs(kind: Kind, cur: string, s: string): seq<string>
    decreases |s|
  {
    if s == "" then Open(cur)
    else if Keeps(kind, s[0]) then Runs(kind, cur + [s[0]], s[1..])
    else Open(cur) + Runs(kind, "", s[1..])
  }

  function Open(cur: string): seq<string> {
    if cur == "" then [] else [cur]
  }

  /** A separator character splits the runs of a concatenation. */
  lemma {:induction false} RunsSplit(kind: Kind, cur: string, a: string, b: string)
    requires b != "" ==> !Keeps(kind, b[0])
    ensures Runs(kind, cur, a + b) == Runs(kind, cur, a) + Runs(kind, "", b)
    decreases |a|
  {
    if a == "" {
      assert a + b == b;
      if b != "" {
        assert Runs(kind, "", b) == Runs(kind, "", b[1..]);
      }
    } else {
      assert (a + b)[1..] == a[1..] + b;
      if Keeps(kind, a[0]) {
        RunsSplit(kind, cur + [a[0]], a[1..], b);
      } else {
        RunsSplit(kind, "", a[1..], b);
      }
    }
  }

  lemma {:induction false} RunsOfSeparators(kind: Kind, w: string)
    requires forall i | 0 <= i < |w| :: !Keeps(kind, w[i])
    ensures Runs(kind, "", w) == []
    decreases |w|
  {
    if w != "" { RunsOfSeparators(kind, w[1..]); }
  }

  /** Separators around a string do not change its runs. */
  lemma RunsTrim(kind: Kind, pre: string, s: string, post: string)
    requires forall i | 0 <= i < |pre| :: !Keeps(kind, pre[i])
    requires forall i | 0 <= i < |post| :: !Keeps(kind, post[i])
    ensures Runs(kind, "", pre + s + post) == Runs(kind, "", s)
  {
    RunsSplit(kind, "", pre + s, post);
    RunsOfSeparators(kind, post);
    RunsSkip(kind, pre, s);
  }

  lemma {:induction false} RunsSkip(kind: Kind, pre: string, s: string)
    requires forall i | 0 <= i < |pre| :: !Keeps(kind, pre[i])
    ensures Runs(kind, "", pre + s) == Runs(kind, "", s)
    decreases |pre|
  {
    if pre == "" {
      assert pre + s == s;
    } else {
      assert (pre + s)[1..] == pre[1..] + s;
      RunsSkip(kind, pre[1..], s);
    }
  }

  /** Separators between two strings keep their runs apart. */
  lemma RunsJoin(kind: Kind, a: string, w: string, b: string)
    requires w != "" && forall i | 0 <= i < |w| :: !Keeps(kind, w[i])
    ensures Runs(kind, "", a + w + b) == Runs(kind, "", a) + Runs(kind, "", b)
  {
    assert a + w + b == a + (w + b);
    RunsSplit(kind, "", a, w + b);
    RunsSkip(kind, w, b);
  }
}
