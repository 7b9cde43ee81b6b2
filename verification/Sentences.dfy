/** Sentence splitting (open_endedness_classifier.py) and how it acts on a concatenation. */
module Sentences {
  import opened Text

  /** The separator pattern matches at `k`: a terminator just before, a space right there. */
  predicate IsBreak(t: string, k: nat) {
    1 <= k < |t| && IsTerminator(t[k - 1]) && IsSpace(t[k])
  }

  function NextBreak(t: string, k: nat): (r: nat)
    requires k <= |t|
    ensures k <= r <= |t|
    ensures r < |t| ==> IsBreak(t, r)
    ensures forall i | k <= i < r :: !IsBreak(t, i)
    decreases |t| - k
  {
    if k == |t| || IsBreak(t, k) then k else NextBreak(t, k + 1)
  }

  /** Split at every maximal space run that follows a terminator. */
  function SplitAtBreaks(t: string): seq<string>
    decreases |t|
  {
    var k := NextBreak(t, 0);
    if k == |t| then [t] else [t[..k]] + SplitAtBreaks(LStrip(t[k..]))
  }

  /** Strip every part and drop the empty ones. */
  function NonBlank(parts: seq<string>): seq<string> {
    if parts == [] then [] else Open(Strip(parts[0])) + NonBlank(parts[1..])
  }

  function SplitSentences(text: string): seq<string> {
    if Strip(text) == "" then [] else NonBlank(SplitAtBreaks(Strip(text)))
  }

  /** The same split as one left-to-right scan, `cur` being the sentence already open. */
  function Scan(cur: string, s: string): seq<string>
    decreases |s|
  {
    if s == "" then Open(RStrip(cur))
    else if IsSpace(s[0]) && (cur == "" || EndsSentence(cur)) then Open(cur) + Scan("", s[1..])
    else Scan(cur + [s[0]], s[1..])
  }

  lemma {:induction false} ScanSkip(w: string, s: string)
    requires AllSpace(w)
    ensures Scan("", w + s) == Scan("", s)
    decreases |w|
  {
    if w == "" {
      assert w + s == s;
    } else {
      assert (w + s)[1..] == w[1..] + s;
      ScanSkip(w[1..], s);
    }
  }

  lemma {:induction false} ScanOfSpace(cur: string, w: string)
    requires AllSpace(w)
    ensures Scan(cur, w) == Open(RStrip(cur))
    decreases |w|
  {
    if w != "" {
      if cur == "" || EndsSentence(cur) {
        ScanOfSpace("", w[1..]);
      } else {
        ScanOfSpace(cur + [w[0]], w[1..]);
        assert (cur + [w[0]])[..|cur|] == cur;
      }
    }
  }

  lemma {:induction false} ScanTrail(cur: string, s: string, w: string)
    requires AllSpace(w)
    ensures Scan(cur, s + w) == Scan(cur, s)
    decreases |s|
  {
    if s == "" {
      assert s + w == w;
      ScanOfSpace(cur, w);
    } else {
      assert (s + w)[1..] == s[1..] + w;
      if IsSpace(s[0]) && (cur == "" || EndsSentence(cur)) {
        ScanTrail("", s[1..], w);
      } else {
        ScanTrail(cur + [s[0]], s[1..], w);
      }
    }
  }

  /** Nothing is closed while there is no break. */
  lemma {:induction false} ScanRun(cur: string, a: string, b: string)
    requires cur + a != "" ==> StartsSolid(cur + a)
    requires forall i | |cur| <= i < |cur + a| :: !IsBreak(cur + a, i)
    ensures Scan(cur, a + b) == Scan(cur + a, b)
    decreases |a|
  {
    if a == "" {
      assert a + b == b && cur + a == cur;
    } else {
      assert (a + b)[1..] == a[1..] + b;
      assert (cur + [a[0]]) + a[1..] == cur + a;
      assert !IsBreak(cur + a, |cur|);
      assert cur == "" ==> (cur + a)[0] == a[0];
      ScanRun(cur + [a[0]], a[1..], b);
    }
  }

  lemma ScanToBreak(t: string, k: nat)
    requires StartsSolid(t) && k == NextBreak(t, 0)
    ensures Scan("", t) == Scan(t[..k], t[k..])
  {
    var a := t[..k];
    assert "" + a == a && a + t[k..] == t;
    forall i | 0 <= i < |a| ensures !IsBreak(a, i) { assert !IsBreak(t, i); }
    ScanRun("", a, t[k..]);
  }

  lemma ScanFromBreak(t: string, k: nat)
    requires EndsSolid(t) && IsBreak(t, k)
    ensures StartsSolid(LStrip(t[k..])) && EndsSolid(LStrip(t[k..]))
    ensures Scan(t[..k], t[k..]) == [t[..k]] + Scan("", LStrip(t[k..]))
  {
    hide LStrip, Scan;
    var b := t[k..];
    var rest := LStrip(b);
    assert !AllSpace(b) by { assert b[|b| - 1] == t[|t| - 1]; }
    assert b == b[..|b| - |rest|] + rest;
    assert rest[|rest| - 1] == b[|b| - 1];
    ScanSkip(b[..|b| - |rest|], rest);
    ScanResume(t[..k], b);
  }

  /** For a stripped text the scan is the split. */
  lemma {:induction false} ScanIsSplitAtBreaks(t: string)
    requires StartsSolid(t) && EndsSolid(t)
    ensures Scan("", t) == SplitAtBreaks(t)
    decreases |t|
  {
    var k := NextBreak(t, 0);
    ScanToBreak(t, k);
    if k == |t| {
      assert t[..k] == t && t[k..] == "";
      StripOfStripped(t);
    } else {
      ScanFromBreak(t, k);
      ScanIsSplitAtBreaks(LStrip(t[k..]));
    }
  }

  /** Every part of a scan is already stripped. */
  lemma {:induction false} ScanIsNonBlank(cur: string, s: string)
    requires cur == "" || StartsSolid(cur)
    ensures NonBlank(Scan(cur, s)) == Scan(cur, s)
    decreases |s|
  {
    if s == "" {
      var r := RStrip(cur);
      if r != "" { StripOfStripped(r); }
      NonBlankOpen(r, []);
    } else if IsSpace(s[0]) && (cur == "" || EndsSentence(cur)) {
      ScanIsNonBlank("", s[1..]);
      if cur != "" { StripOfStripped(cur); }
      NonBlankOpen(cur, Scan("", s[1..]));
    } else {
      ScanIsNonBlank(cur + [s[0]], s[1..]);
    }
  }

  lemma NonBlankOpen(r: string, rest: seq<string>)
    requires Strip(r) == r && NonBlank(rest) == rest
    ensures NonBlank(Open(r) + rest) == Open(r) + rest
  {
    assert Open(r) + rest == if r == "" then rest else [r] + rest;
    assert r != "" ==> (Open(r) + rest)[1..] == rest;
  }

  lemma StripOfStripped(t: string)
    requires StartsSolid(t) && EndsSolid(t)
    ensures Strip(t) == t == RStrip(t)
  {
  }

  /** The split, as the source writes it, is one left-to-right scan. */
  lemma SplitIsScan(text: string)
    ensures SplitSentences(text) == Scan("", text)
  {
    hide RStrip, LStrip, Scan, IsSpace, NonBlank, SplitAtBreaks;
    var r := RStrip(text);
    var t := LStrip(r);
    StripEnds(text);
    assert text == r + text[|r|..];
    ScanTrail("", r, text[|r|..]);
    assert r == r[..|r| - |t|] + t;
    ScanSkip(r[..|r| - |t|], t);
    if t != "" { ScanIsSplitAtBreaks(t); ScanIsNonBlank("", t); } else { ScanOfSpace("", t); }
  }

  function Init<T>(s: seq<T>): seq<T>
    requires s != []
  {
    s[..|s| - 1]
  }

  function Last<T>(s: seq<T>): T
    requires s != []
  {
    s[|s| - 1]
  }

  lemma ScanOne(cur: string, a: string, b: string)
    requires |a| == 1 && EndsSolid(a)
    ensures Scan(cur, a) == [cur + a]
    ensures Scan(cur, a + b) == Scan(cur + a, b)
  {
    assert (a + b)[1..] == b && [a[0]] == a;
    assert Scan(cur, a) == Scan(cur + a, "");
  }

  /** Scanning on after `a` resumes from the last sentence of `a`. */
  lemma {:induction false} ScanAppend(cur: string, a: string, b: string)
    requires EndsSolid(a)
    ensures Scan(cur, a) != [] && Last(Scan(cur, a)) != ""
    ensures Last(Last(Scan(cur, a))) == Last(a)
    ensures Scan(cur, a + b) == Init(Scan(cur, a)) + Scan(Last(Scan(cur, a)), b)
    decreases |a|
  {
    hide RStrip, IsSpace, Scan;
    assert (a + b)[0] == a[0] && (a + b)[1..] == a[1..] + b;
    if |a| == 1 {
      ScanOne(cur, a, b);
    } else {
      ScanUnfolds(cur, a);
      ScanUnfolds(cur, a + b);
      if IsSpace(a[0]) && (cur == "" || EndsSentence(cur)) {
        ScanAppend("", a[1..], b);
        var rest := Scan("", a[1..]);
        LastOfOpen(cur, rest);
        Assoc(Open(cur), Init(rest), Scan(Last(rest), b));
      } else {
        ScanAppend(cur + [a[0]], a[1..], b);
      }
    }
  }

  lemma ScanUnfolds(cur: string, s: string)
    requires s != ""
    ensures Scan(cur, s) == if IsSpace(s[0]) && (cur == "" || EndsSentence(cur)) then Open(cur) + Scan("", s[1..])
                            else Scan(cur + [s[0]], s[1..])
  {
  }

  lemma LastOfOpen(cur: string, ss: seq<string>)
    requires ss != []
    ensures Last(Open(cur) + ss) == Last(ss) && Init(Open(cur) + ss) == Open(cur) + Init(ss)
  {
  }

  /** Extra text in front of the open sentence only lengthens the first sentence. */
  lemma {:induction false} ScanPrefix(x: string, y: string, b: string)
    requires StartsSolid(y)
    ensures Scan(y, b) != []
    ensures Scan(x + y, b) == [x + Scan(y, b)[0]] + Scan(y, b)[1..]
    decreases |b|
  {
    assert (x + y)[|x + y| - 1] == y[|y| - 1];
    if b == "" {
      assert !AllSpace(y);
      RStripAppend(x, y);
    } else if !(IsSpace(b[0]) && EndsSentence(y)) {
      ScanPrefix(x, y + [b[0]], b[1..]);
      assert x + (y + [b[0]]) == (x + y) + [b[0]];
    }
  }

  /** A cut at a break splits the sentences of a concatenation in two. */
  lemma SplitAtBreak(a: string, b: string)
    requires a == "" || EndsSentence(a)
    requires a == "" || b == "" || IsSpace(b[0])
    ensures SplitSentences(a + b) == SplitSentences(a) + SplitSentences(b)
  {
    hide SplitSentences, Scan;
    SplitIsScan(a); SplitIsScan(b); SplitIsScan(a + b);
    if a == "" { assert a + b == b; ScanOfSpace("", a); } else { ScanAtBreak(a, b); }
  }

  lemma ScanAtBreak(a: string, b: string)
    requires EndsSentence(a) && (b == "" || IsSpace(b[0]))
    ensures Scan("", a + b) == Scan("", a) + Scan("", b)
  {
    ScanAppend("", a, b);
    var ss := Scan("", a);
    ScanResume(Last(ss), b);
    assert Init(ss) + [Last(ss)] == ss;
  }

  lemma ScanResume(l: string, b: string)
    requires EndsSentence(l) && (b == "" || IsSpace(b[0]))
    ensures Scan(l, b) == [l] + Scan("", b)
  {
  }

  /** Any other cut glues the last sentence of `a` to the first of `b`. */
  lemma SplitMerge(a: string, w: string, b: string)
    requires EndsSolid(a) && AllSpace(w) && StartsSolid(b)
    requires w == "" || !EndsSentence(a)
    ensures SplitSentences(a) != [] && SplitSentences(b) != []
    ensures SplitSentences(a + w + b)
         == Init(SplitSentences(a)) + [Last(SplitSentences(a)) + w + SplitSentences(b)[0]] + SplitSentences(b)[1..]
  {
    hide SplitSentences, Scan;
    SplitIsScan(a); SplitIsScan(b); SplitIsScan(a + w + b);
    ScanMerge(a, w, b);
  }

  lemma ScanMerge(a: string, w: string, b: string)
    requires EndsSolid(a) && AllSpace(w) && StartsSolid(b)
    requires w == "" || !EndsSentence(a)
    ensures Scan("", a) != [] && Scan("", b) != []
    ensures Scan("", a + w + b) == Init(Scan("", a)) + [Last(Scan("", a)) + w + Scan("", b)[0]] + Scan("", b)[1..]
  {
    ScanAppend("", a, w + b);
    var l := Last(Scan("", a));
    assert a + w + b == a + (w + b);
    ScanAcross(l, w, b);
    ScanSolid(l + w, b);
  }

  /** Same as ScanPrefix, the continuation itself starting with a non-space. */
  lemma ScanSolid(x: string, b: string)
    requires StartsSolid(b)
    ensures Scan("", b) != []
    ensures Scan(x, b) == [x + Scan("", b)[0]] + Scan("", b)[1..]
  {
    ScanPrefix(x, [b[0]], b[1..]);
    assert "" + [b[0]] == [b[0]];
  }

  lemma {:induction false} ScanAcross(l: string, w: string, b: string)
    requires l != "" && AllSpace(w) && (w == "" || !EndsSentence(l))
    ensures Scan(l, w + b) == Scan(l + w, b)
    decreases |w|
  {
    if w == "" {
      assert w + b == b && l + w == l;
    } else {
      assert (w + b)[1..] == w[1..] + b;
      assert (l + [w[0]]) + w[1..] == l + w;
      ScanAcross(l + [w[0]], w[1..], b);
    }
  }

  /** Splitting loses nothing but space. */
  lemma SplitKeepsSolid(text: string)
    ensures Solid(Concat(SplitSentences(text))) == Solid(text)
  {
    SplitIsScan(text);
    ScanKeepsSolid("", text);
    assert "" + text == text;
  }

  lemma {:induction false} ScanKeepsSolid(cur: string, s: string)
    ensures Solid(Concat(Scan(cur, s))) == Solid(cur + s)
    decreases |s|
  {
    hide Solid, Concat, RStrip, IsSpace;
    if s == "" {
      var r := RStrip(cur);
      SolidOfRest(r, cur[|r|..]);
      assert cur + s == cur == r + cur[|r|..];
    } else if IsSpace(s[0]) && (cur == "" || EndsSentence(cur)) {
      ScanKeepsSolid("", s[1..]);
      assert "" + s[1..] == s[1..];
      SolidOfSkip(s);
      SolidOfOpen(cur, Scan("", s[1..]), s);
    } else {
      ScanKeepsSolid(cur + [s[0]], s[1..]);
      assert (cur + [s[0]]) + s[1..] == cur + s;
    }
  }

  lemma SolidOfSkip(s: string)
    requires s != "" && IsSpace(s[0])
    ensures Solid(s) == Solid(s[1..])
  {
  }

  lemma SolidOfRest(r: string, w: string)
    requires AllSpace(w)
    ensures Solid(Concat(Open(r))) == Solid(r + w)
  {
    assert Open(r) == if r == "" then [] else [r];
    assert r + "" == r;
    SolidAppend(r, w);
    SolidOfSpace(w);
  }

  lemma SolidOfOpen(cur: string, rest: seq<string>, s: string)
    requires Solid(Concat(rest)) == Solid(s)
    ensures Solid(Concat(Open(cur) + rest)) == Solid(cur + s)
  {
    hide Solid;
    assert Concat(Open(cur)) == cur by { assert cur + "" == cur; }
    ConcatAppend(Open(cur), rest);
    SolidAppend(cur, Concat(rest));
    SolidAppend(cur, s);
  }
}
