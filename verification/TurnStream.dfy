/** One turn's reply on its way to the client: sentinel filter, audio frames, correction (session.py). */
module TurnStream {
  import opened Text
  import opened Sentences
  import opened AudioStream
  import Interceptors

  // ----- sentinel filter -----

  const CLOSURE_SENTINEL := "[[END_REFLECTION]]"

  /** The length of the marker plus 8. */
  const TAIL_SIZE: nat := 26

  const CLOSURE_FAREWELL :=
    "\U{A1}Muy buen trabajo con tu reflexi\U{F3}n de hoy! Terminamos la actividad. \U{A1}Hasta la pr\U{F3}xima!"

  /** The part that leaves the filter before the stream ends. */
  function Head(reply: string): string {
    if |reply| > TAIL_SIZE then reply[..|reply| - TAIL_SIZE] else ""
  }

  function Tail(reply: string): string {
    reply[|Head(reply)|..]
  }

  predicate Captured(reply: string) {
    Contains(Tail(reply), CLOSURE_SENTINEL)
  }

  function Filtered(reply: string): string {
    if Captured(reply) then Head(reply) + RStrip(ReplaceAll(Tail(reply), CLOSURE_SENTINEL, "")) else reply
  }

  /** Some first pieces of the output are this text. */
  ghost predicate Forwards(out: seq<string>, text: string) {
    exists m | 0 <= m <= |out| :: Concat(out[..m]) == text
  }

  lemma ForwardsMore(out: seq<string>, piece: string, text: string)
    requires Forwards(out, text)
    ensures Forwards(out + [piece], text)
  {
    hide Concat;
    var m :| 0 <= m <= |out| && Concat(out[..m]) == text;
    assert (out + [piece])[..m] == out[..m];
  }

  lemma ForwardsAll(out: seq<string>)
    ensures Forwards(out, Concat(out))
  {
    hide Concat;
    assert out[..|out|] == out;
  }

  /** Holds back a bounded tail and no more; whatever the chunking, the output is a function of the whole text. */
  method StripSentinelTail(src: seq<string>) returns (out: seq<string>, captured: bool)
    ensures Concat(out) == Filtered(Concat(src))
    ensures captured == Captured(Concat(src))
    ensures forall k | 0 <= k <= |src| :: Forwards(out, Head(Concat(src[..k])))
    ensures |out| <= |src| + 1
  {
    hide Forwards, Concat, Contains, ReplaceAll, RStrip, Head, Tail;
    var tail := "";
    out := [];
    ConcatOne("");
    NothingYet();
    for k := 0 to |src|
      invariant Concat(out) == Head(Concat(src[..k])) && tail == Tail(Concat(src[..k])) && |out| <= k
      invariant forall j | 0 <= j < k :: Forwards(out, Head(Concat(src[..j])))
    {
      ghost var before := Concat(src[..k]);
      ForwardsAll(out);
      assert src[..k + 1] == src[..k] + [src[k]];
      ConcatAppend(src[..k], [src[k]]);
      ConcatOne(src[k]);
      tail := tail + src[k];
      if |tail| > TAIL_SIZE {
        var head := tail[..|tail| - TAIL_SIZE];
        tail := tail[|tail| - TAIL_SIZE..];
        ConcatAppend(out, [head]);
        ConcatOne(head);
        forall j | 0 <= j <= k ensures Forwards(out + [head], Head(Concat(src[..j]))) {
          ForwardsMore(out, head, Head(Concat(src[..j])));
        }
        out := out + [head];
      }
      TailGrows(before, src[k]);
    }
    assert src[..|src|] == src;
    captured := Contains(tail, CLOSURE_SENTINEL);
    if captured {
      tail := RStrip(ReplaceAll(tail, CLOSURE_SENTINEL, ""));
    }
    ConcatAppend(out, [tail]);
    ConcatOne(tail);
    HeadTail(Concat(src));
    ForwardsAll(out);
    if tail != "" {
      forall j | 0 <= j <= |src| ensures Forwards(out + [tail], Head(Concat(src[..j]))) {
        ForwardsMore(out, tail, Head(Concat(src[..j])));
      }
      out := out + [tail];
    }
  }

  lemma ConcatOne(s: string)
    ensures Concat([s]) == s
  {
    assert s + "" == s;
  }

  lemma NothingYet()
    ensures Concat([]) == "" && Head("") == "" && Tail("") == ""
  {
  }

  lemma TailGrows(before: string, c: string)
    ensures var t := Tail(before) + c;
            if |t| > TAIL_SIZE
            then Head(before + c) == Head(before) + t[..|t| - TAIL_SIZE] && Tail(before + c) == t[|t| - TAIL_SIZE..]
            else Head(before + c) == Head(before) && Tail(before + c) == t
  {
    var h, t := Head(before), Tail(before) + c;
    HeadTail(before);
    Assoc(h, Tail(before), c);
    if |t| > TAIL_SIZE {
      CutRight(h, t, |t| - TAIL_SIZE);
    } else {
      CutRight(h, t, 0);
    }
  }

  lemma HeadTail(reply: string)
    ensures reply == Head(reply) + Tail(reply)
  {
  }

  lemma CutRight(h: string, t: string, k: nat)
    requires k <= |t|
    ensures (h + t)[..|h| + k] == h + t[..k] && (h + t)[|h| + k..] == t[k..]
  {
  }

  lemma OccursInSuffix(reply: string, h: nat, word: string, i: nat)
    requires h <= |reply|
    ensures OccursAt(reply[h..], word, i) <==> OccursAt(reply, word, h + i)
  {
    if h + i + |word| <= |reply| { assert reply[h..][i..i + |word|] == reply[h + i..h + i + |word|]; }
  }

  lemma ContainsInSuffix(reply: string, h: nat, word: string)
    requires h <= |reply|
    ensures Contains(reply[h..], word) <==> exists i: nat | h <= i <= |reply| :: OccursAt(reply, word, i)
  {
    hide OccursAt;
    forall i: nat | h <= i <= |reply| ensures OccursAt(reply[h..], word, i - h) <==> OccursAt(reply, word, i) {
      OccursInSuffix(reply, h, word, i - h);
    }
    if j: nat :| j <= |reply[h..]| && OccursAt(reply[h..], word, j) { OccursInSuffix(reply, h, word, j); }
    if i: nat :| h <= i <= |reply| && OccursAt(reply, word, i) { assert OccursAt(reply[h..], word, i - h); }
  }

  /** The flag is raised exactly when some marker is followed by at most 8 more characters. */
  lemma CapturedIff(reply: string)
    ensures Captured(reply) <==> exists i: nat | i <= |reply| ::
              OccursAt(reply, CLOSURE_SENTINEL, i) && |reply| - (i + |CLOSURE_SENTINEL|) <= 8
  {
    hide Contains;
    MarkerShape();
    ContainsInSuffix(reply, |Head(reply)|, CLOSURE_SENTINEL);
  }

  lemma {:induction false} ReplaceNothing(s: string, word: string)
    requires word != "" && |s| < |word|
    ensures ReplaceAll(s, word, "") == s
    decreases |s|
  {
    if s != "" { ReplaceNothing(s[1..], word); }
  }

  lemma ContainsLater(s: string, word: string)
    requires word != "" && Contains(s, word) && !OccursAt(s, word, 0)
    ensures s != "" && Contains(s[1..], word)
  {
    var j: nat :| j <= |s| && OccursAt(s, word, j);
    assert s[1..][j - 1..j - 1 + |word|] == s[j..j + |word|];
    assert OccursAt(s[1..], word, j - 1);
  }

  /** In a text shorter than two markers, replacement cuts out exactly one occurrence. */
  lemma {:induction false} ReplaceOnce(s: string, word: string) returns (p: nat)
    requires word != "" && |s| < 2 * |word| && Contains(s, word)
    ensures OccursAt(s, word, p)
    ensures ReplaceAll(s, word, "") == s[..p] + s[p + |word|..]
    decreases |s|
  {
    hide Contains;
    if OccursAt(s, word, 0) {
      p := 0;
      ReplaceNothing(s[|word|..], word);
    } else {
      ContainsLater(s, word);
      var q := ReplaceOnce(s[1..], word);
      p := q + 1;
      assert s[p..p + |word|] == s[1..][q..q + |word|];
      assert s[..p] == [s[0]] + s[1..][..q];
    }
  }

  /** When the flag is raised, one marker is cut out and the rest of the tail right-stripped. */
  lemma FilteredCutsOneMarker(reply: string) returns (p: nat)
    requires Captured(reply)
    ensures |Head(reply)| <= p && OccursAt(reply, CLOSURE_SENTINEL, p)
    ensures Filtered(reply)
         == Head(reply) + RStrip(reply[|Head(reply)|..p] + reply[p + |CLOSURE_SENTINEL|..])
  {
    hide Contains, RStrip, ReplaceAll;
    var t, h := Tail(reply), |Head(reply)|;
    var q := ReplaceOnce(t, CLOSURE_SENTINEL);
    p := h + q;
    assert reply[p..p + |CLOSURE_SENTINEL|] == t[q..q + |CLOSURE_SENTINEL|];
    assert t[..q] == reply[h..p] && t[q + |CLOSURE_SENTINEL|..] == reply[p + |CLOSURE_SENTINEL|..];
  }

  lemma MarkerShape()
    ensures |CLOSURE_SENTINEL| == 18 == TAIL_SIZE - 8
    ensures CLOSURE_SENTINEL[17] == ']' && CLOSURE_SENTINEL[16] == ']' && CLOSURE_SENTINEL[15] != ']'
    ensures forall e | 0 <= e < 16 :: CLOSURE_SENTINEL[e] != ']'
  {
  }

  /** A marker that closes the text, up to trailing space, is the only one. */
  lemma OnlyMarker(body: string, w: string, i: nat)
    requires AllSpace(w) && !Contains(body, CLOSURE_SENTINEL)
    requires OccursAt(body + CLOSURE_SENTINEL + w, CLOSURE_SENTINEL, i)
    ensures i == |body|
  {
    hide Contains;
    MarkerShape();
    var reply := body + CLOSURE_SENTINEL + w;
    assert reply[i..i + 18][17] == reply[i + 17] && reply[i..i + 18][16] == reply[i + 16];
    if i + 18 <= |body| {
      assert body[i..i + 18] == reply[i..i + 18];
      NotContained(body, i);
    }
  }

  lemma NotContained(body: string, i: nat)
    requires !Contains(body, CLOSURE_SENTINEL)
    ensures !OccursAt(body, CLOSURE_SENTINEL, i)
  {
  }

  lemma PrefixLacksMarker(p: string, body: string)
    requires p <= body && !Contains(body, CLOSURE_SENTINEL)
    ensures !Contains(p, CLOSURE_SENTINEL)
  {
    if i: nat :| i <= |p| && OccursAt(p, CLOSURE_SENTINEL, i) {
      assert body[i..i + |CLOSURE_SENTINEL|] == p[i..i + |CLOSURE_SENTINEL|];
      assert OccursAt(body, CLOSURE_SENTINEL, i);
    }
  }

  /** A closing marker stays hidden from the client exactly when at most 8 blanks follow it. */
  lemma MarkerReachesClientIff(body: string, w: string)
    requires AllSpace(w) && !Contains(body, CLOSURE_SENTINEL)
    ensures Contains(Filtered(body + CLOSURE_SENTINEL + w), CLOSURE_SENTINEL) <==> |w| > 8
  {
    hide Contains, RStrip, ReplaceAll, OccursAt;
    var reply := body + CLOSURE_SENTINEL + w;
    MarkerHere(body, w);
    CapturedIff(reply);
    MarkerShape();
    if |w| > 8 {
      forall i: nat | i <= |reply| && OccursAt(reply, CLOSURE_SENTINEL, i) ensures i == |body| {
        OnlyMarker(body, w, i);
      }
      assert !Captured(reply);
    } else {
      assert Captured(reply);
      var p := FilteredCutsOneMarker(reply);
      OnlyMarker(body, w, p);
      var h := |Head(reply)|;
      var kept := reply[h..p] + reply[p + |CLOSURE_SENTINEL|..];
      assert kept == body[h..] + w && Head(reply) == body[..h];
      RStripDropsSpace(body[h..], w);
      PrefixLacksMarker(Filtered(reply), body);
    }
  }

  lemma MarkerHere(body: string, w: string)
    ensures OccursAt(body + CLOSURE_SENTINEL + w, CLOSURE_SENTINEL, |body|)
    ensures Contains(body + CLOSURE_SENTINEL + w, CLOSURE_SENTINEL)
  {
  }

  lemma RStripDropsSpace(x: string, w: string)
    requires AllSpace(w)
    ensures RStrip(x + w) <= x
  {
    var r := RStrip(x);
    assert x + w == r + (x[|r|..] + w);
    RStripUnique(r, x[|r|..] + w);
  }

  // ----- audio frames of a connection -----

  predicate OneVoice(frames: seq<Event>, voice: Voice)
    requires IsAudio(frames)
  {
    forall i | 0 <= i < |frames| :: frames[i].voice == voice
  }

  lemma {:induction false} AudioPrefix(events: seq<Event>, n: nat)
    requires n <= |events|
    ensures Audio(events[..n]) <= Audio(events) && Texts(events[..n]) <= Texts(events)
    ensures |Audio(events[..n])| + |Texts(events[..n])| == n
    decreases |events|
  {
    if n == |events| {
      assert events[..n] == events;
      if n > 0 { AudioPrefix(Init(events), n - 1); assert Init(events)[..n - 1] == Init(events); }
    } else {
      AudioPrefix(Init(events), n);
      assert Init(events)[..n] == events[..n];
    }
  }

  /** The number of the last frame sent, -1 before any. */
  function LastSeq(frames: seq<Event>): (r: int)
    ensures r >= -1
  {
    if frames == [] || Last(frames).TextChunk? then -1 else Last(frames).seqNo
  }

  /** The number of the frame after these: 0 or one more than the last. */
  function NextNumber(frames: seq<Event>): (n: nat)
    ensures frames == [] ==> n == 0
    ensures frames != [] && Last(frames).AudioSentence? ==> n == Last(frames).seqNo + 1
  {
    LastSeq(frames) + 1
  }

  lemma VoiceAppend(frames: seq<Event>, event: Event, voice: Voice)
    requires IsAudio(frames) && OneVoice(frames, voice) && event.AudioSentence? && event.voice == voice
    ensures IsAudio(frames + [event]) && OneVoice(frames + [event], voice)
  {
  }

  /** What the session does with a finished reply: nothing, or append the planned question. */
  datatype Plan = NoPlan | Plan(forbidDirectAnswer: bool, question: string)

  function Correction(plan: Plan, raw: string): string {
    if plan.NoPlan? then ""
    else Interceptors.SentCorrection(raw, Interceptors.Checked(plan.forbidDirectAnswer, raw, plan.question).text)
  }

  /** An interceptor modifies the reply. */
  predicate Corrects(plan: Plan, raw: string) {
    plan.Plan? && Interceptors.Appends(plan.forbidDirectAnswer, raw, plan.question) > 0
  }

  /** The closing marker as the session notices it: anywhere in a buffered reply, in the held-back tail of a streamed
      one. */
  predicate MarkerNoticed(closureEligible: bool, reply: string) {
    if closureEligible then Contains(reply, CLOSURE_SENTINEL) else Captured(reply)
  }

  /** What is streamed out and then shown to the interceptors. */
  function RawText(closureEligible: bool, reply: string): string {
    if closureEligible then reply else Filtered(reply)
  }

  /** All text frames of a completed turn, concatenated. */
  function WireText(closureEligible: bool, plan: Plan, reply: string): string {
    var raw := RawText(closureEligible, reply);
    if !MarkerNoticed(closureEligible, reply) then raw + Correction(plan, raw)
    else if closureEligible then CLOSURE_FAREWELL
    else raw
  }

  /** For every reply, plan and kind of turn, what the student reads: with a noticed marker the farewell or the filtered
      reply; else, with a planned question, what the interceptors returned, exactly when they appended nothing or the
      reply's trailing space opens the gap, and otherwise that text with the reply's own end in place of its start. */
  lemma ShownTextIff(closureEligible: bool, plan: Plan, reply: string)
    ensures var shown := WireText(closureEligible, plan, reply);
            var raw := RawText(closureEligible, reply);
            if MarkerNoticed(closureEligible, reply) then shown == if closureEligible then CLOSURE_FAREWELL else raw
            else if plan.NoPlan? then shown == raw
            else
              var checked := Interceptors.Checked(plan.forbidDirectAnswer, raw, plan.question).text;
              && (shown == checked <==>
                    || Interceptors.Appends(plan.forbidDirectAnswer, raw, plan.question) == 0
                    || raw[|RStrip(raw)|..] <= Interceptors.Gap(plan.question))
              && shown == raw + (if |raw| <= |checked| then checked[|raw|..] else "")
              && (Corrects(plan, raw) <==> Interceptors.Checked(plan.forbidDirectAnswer, raw, plan.question).modified)
  {
    hide Contains, Captured, Filtered, Interceptors.Checked, Interceptors.Appends, Interceptors.Gap, RStrip;
    var raw := RawText(closureEligible, reply);
    if plan.Plan? {
      Interceptors.WireTextIff(plan.forbidDirectAnswer, raw, plan.question);
      Interceptors.AppendsCountsChecked(plan.forbidDirectAnswer, raw, plan.question);
    }
    assert raw + "" == raw;
  }

  class AudioSession {
    var voice: Option<Voice>
    /** Every audio frame sent on this connection, oldest first. */
    var frames: seq<Event>

    /** The voice of the connection is fixed by its first audio frame. */
    ghost predicate Valid()
      reads this
    {
      IsAudio(frames) && (frames == [] || (voice.Some? && OneVoice(frames, voice.value)))
    }

    constructor ()
      ensures Valid() && frames == [] && voice == None
    {
      voice, frames := None, [];
    }

    /** Forward the events. The turn stops early when it is cancelled or the client is gone: after `stopAfter` events, and
        then either before the next one comes or, `atSend`, at sending it, when its voice is already locked. */
    method Consume(events: seq<Event>, stopAfter: nat, atSend: bool, ghost spoken: Voice)
      returns (texts: seq<string>, lastSeq: int, complete: bool)
      requires Valid() && IsAudio(Audio(events)) && OneVoice(Audio(events), spoken)
      requires voice.Some? ==> voice.value == spoken
      modifies this
      ensures Valid()
      ensures complete <==> |events| <= stopAfter
      ensures var n := if complete then |events| else stopAfter;
              var seen := if complete || !atSend then n else n + 1;
              && frames == old(frames) + Audio(events[..n]) && texts == Texts(events[..n])
              && voice == (if Audio(events[..seen]) == [] then old(voice) else Some(spoken))
              && lastSeq == LastSeq(Audio(events[..seen]))
    {
      hide Audio, Texts;
      texts, lastSeq := [], -1;
      NoEvents();
      for k := 0 to |events|
        invariant Valid() && k <= stopAfter
        invariant frames == old(frames) + Audio(events[..k]) && texts == Texts(events[..k])
        invariant voice == if Audio(events[..k]) == [] then old(voice) else Some(spoken)
        invariant lastSeq == LastSeq(Audio(events[..k]))
      {
        hide IsAudio, OneVoice;
        if k == stopAfter && !atSend { return texts, lastSeq, false; }
        var event := events[k];
        assert events[..k + 1] == events[..k] + [event];
        EventAppend(events[..k], event);
        match event {
          case TextChunk(chunk) =>
            if k == stopAfter { return texts, lastSeq, false; }
            texts := texts + [chunk];
          case AudioSentence(seqNo, _, v) =>
            FrameVoice(events, k, spoken);
            if voice == None { voice := Some(v); }
            lastSeq := seqNo;
            LockKeeps(frames, voice, spoken);
            if k == stopAfter { return texts, lastSeq, false; }
            VoiceAppend(frames, event, spoken);
            frames := frames + [event];
        }
      }
      complete := true;
      assert events[..|events|] == events;
    }

    /** Send one more sentence after the streamed ones: the farewell or the correction. */
    method SayExtra(text: string, lastSeq: int, voiceOf: string -> Voice, synthesized: bool) returns (sent: seq<Event>)
      requires Valid() && lastSeq >= -1
      modifies this
      ensures Valid() && frames == old(frames) + sent
      ensures voice == if old(voice).None? then Some(voiceOf(text)) else old(voice)
      ensures sent == if synthesized then [AudioSentence(lastSeq + 1, text, voice.value)] else []
    {
      if voice == None { voice := Some(voiceOf(text)); }
      sent := [];
      if synthesized {
        sent := [AudioSentence(lastSeq + 1, text, voice.value)];
        frames := frames + sent;
      }
    }

    /** Speak and forward one source; `stopAfter` events reach the client. `spoken` is the audio of the whole source, for
        its sentences `given`. */
    method StreamOut(source: seq<string>, voiceOf: string -> Voice, speaks: nat -> bool, stopAfter: nat, atSend: bool)
      returns (texts: seq<string>, sent: seq<Event>, lastSeq: int, complete: bool,
               ghost given: seq<string>, ghost spoken: seq<Event>)
      requires Valid()
      modifies this
      ensures Valid() && frames == old(frames) + sent
      ensures Heard(spoken, given, old(voice), voiceOf, speaks)
      ensures Refines(given, SplitSentences(Concat(source)))
      ensures given == SplitSentences(Concat(source)) <==> !SplitsInside(source)
      ensures texts <= source && sent <= spoken && IsAudio(sent) && Rising(sent)
      ensures complete <==> |source| + |spoken| <= stopAfter
      ensures if complete then texts == source && sent == spoken else |texts| + |sent| == stopAfter
      ensures lastSeq >= -1 && (complete ==> lastSeq == LastSeq(sent))
      ensures old(voice).Some? ==> voice == old(voice)
      ensures complete && old(voice).None? ==> voice == if spoken == [] then None else Some(spoken[0].voice)
    {
      hide Audio, Texts, Rising, Heard, Prompt, Refines, SplitsInside, SplitSentences;
      var events, sentences := Wrap(source, voice, voiceOf, speaks);
      given, spoken := sentences, Audio(events);
      ghost var spokenIn := if voice.Some? then voice.value else if given == [] then "" else voiceOf(given[0]);
      HeardShape(spoken, given, voice, voiceOf, speaks, spokenIn);
      texts, lastSeq, complete := Consume(events, stopAfter, atSend, spokenIn);
      var n := if complete then |events| else stopAfter;
      sent := Audio(events[..n]);
      AudioPrefix(events, n);
      AudioPrefix(events, |events|);
      RisingPrefix(sent, Audio(events));
      assert events[..|events|] == events;
    }

    /** Run the interceptors on the finished reply, send what they append and speak it. */
    method Correct(raw: string, plan: Plan, lastSeq: int, voiceOf: string -> Voice, speaksExtra: bool)
      returns (appended: seq<string>, extra: seq<Event>)
      requires Valid() && lastSeq >= -1
      modifies this
      ensures Valid() && frames == old(frames) + extra
      ensures appended == if Corrects(plan, raw) then [Correction(plan, raw)] else []
      ensures Concat(appended) == Correction(plan, raw)
      ensures voice == if Corrects(plan, raw) && old(voice).None? then Some(voiceOf(Correction(plan, raw))) else old(voice)
      ensures if Corrects(plan, raw) && speaksExtra
              then voice.Some? && extra == [AudioSentence(lastSeq + 1, Correction(plan, raw), voice.value)]
              else extra == []
    {
      hide Concat, Interceptors.Checked, Interceptors.Intercepted, Interceptors.Appends;
      appended, extra := [], [];
      NothingYet();
      if plan.Plan? {
        var modified, text := Interceptors.CheckOutput(raw, Interceptors.DEFAULT_INTERCEPTORS,
                                                       plan.forbidDirectAnswer, plan.question);
        CheckedIs(plan.forbidDirectAnswer, raw, plan.question);
        if modified {
          var correction := Interceptors.SentCorrection(raw, text);
          appended := [correction];
          ConcatOne(correction);
          extra := SayExtra(correction, lastSeq, voiceOf, speaksExtra);
        }
      }
    }

    /** A turn from reply stream to wire; `stopAfter` events reach the client when it is cut short, at a send or not. */
    method ProcessReply(chunks: seq<string>, closureEligible: bool, plan: Plan, voiceOf: string -> Voice,
                        speaks: nat -> bool, speaksExtra: bool, stopAfter: nat, atSend: bool)
      returns (wire: seq<string>, sent: seq<Event>, complete: bool, sentinel: bool,
               ghost given: seq<string>, ghost spoken: seq<Event>)
      requires Valid()
      modifies this
      ensures Valid() && frames == old(frames) + sent
      ensures old(voice).Some? ==> voice == old(voice)
      ensures IsAudio(sent) && Rising(sent)
      ensures sentinel <==> MarkerNoticed(closureEligible, Concat(chunks))
      ensures complete ==> Concat(wire) == WireText(closureEligible, plan, Concat(chunks))
      ensures closureEligible && sentinel ==>
                && complete && voice == (if old(voice).None? then Some(voiceOf(CLOSURE_FAREWELL)) else old(voice))
                && sent == if speaksExtra then [AudioSentence(0, CLOSURE_FAREWELL, voice.value)] else []
      ensures !(closureEligible && sentinel) ==>
                var raw := RawText(closureEligible, Concat(chunks));
                && Heard(spoken, given, old(voice), voiceOf, speaks) && Refines(given, SplitSentences(raw))
                && if !complete then sent <= spoken && Concat(wire) <= raw
                   else if !sentinel && Corrects(plan, raw) && speaksExtra
                   then voice.Some? && sent == spoken + [AudioSentence(NextNumber(spoken), Correction(plan, raw), voice.value)]
                   else sent == spoken
      ensures !(closureEligible && sentinel) && complete ==>
                voice == if old(voice).Some? then old(voice)
                         else if spoken != [] then Some(spoken[0].voice)
                         else if !sentinel && Corrects(plan, RawText(closureEligible, Concat(chunks)))
                         then Some(voiceOf(Correction(plan, RawText(closureEligible, Concat(chunks)))))
                         else None
      ensures !(closureEligible && sentinel) && stopAfter >= |chunks| + 1 + |spoken| ==> complete
    {
      hide Contains, Captured, Filtered, Concat, Correction, Rising, Heard, Refines, SplitSentences, SplitsInside, Corrects;
      var source := [Concat(chunks)];
      given, spoken := [], [];
      ConcatOne(Concat(chunks));
      if closureEligible {
        sentinel := Contains(Concat(chunks), CLOSURE_SENTINEL);
        if sentinel {
          sent := SayExtra(CLOSURE_FAREWELL, -1, voiceOf, speaksExtra);
          ConcatOne(CLOSURE_FAREWELL);
          RisingAppend([], sent, -1);
          assert [] + sent == sent;
          return [CLOSURE_FAREWELL], sent, true, sentinel, given, spoken;
        }
      } else {
        source, sentinel := StripSentinelTail(chunks);
      }
      var lastSeq;
      wire, sent, lastSeq, complete, given, spoken := StreamOut(source, voiceOf, speaks, stopAfter, atSend);
      ConcatPrefix(wire, source);
      if complete && !sentinel {
        var appended, extra := Correct(Concat(wire), plan, lastSeq, voiceOf, speaksExtra);
        ConcatAppend(wire, appended);
        RisingAppend(sent, extra, lastSeq);
        wire, sent := wire + appended, sent + extra;
      }
    }
  }

  lemma ConcatPrefix(a: seq<string>, b: seq<string>)
    requires a <= b
    ensures Concat(a) <= Concat(b)
  {
    ConcatAppend(a, b[|a|..]);
    assert a + b[|a|..] == b;
  }

  lemma RisingPrefix(a: seq<Event>, b: seq<Event>)
    requires a <= b && IsAudio(b) && Rising(b)
    ensures IsAudio(a) && Rising(a)
  {
  }

  lemma CheckedIs(forbid: bool, raw: string, question: string)
    ensures Interceptors.Checked(forbid, raw, question)
         == Interceptors.Intercepted(Interceptors.DEFAULT_INTERCEPTORS, forbid, raw, question)
    ensures Interceptors.Checked(forbid, raw, question).modified <==> Interceptors.Appends(forbid, raw, question) > 0
    ensures !Interceptors.Checked(forbid, raw, question).modified
        ==> Interceptors.SentCorrection(raw, Interceptors.Checked(forbid, raw, question).text) == ""
  {
    Interceptors.CheckedUnfolds(forbid, raw, question);
  }

  lemma HeardShape(frames: seq<Event>, given: seq<string>, voice: Option<Voice>, voiceOf: string -> Voice,
                   speaks: nat -> bool, spokenIn: Voice)
    requires Heard(frames, given, voice, voiceOf, speaks)
    requires given != [] ==> spokenIn == if voice.Some? then voice.value else voiceOf(given[0])
    ensures IsAudio(frames) && Rising(frames) && OneVoice(frames, spokenIn)
  {
    if given != [] { assert forall k | 0 <= k < |frames| :: IsFrameOf(frames[k], given, spokenIn); }
  }

  lemma RisingAppend(sent: seq<Event>, extra: seq<Event>, lastSeq: int)
    requires IsAudio(sent) && Rising(sent) && lastSeq == LastSeq(sent)
    requires |extra| <= 1 && IsAudio(extra) && forall i | 0 <= i < |extra| :: extra[i].seqNo == lastSeq + 1
    ensures IsAudio(sent + extra) && Rising(sent + extra)
  {
  }

  lemma FrameVoice(events: seq<Event>, k: nat, voice: Voice)
    requires k < |events| && events[k].AudioSentence?
    requires IsAudio(Audio(events)) && OneVoice(Audio(events), voice)
    ensures events[k].voice == voice
  {
    hide Audio;
    assert events[..k + 1] == events[..k] + [events[k]];
    EventAppend(events[..k], events[k]);
    AudioPrefix(events, k + 1);
    assert Audio(events)[|Audio(events[..k])|] == events[k];
  }

  lemma LockKeeps(frames: seq<Event>, voice: Option<Voice>, spoken: Voice)
    requires IsAudio(frames) && (frames == [] || (voice.Some? && OneVoice(frames, voice.value)))
    requires voice == Some(spoken)
    ensures OneVoice(frames, spoken)
  {
  }

  lemma NoEvents()
    ensures Audio([]) == [] && Texts([]) == []
  {
  }
}
