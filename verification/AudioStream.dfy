/** Incremental sentence splitting in front of speech synthesis (audio_stream.py). */
module AudioStream {
  import opened Text
  import opened Sentences

  type Voice = string

  /** `text` stands for the synthesized bytes of that sentence. */
  datatype Event =
    | TextChunk(chunk: string)
    | AudioSentence(seqNo: nat, text: string, voice: Voice)

  // ----- cutting the buffer -----

  /** A terminator followed by a space or by the end of the buffer. */
  predicate IsCut(buffer: string, i: nat) {
    i < |buffer| && IsTerminator(buffer[i]) && (i + 1 == |buffer| || IsSpace(buffer[i + 1]))
  }

  ghost predicate NoCutFrom(buffer: string, k: nat) {
    forall i | k <= i < |buffer| :: !IsCut(buffer, i)
  }

  /** `k` is just after the last cut, or 0 when there is none. */
  ghost predicate IsCutPoint(buffer: string, k: int) {
    0 <= k <= |buffer| && (k == 0 || IsCut(buffer, k - 1)) && NoCutFrom(buffer, k)
  }

  /** The sentences up to the last cut, and the rest, which holds no cut. */
  method ExtractCompleteSentences(buffer: string) returns (sentences: seq<string>, remainder: string)
    ensures IsCutPoint(buffer, |buffer| - |remainder|)
    ensures sentences == SplitSentences(buffer[..|buffer| - |remainder|])
    ensures remainder == buffer[|buffer| - |remainder|..]
  {
    var splitPoint := 0;
    for i := 0 to |buffer|
      invariant splitPoint <= i
      invariant splitPoint == 0 || IsCut(buffer, splitPoint - 1)
      invariant forall j | splitPoint <= j < i :: !IsCut(buffer, j)
    {
      if IsCut(buffer, i) { splitPoint := i + 1; }
    }
    if splitPoint == 0 {
      assert Strip(buffer[..0]) == "";
      return [], buffer;
    }
    sentences := SplitSentences(buffer[..splitPoint]);
    remainder := buffer[splitPoint..];
  }

  // ----- refinement of sentence lists -----

  function Flat(groups: seq<seq<string>>): seq<string> {
    if groups == [] then [] else groups[0] + Flat(groups[1..])
  }

  ghost predicate Groups(groups: seq<seq<string>>, fine: seq<string>, coarse: seq<string>) {
    && |groups| == |coarse|
    && Flat(groups) == fine
    && forall i | 0 <= i < |groups| :: groups[i] != [] && Concat(groups[i]) == coarse[i]
  }

  /** Every element of `coarse` is the concatenation of consecutive elements of `fine`, none left over. */
  ghost predicate Refines(fine: seq<string>, coarse: seq<string>) {
    exists groups: seq<seq<string>> :: Groups(groups, fine, coarse)
  }

  lemma {:induction false} FlatAppend(a: seq<seq<string>>, b: seq<seq<string>>)
    ensures Flat(a + b) == Flat(a) + Flat(b)
  {
    if a == [] {
      assert a + b == b;
    } else {
      assert (a + b)[1..] == a[1..] + b;
      FlatAppend(a[1..], b);
    }
  }

  lemma {:induction false} RefinesSelf(s: seq<string>)
    ensures Refines(s, s)
  {
    if s == [] {
      assert Groups([], s, s);
    } else {
      RefinesSelf(s[1..]);
      var g: seq<seq<string>> :| Groups(g, s[1..], s[1..]);
      assert [s[0]] + s[1..] == s && ([[s[0]]] + g)[1..] == g;
      assert s[0] + "" == s[0];
      assert Groups([[s[0]]] + g, s, s);
    }
  }

  lemma RefinesAppend(f1: seq<string>, c1: seq<string>, f2: seq<string>, c2: seq<string>)
    requires Refines(f1, c1) && Refines(f2, c2)
    ensures Refines(f1 + f2, c1 + c2)
  {
    var g1: seq<seq<string>> :| Groups(g1, f1, c1);
    var g2: seq<seq<string>> :| Groups(g2, f2, c2);
    FlatAppend(g1, g2);
    assert Groups(g1 + g2, f1 + f2, c1 + c2);
  }

  lemma RefinesGlue(f1: seq<string>, c1: seq<string>, f2: seq<string>, c2: seq<string>)
    requires Refines(f1, c1) && Refines(f2, c2) && c1 != [] && c2 != []
    ensures Refines(f1 + f2, Init(c1) + [Last(c1) + c2[0]] + c2[1..])
  {
    hide Flat, Concat;
    var g1: seq<seq<string>> :| Groups(g1, f1, c1);
    var g2: seq<seq<string>> :| Groups(g2, f2, c2);
    var g := Init(g1) + [Last(g1) + g2[0]] + g2[1..];
    var c := Init(c1) + [Last(c1) + c2[0]] + c2[1..];
    FlatParts(g1, g2);
    ConcatAppend(Last(g1), g2[0]);
    forall i | 0 <= i < |g| ensures g[i] != [] && Concat(g[i]) == c[i] {
      if i >= |g1| { assert g[i] == g2[i - |g1| + 1] && c[i] == c2[i - |g1| + 1]; }
    }
    assert Groups(g, f1 + f2, c);
  }

  lemma FlatParts(g1: seq<seq<string>>, g2: seq<seq<string>>)
    requires g1 != [] && g2 != []
    ensures Flat(Init(g1) + [Last(g1) + g2[0]] + g2[1..]) == Flat(g1) + Flat(g2)
  {
    hide Flat;
    var a, l, h, b := Init(g1), Last(g1), g2[0], g2[1..];
    FlatAppend(a + [l + h], b);
    FlatAppend(a, [l + h]);
    FlatAppend(a, [l]);
    FlatAppend([h], b);
    FlatOne(l + h); FlatOne(l); FlatOne(h);
    assert a + [l] == g1 && [h] + b == g2;
    Regroup(Flat(a), l, h, Flat(b));
  }

  lemma Regroup<T>(a: seq<T>, b: seq<T>, c: seq<T>, d: seq<T>)
    ensures (a + (b + c)) + d == (a + b) + (c + d)
  {
  }

  lemma FlatOne(x: seq<string>)
    ensures Flat([x]) == x
  {
    assert x + [] == x;
  }

  lemma {:induction false} ConcatOfGroups(groups: seq<seq<string>>, coarse: seq<string>)
    requires |groups| == |coarse| && forall i | 0 <= i < |groups| :: Concat(groups[i]) == coarse[i]
    ensures Concat(Flat(groups)) == Concat(coarse)
  {
    if groups != [] {
      ConcatOfGroups(groups[1..], coarse[1..]);
      ConcatAppend(groups[0], Flat(groups[1..]));
    }
  }

  lemma RefinesKeepsText(fine: seq<string>, coarse: seq<string>)
    requires Refines(fine, coarse)
    ensures Concat(fine) == Concat(coarse)
  {
    var g: seq<seq<string>> :| Groups(g, fine, coarse);
    ConcatOfGroups(g, coarse);
  }

  // ----- chunk boundaries -----

  /** Some chunk ends right after a terminator and the text goes on with a non-space. */
  predicate SplitsInside(chunks: seq<string>) {
    chunks != [] && (SplitsInside(Init(chunks)) || (EndsSentence(Concat(Init(chunks))) && StartsSolid(Last(chunks))))
  }

  lemma ConcatInit(chunks: seq<string>)
    requires chunks != []
    ensures Concat(chunks) == Concat(Init(chunks)) + Last(chunks)
  {
    assert chunks == Init(chunks) + [Last(chunks)];
    ConcatAppend(Init(chunks), [Last(chunks)]);
    assert Last(chunks) + "" == Last(chunks);
  }

  /** The boundary before chunk `j` lies between a terminator and a non-space. */
  predicate Boundary(chunks: seq<string>, j: nat)
    requires j <= |chunks|
  {
    EndsSentence(Concat(chunks[..j])) && StartsSolid(Concat(chunks[j..]))
  }

  lemma BoundaryOfInit(chunks: seq<string>, j: nat)
    requires chunks != [] && j < |chunks|
    ensures Boundary(chunks, j) <==>
            || Boundary(Init(chunks), j)
            || (EndsSentence(Concat(Init(chunks)[..j])) && Concat(Init(chunks)[j..]) == "" && StartsSolid(Last(chunks)))
  {
    hide Concat;
    assert Init(chunks)[..j] == chunks[..j];
    assert Init(chunks[j..]) == Init(chunks)[j..] && Last(chunks[j..]) == Last(chunks);
    ConcatInit(chunks[j..]);
  }

  lemma {:induction false} SplitsInsideIff(chunks: seq<string>)
    ensures SplitsInside(chunks) <==> exists j | 0 <= j <= |chunks| :: Boundary(chunks, j)
  {
    if chunks == [] {
      assert !Boundary(chunks, 0);
    } else {
      hide Concat;
      var front := Init(chunks);
      SplitsInsideIff(front);
      forall j | 0 <= j < |chunks|
        ensures Boundary(chunks, j) ==> SplitsInside(chunks)
        ensures Boundary(front, j) ==> Boundary(chunks, j)
      {
        BoundaryOfInit(chunks, j);
        if Boundary(chunks, j) && !Boundary(front, j) { BoundaryMoves(front, j); }
      }
      NoLateBoundary(chunks);
      BoundaryOfInit(chunks, |front|);
      EmptyRest(front);
    }
  }

  lemma NoLateBoundary(chunks: seq<string>)
    ensures !Boundary(chunks, |chunks|)
  {
    assert chunks[|chunks|..] == [];
  }

  lemma EmptyRest(front: seq<string>)
    ensures front[..|front|] == front && Concat(front[|front|..]) == ""
  {
  }

  /** When nothing but empty chunks follow, the boundary may be read at the end. */
  lemma BoundaryMoves(front: seq<string>, j: nat)
    requires j <= |front| && EndsSentence(Concat(front[..j])) && Concat(front[j..]) == ""
    ensures EndsSentence(Concat(front))
  {
    assert front == front[..j] + front[j..];
    ConcatAppend(front[..j], front[j..]);
    assert Concat(front[..j]) + "" == Concat(front[..j]);
  }

  // ----- one step of the stream -----

  /** A buffer without a cut is at most one sentence. */
  lemma SplitWithoutCut(b: string)
    requires NoCutFrom(b, 0)
    ensures SplitSentences(b) == Open(Strip(b))
  {
    hide RStrip, LStrip, IsSpace;
    var r := RStrip(b);
    var t := LStrip(r);
    var d := |r| - |t|;
    StripEnds(b);
    forall i | 1 <= i < |t| ensures !IsBreak(t, i) {
      assert b[d + i - 1] == t[i - 1] && b[d + i] == t[i];
      assert !IsCut(b, d + i - 1);
    }
    if t != "" {
      assert SplitAtBreaks(t) == [t];
      StripOfStripped(t);
      NonBlankOpen(t, []);
      assert Open(t) + [] == [t];
    }
  }

  /** `given` are the sentences spoken for the text `done`, finer than its split exactly when `glued`. */
  ghost predicate Tracks(done: string, given: seq<string>, glued: bool) {
    && Refines(given, SplitSentences(done))
    && (glued <==> |given| > |SplitSentences(done)|)
    && (!glued ==> given == SplitSentences(done))
  }

  lemma StreamStep(done: string, given: seq<string>, glued: bool, piece: string)
    requires Tracks(done, given, glued)
    requires done == "" || EndsSentence(done)
    ensures Tracks(done + piece, given + SplitSentences(piece), glued || (done != "" && StartsSolid(piece)))
  {
    hide SplitSentences, IsSpace, Refines;
    var c1, c2 := SplitSentences(done), SplitSentences(piece);
    RefinesSelf(c2);
    if done != "" && StartsSolid(piece) {
      TerminatorIsSolid(done);
      SplitMerge(done, "", piece);
      assert done + "" == done && Last(c1) + "" == Last(c1);
      RefinesGlue(given, c1, c2, c2);
    } else {
      SplitAtBreak(done, piece);
      RefinesAppend(given, c1, c2, c2);
    }
  }

  lemma TerminatorIsSolid(s: string)
    requires EndsSentence(s)
    ensures EndsSolid(s)
  {
  }

  // ----- what the consumer receives -----

  function Texts(events: seq<Event>): seq<string> {
    if events == [] then []
    else if Last(events).TextChunk? then Texts(Init(events)) + [Last(events).chunk]
    else Texts(Init(events))
  }

  function Audio(events: seq<Event>): seq<Event> {
    if events == [] then []
    else if Last(events).AudioSentence? then Audio(Init(events)) + [Last(events)]
    else Audio(Init(events))
  }

  /** Every sentence keeps its own number; the ones whose synthesis fails are missing. */
  function Audible(given: seq<string>, voice: Voice, speaks: nat -> bool): seq<Event> {
    if given == [] then []
    else
      var before := Audible(Init(given), voice, speaks);
      if speaks(|given| - 1) then before + [AudioSentence(|given| - 1, Last(given), voice)] else before
  }

  predicate IsAudio(frames: seq<Event>) {
    forall i | 0 <= i < |frames| :: frames[i].AudioSentence?
  }

  /** Strictly increasing sequence numbers. */
  predicate Rising(frames: seq<Event>)
    requires IsAudio(frames)
  {
    forall i, j | 0 <= i < j < |frames| :: frames[i].seqNo < frames[j].seqNo
  }

  predicate IsFrameOf(frame: Event, given: seq<string>, voice: Voice) {
    frame.AudioSentence? && frame.seqNo < |given| && frame == AudioSentence(frame.seqNo, given[frame.seqNo], voice)
  }

  /** In order, one frame for every sentence whose synthesis succeeds, numbered by its position, and nothing else. */
  predicate SpeaksExactly(frames: seq<Event>, given: seq<string>, voice: Voice, speaks: nat -> bool) {
    && IsAudio(frames) && Rising(frames)
    && (forall k | 0 <= k < |frames| :: IsFrameOf(frames[k], given, voice))
    && (forall i: nat | i < |given| :: AudioSentence(i, given[i], voice) in frames <==> speaks(i))
  }

  lemma {:induction false} AudibleIff(given: seq<string>, voice: Voice, speaks: nat -> bool)
    ensures SpeaksExactly(Audible(given, voice, speaks), given, voice, speaks)
  {
    if given != [] {
      hide SpeaksExactly;
      AudibleIff(Init(given), voice, speaks);
      OneMoreSpoken(Audible(Init(given), voice, speaks), Init(given), Last(given), voice, speaks);
      assert Init(given) + [Last(given)] == given;
    } else {
      assert Audible(given, voice, speaks) == [];
    }
  }

  lemma OneMoreSpoken(frames: seq<Event>, given: seq<string>, sentence: string, voice: Voice, speaks: nat -> bool)
    requires SpeaksExactly(frames, given, voice, speaks)
    ensures SpeaksExactly(if speaks(|given|) then frames + [AudioSentence(|given|, sentence, voice)] else frames,
                          given + [sentence], voice, speaks)
  {
    hide IsFrameOf;
    var x := AudioSentence(|given|, sentence, voice);
    FramesStay(frames, given, sentence, voice);
    InSnoc(frames, x);
    assert IsFrameOf(x, given + [sentence], voice) by { IsNewFrame(given, sentence, voice); }
    forall i: nat | i < |given + [sentence]|
      ensures (if speaks(|given|) then AudioSentence(i, (given + [sentence])[i], voice) in frames + [x]
               else AudioSentence(i, (given + [sentence])[i], voice) in frames) <==> speaks(i)
    {
    }
  }

  lemma IsNewFrame(given: seq<string>, sentence: string, voice: Voice)
    ensures IsFrameOf(AudioSentence(|given|, sentence, voice), given + [sentence], voice)
  {
  }

  lemma InSnoc<T>(s: seq<T>, x: T)
    ensures forall e :: e in s + [x] <==> e in s || e == x
  {
  }

  lemma FramesStay(frames: seq<Event>, given: seq<string>, sentence: string, voice: Voice)
    requires forall k | 0 <= k < |frames| :: IsFrameOf(frames[k], given, voice)
    ensures forall k | 0 <= k < |frames| :: IsFrameOf(frames[k], given + [sentence], voice) && frames[k].seqNo < |given|
    ensures AudioSentence(|given|, sentence, voice) !in frames
  {
  }

  /** The frames heard for the sentences `given`, in the voice passed in or else that of the first sentence. */
  predicate Heard(frames: seq<Event>, given: seq<string>, voice: Option<Voice>, voiceOf: string -> Voice,
                  speaks: nat -> bool)
  {
    if given == [] then frames == []
    else SpeaksExactly(frames, given, if voice.Some? then voice.value else voiceOf(given[0]), speaks)
  }

  lemma SpokenIsHeard(events: seq<Event>, given: seq<string>, current: Option<Voice>, voice: Option<Voice>,
                      voiceOf: string -> Voice, speaks: nat -> bool)
    requires Spoken(events, given, current, voice, voiceOf, speaks)
    ensures Heard(Audio(events), given, voice, voiceOf, speaks)
  {
    hide Audio, Audible, SpeaksExactly;
    if given != [] { AudibleIff(given, current.value, speaks); }
  }

  // ----- no sentence waits -----

  /** Of the text seen so far, everything up to its last cut has been given to the voice: the first `m` sentences. */
  ghost predicate UpToDate(seen: seq<Event>, given: seq<string>, m: nat, cut: nat, voice: Option<Voice>,
                           voiceOf: string -> Voice, speaks: nat -> bool)
  {
    var text := Concat(Texts(seen));
    && m <= |given| && cut <= |text|
    && (cut == 0 || EndsSentence(text[..cut])) && NoCutFrom(text[cut..], 0)
    && Solid(Concat(given[..m])) == Solid(text[..cut])
    && Heard(Audio(seen), given[..m], voice, voiceOf, speaks)
  }

  /** Whenever a chunk goes out, the sentences completed by the chunks before it have been spoken already. */
  ghost predicate Prompt(events: seq<Event>, given: seq<string>, voice: Option<Voice>, voiceOf: string -> Voice,
                         speaks: nat -> bool)
  {
    forall j | 0 <= j < |events| && events[j].TextChunk? ::
      exists m: nat, cut: nat :: UpToDate(events[..j], given, m, cut, voice, voiceOf, speaks)
  }

  lemma ChunkIsPrompt(events: seq<Event>, given: seq<string>, chunks: seq<string>, chunk: string, done: string,
                      buffer: string, glued: bool, current: Option<Voice>, voice: Option<Voice>,
                      voiceOf: string -> Voice, speaks: nat -> bool)
    requires Prompt(events, given, voice, voiceOf, speaks) && Texts(events) == chunks
    requires Buffered(chunks, done, buffer, glued) && Tracks(done, given, glued)
    requires Spoken(events, given, current, voice, voiceOf, speaks)
    ensures Prompt(events + [TextChunk(chunk)], given, voice, voiceOf, speaks)
  {
    hide SplitSentences, Refines, SplitsInside, Texts, Audio, Concat, Solid, Spoken, Heard, NoCutFrom;
    SpokenIsHeard(events, given, current, voice, voiceOf, speaks);
    RefinesKeepsText(given, SplitSentences(done));
    SplitKeepsSolid(done);
    assert given[..|given|] == given && (done + buffer)[..|done|] == done && (done + buffer)[|done|..] == buffer;
    assert UpToDate(events, given, |given|, |done|, voice, voiceOf, speaks);
    hide UpToDate;
    var more := events + [TextChunk(chunk)];
    assert more[..|events|] == events;
    forall j | 0 <= j < |more| && more[j].TextChunk?
      ensures exists m: nat, cut: nat :: UpToDate(more[..j], given, m, cut, voice, voiceOf, speaks)
    {
      if j < |events| { assert more[..j] == events[..j] && events[j].TextChunk?; }
    }
  }

  /** `more` goes on with audio frames only. */
  predicate OnlyAudioAdded(events: seq<Event>, more: seq<Event>) {
    events <= more && forall j | |events| <= j < |more| :: more[j].AudioSentence?
  }

  lemma SpeakingIsPrompt(events: seq<Event>, given: seq<string>, more: seq<Event>, further: seq<string>,
                         voice: Option<Voice>, voiceOf: string -> Voice, speaks: nat -> bool)
    requires Prompt(events, given, voice, voiceOf, speaks) && OnlyAudioAdded(events, more)
    ensures Prompt(more, given + further, voice, voiceOf, speaks)
  {
    hide Heard, Texts, Audio, Concat, Solid, NoCutFrom;
    forall j | 0 <= j < |more| && more[j].TextChunk?
      ensures exists m: nat, cut: nat :: UpToDate(more[..j], given + further, m, cut, voice, voiceOf, speaks)
    {
      assert more[..j] == events[..j] && events[j] == more[j];
      var m: nat, cut: nat :| UpToDate(events[..j], given, m, cut, voice, voiceOf, speaks);
      assert (given + further)[..m] == given[..m];
      assert UpToDate(more[..j], given + further, m, cut, voice, voiceOf, speaks);
    }
  }

  /** The voice passed in, else the one detected on the first sentence. */
  function Locked(voice: Option<Voice>, given: seq<string>, voiceOf: string -> Voice): Option<Voice> {
    if voice.Some? || given == [] then voice else Some(voiceOf(given[0]))
  }

  lemma EventAppend(events: seq<Event>, e: Event)
    ensures Texts(events + [e]) == if e.TextChunk? then Texts(events) + [e.chunk] else Texts(events)
    ensures Audio(events + [e]) == if e.AudioSentence? then Audio(events) + [e] else Audio(events)
  {
    assert Init(events + [e]) == events;
  }

  /** The audio sent so far is that of the sentences `given`, all in the locked voice. */
  ghost predicate Spoken(events: seq<Event>, given: seq<string>, current: Option<Voice>,
                         voice: Option<Voice>, voiceOf: string -> Voice, speaks: nat -> bool) {
    && current == Locked(voice, given, voiceOf)
    && (given == [] ==> Audio(events) == [])
    && (given != [] ==> Audio(events) == Audible(given, current.value, speaks))
  }

  /** Speak one sentence: lock the voice, synthesize, advance the number even on failure. */
  method Speak(sentence: string, current: Option<Voice>, given: seq<string>, events: seq<Event>,
               ghost voice: Option<Voice>, voiceOf: string -> Voice, speaks: nat -> bool)
    returns (current': Option<Voice>, given': seq<string>, events': seq<Event>)
    requires Spoken(events, given, current, voice, voiceOf, speaks)
    ensures Spoken(events', given', current', voice, voiceOf, speaks)
    ensures Heard(Audio(events'), given', voice, voiceOf, speaks)
    ensures given' == given + [sentence] && Texts(events') == Texts(events) && OnlyAudioAdded(events, events')
  {
    hide Texts, Audio, Heard;
    current' := if current.None? then Some(voiceOf(sentence)) else current;
    var frame := AudioSentence(|given|, sentence, current'.value);
    events' := if speaks(|given|) then events + [frame] else events;
    given' := given + [sentence];
    assert Init(given') == given && Last(given') == sentence;
    assert given'[0] == if given == [] then sentence else given[0];
    EventAppend(events, frame);
    assert current' == Locked(voice, given', voiceOf);
    assert given == [] ==> Audible(given, current'.value, speaks) == [];
    assert Audible(given', current'.value, speaks)
        == if speaks(|given|) then Audible(given, current'.value, speaks) + [frame] else Audible(given, current'.value, speaks);
    SpokenIsHeard(events', given', current', voice, voiceOf, speaks);
  }

  method SpeakAll(sentences: seq<string>, current: Option<Voice>, given: seq<string>, events: seq<Event>,
                  ghost voice: Option<Voice>, voiceOf: string -> Voice, speaks: nat -> bool)
    returns (current': Option<Voice>, given': seq<string>, events': seq<Event>)
    requires Spoken(events, given, current, voice, voiceOf, speaks)
    ensures Spoken(events', given', current', voice, voiceOf, speaks)
    ensures given' == given + sentences && Texts(events') == Texts(events) && OnlyAudioAdded(events, events')
  {
    hide Spoken;
    current', given', events' := current, given, events;
    for k := 0 to |sentences|
      invariant Spoken(events', given', current', voice, voiceOf, speaks)
      invariant given' == given + sentences[..k] && Texts(events') == Texts(events) && OnlyAudioAdded(events, events')
    {
      current', given', events' := Speak(sentences[k], current', given', events', voice, voiceOf, speaks);
      assert given' == given + sentences[..k + 1];
    }
  }

  lemma TextKeepsSpoken(events: seq<Event>, chunk: string, given: seq<string>, current: Option<Voice>,
                        voice: Option<Voice>, voiceOf: string -> Voice, speaks: nat -> bool)
    requires Spoken(events, given, current, voice, voiceOf, speaks)
    ensures Spoken(events + [TextChunk(chunk)], given, current, voice, voiceOf, speaks)
    ensures Texts(events + [TextChunk(chunk)]) == Texts(events) + [chunk]
  {
    hide Audio, Texts, Audible;
    EventAppend(events, TextChunk(chunk));
  }

  /** Text goes out chunk by chunk; sentences are spoken as soon as the buffer completes them. */
  method Wrap(chunks: seq<string>, voice: Option<Voice>, voiceOf: string -> Voice, speaks: nat -> bool)
    returns (events: seq<Event>, given: seq<string>)
    ensures Texts(events) == chunks
    ensures Solid(Concat(given)) == Solid(Concat(chunks))
    ensures Refines(given, SplitSentences(Concat(chunks)))
    ensures given == SplitSentences(Concat(chunks)) <==> !SplitsInside(chunks)
    ensures Heard(Audio(events), given, voice, voiceOf, speaks)
    ensures Prompt(events, given, voice, voiceOf, speaks)
  {
    hide Prompt, Heard, Audio, OnlyAudioAdded, SplitSentences, Spoken, Texts, IsCutPoint, Strip, SplitsInside, Concat, Locked;
    var buffer, current := "", voice;
    events, given := [], [];
    ghost var done, glued := "", false;
    StreamStart(voice, voiceOf, speaks);
    for k := 0 to |chunks|
      invariant Buffered(chunks[..k], done, buffer, glued)
      invariant Tracks(done, given, glued)
      invariant Texts(events) == chunks[..k]
      invariant Spoken(events, given, current, voice, voiceOf, speaks)
      invariant Prompt(events, given, voice, voiceOf, speaks)
    {
      hide Buffered, Tracks;
      ChunkIsPrompt(events, given, chunks[..k], chunks[k], done, buffer, glued, current, voice, voiceOf, speaks);
      TextKeepsSpoken(events, chunks[k], given, current, voice, voiceOf, speaks);
      events := events + [TextChunk(chunks[k])];
      BufferGrows(chunks, k, done, buffer, glued);
      var sentences, remainder := ExtractCompleteSentences(buffer + chunks[k]);
      ghost var cut := |buffer + chunks[k]| - |remainder|;
      ghost var piece := (buffer + chunks[k])[..cut];
      CutKeeps(chunks[..k + 1], done, buffer + chunks[k], glued, cut);
      StreamStep(done, given, glued, piece);
      ghost var before, known := events, given;
      current, given, events := SpeakAll(sentences, current, given, events, voice, voiceOf, speaks);
      SpeakingIsPrompt(before, known, events, sentences, voice, voiceOf, speaks);
      assert chunks[..k + 1] == chunks[..k] + [chunks[k]];
      done, glued, buffer := done + piece, glued || (done != "" && StartsSolid(piece)), remainder;
    }
    assert chunks[..|chunks|] == chunks;
    StreamStep(done, given, glued, buffer);
    SplitWithoutCut(buffer);
    ghost var all := given + SplitSentences(buffer);
    var leftover := Strip(buffer);
    if leftover != "" {
      ghost var before, known := events, given;
      current, given, events := Speak(leftover, current, given, events, voice, voiceOf, speaks);
      SpeakingIsPrompt(before, known, events, [leftover], voice, voiceOf, speaks);
    }
    assert given == all;
    RefinesKeepsText(given, SplitSentences(Concat(chunks)));
    SplitKeepsSolid(Concat(chunks));
    SpokenIsHeard(events, given, current, voice, voiceOf, speaks);
  }

  lemma StreamStart(voice: Option<Voice>, voiceOf: string -> Voice, speaks: nat -> bool)
    ensures Buffered([], "", "", false) && Tracks("", [], false)
    ensures Texts([]) == [] && Spoken([], [], voice, voice, voiceOf, speaks)
    ensures Prompt([], [], voice, voiceOf, speaks)
  {
    var none: seq<string> := [];
    RefinesSelf(none);
    assert Strip("") == "" && SplitSentences("") == [];
  }

  /** Text received so far: the part already cut off, then the buffer, which holds no cut. */
  ghost predicate Buffered(chunks: seq<string>, done: string, buffer: string, glued: bool) {
    && Concat(chunks) == done + buffer
    && (done == "" || EndsSentence(done))
    && NoCutFrom(buffer, 0)
    && (SplitsInside(chunks) <==> glued || (done != "" && StartsSolid(buffer)))
  }

  /** Taking in a chunk: the buffer is empty whenever the text so far ends a sentence. */
  lemma BufferGrows(chunks: seq<string>, k: nat, done: string, buffer: string, glued: bool)
    requires k < |chunks|
    requires Buffered(chunks[..k], done, buffer, glued)
    ensures done == "" || EndsSentence(done)
    ensures Concat(chunks[..k + 1]) == done + (buffer + chunks[k])
    ensures SplitsInside(chunks[..k + 1]) <==> glued || (done != "" && StartsSolid(buffer + chunks[k]))
  {
    hide IsSpace;
    var next := chunks[..k + 1];
    assert Init(next) == chunks[..k] && Last(next) == chunks[k];
    ConcatInit(next);
    if buffer == "" {
      assert done + buffer == done && buffer + chunks[k] == chunks[k];
    } else {
      assert !IsCut(buffer, |buffer| - 1);
      assert !EndsSentence(done + buffer);
    }
  }

  /** Moving the complete part out of the buffer leaves nothing to cut. */
  lemma CutKeeps(chunks: seq<string>, done: string, whole: string, glued: bool, cut: nat)
    requires IsCutPoint(whole, cut)
    requires done == "" || EndsSentence(done)
    requires Concat(chunks) == done + whole
    requires SplitsInside(chunks) <==> glued || (done != "" && StartsSolid(whole))
    ensures Buffered(chunks, done + whole[..cut], whole[cut..], glued || (done != "" && StartsSolid(whole[..cut])))
  {
    hide IsSpace;
    forall i | 0 <= i < |whole| - cut ensures !IsCut(whole[cut..], i) {
      assert !IsCut(whole, cut + i);
    }
    if cut > 0 { assert IsTerminator(whole[cut - 1]); }
    assert done + whole == (done + whole[..cut]) + whole[cut..];
  }
}
