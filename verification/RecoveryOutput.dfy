/** A recovery turn whose guarded output asks nothing open: the bank's first recovery question is a yes-or-no question
    (questions/bank.py), and the interceptors do not check what they append. */
module RecoveryOutput {
  import opened Text
  import opened PolicyTypes
  import opened PolicyAutomata
  import opened Questions
  import opened Engine
  import opened PolicyRuns
  import opened SteadyRuns
  import Interceptors
  import ClosureLiveness
  import LadderSafety
  import TurnDecisions

  const RECOVER_TEXT :=
    "Tomemos" + " " + "esto" + " " + "m\U{E1}s" + " " + "despacio" + ". \U{BF}" + "Te" + " " + "sirve" + " " + "si" + " "
    + "lo" + " " + "dividimos" + " " + "en" + " " + "dos" + " " + "partes?"

  const RECOVER_01 := Question("recover_01", RECOVERY_STABILIZE, PLANNING, [RECOVER_TEXT], Supportive, false)

  // ----- the question has no interrogative word -----

  /** No placeholder and no stem. */
  predicate Plain(s: string) {
    '{' !in s && !Interceptors.HasStem(Interceptors.Words(s))
  }

  lemma StemStarts(w: string)
    requires w in Interceptors.STEMS
    ensures w != "" && (w[0] in "qcwh" || (w[0] == 'd' && |w| == 5))
  {
  }

  lemma {:induction false} RunOfWord(cur: string, s: string)
    requires forall i | 0 <= i < |s| :: IsWord(s[i])
    ensures Runs(WordKind, cur, s) == Text.Open(cur + s)
    decreases |s|
  {
    hide IsWord;
    if s == "" {
      assert cur + s == cur;
    } else {
      RunOfWord(cur + [s[0]], s[1..]);
      assert cur + [s[0]] + s[1..] == cur + s;
    }
  }

  lemma PlainWord(s: string)
    requires s != "" && forall c | c in s :: IsWord(c) && c != '{'
    requires var c := Interceptors.Fold(s[0]); c !in "qcwh" && (c == 'd' ==> |s| != 5)
    ensures Plain(s)
  {
    hide IsWord;
    var f := Interceptors.FoldAll(s);
    forall i | 0 <= i < |f| ensures IsWord(f[i]) {
      assert s[i] in s;
      Interceptors.FoldKeepsClass(s[i]);
    }
    RunOfWord("", f);
    assert "" + f == f && f[0] == Interceptors.Fold(s[0]);
    if f in Interceptors.STEMS { StemStarts(f); }
  }

  lemma PlainJoin(a: string, w: string, b: string)
    requires Plain(a) && Plain(b) && w != "" && forall c | c in w :: !IsWord(c) && c != '{'
    ensures Plain(a + w + b)
  {
    hide IsWord, Interceptors.HasStem;
    Interceptors.FoldAppend(a + w, b);
    Interceptors.FoldAppend(a, w);
    var f := Interceptors.FoldAll(w);
    forall i | 0 <= i < |f| ensures !IsWord(f[i]) {
      assert w[i] in w;
      Interceptors.FoldKeepsClass(w[i]);
    }
    RunsJoin(WordKind, Interceptors.FoldAll(a), f, Interceptors.FoldAll(b));
    Interceptors.StemAppend(Interceptors.Words(a), Interceptors.Words(b));
  }

  /** One more word, after a blank. */
  lemma PlainNext(a: string, b: string)
    requires Plain(a) && Plain(b)
    ensures Plain(a + " " + b)
  {
    PlainJoin(a, " ", b);
  }

  lemma PlainMarked(s: string)
    requires Plain(s)
    ensures Plain(s + "?")
  {
    hide IsWord, Interceptors.HasStem;
    assert !IsWord('?') by { QuestionMarkIsNoWord(); }
    var t := s + "?";
    assert t[0..|s|] == s;
    Interceptors.WordsOfCut(t, 0, |s|);
  }

  lemma QuestionMarkIsNoWord()
    ensures !IsWord('?')
  {
  }

  lemma RecoverTextIsPlain()
    ensures Plain(RECOVER_TEXT)
  {
    hide Plain;
    PlainWord("Tomemos"); PlainWord("esto"); PlainWord("m\U{E1}s"); PlainWord("despacio");
    PlainWord("Te"); PlainWord("sirve"); PlainWord("si"); PlainWord("lo"); PlainWord("dividimos");
    PlainWord("en"); PlainWord("dos"); PlainWord("partes");
    PlainMarked("partes");
    assert "partes" + "?" == "partes?";
    var a := "Tomemos" + " " + "esto" + " " + "m\U{E1}s" + " " + "despacio";
    PlainNext("Tomemos", "esto");
    PlainNext("Tomemos" + " " + "esto", "m\U{E1}s");
    PlainNext("Tomemos" + " " + "esto" + " " + "m\U{E1}s", "despacio");
    PlainJoin(a, ". \U{BF}", "Te");
    var b := a + ". \U{BF}" + "Te";
    PlainNext(b, "sirve");
    PlainNext(b + " " + "sirve", "si");
    PlainNext(b + " " + "sirve" + " " + "si", "lo");
    PlainNext(b + " " + "sirve" + " " + "si" + " " + "lo", "dividimos");
    PlainNext(b + " " + "sirve" + " " + "si" + " " + "lo" + " " + "dividimos", "en");
    PlainNext(b + " " + "sirve" + " " + "si" + " " + "lo" + " " + "dividimos" + " " + "en", "dos");
    PlainNext(b + " " + "sirve" + " " + "si" + " " + "lo" + " " + "dividimos" + " " + "en" + " " + "dos", "partes?");
  }

  // ----- the output -----

  /** On any bank and any recovery turn that draws this question, with the guardrail on and no demand or hand-off: a reply
      without an interrogative word reaches the student without an open question, and a rhetorical one with this question
      appended twice. */
  lemma RecoveryTurnAsksNothingOpen(bank: seq<Question>, c: Context, reply: string)
    requires IsBank(bank) && Selected(bank, c) == RECOVER_01 && !Elicits(c)
    requires LadderOf(c).0 != BOTTOM_OUT && !ProcFires(c)
    requires !Interceptors.HasStem(Interceptors.Words(reply))
    ensures var p := Decide(bank, c).plan;
            && p.forbidDirectAnswer && p.questionText == RECOVER_TEXT
            && !Interceptors.HasOpen(Interceptors.Checked(true, reply, RECOVER_TEXT).text)
            && (Interceptors.IsRhetorical(reply) ==> Interceptors.Appends(true, reply, RECOVER_TEXT) == 2)
  {
    hide Selected, Contextualize, ToneFires, ToneSupports, ProcFires, LadderOf, Marks, Directives, ClosureDirectives,
         FsmOf, RecoveryOf, ScoresOf, Interceptors.HasStem, Interceptors.Words, Interceptors.HasOpen,
         Interceptors.Checked, Interceptors.IsRhetorical, Interceptors.Appends, Interceptors.GluedOpen;
    RecoverTextIsPlain();
    TurnDecisions.ContextualizeFills(RECOVER_TEXT, "", c.activity);
    Interceptors.NoStemAsksNothing(reply, RECOVER_TEXT);
    Interceptors.NoStemAppendsTwice(reply, RECOVER_TEXT);
  }

  // ----- such a turn is reached -----

  const RECOVERY_BANK := [ELICIT_01, RECOVER_01]

  lemma RecoveryBankPools()
    ensures IsBank(RECOVERY_BANK) && ByFamily(RECOVERY_BANK, RECOVERY_STABILIZE) == [RECOVER_01]
  {
    assert RECOVERY_BANK[1..] == [RECOVER_01] && [RECOVER_01][1..] == [];
    assert ByFamily([RECOVER_01], RECOVERY_STABILIZE) == [RECOVER_01] + ByFamily([], RECOVERY_STABILIZE);
    assert ByFamily(RECOVERY_BANK, ATTEMPT_ELICITATION) == [ELICIT_01] + ByFamily([RECOVER_01], ATTEMPT_ELICITATION);
  }

  /** An overwhelmed student's third turn, with the bank cut down to these two questions, when the model says "Ok.". */
  lemma RecoveryTurnIsReached()
    ensures IsBank(RECOVERY_BANK)
    ensures var h := Steady(RECOVERY_BANK, OVERWHELMED, 3);
            && Run(RECOVERY_BANK, h) && RecoveryOf(h[2]).0 == STABILIZE
            && var p := Decide(RECOVERY_BANK, h[2]).plan;
               p.forbidDirectAnswer && p.questionText == RECOVER_TEXT
               && !Interceptors.HasOpen(Interceptors.Checked(true, "Ok.", RECOVER_TEXT).text)
  {
    hide Run, LadderOf, FsmOf, ScoresOf, Decide, Steady, Before, SteadyTurn, After, ByFamily, FirstFresh, Selected,
         Interceptors.HasOpen, Interceptors.Checked, Interceptors.HasStem, Interceptors.Words, ClosureLiveness.Course,
         IsBank, ProcFires, RecoveryOf, End;
    RecoveryBankPools();
    var h := Steady(RECOVERY_BANK, OVERWHELMED, 3);
    var e := Before(RECOVERY_BANK, OVERWHELMED, 2);
    SteadyIsRun(RECOVERY_BANK, OVERWHELMED, 3);
    SteadyAt(RECOVERY_BANK, OVERWHELMED, 3, 2);
    TurnIs(OVERWHELMED, e, 2);
    ClosureLiveness.OverwhelmedFollowsCourse(RECOVERY_BANK, 2);
    ClosureLiveness.CourseStep(e, 2);
    ThirdCourse();
    RungStays(RECOVERY_BANK, e);
    DrawsRecovery(h[2]);
    NothingProcedural(e);
    OkIsPlain();
    RecoveryTurnAsksNothingOpen(RECOVERY_BANK, h[2], "Ok.");
  }

  lemma ThirdCourse()
    ensures ClosureLiveness.Course(3) == (PLANNING, STABILIZE, 1)
  {
  }

  lemma RungStays(bank: seq<Question>, e: Carry)
    requires IsBank(bank) && e == Before(bank, OVERWHELMED, 2)
    requires RecoveryOf(SteadyTurn(OVERWHELMED, e, 2)).0 == STABILIZE
    ensures LadderOf(SteadyTurn(OVERWHELMED, e, 2)).0 != BOTTOM_OUT
  {
    hide RecoveryOf, ScoresOf, Steady, Run, End, After, IsBank;
    SteadyIsRun(bank, OVERWHELMED, 2);
    LadderSafety.RankNeedsTurns(bank, Steady(bank, OVERWHELMED, 2));
  }

  lemma DrawsRecovery(c: Context)
    requires IsBank(RECOVERY_BANK) && ByFamily(RECOVERY_BANK, RECOVERY_STABILIZE) == [RECOVER_01]
    requires RecoveryOf(c).0 == STABILIZE
    ensures Selected(RECOVERY_BANK, c) == RECOVER_01
  {
    hide RecoveryOf, ScoresOf, FsmOf, ByFamily, IsBank;
  }

  lemma NothingProcedural(e: Carry)
    ensures !ProcFires(SteadyTurn(OVERWHELMED, e, 2))
  {
    hide ProceduralStuck, Repeated;
    var c := SteadyTurn(OVERWHELMED, e, 2);
    HandOffIff(c);
    var recent := ProceduralTurns(c.window, c.signals);
    NoneProcedural(recent);
    if ProceduralStuck(c.window, c.signals) { ProceduralStuckNeeds(c.window, c.signals); }
  }

  lemma {:induction false} NoneProcedural(s: seq<UserSignals>)
    requires forall i | 0 <= i < |s| :: !s[i].proceduralRequest
    ensures CountProcedural(s) == 0
    decreases |s|
  {
    if s != [] { NoneProcedural(s[1..]); }
  }

  lemma OkIsPlain()
    ensures !Interceptors.HasStem(Interceptors.Words("Ok."))
  {
    hide Interceptors.HasStem, Interceptors.Words;
    PlainWord("Ok");
    assert "Ok."[0..2] == "Ok";
    Interceptors.WordsOfCut("Ok.", 0, 2);
  }
}
