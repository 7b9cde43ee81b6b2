/** Questions over whole runs: what has been asked, and when one may come back (selector.py, elicit_attempt.py). */
module QuestionRuns {
  import opened PolicyTypes
  import opened PolicyAutomata
  import opened Questions
  import opened Engine
  import opened PolicyRuns

  /** The ids a run has asked, in order. */
  function Ids(bank: seq<Question>, h: seq<Context>): (r: seq<string>)
    requires IsBank(bank)
    ensures |r| == |h|
    decreases |h|
  {
    if h == [] then [] else Ids(bank, h[..|h| - 1]) + [Asked(bank, h[|h| - 1]).id]
  }

  lemma {:induction false} RecentIdsAreHistory(bank: seq<Question>, h: seq<Context>)
    requires IsBank(bank) && Run(bank, h)
    ensures End(bank, h).recentIds == Ids(bank, h)
    decreases |h|
  {
    hide After, Asked;
    if h != [] {
      RecentIdsAreHistory(bank, h[..|h| - 1]);
      AfterFields(bank, h[|h| - 1]);
    }
  }

  /** What a turn may draw from: the attempt pool on an answer demand, the recovery family while recovering, else the
      questions of the next state, attempt constraint met. */
  predicate MayDraw(bank: seq<Question>, c: Context, q: Question)
    requires IsBank(bank)
  {
    if Elicits(c) then q in bank && q.family == ATTEMPT_ELICITATION
    else InPool(bank, FsmOf(c), c.signals, Forced(c), q)
  }

  /** While its pool still holds an unasked question, a turn draws one, and from the pool. */
  lemma DrawIsFresh(bank: seq<Question>, c: Context, q: Question)
    requires IsBank(bank) && MayDraw(bank, c, q) && q.id !in c.carry.recentIds
    ensures MayDraw(bank, c, Asked(bank, c)) && Asked(bank, c).id !in c.carry.recentIds
  {
    hide FsmOf, Forced, ScoresOf, SelectQuestion, InPool, ByFamily;
    if Elicits(c) {
      assert q in ByFamily(bank, ATTEMPT_ELICITATION);
    } else {
      SelectionRepeatsOnlyWhenExhausted(bank, FsmOf(c), ScoresOf(c), c.carry.recentIds, c.signals, Forced(c));
    }
  }

  /** On every run a question comes back only after everything its turn could draw has been asked. */
  lemma NoEarlyRepeat(bank: seq<Question>, h: seq<Context>, i: nat)
    requires IsBank(bank) && Run(bank, h) && i < |h|
    requires Asked(bank, h[i]).id in Ids(bank, h[..i])
    ensures forall q | MayDraw(bank, h[i], q) :: q.id in Ids(bank, h[..i])
  {
    hide Run, End, MayDraw, Asked, Ids;
    RunStep(bank, h, i);
    RecentIdsAreHistory(bank, h[..i]);
    forall q | MayDraw(bank, h[i], q) ensures q.id in Ids(bank, h[..i]) {
      if q.id !in Ids(bank, h[..i]) { DrawIsFresh(bank, h[i], q); }
    }
  }

  lemma {:induction false} IdsAt(bank: seq<Question>, h: seq<Context>, j: nat)
    requires IsBank(bank) && j < |h|
    ensures Ids(bank, h)[j] == Asked(bank, h[j]).id
    decreases |h|
  {
    hide Asked;
    if j < |h| - 1 { IdsAt(bank, h[..|h| - 1], j); }
  }

  /** So two turns of a run ask different questions as long as the later one's pool is not used up. */
  lemma DrawsAreDistinct(bank: seq<Question>, h: seq<Context>, j: nat, i: nat, q: Question)
    requires IsBank(bank) && Run(bank, h) && j < i < |h|
    requires MayDraw(bank, h[i], q) && q.id !in Ids(bank, h[..i])
    ensures Asked(bank, h[i]).id != Asked(bank, h[j]).id
  {
    hide Run, MayDraw, Asked, Ids;
    if Asked(bank, h[i]).id == Asked(bank, h[j]).id {
      IdsAt(bank, h[..i], j);
      NoEarlyRepeat(bank, h, i);
    }
  }
}
