/** Age of the cache's hits, and what becomes of its callers, over whole traces (gemini.py). */
module CacheRuns {
  import opened Text
  import opened TurnCache

  /** A call hits exactly when an entry of its key has not expired. */
  lemma HitIff(now: int, es: seq<Event>, ss: seq<State>, i: nat, r: Request)
    requires Trace(now, es, ss) && i < |es| && es[i] == LooksUp(r)
    ensures if exists x | x in ss[i].slots :: x.key == KeyOf(r) && ss[i].now < x.expiresAt
            then ss[i + 1].waiting == ss[i].waiting
                 && exists x | x in ss[i].slots :: x.key == KeyOf(r) && ss[i].now < x.expiresAt
                      && ss[i + 1].answers == ss[i].answers + [Answer(r, Some(x.name), ss[i].now)]
            else ss[i + 1] == ss[i].(waiting := ss[i].waiting + multiset{r})
  {
    hide Inv, KeyOf;
    CacheIsBounded(now, es, ss, i);
    LiveIff(ss[i].slots, KeyOf(r), ss[i].now);
  }

  lemma LiveIff(slots: seq<Slot>, key: string, now: int)
    requires Distinct(slots)
    ensures Live(slots, key, now).Some? <==> exists x | x in slots :: x.key == key && now < x.expiresAt
    ensures Live(slots, key, now).Some? ==>
              Live(slots, key, now).value in slots && Live(slots, key, now).value.key == key
              && now < Live(slots, key, now).value.expiresAt
  {
    if x :| x in slots && x.key == key && now < x.expiresAt {
      var i :| 0 <= i < |slots| && slots[i] == x;
      assert Find(slots, key) == i;
    }
  }

  // ----- how old a hit may be -----

  /** The entry was created at step j, at a time that sets its expiry. */
  predicate BornAt(es: seq<Event>, ss: seq<State>, j: nat, x: Slot)
    requires j < |es| && j < |ss|
  {
    && es[j] == Creates(x.name) && ss[j].holder.Some? && KeyOf(ss[j].holder.value) == x.key
    && x.expiresAt == ss[j].now + 3600 - 60
  }

  lemma {:induction false} EntriesAreBorn(now: int, es: seq<Event>, ss: seq<State>, i: nat, x: Slot)
    requires Trace(now, es, ss) && i < |ss| && x in ss[i].slots
    ensures exists j | 0 <= j < i :: BornAt(es, ss, j, x)
  {
    hide Inv, Step, KeyOf;
    if i == 0 {
      NothingCached(now);
    } else {
      Reachable(now, es, ss, i - 1);
      SlotsCome(ss[i - 1], es[i - 1], ss[i], x);
      if x in ss[i - 1].slots {
        EntriesAreBorn(now, es, ss, i - 1, x);
      } else {
        assert BornAt(es, ss, i - 1, x);
      }
    }
  }

  lemma NothingCached(now: int)
    ensures Start(now).slots == []
  {
  }

  lemma SlotsCome(s: State, e: Event, t: State, x: Slot)
    requires Inv(s) && Step(s, e, t) && x in t.slots
    ensures x in s.slots || (e == Creates(x.name) && s.holder.Some? && KeyOf(s.holder.value) == x.key
                             && x.expiresAt == s.now + 3600 - 60)
  {
    hide Find;
    match e
    case Creates(name) =>
      if s.holder.Some? {
        var put := Put(s.slots, Slot(KeyOf(s.holder.value), name, Expiry(s.now)));
        PutFits(s.slots, Slot(KeyOf(s.holder.value), name, Expiry(s.now)));
        if |put| > MAX_ENTRIES {
          var i: nat :| IsOldest(put, i) && t.slots == Remove(put, i);
          RemoveFits(put, i);
        }
      }
    case Invalidates(r) => RemoveFits(s.slots, Find(s.slots, KeyOf(r)));
    case _ =>
  }

  /** A hit was created for its key less than the life time, a margin taken off, before. */
  lemma HitIsYoung(now: int, es: seq<Event>, ss: seq<State>, i: nat, r: Request, a: Answer)
    requires Trace(now, es, ss) && i < |es| && (es[i] == LooksUp(r) || es[i] == TakesLock(r))
    requires ss[i + 1].answers == ss[i].answers + [a]
    ensures exists j | 0 <= j < i ::
              && a.name.Some? && es[j] == Creates(a.name.value)
              && ss[j].holder.Some? && KeyOf(ss[j].holder.value) == KeyOf(r) && ss[i].now < ss[j].now + 3600 - 60
  {
    hide Inv, KeyOf;
    CacheIsBounded(now, es, ss, i);
    LiveIff(ss[i].slots, KeyOf(r), ss[i].now);
    assert Step(ss[i], es[i], ss[i + 1]);
    assert (ss[i].answers + [a])[|ss[i].answers|] == a;
    var x := Live(ss[i].slots, KeyOf(r), ss[i].now).value;
    EntriesAreBorn(now, es, ss, i, x);
    var j :| 0 <= j < i && BornAt(es, ss, j, x);
    assert es[j] == Creates(a.name.value);
  }

  lemma SlotStays(s: State, e: Event, t: State, x: Slot)
    requires Inv(s) && Step(s, e, t) && x in s.slots
    requires !e.Creates? && !(e.Invalidates? && KeyOf(e.request) == x.key)
    ensures x in t.slots
  {
    if e.Invalidates? {
      RemoveFits(s.slots, Find(s.slots, KeyOf(e.request)));
      var i :| 0 <= i < |s.slots| && s.slots[i] == x;
    }
  }

  /** And until something else is created or its key is invalidated, the entry answers for exactly that long. */
  lemma {:induction false} EntryAnswersFor(now: int, es: seq<Event>, ss: seq<State>, j: nat, i: nat)
    requires Trace(now, es, ss) && j < i < |ss| && es[j].Creates? && ss[j].holder.Some?
    requires forall k | j < k < i ::
               !es[k].Creates? && !(es[k].Invalidates? && KeyOf(es[k].request) == KeyOf(ss[j].holder.value))
    ensures Slot(KeyOf(ss[j].holder.value), es[j].name, ss[j].now + 3600 - 60) in ss[i].slots
    ensures var hit := Live(ss[i].slots, KeyOf(ss[j].holder.value), ss[i].now);
            hit == if ss[i].now < ss[j].now + 3600 - 60
                   then Some(Slot(KeyOf(ss[j].holder.value), es[j].name, ss[j].now + 3600 - 60)) else None
    decreases i
  {
    hide Inv, Step, KeyOf, Find;
    var key := KeyOf(ss[j].holder.value);
    var x := Slot(key, es[j].name, ss[j].now + 3600 - 60);
    Reachable(now, es, ss, i - 1);
    CacheIsBounded(now, es, ss, i);
    if i == j + 1 {
      CreateKeeps(ss[j], es[j].name, ss[i]);
      IsStored(ss[i].slots, x, ss[i].now);
    } else {
      EntryAnswersFor(now, es, ss, j, i - 1);
      SlotStays(ss[i - 1], es[i - 1], ss[i], x);
    }
    FoundIs(ss[i].slots, x);
  }

  lemma IsStored(slots: seq<Slot>, x: Slot, now: int)
    requires Live(slots, x.key, now) == Some(x)
    ensures x in slots
  {
  }

  lemma FoundIs(slots: seq<Slot>, x: Slot)
    requires Distinct(slots) && x in slots
    ensures Find(slots, x.key) < |slots| && slots[Find(slots, x.key)] == x
  {
    var i :| 0 <= i < |slots| && slots[i] == x;
    assert Find(slots, x.key) == i;
  }

  /** A creation drops another key's entry only from a full cache, only one, and only one that expires first. */
  lemma EvictsOldest(now: int, es: seq<Event>, ss: seq<State>, i: nat, x: Slot)
    requires Trace(now, es, ss) && i < |es| && es[i].Creates? && ss[i].holder.Some?
    requires x in ss[i].slots && x.key != KeyOf(ss[i].holder.value) && x !in ss[i + 1].slots
    ensures |ss[i].slots| == 16
    ensures forall y | y in ss[i].slots && y != x :: y in ss[i + 1].slots && x.expiresAt <= y.expiresAt
  {
    hide Inv, KeyOf;
    Reachable(now, es, ss, i);
    CacheIsBounded(now, es, ss, i);
    assert Step(ss[i], es[i], ss[i + 1]);
    var s := Slot(KeyOf(ss[i].holder.value), es[i].name, Expiry(ss[i].now));
    PutFits(ss[i].slots, s);
    PutKeepsOthers(ss[i].slots, s);
    var put := Put(ss[i].slots, s);
    assert |put| > MAX_ENTRIES;
    var k: nat :| IsOldest(put, k) && ss[i + 1].slots == Remove(put, k);
    RemoveFits(put, k);
    forall y | y in ss[i].slots && y != x ensures y in ss[i + 1].slots && x.expiresAt <= y.expiresAt {
      OnlyOneGone(put, k, x, y);
    }
  }

  lemma PutKeepsOthers(slots: seq<Slot>, s: Slot)
    ensures forall y | y in slots && y.key != s.key :: y in Put(slots, s)
    ensures Find(slots, s.key) == |slots| ==> forall y | y in slots :: y in Put(slots, s)
  {
    var i := Find(slots, s.key);
    forall y | y in slots && y.key != s.key ensures y in Put(slots, s) {
      var j :| 0 <= j < |slots| && slots[j] == y;
      assert Put(slots, s)[j] == y;
    }
  }

  lemma OnlyOneGone(put: seq<Slot>, k: nat, x: Slot, y: Slot)
    requires Distinct(put) && IsOldest(put, k) && x in put && x !in Remove(put, k) && y in put && y != x
    ensures y in Remove(put, k) && x.expiresAt <= y.expiresAt
  {
    RemoveFits(put, k);
    var i :| 0 <= i < |put| && put[i] == x;
    var j :| 0 <= j < |put| && put[j] == y;
  }

  /** Invalidating takes exactly that key's entry away. */
  lemma InvalidatedMisses(now: int, es: seq<Event>, ss: seq<State>, i: nat, r: Request, x: Slot)
    requires Trace(now, es, ss) && i < |es| && es[i] == Invalidates(r)
    ensures x in ss[i + 1].slots <==> x in ss[i].slots && x.key != KeyOf(r)
  {
    hide Inv, KeyOf;
    CacheIsBounded(now, es, ss, i);
    Reachable(now, es, ss, i);
    assert Step(ss[i], es[i], ss[i + 1]);
    var k := Find(ss[i].slots, KeyOf(r));
    RemoveFits(ss[i].slots, k);
    if x in ss[i + 1].slots && k < |ss[i].slots| { GoneIs(ss[i].slots, k, x); }
    if x in ss[i].slots && x.key != KeyOf(r) { SlotStays(ss[i], es[i], ss[i + 1], x); }
  }

  lemma GoneIs(slots: seq<Slot>, k: nat, x: Slot)
    requires Distinct(slots) && k < |slots| && x in Remove(slots, k)
    ensures x.key != slots[k].key
  {
    hide Distinct;
    var j :| 0 <= j < |Remove(slots, k)| && Remove(slots, k)[j] == x;
    var m := if j < k then j else j + 1;
    assert slots[m] == x && m != k;
    OtherKey(slots, k, m);
  }

  lemma OtherKey(slots: seq<Slot>, k: nat, m: nat)
    requires Distinct(slots) && k < |slots| && m < |slots| && m != k
    ensures slots[m].key != slots[k].key
  {
  }

  // ----- every caller -----

  function Calls(es: seq<Event>, r: Request): nat {
    if es == [] then 0 else Calls(es[..|es| - 1], r) + if es[|es| - 1] == LooksUp(r) then 1 else 0
  }

  function AnswersTo(answers: seq<Answer>, r: Request): nat {
    if answers == [] then 0
    else AnswersTo(answers[..|answers| - 1], r) + if answers[|answers| - 1].request == r then 1 else 0
  }

  lemma OneMoreAnswer(answers: seq<Answer>, a: Answer, r: Request)
    ensures AnswersTo(answers + [a], r) == AnswersTo(answers, r) + if a.request == r then 1 else 0
  {
    assert (answers + [a])[..|answers|] == answers;
  }

  /** Answered, waiting for the lock, or creating. */
  function Accounted(s: State, r: Request): nat {
    AnswersTo(s.answers, r) + s.waiting[r] + if s.holder == Some(r) then 1 else 0
  }

  lemma StepAccounts(s: State, e: Event, t: State, r: Request)
    requires Step(s, e, t)
    ensures Accounted(t, r) == Accounted(s, r) + if e == LooksUp(r) then 1 else 0
  {
    hide AnswersTo, KeyOf, Live, Stores;
    if |t.answers| > |s.answers| {
      var a := t.answers[|s.answers|];
      assert t.answers == s.answers + [a];
      OneMoreAnswer(s.answers, a, r);
    }
  }

  /** In every trace no call is lost or answered twice. */
  lemma {:induction false} CallersAreConserved(now: int, es: seq<Event>, ss: seq<State>, i: nat, r: Request)
    requires Trace(now, es, ss) && i < |ss|
    ensures Calls(es[..i], r) == Accounted(ss[i], r)
  {
    hide Step, Accounted;
    if i == 0 {
      NobodyCalled(now, r);
    } else {
      CallersAreConserved(now, es, ss, i - 1, r);
      StepAccounts(ss[i - 1], es[i - 1], ss[i], r);
      assert es[..i][..i - 1] == es[..i - 1];
    }
  }

  lemma NobodyCalled(now: int, r: Request)
    ensures Accounted(Start(now), r) == 0
  {
  }

  /** And none is stuck: the end of a creation frees the lock, and a waiting call that finds it free is answered or
      creates. */
  lemma CallersMoveOn(s: State, e: Event, t: State)
    requires Step(s, e, t)
    ensures e.Creates? || e.GivesUp? ==> t.holder.None?
    ensures e.GivesUp? && s.holder.Some? ==> t.answers == s.answers + [Answer(s.holder.value, None, s.now)]
    ensures e.TakesLock? && s.holder.None? && e.request in s.waiting ==>
              && t.waiting == s.waiting - multiset{e.request}
              && (t.holder == Some(e.request) || |t.answers| == |s.answers| + 1)
  {
    hide KeyOf, Live, Stores;
  }
}
