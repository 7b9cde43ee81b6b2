/** The turn context cache under interleaved callers (gemini.py). One event is one stretch between two awaits. */
module TurnCache {
  import opened Text

  const TTL_SECONDS := 3600
  const SAFETY_MARGIN_SECONDS := 60
  const MAX_ENTRIES := 16

  /** What a caller wants cached. */
  datatype Request = Request(model: string, prefix: string)

  /** The cache is keyed by a digest of this text, taken here for the digest itself. */
  function KeyOf(r: Request): string {
    r.model + "\n" + r.prefix
  }

  /** Model names are single lines, so the text determines both parts. */
  lemma KeyDetermines(a: Request, b: Request)
    requires '\n' !in a.model && '\n' !in b.model && KeyOf(a) == KeyOf(b)
    ensures a == b
  {
    FirstBreak(a);
    FirstBreak(b);
    assert KeyOf(a)[..|a.model|] == a.model && KeyOf(b)[..|b.model|] == b.model;
    assert KeyOf(a)[|a.model| + 1..] == a.prefix && KeyOf(b)[|b.model| + 1..] == b.prefix;
  }

  lemma FirstBreak(r: Request)
    requires '\n' !in r.model
    ensures |KeyOf(r)| > |r.model| && KeyOf(r)[|r.model|] == '\n'
    ensures forall k | 0 <= k < |r.model| :: KeyOf(r)[k] != '\n'
  {
  }

  /** One entry of the dictionary; the sequence is its insertion order. */
  datatype Slot = Slot(key: string, name: string, expiresAt: int)

  function Find(slots: seq<Slot>, key: string): (i: nat)
    ensures i <= |slots|
    ensures i < |slots| ==> slots[i].key == key
    ensures forall j | 0 <= j < i :: slots[j].key != key
  {
    if slots == [] || slots[0].key == key then 0 else 1 + Find(slots[1..], key)
  }

  /** The entry for `key`, if it is there and has not expired. */
  function Live(slots: seq<Slot>, key: string, now: int): Option<Slot> {
    var i := Find(slots, key);
    if i < |slots| && now < slots[i].expiresAt then Some(slots[i]) else None
  }

  function Put(slots: seq<Slot>, s: Slot): seq<Slot> {
    var i := Find(slots, s.key);
    if i < |slots| then slots[i := s] else slots + [s]
  }

  function Remove(slots: seq<Slot>, i: nat): seq<Slot> {
    if i < |slots| then slots[..i] + slots[i + 1..] else slots
  }

  /** The first entry with the least expiry. */
  predicate IsOldest(slots: seq<Slot>, i: nat) {
    && i < |slots|
    && (forall j | 0 <= j < |slots| :: slots[i].expiresAt <= slots[j].expiresAt)
    && (forall j | 0 <= j < i :: slots[i].expiresAt < slots[j].expiresAt)
  }

  /** The entries after storing one: at most one other entry had to go, the oldest. */
  ghost predicate Stores(before: seq<Slot>, s: Slot, after: seq<Slot>) {
    var put := Put(before, s);
    if |put| <= MAX_ENTRIES then after == put else exists i :: IsOldest(put, i) && after == Remove(put, i)
  }

  // ----- interleaved callers -----

  datatype Answer = Answer(request: Request, name: Option<string>, at: int)

  datatype State = State(
    now: int,
    slots: seq<Slot>,
    waiting: multiset<Request>,
    holder: Option<Request>,
    made: set<(Request, string)>,
    answers: seq<Answer>)

  datatype Event =
    | Tick(seconds: nat)
    | LooksUp(request: Request)
    | TakesLock(request: Request)
    | Creates(name: string)
    | GivesUp
    | Invalidates(request: Request)

  function Answered(s: State, r: Request, name: Option<string>): State {
    s.(answers := s.answers + [Answer(r, name, s.now)])
  }

  function Expiry(now: int): int {
    now + TTL_SECONDS - SAFETY_MARGIN_SECONDS
  }

  /** The possible outcomes of an event; one that cannot happen changes nothing. */
  ghost predicate Step(s: State, e: Event, t: State) {
    match e
    case Tick(seconds) => t == s.(now := s.now + seconds)
    case LooksUp(r) =>
      var hit := Live(s.slots, KeyOf(r), s.now);
      t == if hit.Some? then Answered(s, r, Some(hit.value.name)) else s.(waiting := s.waiting + multiset{r})
    case TakesLock(r) =>
      if s.holder.Some? || r !in s.waiting then t == s
      else
        var entered := s.(waiting := s.waiting - multiset{r});
        var hit := Live(s.slots, KeyOf(r), s.now);
        t == if hit.Some? then Answered(entered, r, Some(hit.value.name)) else entered.(holder := Some(r))
    case Creates(name) =>
      if s.holder.None? then t == s
      else
        var r := s.holder.value;
        && t == Answered(s, r, Some(name)).(slots := t.slots, holder := None, made := s.made + {(r, name)})
        && Stores(s.slots, Slot(KeyOf(r), name, Expiry(s.now)), t.slots)
    case GivesUp => t == if s.holder.None? then s else Answered(s, s.holder.value, None).(holder := None)
    case Invalidates(r) => t == s.(slots := Remove(s.slots, Find(s.slots, KeyOf(r))))
  }

  function Start(now: int): State {
    State(now, [], multiset{}, None, {}, [])
  }

  /** `ss` are the states along `es`. */
  ghost predicate Trace(now: int, es: seq<Event>, ss: seq<State>) {
    && |ss| == |es| + 1 && ss[0] == Start(now)
    && forall i | 0 <= i < |es| :: Step(ss[i], es[i], ss[i + 1])
  }

  // ----- the invariant -----

  predicate Distinct(slots: seq<Slot>) {
    forall i, j | 0 <= i < j < |slots| :: slots[i].key != slots[j].key
  }

  /** No entry outlives one made now, and each was made for a request with its key. */
  ghost predicate SlotFits(s: State, x: Slot) {
    x.expiresAt <= Expiry(s.now) && exists r :: (r, x.name) in s.made && KeyOf(r) == x.key
  }

  ghost predicate Inv(s: State) {
    && |s.slots| <= MAX_ENTRIES && Distinct(s.slots)
    && (forall x | x in s.slots :: SlotFits(s, x))
    && (forall a | a in s.answers && a.name.Some? :: exists r :: (r, a.name.value) in s.made && KeyOf(r) == KeyOf(a.request))
  }

  lemma PutFits(slots: seq<Slot>, x: Slot)
    requires Distinct(slots)
    ensures Distinct(Put(slots, x)) && x in Put(slots, x)
    ensures forall y | y in Put(slots, x) :: y == x || y in slots
    ensures |Put(slots, x)| == |slots| + if Find(slots, x.key) == |slots| then 1 else 0
  {
    var i := Find(slots, x.key);
    assert Put(slots, x)[i] == x;
    if i < |slots| {
      forall j | 0 <= j < |slots| && j != i ensures slots[j].key != x.key {}
    }
  }

  lemma RemoveFits(slots: seq<Slot>, i: nat)
    requires Distinct(slots)
    ensures Distinct(Remove(slots, i))
    ensures forall y | y in Remove(slots, i) :: y in slots
    ensures i < |slots| ==> |Remove(slots, i)| == |slots| - 1
    ensures forall j | 0 <= j < |slots| && j != i :: slots[j] in Remove(slots, i)
  {
    if i < |slots| {
      var less := Remove(slots, i);
      forall j | 0 <= j < |slots| && j != i ensures slots[j] in less {
        assert slots[j] == less[if j < i then j else j - 1];
      }
    }
  }

  /** Storing keeps the bound, and what was just stored is still there after the trim. */
  lemma StoreFits(before: seq<Slot>, x: Slot, after: seq<Slot>)
    requires Distinct(before) && |before| <= MAX_ENTRIES && Stores(before, x, after)
    requires forall y | y in before :: y.expiresAt <= x.expiresAt
    ensures Distinct(after) && |after| <= MAX_ENTRIES && x in after
    ensures forall y | y in after :: y == x || y in before
  {
    hide Distinct, Find;
    PutFits(before, x);
    var put := Put(before, x);
    if |put| > MAX_ENTRIES {
      var i: nat :| IsOldest(put, i) && after == Remove(put, i);
      RemoveFits(put, i);
      assert put == before + [x] && put[0].expiresAt <= x.expiresAt && put[|before|] == x;
      assert i != |before|;
    }
  }

  lemma LiveFits(s: State, r: Request)
    requires Inv(s) && Live(s.slots, KeyOf(r), s.now).Some?
    ensures var x := Live(s.slots, KeyOf(r), s.now).value;
            s.now < x.expiresAt && exists q :: (q, x.name) in s.made && KeyOf(q) == KeyOf(r)
  {
    var x := Live(s.slots, KeyOf(r), s.now).value;
    assert x in s.slots && SlotFits(s, x);
  }

  lemma AnswerKeeps(s: State, r: Request, name: Option<string>)
    requires Inv(s) && (name.Some? ==> exists q :: (q, name.value) in s.made && KeyOf(q) == KeyOf(r))
    ensures Inv(Answered(s, r, name))
  {
    var t := Answered(s, r, name);
    forall x | x in t.slots ensures SlotFits(t, x) { assert SlotFits(s, x); }
  }

  lemma CreateKeeps(s: State, name: string, t: State)
    requires Inv(s) && s.holder.Some? && Step(s, Creates(name), t)
    ensures Inv(t)
    ensures Live(t.slots, KeyOf(s.holder.value), t.now) == Some(Slot(KeyOf(s.holder.value), name, Expiry(s.now)))
  {
    var r := s.holder.value;
    var x := Slot(KeyOf(r), name, Expiry(s.now));
    forall y | y in s.slots ensures y.expiresAt <= x.expiresAt { assert SlotFits(s, y); }
    StoreFits(s.slots, x, t.slots);
    assert (r, name) in t.made;
    forall y | y in t.slots ensures SlotFits(t, y) {
      if y != x { assert SlotFits(s, y); }
    }
    var i :| 0 <= i < |t.slots| && t.slots[i] == x;
    assert Find(t.slots, x.key) == i;
  }

  lemma StepKeeps(s: State, e: Event, t: State)
    requires Inv(s) && Step(s, e, t)
    ensures Inv(t)
  {
    match e
    case Tick(_) => forall x | x in t.slots ensures SlotFits(t, x) { assert SlotFits(s, x); }
    case LooksUp(r) =>
      if Live(s.slots, KeyOf(r), s.now).Some? {
        LiveFits(s, r);
        AnswerKeeps(s, r, Some(Live(s.slots, KeyOf(r), s.now).value.name));
      } else {
        forall x | x in t.slots ensures SlotFits(t, x) { assert SlotFits(s, x); }
      }
    case TakesLock(r) =>
      forall x | x in t.slots ensures SlotFits(t, x) { assert SlotFits(s, x); }
      if Live(s.slots, KeyOf(r), s.now).Some? { LiveFits(s, r); }
    case Creates(name) => if s.holder.Some? { CreateKeeps(s, name, t); }
    case GivesUp => if s.holder.Some? { AnswerKeeps(s, s.holder.value, None); }
    case Invalidates(r) =>
      RemoveFits(s.slots, Find(s.slots, KeyOf(r)));
      forall x | x in t.slots ensures SlotFits(t, x) { assert SlotFits(s, x); }
  }

  // ----- over every interleaving -----

  lemma {:induction false} Reachable(now: int, es: seq<Event>, ss: seq<State>, i: nat)
    requires Trace(now, es, ss) && i < |ss|
    ensures Inv(ss[i])
  {
    hide Inv, Step;
    if i == 0 {
      StartFits(now);
    } else {
      Reachable(now, es, ss, i - 1);
      StepKeeps(ss[i - 1], es[i - 1], ss[i]);
    }
  }

  lemma StartFits(now: int)
    ensures Inv(Start(now))
  {
  }

  /** Never more than sixteen entries, one per key. */
  lemma CacheIsBounded(now: int, es: seq<Event>, ss: seq<State>, i: nat)
    requires Trace(now, es, ss) && i < |ss|
    ensures |ss[i].slots| <= 16 && Distinct(ss[i].slots)
  {
    hide Trace, Step;
    Reachable(now, es, ss, i);
  }

  /** Every name handed out was created for exactly that model and prefix. */
  lemma AnswersMatchRequests(now: int, es: seq<Event>, ss: seq<State>, i: nat, a: Answer)
    requires Trace(now, es, ss) && i < |ss| && a in ss[i].answers && a.name.Some?
    requires '\n' !in a.request.model && forall m | m in ss[i].made :: '\n' !in m.0.model
    ensures (a.request, a.name.value) in ss[i].made
  {
    hide Trace, Step, KeyOf;
    Reachable(now, es, ss, i);
    var r :| (r, a.name.value) in ss[i].made && KeyOf(r) == KeyOf(a.request);
    KeyDetermines(r, a.request);
  }

  /** A hit is an entry that has not expired; a miss asks for the lock, and only the lock holder creates: a creation
      starts only while no live entry exists, and none starts while another is in flight. */
  lemma CreationIsGuarded(s: State, e: Event, t: State)
    requires Step(s, e, t) && t.holder.Some? && t.holder != s.holder
    ensures s.holder.None? && e == TakesLock(t.holder.value) && Live(s.slots, KeyOf(t.holder.value), s.now).None?
  {
  }

  lemma HitIsUnexpired(s: State, r: Request, t: State)
    requires Step(s, LooksUp(r), t) || (Step(s, TakesLock(r), t) && s.holder.None? && r in s.waiting)
    requires |t.answers| > |s.answers|
    ensures exists x | x in s.slots :: x.key == KeyOf(r) && s.now < x.expiresAt
                                       && t.answers == s.answers + [Answer(r, Some(x.name), s.now)]
  {
    var x := Live(s.slots, KeyOf(r), s.now).value;
    assert x in s.slots;
  }

  /** With a clock that does not run back, the entry just created is the one the next caller hits. */
  lemma CreatedEntrySurvivesTrim(now: int, es: seq<Event>, ss: seq<State>, i: nat, name: string)
    requires Trace(now, es, ss) && i < |es| && es[i] == Creates(name) && ss[i].holder.Some?
    ensures var hit := Live(ss[i + 1].slots, KeyOf(ss[i].holder.value), ss[i + 1].now);
            hit.Some? && hit.value.name == name
  {
    hide Inv;
    Reachable(now, es, ss, i);
    CreateKeeps(ss[i], name, ss[i + 1]);
  }

  // ----- the dictionary in place -----

  class Adapter {
    var slots: seq<Slot>

    constructor ()
      ensures slots == []
    {
      slots := [];
    }

    method LookUp(r: Request, now: int) returns (name: Option<string>)
      ensures name == match Live(slots, KeyOf(r), now) case None => None case Some(x) => Some(x.name)
    {
      var i := Index(KeyOf(r));
      if i < |slots| && now < slots[i].expiresAt { return Some(slots[i].name); }
      return None;
    }

    method Index(key: string) returns (i: nat)
      ensures i == Find(slots, key)
    {
      i := 0;
      while i < |slots| && slots[i].key != key
        invariant i <= |slots| && forall j | 0 <= j < i :: slots[j].key != key
      {
        i := i + 1;
      }
    }

    method OldestIndex() returns (oldest: nat)
      requires slots != []
      ensures IsOldest(slots, oldest)
    {
      oldest := 0;
      for k := 1 to |slots|
        invariant IsOldest(slots[..k], oldest)
      {
        assert slots[..k + 1] == slots[..k] + [slots[k]];
        if slots[k].expiresAt < slots[oldest].expiresAt { oldest := k; }
      }
      assert slots[..|slots|] == slots;
    }

    /** What follows a successful creation, in one stretch. */
    method StoreCreated(r: Request, name: string, now: int)
      modifies this
      ensures Stores(old(slots), Slot(KeyOf(r), name, Expiry(now)), slots)
    {
      var x := Slot(KeyOf(r), name, now + TTL_SECONDS - SAFETY_MARGIN_SECONDS);
      var i := Index(x.key);
      slots := if i < |slots| then slots[i := x] else slots + [x];
      ghost var put := slots;
      if |slots| > MAX_ENTRIES {
        var oldest := OldestIndex();
        slots := slots[..oldest] + slots[oldest + 1..];
        assert IsOldest(put, oldest) && slots == Remove(put, oldest);
      }
    }

    method Invalidate(r: Request)
      modifies this
      ensures slots == Remove(old(slots), Find(old(slots), KeyOf(r)))
    {
      var i := Index(KeyOf(r));
      if i < |slots| { slots := slots[..i] + slots[i + 1..]; }
    }
  }
}
