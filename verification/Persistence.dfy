/** The stored snapshot of a session's policy state (persistence.py). */
module Persistence {
  import opened Text
  import opened PolicyTypes

  // ----- stored form -----

  /** Field names of the stored objects. */
  datatype Key =
    | VERSION | FSM_STATE | RECENT_QUESTION_IDS | HINT_STATE | TURNS_IN_HINT_STATE | CONSECUTIVE_LOW_STRUGGLE_TURNS
    | RECOVERY_STATE | TURNS_IN_RECOVERY | TURNS_SINCE_META_FEEDBACK | TURNS_SINCE_PROCEDURAL_UNBLOCK
    | SIGNALS_WINDOW | LENGTH_WINDOW | LATENCY_WINDOW | LAST_MILO_RESPONSE_TS
    | HEDGING | CONFUSION | ATTEMPT_PRESENT | DIRECT_ANSWER_REQUEST | PROCEDURAL_REQUEST | DONE_SIGNAL | LATENCY_Z
    | LENGTH_Z | REVISIONS
    | OtherKey(name: string)

  datatype Json =
    | Null
    | Bool(b: bool)
    | Int(n: int)
    | Num(r: real)
    | Str(s: string)
    | List(items: seq<Json>)
    | Obj(fields: map<Key, Json>)

  const CURRENT_VERSION := 2

  /** Everything that survives a reconnect. */
  datatype Snapshot = Snapshot(
    version: int,
    carry: Carry,
    signalsWindow: seq<UserSignals>,
    lengthWindow: seq<int>,
    latencyWindow: seq<real>,
    lastResponse: Option<real>)

  // ----- writing -----

  function FsmName(x: FsmState): string {
    match x case PLANNING => "PLANNING" case MONITORING => "MONITORING" case EVALUATION => "EVALUATION"
  }

  function RungName(x: Rung): string {
    match x
    case PROCESS_FEEDBACK => "PROCESS_FEEDBACK" case STRATEGIC_HINT => "STRATEGIC_HINT"
    case FOCUSED_HINT => "FOCUSED_HINT" case BOTTOM_OUT => "BOTTOM_OUT"
  }

  function RecoveryName(x: Recovery): string {
    match x case NORMAL => "NORMAL" case STABILIZE => "STABILIZE"
  }

  function DumpSignals(s: UserSignals): Json {
    Obj(map[HEDGING := Num(s.hedging), CONFUSION := Num(s.confusion), ATTEMPT_PRESENT := Bool(s.attemptPresent),
            DIRECT_ANSWER_REQUEST := Bool(s.directAnswerRequest), PROCEDURAL_REQUEST := Bool(s.proceduralRequest),
            DONE_SIGNAL := Bool(s.doneSignal), LATENCY_Z := Num(s.latencyZ), LENGTH_Z := Num(s.lengthZ),
            REVISIONS := Int(s.revisions)])
  }

  function DumpStrings(xs: seq<string>): (r: seq<Json>) {
    if xs == [] then [] else [Str(xs[0])] + DumpStrings(xs[1..])
  }

  function DumpInts(xs: seq<int>): (r: seq<Json>) {
    if xs == [] then [] else [Int(xs[0])] + DumpInts(xs[1..])
  }

  function DumpReals(xs: seq<real>): (r: seq<Json>) {
    if xs == [] then [] else [Num(xs[0])] + DumpReals(xs[1..])
  }

  function DumpAllSignals(xs: seq<UserSignals>): (r: seq<Json>) {
    if xs == [] then [] else [DumpSignals(xs[0])] + DumpAllSignals(xs[1..])
  }

  function Serialize(s: Snapshot): map<Key, Json> {
    map[VERSION := Int(s.version),
        FSM_STATE := Str(FsmName(s.carry.fsm)),
        RECENT_QUESTION_IDS := List(DumpStrings(s.carry.recentIds)),
        HINT_STATE := Str(RungName(s.carry.hint)),
        TURNS_IN_HINT_STATE := Int(s.carry.turnsInHint),
        CONSECUTIVE_LOW_STRUGGLE_TURNS := Int(s.carry.lowStreak),
        RECOVERY_STATE := Str(RecoveryName(s.carry.recovery)),
        TURNS_IN_RECOVERY := Int(s.carry.turnsInRecovery),
        TURNS_SINCE_META_FEEDBACK := Int(s.carry.sinceMeta),
        TURNS_SINCE_PROCEDURAL_UNBLOCK := Int(s.carry.sinceProc),
        SIGNALS_WINDOW := List(DumpAllSignals(s.signalsWindow)),
        LENGTH_WINDOW := List(DumpInts(s.lengthWindow)),
        LATENCY_WINDOW := List(DumpReals(s.latencyWindow)),
        LAST_MILO_RESPONSE_TS := if s.lastResponse.Some? then Num(s.lastResponse.value) else Null]
  }

  // ----- reading -----

  function Get(blob: map<Key, Json>, key: Key, default: Json): Json {
    if key in blob then blob[key] else default
  }

  function ReadInt(j: Json): Option<int> {
    match j
    case Int(n) => Some(n)
    case Bool(b) => Some(if b then 1 else 0)
    case Num(r) => if r == r.Floor as real then Some(r.Floor) else None
    case _ => None
  }

  function ReadNat(j: Json): Option<nat> {
    match ReadInt(j) case None => None case Some(n) => if n >= 0 then Some(n) else None
  }

  function ReadReal(j: Json): Option<real> {
    match j
    case Num(r) => Some(r)
    case Int(n) => Some(n as real)
    case Bool(b) => Some(if b then 1.0 else 0.0)
    case _ => None
  }

  function ReadBool(j: Json): Option<bool> {
    match j
    case Bool(b) => Some(b)
    case Int(n) => if n == 1 then Some(true) else if n == 0 then Some(false) else None
    case Num(r) => if r == 1.0 then Some(true) else if r == 0.0 then Some(false) else None
    case _ => None
  }

  function ReadFsm(j: Json): Option<FsmState> {
    if j == Str("PLANNING") then Some(PLANNING)
    else if j == Str("MONITORING") then Some(MONITORING)
    else if j == Str("EVALUATION") then Some(EVALUATION)
    else None
  }

  function ReadRung(j: Json): Option<Rung> {
    if j == Str("PROCESS_FEEDBACK") then Some(PROCESS_FEEDBACK)
    else if j == Str("STRATEGIC_HINT") then Some(STRATEGIC_HINT)
    else if j == Str("FOCUSED_HINT") then Some(FOCUSED_HINT)
    else if j == Str("BOTTOM_OUT") then Some(BOTTOM_OUT)
    else None
  }

  function ReadRecovery(j: Json): Option<Recovery> {
    if j == Str("NORMAL") then Some(NORMAL) else if j == Str("STABILIZE") then Some(STABILIZE) else None
  }

  function ReadSignals(j: Json): Option<UserSignals> {
    if !j.Obj? then None
    else
      var hedging := ReadReal(Get(j.fields, HEDGING, Num(0.0)));
      var confusion := ReadReal(Get(j.fields, CONFUSION, Num(0.0)));
      var attempt := ReadBool(Get(j.fields, ATTEMPT_PRESENT, Bool(true)));
      var direct := ReadBool(Get(j.fields, DIRECT_ANSWER_REQUEST, Bool(false)));
      var procedural := ReadBool(Get(j.fields, PROCEDURAL_REQUEST, Bool(false)));
      var done := ReadBool(Get(j.fields, DONE_SIGNAL, Bool(false)));
      var latencyZ := ReadReal(Get(j.fields, LATENCY_Z, Num(0.0)));
      var lengthZ := ReadReal(Get(j.fields, LENGTH_Z, Num(0.0)));
      var revisions := ReadInt(Get(j.fields, REVISIONS, Int(0)));
      if hedging.None? || confusion.None? || attempt.None? || direct.None? || procedural.None? || done.None?
         || latencyZ.None? || lengthZ.None? || revisions.None? then None
      else
        var s := Signals(hedging.value, confusion.value, attempt.value, direct.value, procedural.value, done.value,
                         latencyZ.value, lengthZ.value, revisions.value);
        if InRange(s) then Some(s) else None
  }

  function ReadStrings(js: seq<Json>): Option<seq<string>> {
    if js == [] then Some([])
    else
      var rest := ReadStrings(js[1..]);
      if js[0].Str? && rest.Some? then Some([js[0].s] + rest.value) else None
  }

  function ReadInts(js: seq<Json>): Option<seq<int>> {
    if js == [] then Some([])
    else
      var x, rest := ReadInt(js[0]), ReadInts(js[1..]);
      if x.Some? && rest.Some? then Some([x.value] + rest.value) else None
  }

  function ReadReals(js: seq<Json>): Option<seq<real>> {
    if js == [] then Some([])
    else
      var x, rest := ReadReal(js[0]), ReadReals(js[1..]);
      if x.Some? && rest.Some? then Some([x.value] + rest.value) else None
  }

  function ReadAllSignals(js: seq<Json>): Option<seq<UserSignals>> {
    if js == [] then Some([])
    else
      var x, rest := ReadSignals(js[0]), ReadAllSignals(js[1..]);
      if x.Some? && rest.Some? then Some([x.value] + rest.value) else None
  }

  function Items(j: Json): Option<seq<Json>> {
    if j.List? then Some(j.items) else None
  }

  /** int(x), as Python converts it; None for what raises. */
  function VersionOf(j: Json): Option<int> {
    match j
    case Int(n) => Some(n)
    case Bool(b) => Some(if b then 1 else 0)
    case Num(r) => Some(if r >= 0.0 then r.Floor else -((-r).Floor))
    case _ => None
  }

  function ReadCarry(blob: map<Key, Json>): Option<Carry> {
    var fsm := ReadFsm(Get(blob, FSM_STATE, Str("PLANNING")));
    var ids := Items(Get(blob, RECENT_QUESTION_IDS, List([])));
    var hint := ReadRung(Get(blob, HINT_STATE, Str("PROCESS_FEEDBACK")));
    var turnsInHint := ReadNat(Get(blob, TURNS_IN_HINT_STATE, Int(0)));
    var lowStreak := ReadNat(Get(blob, CONSECUTIVE_LOW_STRUGGLE_TURNS, Int(0)));
    var recovery := ReadRecovery(Get(blob, RECOVERY_STATE, Str("NORMAL")));
    var turnsInRecovery := ReadNat(Get(blob, TURNS_IN_RECOVERY, Int(0)));
    var sinceMeta := ReadNat(Get(blob, TURNS_SINCE_META_FEEDBACK, Int(99)));
    var sinceProc := ReadNat(Get(blob, TURNS_SINCE_PROCEDURAL_UNBLOCK, Int(99)));
    if fsm.None? || ids.None? || ReadStrings(ids.value).None? || hint.None? || turnsInHint.None? || lowStreak.None?
       || recovery.None? || turnsInRecovery.None? || sinceMeta.None? || sinceProc.None? then None
    else Some(Carry(fsm.value, ReadStrings(ids.value).value, hint.value, turnsInHint.value, lowStreak.value,
                    recovery.value, turnsInRecovery.value, sinceMeta.value, sinceProc.value))
  }

  function Validate(blob: map<Key, Json>): Option<Snapshot> {
    var version := ReadInt(Get(blob, VERSION, Int(CURRENT_VERSION)));
    var carry := ReadCarry(blob);
    var signals := Items(Get(blob, SIGNALS_WINDOW, List([])));
    var lengths := Items(Get(blob, LENGTH_WINDOW, List([])));
    var latencies := Items(Get(blob, LATENCY_WINDOW, List([])));
    var ts := Get(blob, LAST_MILO_RESPONSE_TS, Null);
    if version.None? || carry.None? || signals.None? || lengths.None? || latencies.None? then None
    else if ReadAllSignals(signals.value).None? || ReadInts(lengths.value).None? || ReadReals(latencies.value).None? then None
    else if ts != Null && ReadReal(ts).None? then None
    else Some(Snapshot(version.value, carry.value, ReadAllSignals(signals.value).value, ReadInts(lengths.value).value,
                       ReadReals(latencies.value).value, if ts == Null then None else ReadReal(ts)))
  }

  /** An absent, newer or malformed snapshot counts as none; missing fields take their defaults. */
  function Deserialize(blob: map<Key, Json>): Option<Snapshot> {
    if blob == map[] then None
    else
      var version := VersionOf(Get(blob, VERSION, Int(0)));
      if version.None? || version.value > CURRENT_VERSION then None else Validate(blob)
  }

  // ----- round trip -----

  lemma {:induction false} StringsRoundTrip(xs: seq<string>)
    ensures ReadStrings(DumpStrings(xs)) == Some(xs)
  {
    if xs != [] {
      StringsRoundTrip(xs[1..]);
      assert DumpStrings(xs)[1..] == DumpStrings(xs[1..]) && [xs[0]] + xs[1..] == xs;
    }
  }

  lemma {:induction false} IntsRoundTrip(xs: seq<int>)
    ensures ReadInts(DumpInts(xs)) == Some(xs)
  {
    if xs != [] {
      IntsRoundTrip(xs[1..]);
      assert DumpInts(xs)[1..] == DumpInts(xs[1..]) && [xs[0]] + xs[1..] == xs;
    }
  }

  lemma {:induction false} RealsRoundTrip(xs: seq<real>)
    ensures ReadReals(DumpReals(xs)) == Some(xs)
  {
    if xs != [] {
      RealsRoundTrip(xs[1..]);
      assert DumpReals(xs)[1..] == DumpReals(xs[1..]) && [xs[0]] + xs[1..] == xs;
    }
  }

  lemma OneSignalsRoundTrip(s: UserSignals)
    ensures ReadSignals(DumpSignals(s)) == Some(s)
  {
  }

  lemma {:induction false} SignalsRoundTrip(xs: seq<UserSignals>)
    ensures ReadAllSignals(DumpAllSignals(xs)) == Some(xs)
  {
    hide ReadSignals, DumpSignals;
    if xs != [] {
      OneSignalsRoundTrip(xs[0]);
      SignalsRoundTrip(xs[1..]);
      assert DumpAllSignals(xs)[1..] == DumpAllSignals(xs[1..]) && [xs[0]] + xs[1..] == xs;
    }
  }

  lemma NamesRoundTrip(c: Carry)
    ensures ReadFsm(Str(FsmName(c.fsm))) == Some(c.fsm)
    ensures ReadRung(Str(RungName(c.hint))) == Some(c.hint)
    ensures ReadRecovery(Str(RecoveryName(c.recovery))) == Some(c.recovery)
  {
    assert "PLANNING"[0] != "MONITORING"[0] && "PLANNING"[0] != "EVALUATION"[0] && "MONITORING"[0] != "EVALUATION"[0];
    assert "PROCESS_FEEDBACK"[0] != "STRATEGIC_HINT"[0] && "PROCESS_FEEDBACK"[0] != "FOCUSED_HINT"[0]
        && "PROCESS_FEEDBACK"[0] != "BOTTOM_OUT"[0] && "STRATEGIC_HINT"[0] != "FOCUSED_HINT"[0]
        && "STRATEGIC_HINT"[0] != "BOTTOM_OUT"[0] && "FOCUSED_HINT"[0] != "BOTTOM_OUT"[0];
    assert "NORMAL"[0] != "STABILIZE"[0];
  }

  lemma CarryRoundTrip(s: Snapshot)
    ensures ReadCarry(Serialize(s)) == Some(s.carry)
  {
    hide ReadFsm, ReadRung, ReadRecovery, FsmName, RungName, RecoveryName, ReadStrings, DumpStrings, DumpInts, DumpReals,
         DumpAllSignals;
    NamesRoundTrip(s.carry);
    StringsRoundTrip(s.carry.recentIds);
  }

  /** What is stored is what is read back. */
  lemma RoundTrip(s: Snapshot)
    requires s.version <= CURRENT_VERSION
    ensures Deserialize(Serialize(s)) == Some(s)
  {
    hide ReadCarry, FsmName, RungName, RecoveryName, DumpStrings, DumpInts, DumpReals, DumpAllSignals, ReadInts,
         ReadReals, ReadAllSignals;
    CarryRoundTrip(s);
    IntsRoundTrip(s.lengthWindow);
    RealsRoundTrip(s.latencyWindow);
    SignalsRoundTrip(s.signalsWindow);
    assert VERSION in Serialize(s);
  }

  /** A snapshot from before the procedural cooldown existed reads as one whose cooldown has long passed. */
  lemma OlderSnapshotReads(s: Snapshot)
    requires s.version <= CURRENT_VERSION
    ensures Deserialize(Serialize(s) - {TURNS_SINCE_PROCEDURAL_UNBLOCK}) == Some(s.(carry := s.carry.(sinceProc := 99)))
  {
    hide Deserialize, Serialize;
    FieldsOf(s);
    assert VERSION in Serialize(s) - {TURNS_SINCE_PROCEDURAL_UNBLOCK};
    MissingFieldsDefault(s, {TURNS_SINCE_PROCEDURAL_UNBLOCK});
  }

  /** A newer server's snapshot is refused whatever else it holds. */
  lemma NewerSnapshotRefused(blob: map<Key, Json>, version: int)
    requires VERSION in blob && blob[VERSION] == Int(version)
    ensures version > CURRENT_VERSION ==> Deserialize(blob) == None
    ensures version <= CURRENT_VERSION ==> Deserialize(blob) == Validate(blob)
  {
    hide Validate;
    assert blob != map[];
  }

  // ----- what can be read -----

  /** A stored number that stands for a whole one, as booleans and integral floats do. */
  predicate IsWhole(j: Json) {
    j.Int? || j.Bool? || (j.Num? && j.r.Floor as real == j.r)
  }

  predicate IsCount(j: Json) {
    IsWhole(j) && (j.Int? ==> j.n >= 0) && (j.Num? ==> j.r >= 0.0)
  }

  predicate IsNumber(j: Json) {
    j.Int? || j.Bool? || j.Num?
  }

  predicate IsListOf(j: Json, p: Json -> bool) {
    j.List? && forall x | x in j.items :: p(x)
  }

  /** Present and not of this kind. */
  predicate Spoils(blob: map<Key, Json>, key: Key, p: Json -> bool) {
    key in blob && !p(blob[key])
  }

  lemma {:induction false} ListsReadIff(js: seq<Json>)
    ensures ReadStrings(js).Some? <==> forall x | x in js :: x.Str?
    ensures ReadInts(js).Some? <==> forall x | x in js :: IsWhole(x)
    ensures ReadReals(js).Some? <==> forall x | x in js :: IsNumber(x)
    ensures ReadAllSignals(js).Some? <==> forall x | x in js :: ReadSignals(x).Some?
  {
    hide ReadSignals;
    if js != [] {
      ListsReadIff(js[1..]);
      WholeIff(js[0]);
      assert forall x :: x in js <==> x == js[0] || x in js[1..];
    }
  }

  lemma WholeIff(j: Json)
    ensures ReadInt(j).Some? <==> IsWhole(j)
    ensures ReadNat(j).Some? <==> IsCount(j)
    ensures ReadReal(j).Some? <==> IsNumber(j)
  {
  }

  predicate IsPhase(j: Json) {
    j in [Str("PLANNING"), Str("MONITORING"), Str("EVALUATION")]
  }

  predicate IsRung(j: Json) {
    j in [Str("PROCESS_FEEDBACK"), Str("STRATEGIC_HINT"), Str("FOCUSED_HINT"), Str("BOTTOM_OUT")]
  }

  predicate IsRecovery(j: Json) {
    j in [Str("NORMAL"), Str("STABILIZE")]
  }

  lemma NamesReadIff(j: Json)
    ensures ReadFsm(j).Some? <==> IsPhase(j)
    ensures ReadRung(j).Some? <==> IsRung(j)
    ensures ReadRecovery(j).Some? <==> IsRecovery(j)
  {
  }

  /** When the carried values can be read: no field that is there spoils them; one that is missing never does. */
  lemma CarryReadIff(blob: map<Key, Json>)
    ensures ReadCarry(blob).Some? <==>
            && !Spoils(blob, FSM_STATE, IsPhase) && !Spoils(blob, HINT_STATE, IsRung) && !Spoils(blob, RECOVERY_STATE, IsRecovery)
            && !Spoils(blob, RECENT_QUESTION_IDS, (j: Json) => IsListOf(j, (x: Json) => x.Str?))
            && !Spoils(blob, TURNS_IN_HINT_STATE, IsCount) && !Spoils(blob, CONSECUTIVE_LOW_STRUGGLE_TURNS, IsCount)
            && !Spoils(blob, TURNS_IN_RECOVERY, IsCount) && !Spoils(blob, TURNS_SINCE_META_FEEDBACK, IsCount)
            && !Spoils(blob, TURNS_SINCE_PROCEDURAL_UNBLOCK, IsCount)
  {
    hide ReadFsm, ReadRung, ReadRecovery, ReadNat, IsPhase, IsRung, IsRecovery, IsCount, ReadStrings;
    NamesReadIff(Get(blob, FSM_STATE, Str("PLANNING")));
    NamesReadIff(Get(blob, HINT_STATE, Str("PROCESS_FEEDBACK")));
    NamesReadIff(Get(blob, RECOVERY_STATE, Str("NORMAL")));
    WholeIff(Get(blob, TURNS_IN_HINT_STATE, Int(0)));
    WholeIff(Get(blob, CONSECUTIVE_LOW_STRUGGLE_TURNS, Int(0)));
    WholeIff(Get(blob, TURNS_IN_RECOVERY, Int(0)));
    WholeIff(Get(blob, TURNS_SINCE_META_FEEDBACK, Int(99)));
    WholeIff(Get(blob, TURNS_SINCE_PROCEDURAL_UNBLOCK, Int(99)));
    DefaultsRead();
    var ids := Items(Get(blob, RECENT_QUESTION_IDS, List([])));
    if ids.Some? { ListsReadIff(ids.value); }
  }

  lemma DefaultsRead()
    ensures IsPhase(Str("PLANNING")) && IsRung(Str("PROCESS_FEEDBACK")) && IsRecovery(Str("NORMAL"))
    ensures IsCount(Int(0)) && IsCount(Int(99))
  {
  }

  /** A stored snapshot is taken up exactly when it is not empty, not from a newer server, and no field that is there is
      malformed; otherwise the session starts fresh. */
  lemma DeserializeIff(blob: map<Key, Json>)
    ensures Deserialize(blob).Some? <==>
            && blob != map[] && !Spoils(blob, VERSION, IsWhole)
            && (VERSION in blob && blob[VERSION].Int? ==> blob[VERSION].n <= 2)
            && (VERSION in blob && blob[VERSION].Num? ==> blob[VERSION].r <= 2.0)
            && ReadCarry(blob).Some?
            && !Spoils(blob, SIGNALS_WINDOW, (j: Json) => IsListOf(j, (x: Json) => ReadSignals(x).Some?))
            && !Spoils(blob, LENGTH_WINDOW, (j: Json) => IsListOf(j, IsWhole))
            && !Spoils(blob, LATENCY_WINDOW, (j: Json) => IsListOf(j, IsNumber))
            && !Spoils(blob, LAST_MILO_RESPONSE_TS, (j: Json) => j.Null? || IsNumber(j))
  {
    hide ReadCarry, ReadSignals, ReadInts, ReadReals, ReadAllSignals, IsWhole, IsNumber, ReadReal, ReadInt, VersionOf;
    WholeIff(Get(blob, VERSION, Int(CURRENT_VERSION)));
    WholeIff(Get(blob, LAST_MILO_RESPONSE_TS, Null));
    VersionIff(Get(blob, VERSION, Int(0)));
    VersionIff(Int(CURRENT_VERSION));
    var signals := Items(Get(blob, SIGNALS_WINDOW, List([])));
    var lengths := Items(Get(blob, LENGTH_WINDOW, List([])));
    var latencies := Items(Get(blob, LATENCY_WINDOW, List([])));
    if signals.Some? { ListsReadIff(signals.value); }
    if lengths.Some? { ListsReadIff(lengths.value); }
    if latencies.Some? { ListsReadIff(latencies.value); }
  }

  lemma VersionIff(j: Json)
    ensures IsWhole(j) ==> VersionOf(j).Some? && IsNumber(j)
    ensures IsWhole(j) ==>
              (VersionOf(j).value <= CURRENT_VERSION <==> (j.Int? ==> j.n <= 2) && (j.Num? ==> j.r <= 2.0))
    ensures IsWhole(Int(CURRENT_VERSION)) && IsWhole(Int(0))
    ensures !IsNumber(Null)
  {
  }

  /** Whatever fields an older snapshot lacks, each reads as its default and every other as it was stored. */
  lemma MissingFieldsDefault(s: Snapshot, ks: set<Key>)
    requires s.version <= CURRENT_VERSION && Serialize(s) - ks != map[]
    ensures Deserialize(Serialize(s) - ks) ==
            Some(Snapshot(
                   if VERSION in ks then 2 else s.version,
                   Carry(
                     if FSM_STATE in ks then PLANNING else s.carry.fsm,
                     if RECENT_QUESTION_IDS in ks then [] else s.carry.recentIds,
                     if HINT_STATE in ks then PROCESS_FEEDBACK else s.carry.hint,
                     if TURNS_IN_HINT_STATE in ks then 0 else s.carry.turnsInHint,
                     if CONSECUTIVE_LOW_STRUGGLE_TURNS in ks then 0 else s.carry.lowStreak,
                     if RECOVERY_STATE in ks then NORMAL else s.carry.recovery,
                     if TURNS_IN_RECOVERY in ks then 0 else s.carry.turnsInRecovery,
                     if TURNS_SINCE_META_FEEDBACK in ks then 99 else s.carry.sinceMeta,
                     if TURNS_SINCE_PROCEDURAL_UNBLOCK in ks then 99 else s.carry.sinceProc),
                   if SIGNALS_WINDOW in ks then [] else s.signalsWindow,
                   if LENGTH_WINDOW in ks then [] else s.lengthWindow,
                   if LATENCY_WINDOW in ks then [] else s.latencyWindow,
                   if LAST_MILO_RESPONSE_TS in ks then None else s.lastResponse))
  {
    hide ReadCarry, Serialize, ReadInts, ReadReals, ReadAllSignals, DumpInts, DumpReals, DumpAllSignals, DumpStrings;
    var blob := Serialize(s) - ks;
    FieldsOf(s);
    CarryWithout(s, ks);
    IntsRoundTrip(s.lengthWindow);
    RealsRoundTrip(s.latencyWindow);
    SignalsRoundTrip(s.signalsWindow);
    EmptyReads();
  }

  lemma EmptyReads()
    ensures ReadInts([]) == Some([]) && ReadReals([]) == Some([]) && ReadAllSignals([]) == Some([]) && ReadStrings([]) == Some([])
  {
  }

  lemma FieldsOf(s: Snapshot)
    ensures var b := Serialize(s);
            && VERSION in b && b[VERSION] == Int(s.version)
            && FSM_STATE in b && b[FSM_STATE] == Str(FsmName(s.carry.fsm))
            && RECENT_QUESTION_IDS in b && b[RECENT_QUESTION_IDS] == List(DumpStrings(s.carry.recentIds))
            && HINT_STATE in b && b[HINT_STATE] == Str(RungName(s.carry.hint))
            && TURNS_IN_HINT_STATE in b && b[TURNS_IN_HINT_STATE] == Int(s.carry.turnsInHint)
            && CONSECUTIVE_LOW_STRUGGLE_TURNS in b && b[CONSECUTIVE_LOW_STRUGGLE_TURNS] == Int(s.carry.lowStreak)
            && RECOVERY_STATE in b && b[RECOVERY_STATE] == Str(RecoveryName(s.carry.recovery))
            && TURNS_IN_RECOVERY in b && b[TURNS_IN_RECOVERY] == Int(s.carry.turnsInRecovery)
            && TURNS_SINCE_META_FEEDBACK in b && b[TURNS_SINCE_META_FEEDBACK] == Int(s.carry.sinceMeta)
            && TURNS_SINCE_PROCEDURAL_UNBLOCK in b && b[TURNS_SINCE_PROCEDURAL_UNBLOCK] == Int(s.carry.sinceProc)
            && SIGNALS_WINDOW in b && b[SIGNALS_WINDOW] == List(DumpAllSignals(s.signalsWindow))
            && LENGTH_WINDOW in b && b[LENGTH_WINDOW] == List(DumpInts(s.lengthWindow))
            && LATENCY_WINDOW in b && b[LATENCY_WINDOW] == List(DumpReals(s.latencyWindow))
            && LAST_MILO_RESPONSE_TS in b
            && b[LAST_MILO_RESPONSE_TS] == (if s.lastResponse.Some? then Num(s.lastResponse.value) else Null)
  {
    hide FsmName, RungName, RecoveryName, DumpStrings, DumpInts, DumpReals, DumpAllSignals;
  }

  lemma CarryWithout(s: Snapshot, ks: set<Key>)
    ensures ReadCarry(Serialize(s) - ks) ==
            Some(Carry(
                   if FSM_STATE in ks then PLANNING else s.carry.fsm,
                   if RECENT_QUESTION_IDS in ks then [] else s.carry.recentIds,
                   if HINT_STATE in ks then PROCESS_FEEDBACK else s.carry.hint,
                   if TURNS_IN_HINT_STATE in ks then 0 else s.carry.turnsInHint,
                   if CONSECUTIVE_LOW_STRUGGLE_TURNS in ks then 0 else s.carry.lowStreak,
                   if RECOVERY_STATE in ks then NORMAL else s.carry.recovery,
                   if TURNS_IN_RECOVERY in ks then 0 else s.carry.turnsInRecovery,
                   if TURNS_SINCE_META_FEEDBACK in ks then 99 else s.carry.sinceMeta,
                   if TURNS_SINCE_PROCEDURAL_UNBLOCK in ks then 99 else s.carry.sinceProc))
  {
    hide Serialize, ReadFsm, ReadRung, ReadRecovery, FsmName, RungName, RecoveryName, ReadStrings, DumpStrings;
    FieldsOf(s);
    NamesRoundTrip(s.carry);
    StringsRoundTrip(s.carry.recentIds);
    EmptyReads();
    NamesRoundTrip(s.carry.(fsm := PLANNING, hint := PROCESS_FEEDBACK, recovery := NORMAL));
    DefaultNames();
  }

  lemma DefaultNames()
    ensures FsmName(PLANNING) == "PLANNING" && RungName(PROCESS_FEEDBACK) == "PROCESS_FEEDBACK" && RecoveryName(NORMAL) == "NORMAL"
  {
  }
}
