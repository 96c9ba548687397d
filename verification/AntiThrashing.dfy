/** The anti-thrashing gate over whole runs: the token bucket, the detector and the pause annotation as
    ReconcileAsset joins them (pkg/engine/patcher.go, pkg/throttling). */
module AntiThrashing {
  import opened JsonTree
  import opened TokenBuckets
  import opened Thrashing
  import Coalescing
  import opened Patching

  // One call. -----------------------------------------------------------------------------------------

  /** The key that a result passed through the token bucket with. */
  function GateKey(r: Result): Option<string> {
    match r
    case Throttled(k, _, _) => Some(k)
    case ApplyErrored(k) => Some(k)
    case ApplySkipped(k) => Some(k)
    case Applied(k, _) => Some(k)
    case _ => None
  }

  /** The key that a call resets because the user removed the pause annotation. */
  function ResumeKey(s: State, inp: Inputs): Option<string> {
    match FrontOf(inp)
    case Done(_) => None
    case Go(desired, live) => if Resumes(s, desired, live) then Some(Key(desired)) else None
  }

  function Without<V>(m: map<string, V>, key: Option<string>): map<string, V> {
    if key.Some? then m - {key.value} else m
  }

  function GateBuckets(l: Limits, bs: Buckets, r: Result, now: int): Buckets
    requires l.capacity > 0
  {
    if GateKey(r).Some? then AfterAllow(l, bs, GateKey(r).value, now) else bs
  }

  function GateDetector(d: States, r: Result): States {
    match r
    case Throttled(k, _, _) =>
      var t := AfterThrottle(d, k);
      if Attempts(t, k) >= THRASHING_THRESHOLD then AfterEmit(t, k) else t
    case Applied(k, _) => d - {k}
    case _ => d
  }

  /** The verdict of a throttle is that of the detector. */
  predicate DetectorSays(d: States, r: Result) {
    r.Throttled? ==>
      var t := AfterThrottle(d, r.key);
      && (r.pause <==> Attempts(t, r.key) >= THRASHING_THRESHOLD)
      && (r.counted <==> EmitsMetric(t, r.key))
  }

  /** What a call does to buckets and detector, read off its result. */
  predicate Explained(l: Limits, bs: Buckets, d: States, now: int, n: Next)
    requires l.capacity > 0
  {
    && n.state.buckets == GateBuckets(l, bs, n.result, now)
    && n.state.detector == GateDetector(d, n.result)
    && (GateKey(n.result).Some? ==> (n.result.Throttled? <==> !Allows(l, bs, GateKey(n.result).value, now)))
    && DetectorSays(d, n.result)
  }

  lemma ThrottledEffects(l: Limits, s: State, key: string, now: int)
    requires l.capacity > 0 && !Allows(l, s.buckets, key, now)
    ensures Explained(l, s.buckets, s.detector, now,
                      AfterThrottled(s.(buckets := AfterAllow(l, s.buckets, key, now)), key))
  {}

  lemma AllowedEffects(settings: Settings, s: State, inp: Inputs, d: Object, key: string)
    requires settings.limits.capacity > 0 && Allows(settings.limits, s.buckets, key, inp.now)
    ensures var l, now := settings.limits, inp.now;
            var allowed := s.(buckets := AfterAllow(l, s.buckets, key, now));
            Explained(l, s.buckets, s.detector, now, AfterApply(settings, allowed, inp, d, key))
  {}

  lemma GateEffects(settings: Settings, s: State, inp: Inputs, d: Object)
    requires settings.limits.capacity > 0
    ensures Explained(settings.limits, s.buckets, s.detector, inp.now, ThrottleAndApply(settings, s, inp, d))
  {
    if Allows(settings.limits, s.buckets, Key(d), inp.now) {
      AllowedEffects(settings, s, inp, d, Key(d));
    } else {
      ThrottledEffects(settings.limits, s, Key(d), inp.now);
    }
  }

  lemma DecisionEffects(settings: Settings, s: State, inp: Inputs, d: Object, c: Coalescing.Decision)
    requires settings.limits.capacity > 0
    ensures Explained(settings.limits, s.buckets, s.detector, inp.now, AfterDecision(settings, s, inp, d, c))
  {
    GateEffects(settings, s.(store := c.store), inp, d);
  }

  lemma EffectEffects(settings: Settings, s: State, inp: Inputs, live: Option<Object>, effect: Effect)
    requires settings.limits.capacity > 0
    ensures Explained(settings.limits, s.buckets, s.detector, inp.now, AfterEffect(settings, s, inp, live, effect))
  {
    if effect.Drifted? {
      var c := Coalesced(settings, s, inp, effect.desired, live, effect.hash);
      DecisionEffects(settings, s, inp, effect.desired, c);
    }
  }

  lemma CallEffects(settings: Settings, s: State, inp: Inputs)
    requires settings.limits.capacity > 0
    ensures Explained(settings.limits, Without(s.buckets, ResumeKey(s, inp)), Without(s.detector, ResumeKey(s, inp)),
                      inp.now, Reconciled(settings, s, inp))
  {
    if FrontOf(inp).Go? {
      var Go(desired, live) := FrontOf(inp);
      EffectEffects(settings, AfterResume(s, desired, live), inp, live, EffectOf(settings, inp, desired, live));
    }
  }

  lemma PausedIff(o: Object)
    ensures IsPaused(o) <==>
            && MapReadable(o, "annotations")
            && NodeAt(Obj(o), ["metadata", "annotations", "platform.kubevirt.io/reconcile-paused"]) == Leaf(Str("true"))
  {
    StringMapEntry(o, "annotations", PAUSED_ANNOTATION, "true");
  }

  /** A call that reads the live object as paused changes nothing and applies nothing. */
  lemma PausedIsInert(settings: Settings, s: State, inp: Inputs)
    requires settings.limits.capacity > 0
    requires LiveObject(inp).Some? && LiveObject(inp).value.Some? && IsPaused(LiveObject(inp).value.value)
    ensures var n := Reconciled(settings, s, inp); n.state == s && !n.result.Applied? && GateKey(n.result).None?
  {}

  // Whole runs. ---------------------------------------------------------------------------------------

  datatype Event =
    | ResumeReset(key: string)
    | Throttle(key: string, pause: bool, counted: bool)
    | Success(key: string)
    | ProcessRestart

  function ResultEvents(r: Result): seq<Event> {
    match r
    case Throttled(k, pause, counted) => [Throttle(k, pause, counted)]
    case Applied(k, _) => [Success(k)]
    case _ => []
  }

  ghost function Events(settings: Settings, s: State, turn: Turn): seq<Event>
    requires settings.limits.capacity > 0
  {
    match turn
    case Reconcile(inp) => CallEvents(ResumeKey(s, inp), Reconciled(settings, s, inp).result)
    case Restart(_) => [ProcessRestart]
    case _ => []
  }

  ghost function Trace(settings: Settings, s: State, turns: seq<Turn>): seq<Event>
    requires settings.limits.capacity > 0
    decreases |turns|
  {
    if turns == [] then []
    else
      var before := turns[..|turns| - 1];
      Trace(settings, s, before) + Events(settings, StateAfter(settings, s, before), turns[|turns| - 1])
  }

  /** An episode for a key ends at a successful apply, a resume reset or a restart. */
  predicate EndsEpisode(e: Event, key: string) {
    match e
    case ResumeReset(k) => k == key
    case Success(k) => k == key
    case ProcessRestart => true
    case Throttle(_, _, _) => false
  }

  /** Throttles of a key since its episode began, when there had been `n` before. */
  function Throttles(n: int, events: seq<Event>, key: string): int {
    if events == [] then n
    else
      var before, last := Throttles(n, events[..|events| - 1], key), events[|events| - 1];
      if EndsEpisode(last, key) then 0
      else if last.Throttle? && last.key == key then before + 1
      else before
  }

  lemma {:induction false} ThrottlesConcat(n: int, a: seq<Event>, b: seq<Event>, key: string)
    ensures Throttles(n, a + b, key) == Throttles(Throttles(n, a, key), b, key)
  {
    if b == [] {
      assert a + b == a;
    } else {
      ThrottlesConcat(n, a, b[..|b| - 1], key);
      assert (a + b)[..|a + b| - 1] == a + b[..|b| - 1];
    }
  }

  /** The detector has counted `n` throttles, and has emitted from the third on. */
  predicate Counts(d: States, key: string, n: int) {
    && Attempts(d, key) == n >= 0
    && (key in d ==> (d[key].metricEmitted <==> n >= THRASHING_THRESHOLD))
  }

  /** A throttle event says what the count at it calls for. */
  predicate SpeaksTrue(e: Event, key: string, n: int) {
    e.Throttle? && e.key == key ==>
      (e.pause <==> n >= THRASHING_THRESHOLD) && (e.counted <==> n == THRASHING_THRESHOLD)
  }

  /** Every throttle event does, when there had been `n` throttles before. */
  ghost predicate AllTrue(n: int, evs: seq<Event>, key: string) {
    forall i :: 0 <= i < |evs| ==> SpeaksTrue(evs[i], key, Throttles(n, evs[..i + 1], key))
  }

  lemma AllTrueConcat(n: int, a: seq<Event>, b: seq<Event>, key: string)
    requires AllTrue(n, a, key) && AllTrue(Throttles(n, a, key), b, key)
    ensures AllTrue(n, a + b, key)
  {
    var evs := a + b;
    forall i | 0 <= i < |evs| ensures SpeaksTrue(evs[i], key, Throttles(n, evs[..i + 1], key))
    {
      if i < |a| {
        assert evs[..i + 1] == a[..i + 1];
      } else {
        var j := i - |a|;
        assert evs[..i + 1] == a + b[..j + 1];
        ThrottlesConcat(n, a, b[..j + 1], key);
      }
    }
  }

  function CallEvents(reset: Option<string>, r: Result): seq<Event> {
    (if reset.Some? then [ResumeReset(reset.value)] else []) + ResultEvents(r)
  }

  lemma OneEvent(n: int, e: Event, key: string)
    ensures Throttles(n, [e], key) ==
            if EndsEpisode(e, key) then 0 else if e.Throttle? && e.key == key then n + 1 else n
  {
    assert [e][..0] == [] && Throttles(n, [e][..0], key) == n;
  }

  lemma ResultCounts(d: States, r: Result, key: string, n: int)
    requires Counts(d, key, n) && DetectorSays(d, r)
    ensures var evs := ResultEvents(r);
            && |evs| <= 1
            && Counts(GateDetector(d, r), key, Throttles(n, evs, key))
            && (evs != [] ==> SpeaksTrue(evs[0], key, Throttles(n, evs, key)))
  {
    var evs := ResultEvents(r);
    if evs != [] { assert evs[..0] == []; }
  }

  lemma CallCounts(d: States, reset: Option<string>, r: Result, key: string, n: int)
    requires Counts(d, key, n) && DetectorSays(Without(d, reset), r)
    ensures var evs := CallEvents(reset, r);
            && Counts(GateDetector(Without(d, reset), r), key, Throttles(n, evs, key))
            && AllTrue(n, evs, key)
  {
    var first := if reset.Some? then [ResumeReset(reset.value)] else [];
    var evs := CallEvents(reset, r);
    var m := Throttles(n, first, key);
    assert m == (if reset == Some(key) then 0 else n) by {
      if reset.Some? { OneEvent(n, first[0], key); }
    }
    assert Counts(Without(d, reset), key, m);
    ThrottlesConcat(n, first, ResultEvents(r), key);
    ResultCounts(Without(d, reset), r, key, m);
    forall i | 0 <= i < |evs| ensures SpeaksTrue(evs[i], key, Throttles(n, evs[..i + 1], key))
    {
      if i >= |first| { assert evs[..i + 1] == evs; }
    }
  }

  lemma TurnCounts(settings: Settings, s: State, turn: Turn, key: string, n: int)
    requires settings.limits.capacity > 0 && Counts(s.detector, key, n)
    ensures var evs := Events(settings, s, turn);
            && Counts(After(settings, s, turn).detector, key, Throttles(n, evs, key))
            && AllTrue(n, evs, key)
  {
    if turn.Reconcile? {
      CallEffects(settings, s, turn.inputs);
      CallCounts(s.detector, ResumeKey(s, turn.inputs), Reconciled(settings, s, turn.inputs).result, key, n);
    } else if turn.Restart? {
      assert [ProcessRestart][..0] == [];
    }
  }

  /** In every run from a fresh start, the detector counts the throttles of the episode, a pause is
      signalled exactly from the third on, and the counter rises exactly at the third. */
  lemma {:induction false} RunCounts(settings: Settings, s: State, turns: seq<Turn>, key: string)
    requires settings.limits.capacity > 0 && s.detector == map[]
    ensures var evs := Trace(settings, s, turns);
            && Counts(StateAfter(settings, s, turns).detector, key, Throttles(0, evs, key))
            && AllTrue(0, evs, key)
    decreases |turns|
  {
    if turns != [] {
      var before, last := turns[..|turns| - 1], turns[|turns| - 1];
      RunCounts(settings, s, before, key);
      var a, t := Trace(settings, s, before), StateAfter(settings, s, before);
      var b := Events(settings, t, last);
      var n := Throttles(0, a, key);
      TurnCounts(settings, t, last, key, n);
      ThrottlesConcat(0, a, b, key);
      AllTrueConcat(0, a, b, key);
    }
  }

  /** In every run from a fresh start, a call takes the user to have resumed a resource exactly when it reads the live
      object as unpaused after at least three throttles in the episode. */
  lemma ResumesIff(settings: Settings, s: State, turns: seq<Turn>, inp: Inputs, key: string)
    requires settings.limits.capacity > 0 && s.detector == map[]
    ensures ResumeKey(StateAfter(settings, s, turns), inp) == Some(key) <==>
            && FrontOf(inp).Go? && FrontOf(inp).live.Some? && Key(FrontOf(inp).desired) == key
            && Throttles(0, Trace(settings, s, turns), key) >= 3
  {
    RunCounts(settings, s, turns, key);
  }

  /** An event at which the thrashing counter of a key rises. */
  predicate Rise(e: Event, key: string) { e.Throttle? && e.key == key && e.counted }

  /** The counter rises at most once per episode: between two rises the episode ended. */
  lemma CounterRisesOncePerEpisode(settings: Settings, s: State, turns: seq<Turn>, key: string, i: nat, j: nat)
    returns (k: nat)
    requires settings.limits.capacity > 0 && s.detector == map[]
    requires i < j < |Trace(settings, s, turns)|
    requires Rise(Trace(settings, s, turns)[i], key) && Rise(Trace(settings, s, turns)[j], key)
    ensures i < k < j && EndsEpisode(Trace(settings, s, turns)[k], key)
  {
    var evs := Trace(settings, s, turns);
    RunCounts(settings, s, turns, key);
    assert SpeaksTrue(evs[i], key, Throttles(0, evs[..i + 1], key));
    assert SpeaksTrue(evs[j], key, Throttles(0, evs[..j + 1], key));
    if k' :| i < k' < j && EndsEpisode(evs[k'], key) {
      k := k';
    } else {
      CountGrows(evs, key, i, j);
      assert false;
    }
  }

  lemma {:induction false} CountGrows(evs: seq<Event>, key: string, i: nat, j: nat)
    requires i < j < |evs| && evs[j].Throttle? && evs[j].key == key
    requires forall k :: i < k < j ==> !EndsEpisode(evs[k], key)
    ensures Throttles(0, evs[..j + 1], key) > Throttles(0, evs[..i + 1], key)
  {
    assert evs[..j + 1][..j] == evs[..j];
    CountKeeps(evs, key, i, j - 1);
  }

  lemma {:induction false} CountKeeps(evs: seq<Event>, key: string, i: nat, j: nat)
    requires i <= j < |evs|
    requires forall k :: i < k <= j ==> !EndsEpisode(evs[k], key)
    ensures Throttles(0, evs[..j + 1], key) >= Throttles(0, evs[..i + 1], key)
    decreases j
  {
    if i < j {
      CountKeeps(evs, key, i, j - 1);
      assert evs[..j + 1][..j] == evs[..j];
    }
  }

  // Applies obey the rate bound. ------------------------------------------------------------------------

  /** The bucket operations of one call. */
  function CallOps(reset: Option<string>, r: Result, now: int): seq<Op> {
    (if reset.Some? then [Reset(reset.value, now)] else [])
    + (if GateKey(r).Some? then [Allow(GateKey(r).value, now)] else [])
  }

  ghost function TurnOps(settings: Settings, s: State, turn: Turn): seq<Op>
    requires settings.limits.capacity > 0
  {
    match turn
    case Reconcile(inp) => CallOps(ResumeKey(s, inp), Reconciled(settings, s, inp).result, inp.now)
    case Sweep(at) => [Cleanup(at, DEFAULT_TTL)]
    case Restart(at) => [ResetAll(at)]
    case Exclude(_, _, _) => []
  }

  ghost function RunOps(settings: Settings, s: State, turns: seq<Turn>): seq<Op>
    requires settings.limits.capacity > 0
    decreases |turns|
  {
    if turns == [] then []
    else
      var before := turns[..|turns| - 1];
      RunOps(settings, s, before) + TurnOps(settings, StateAfter(settings, s, before), turns[|turns| - 1])
  }

  /** How many calls of a run apply the resource of `key` at instants from `lo` to `hi`. */
  ghost function AppliedWithin(settings: Settings, s: State, turns: seq<Turn>, key: string, lo: int, hi: int): nat
    requires settings.limits.capacity > 0
    decreases |turns|
  {
    if turns == [] then 0
    else
      var before := turns[..|turns| - 1];
      AppliedWithin(settings, s, before, key, lo, hi)
      + if AppliesNow(settings, StateAfter(settings, s, before), turns[|turns| - 1], key, lo, hi) then 1 else 0
  }

  ghost predicate AppliesNow(settings: Settings, s: State, turn: Turn, key: string, lo: int, hi: int)
    requires settings.limits.capacity > 0
  {
    && turn.Reconcile? && lo <= turn.inputs.now <= hi
    && AppliesKey(Reconciled(settings, s, turn.inputs).result, key)
  }

  predicate AppliesKey(r: Result, key: string) { r.Applied? && r.key == key }

  function TimeOf(turn: Turn, t: int): int {
    match turn case Reconcile(inp) => inp.now case Sweep(at) => at case Restart(at) => at case Exclude(_, _, _) => t
  }

  function ClockAfter(turns: seq<Turn>, t: int): int {
    if turns == [] then t else TimeOf(turns[|turns| - 1], ClockAfter(turns[..|turns| - 1], t))
  }

  /** The clock never runs backwards from `t` on. */
  predicate Clocked(turns: seq<Turn>, t: int) {
    turns != [] ==>
      var before := turns[..|turns| - 1];
      Clocked(before, t) && ClockAfter(before, t) <= TimeOf(turns[|turns| - 1], ClockAfter(before, t))
  }

  /** The turn is a resume reset of the key or a restart, at an instant from `lo` to `hi`. */
  predicate BreaksNow(s: State, turn: Turn, key: string, lo: int, hi: int) {
    match turn
    case Reconcile(inp) => ResumeKey(s, inp) == Some(key) && lo <= inp.now <= hi
    case Restart(at) => lo <= at <= hi
    case _ => false
  }

  /** How many turns of a run are resume resets of the key or restarts, at instants from `lo` to `hi`. */
  ghost function BreaksWithin(settings: Settings, s: State, turns: seq<Turn>, key: string, lo: int, hi: int): nat
    requires settings.limits.capacity > 0
    decreases |turns|
  {
    if turns == [] then 0
    else
      var before := turns[..|turns| - 1];
      BreaksWithin(settings, s, before, key, lo, hi)
      + if BreaksNow(StateAfter(settings, s, before), turns[|turns| - 1], key, lo, hi) then 1 else 0
  }

  lemma OneOp(l: Limits, bs: Buckets, op: Op, key: string, t: int, lo: int, hi: int)
    requires l.capacity > 0 && t <= op.now && (op.Cleanup? ==> l.window <= op.ttl)
    ensures StepAll(l, bs, [op]) == Step(l, bs, op) && Timely(l, [op], t) && EndTime([op], t) == op.now
    ensures GrantedWithin(l, bs, [op], key, lo, hi) == if Grants(l, bs, op, key) && lo <= op.now <= hi then 1 else 0
    ensures ResetsWithin([op], key, lo, hi) == if Clears(op, key) && lo <= op.now <= hi then 1 else 0
  {
    assert [op][1..] == [];
  }

  lemma CallOpsEffect(l: Limits, bs: Buckets, d: States, reset: Option<string>, n: Next, key: string, now: int, t: int,
                      lo: int, hi: int)
    requires l.capacity > 0 && Explained(l, Without(bs, reset), d, now, n) && t <= now
    ensures var ops := CallOps(reset, n.result, now);
            && StepAll(l, bs, ops) == n.state.buckets
            && Timely(l, ops, t) && EndTime(ops, t) <= now
            && (AppliesKey(n.result, key) && lo <= now <= hi ==> GrantedWithin(l, bs, ops, key, lo, hi) >= 1)
            && ResetsWithin(ops, key, lo, hi) == if reset == Some(key) && lo <= now <= hi then 1 else 0
  {
    var first := if reset.Some? then [Reset(reset.value, now)] else [];
    var second := if GateKey(n.result).Some? then [Allow(GateKey(n.result).value, now)] else [];
    HistoryConcat(l, bs, first, second, key, t, lo, hi);
    if reset.Some? { OneOp(l, bs, first[0], key, t, lo, hi); }
    if GateKey(n.result).Some? { OneOp(l, Without(bs, reset), second[0], key, EndTime(first, t), lo, hi); }
  }

  lemma TurnOpsEffect(settings: Settings, s: State, turn: Turn, key: string, t: int, lo: int, hi: int)
    requires settings.limits.capacity > 0 && settings.limits.window <= DEFAULT_TTL && t <= TimeOf(turn, t)
    ensures var ops := TurnOps(settings, s, turn);
            && StepAll(settings.limits, s.buckets, ops) == After(settings, s, turn).buckets
            && Timely(settings.limits, ops, t) && EndTime(ops, t) <= TimeOf(turn, t)
            && (AppliesNow(settings, s, turn, key, lo, hi) ==>
               GrantedWithin(settings.limits, s.buckets, ops, key, lo, hi) >= 1)
            && ResetsWithin(ops, key, lo, hi) == if BreaksNow(s, turn, key, lo, hi) then 1 else 0
  {
    match turn
    case Reconcile(inp) =>
      CallEffects(settings, s, inp);
      var k := ResumeKey(s, inp);
      CallOpsEffect(settings.limits, s.buckets, Without(s.detector, k), k, Reconciled(settings, s, inp), key, inp.now,
        t, lo, hi);
    case Sweep(at) => OneOp(settings.limits, s.buckets, Cleanup(at, DEFAULT_TTL), key, t, lo, hi);
    case Restart(at) => OneOp(settings.limits, s.buckets, ResetAll(at), key, t, lo, hi);
    case Exclude(_, _, _) =>
  }

  lemma {:induction false} RunOpsEffect(settings: Settings, s: State, turns: seq<Turn>, key: string, t: int, lo: int,
                                        hi: int)
    requires settings.limits.capacity > 0 && settings.limits.window <= DEFAULT_TTL && Clocked(turns, t)
    ensures var ops := RunOps(settings, s, turns);
            && StepAll(settings.limits, s.buckets, ops) == StateAfter(settings, s, turns).buckets
            && Timely(settings.limits, ops, t) && EndTime(ops, t) <= ClockAfter(turns, t)
            && AppliedWithin(settings, s, turns, key, lo, hi) <=
               GrantedWithin(settings.limits, s.buckets, ops, key, lo, hi)
            && ResetsWithin(ops, key, lo, hi) == BreaksWithin(settings, s, turns, key, lo, hi)
    decreases |turns|
  {
    if turns != [] {
      var before, last := turns[..|turns| - 1], turns[|turns| - 1];
      var state := StateAfter(settings, s, before);
      RunOpsEffect(settings, s, before, key, t, lo, hi);
      var a, b := RunOps(settings, s, before), TurnOps(settings, state, last);
      TurnOpsEffect(settings, state, last, key, ClockAfter(before, t), lo, hi);
      HistoryConcat(settings.limits, s.buckets, a, b, key, t, lo, hi);
      TimelyEarlier(settings.limits, b, EndTime(a, t), ClockAfter(before, t));
    }
  }

  lemma TimelyEarlier(l: Limits, ops: seq<Op>, t: int, u: int)
    requires t <= u && Timely(l, ops, u)
    ensures Timely(l, ops, t)
  {}

  /** In every run and any interval, the applies of one resource obey the bucket's bound: one capacity for the interval
      and one more for each resume reset or restart in it, plus the tokens that come back. */
  lemma ApplyRateBound(settings: Settings, s: State, turns: seq<Turn>, key: string, t: int, lo: int, hi: int)
    requires settings.limits.capacity > 0 && settings.limits.TokenDuration() > 0
    requires settings.limits.window <= DEFAULT_TTL
    requires ValidAt(settings.limits, s.buckets, key, t) && lo <= hi && Clocked(turns, t)
    ensures AppliedWithin(settings, s, turns, key, lo, hi)
            <= (BreaksWithin(settings, s, turns, key, lo, hi) + 1) * settings.limits.capacity
               + CeilDiv(hi - lo, settings.limits.TokenDuration())
  {
    RunOpsEffect(settings, s, turns, key, t, lo, hi);
    RateBoundWithResets(settings.limits, s.buckets, RunOps(settings, s, turns), key, t, lo, hi);
  }

  // A pause that was not recorded. ------------------------------------------------------------------------

  /** If the pause annotation could not be written, the object is read unpaused next time, and the call
      cannot tell that from a user's resume: exactly when the object exists, it starts a new episode with a
      full bucket instead of retrying the pause. */
  lemma FailedPauseLooksLikeResume(settings: Settings, s: State, throttled: Inputs, next: Inputs)
    requires settings.limits.capacity > 0
    requires var r := Reconciled(settings, s, throttled).result; r.Throttled? && r.pause
    requires FrontOf(next).Go?
    requires Key(FrontOf(next).desired) == Reconciled(settings, s, throttled).result.key
    ensures var key, s' := Reconciled(settings, s, throttled).result.key, Reconciled(settings, s, throttled).state;
            && ResumeKey(s', next) == (if FrontOf(next).live.Some? then Some(key) else None)
            && (FrontOf(next).live.Some? ==>
               Allows(settings.limits, Without(s'.buckets, ResumeKey(s', next)), key, next.now))
  {
    CallEffects(settings, s, throttled);
  }
}
