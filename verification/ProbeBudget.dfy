/**
 The sampling budget of src/common/call_probe_budget.h under concurrent callers.

 A try-lock (std::atomic_flag, section 32.8 of ISO C++17) guards a sample count and the time of the last sample.
 The lock's acquire and release make the guarded fields sequentially consistent, so a run is an interleaving of the
 steps below: the test-and-set, each guard read, each field access, the clear and the return.
 */
module ProbeBudget {
  const LIMIT: nat := 16
  const EARLY: nat := 4
  const INTERVAL: nat := 20000
  const WORD: nat := 0x1_0000_0000_0000_0000
  const HALF_WORD: nat := 0x1_0000_0000

  /** a - b as a 64-bit machine computes it. */
  function Minus(a: nat, b: nat): nat
    requires a < WORD && b < WORD
  {
    (a - b + WORD) % WORD
  }

  // ---------------------------------------------------------------- one caller

  datatype Budget = Budget(samples: nat, last: nat)

  predicate Open(b: Budget, now: nat) {
    b.samples < LIMIT && (b.samples < EARLY || b.last + INTERVAL <= now)
  }

  /** What an uncontended call does: the sample it takes, zero for none, and the budget it leaves. */
  function Admit(b: Budget, now: nat): (Budget, nat) {
    if Open(b, now) then (Budget(b.samples + 1, now), b.samples + 1) else (b, 0)
  }

  class GameCallProbeBudget {
    var locked: bool
    var samples: nat
    var last: nat

    ghost predicate Valid()
      reads this
    {
      samples <= LIMIT && last < WORD
    }

    constructor ()
      ensures Valid() && !locked && samples == 0 && last == 0
    {
      locked, samples, last := false, 0, 0;
    }

    /** Never waits: a call that finds the lock taken returns zero and changes nothing. */
    method Take(now: nat) returns (sample: nat)
      requires Valid() && now < WORD
      modifies this
      ensures Valid() && locked == old(locked)
      ensures old(locked) ==> sample == 0 && samples == old(samples) && last == old(last)
      ensures !old(locked) ==> (Budget(samples, last), sample) == Admit(Budget(old(samples), old(last)), now)
      ensures !old(locked) ==> (sample != 0 <==> old(samples) < 4 || (old(samples) < 16 && old(last) + 20000 <= now))
      ensures sample != 0 ==> sample == samples == old(samples) + 1 && last == now
      ensures sample == 0 ==> samples == old(samples) && last == old(last)
    {
      if locked {
        return 0;
      }
      locked := true;
      sample := 0;
      if samples < LIMIT && (samples < EARLY || (now >= last && Minus(now, last) >= INTERVAL)) {
        samples := (samples + 1) % HALF_WORD;
        sample := samples;
        last := now;
      }
      locked := false;
    }
  }

  // ---------------------------------------------------------------- interleaved callers

  /** Where a thread stands in its call: the next access it makes, with its local variables. */
  datatype Local =
    | Idle
    | TestAndSet(now: nat)
    | ReadLimit(now: nat)
    | ReadEarly(now: nat)
    | ReadOrder(now: nat)
    | ReadGap(now: nat)
    | LoadSamples(now: nat)
    | StoreSamples(now: nat, value: nat)
    | StoreLast(now: nat, sample: nat)
    | ClearFlag(now: nat, sample: nat)
    | Return(sample: nat)

  /** One call that held the lock, in the order the lock was released. */
  datatype Call = Call(now: nat, sample: nat)

  datatype State = State(flag: bool, samples: nat, last: nat, threads: seq<Local>, log: seq<Call>,
      returned: seq<(nat, nat)>)

  function Initial(n: nat): State {
    State(false, 0, 0, seq(n, _ => Idle), [], [])
  }

  /** One step of a schedule: which thread moves, and the time an idle thread calls with. */
  datatype Tick = Tick(thread: nat, now: nat)

  predicate Ready(s: State, tick: Tick) {
    tick.thread < |s.threads| && tick.now < WORD && s.last < WORD &&
    match s.threads[tick.thread]
    case ReadGap(now) => now < WORD
    case _ => true
  }

  function Step(s: State, tick: Tick): State
    requires Ready(s, tick)
  {
    var t := tick.thread;
    match s.threads[t]
    case Idle => s.(threads := s.threads[t := TestAndSet(tick.now)])
    case TestAndSet(now) =>
      if s.flag then s.(threads := s.threads[t := Return(0)])
      else s.(flag := true, threads := s.threads[t := ReadLimit(now)])
    case ReadLimit(now) => s.(threads :=
      s.threads[t := if s.samples < LIMIT then ReadEarly(now) else ClearFlag(now, 0)])
    case ReadEarly(now) => s.(threads := s.threads[t := if s.samples < EARLY then LoadSamples(now) else ReadOrder(now)])
    case ReadOrder(now) => s.(threads := s.threads[t := if now >= s.last then ReadGap(now) else ClearFlag(now, 0)])
    case ReadGap(now) =>
      s.(threads := s.threads[t := if Minus(now, s.last) >= INTERVAL then LoadSamples(now) else ClearFlag(now, 0)])
    case LoadSamples(now) => s.(threads := s.threads[t := StoreSamples(now, (s.samples + 1) % HALF_WORD)])
    case StoreSamples(now, value) => s.(samples := value, threads := s.threads[t := StoreLast(now, value)])
    case StoreLast(now, sample) => s.(last := now, threads := s.threads[t := ClearFlag(now, sample)])
    case ClearFlag(now, sample) =>
      s.(flag := false, log := s.log + [Call(now, sample)], threads := s.threads[t := Return(sample)])
    case Return(sample) => s.(returned := s.returned + [(t, sample)], threads := s.threads[t := Idle])
  }

  // ---------------------------------------------------------------- the sequential meaning of a log

  /** The budget after the calls of a log, one after another. */
  function After(log: seq<Call>): Budget {
    if log == [] then Budget(0, 0) else Admit(After(log[..|log| - 1]), log[|log| - 1].now).0
  }

  /** Every call of the log got what it would have got with no other caller about. */
  predicate Sequential(log: seq<Call>) {
    log == [] ||
    (Sequential(log[..|log| - 1]) && log[|log| - 1].sample == Admit(After(log[..|log| - 1]), log[|log| - 1].now).1)
  }

  // ---------------------------------------------------------------- the invariant of every run

  predicate Holding(l: Local) {
    !(l.Idle? || l.TestAndSet? || l.Return?)
  }

  /** The guarded fields. */
  function Fields(s: State): Budget { Budget(s.samples, s.last) }

  /** What the lock holder's position says of the fields f, measured against the budget b the finished calls left. */
  predicate HolderOk(l: Local, f: Budget, b: Budget) {
    match l
    case ReadLimit(now) => b == f && now < WORD
    case ReadEarly(now) => b == f && now < WORD && b.samples < LIMIT
    case ReadOrder(now) => b == f && now < WORD && EARLY <= b.samples < LIMIT
    case ReadGap(now) => b == f && now < WORD && EARLY <= b.samples < LIMIT && b.last <= now
    case LoadSamples(now) => b == f && now < WORD && Open(b, now)
    case StoreSamples(now, value) => b == f && now < WORD && Open(b, now) && value == b.samples + 1
    case StoreLast(now, sample) => f.last == b.last && now < WORD && Open(b, now) &&
      sample == f.samples == b.samples + 1
    case ClearFlag(now, sample) => now < WORD && (f, sample) == Admit(b, now)
    case TestAndSet(now) => now < WORD
    case _ => true
  }

  ghost predicate Exclusive(s: State) {
    (forall t, u :: 0 <= t < |s.threads| && 0 <= u < |s.threads| && Holding(s.threads[t]) && Holding(s.threads[u]) ==>
      t == u) &&
    (s.flag <==> exists t :: 0 <= t < |s.threads| && Holding(s.threads[t]))
  }

  ghost predicate Guarded(s: State) {
    var b := After(s.log);
    s.last < WORD && s.samples <= LIMIT && Sequential(s.log) &&
    (forall t :: 0 <= t < |s.threads| ==> HolderOk(s.threads[t], Fields(s), b)) &&
    (!s.flag ==> b == Fields(s))
  }

  ghost predicate Inv(s: State) {
    Exclusive(s) && Guarded(s)
  }

  lemma {:induction false} AppendLog(log: seq<Call>, c: Call)
    ensures After(log + [c]) == Admit(After(log), c.now).0
    ensures Sequential(log + [c]) <==> Sequential(log) && c.sample == Admit(After(log), c.now).1
  {
    assert (log + [c])[..|log|] == log;
  }

  lemma StepKeepsExclusive(s: State, tick: Tick)
    requires Exclusive(s) && Ready(s, tick)
    ensures Exclusive(Step(s, tick))
  {
    var t, r := tick.thread, Step(s, tick);
    assert forall u :: 0 <= u < |s.threads| && u != t ==> r.threads[u] == s.threads[u];
    if Holding(s.threads[t]) {
      assert forall u :: 0 <= u < |s.threads| && u != t ==> !Holding(r.threads[u]);
    } else if r.flag && s.flag {
      var u :| 0 <= u < |s.threads| && Holding(s.threads[u]);
      assert Holding(r.threads[u]);
    }
    if Holding(r.threads[t]) {
      assert exists u :: 0 <= u < |r.threads| && Holding(r.threads[u]);
    }
  }

  /** Where the order guard has passed, the 64-bit subtraction does not wrap. */
  lemma MinusIsExact(a: nat, b: nat)
    requires b <= a < WORD
    ensures Minus(a, b) == a - b
  {
  }

  lemma MovingThreadIsOk(s: State, tick: Tick)
    requires Guarded(s) && Ready(s, tick)
    requires !s.flag ==> !Holding(s.threads[tick.thread])
    ensures var r := Step(s, tick);
      r.last < WORD && r.samples <= LIMIT && Sequential(r.log) &&
      HolderOk(r.threads[tick.thread], Fields(r), After(r.log))
    ensures s.threads[tick.thread].ClearFlag? ==> After(Step(s, tick).log) == Fields(s)
  {
    var l, b := s.threads[tick.thread], After(s.log);
    assert HolderOk(l, Fields(s), b);
    if l.ClearFlag? {
      AppendLog(s.log, Call(l.now, l.sample));
    }
    if l.ReadGap? {
      MinusIsExact(l.now, s.last);
    }
  }

  /** Only the lock holder touches the guarded fields and the log, so the others' positions stay sound. */
  lemma OtherThreadIsOk(s: State, tick: Tick, u: nat)
    requires Inv(s) && Ready(s, tick) && u < |s.threads| && u != tick.thread
    ensures var r := Step(s, tick); HolderOk(r.threads[u], Fields(r), After(r.log)) && r.threads[u] == s.threads[u]
  {
    var l := s.threads[u];
    assert HolderOk(l, Fields(s), After(s.log));
    if Holding(s.threads[tick.thread]) {
      assert !Holding(l);
    } else {
      var r := Step(s, tick);
      assert Fields(r) == Fields(s) && r.log == s.log;
    }
  }

  lemma StepKeepsInv(s: State, tick: Tick)
    requires Inv(s) && Ready(s, tick)
    ensures Inv(Step(s, tick))
  {
    StepKeepsExclusive(s, tick);
    MovingThreadIsOk(s, tick);
    forall u | 0 <= u < |s.threads| && u != tick.thread
      ensures var r := Step(s, tick); HolderOk(r.threads[u], Fields(r), After(r.log)) && r.threads[u] == s.threads[u]
    {
      OtherThreadIsOk(s, tick, u);
    }
    UnlockedIsSettled(s, tick);
  }

  lemma UnlockedIsSettled(s: State, tick: Tick)
    requires Inv(s) && Ready(s, tick)
    ensures var r := Step(s, tick); !r.flag ==> After(r.log) == Fields(r)
  {
    MovingThreadIsOk(s, tick);
  }

  // ---------------------------------------------------------------- whole runs

  /** The state after a schedule; a tick for a thread that does not exist, or with too large a time, is skipped. */
  function Run(s: State, schedule: seq<Tick>): State {
    if schedule == [] then s
    else
      var before := Run(s, schedule[..|schedule| - 1]);
      var tick := schedule[|schedule| - 1];
      if Ready(before, tick) then Step(before, tick) else before
  }

  lemma {:induction false} RunKeepsInv(s: State, schedule: seq<Tick>)
    requires Inv(s)
    ensures Inv(Run(s, schedule)) && |Run(s, schedule).threads| == |s.threads|
  {
    if schedule != [] {
      RunKeepsInv(s, schedule[..|schedule| - 1]);
      var before, tick := Run(s, schedule[..|schedule| - 1]), schedule[|schedule| - 1];
      if Ready(before, tick) {
        StepKeepsInv(before, tick);
      }
    }
  }

  lemma {:induction false} ReachableInv(n: nat, schedule: seq<Tick>)
    ensures Inv(Run(Initial(n), schedule)) && |Run(Initial(n), schedule).threads| == n
  {
    assert Inv(Initial(n));
    RunKeepsInv(Initial(n), schedule);
  }

  // ---------------------------------------------------------------- what a sequential log has issued

  /** The calls that took a sample. */
  function Issued(log: seq<Call>): seq<Call> {
    if log == [] then []
    else Issued(log[..|log| - 1]) + if log[|log| - 1].sample != 0 then [log[|log| - 1]] else []
  }

  /** The samples are numbered from one without a gap, and from the fifth on are an interval apart. */
  ghost predicate Numbered(issued: seq<Call>, b: Budget) {
    |issued| == b.samples <= LIMIT &&
    (forall i :: 0 <= i < |issued| ==> issued[i].sample == i + 1) &&
    (forall i :: EARLY <= i < |issued| ==> issued[i - 1].now + INTERVAL <= issued[i].now) &&
    (issued != [] ==> issued[|issued| - 1].now == b.last)
  }

  lemma {:induction false} NumberedStep(issued: seq<Call>, b: Budget, c: Call)
    requires Numbered(issued, b) && c.sample == Admit(b, c.now).1
    ensures Numbered(issued + if c.sample != 0 then [c] else [], Admit(b, c.now).0)
  {
  }

  lemma {:induction false} SequentialIsNumbered(log: seq<Call>)
    requires Sequential(log)
    ensures Numbered(Issued(log), After(log))
  {
    if log != [] {
      var n := |log| - 1;
      SequentialIsNumbered(log[..n]);
      NumberedStep(Issued(log[..n]), After(log[..n]), log[n]);
    }
  }

  /** The next call is admitted: among the first four, or up to the sixteenth once the interval has passed. */
  predicate Due(issued: seq<Call>, now: nat) {
    |issued| < 4 || (|issued| < 16 && issued[|issued| - 1].now + 20000 <= now)
  }

  /** Each call that held the lock was admitted exactly when it was due after those before it, with the next number. */
  lemma {:induction false} AdmittedWhenDue(log: seq<Call>, i: nat)
    requires Sequential(log) && i < |log|
    ensures log[i].sample == if Due(Issued(log[..i]), log[i].now) then |Issued(log[..i])| + 1 else 0
  {
    PrefixIsSequential(log, i + 1);
    var before := log[..i + 1];
    assert before[..i] == log[..i] && before[i] == log[i];
    SequentialIsNumbered(log[..i]);
  }

  lemma {:induction false} SpacedApart(issued: seq<Call>, b: Budget, i: nat, j: nat)
    requires Numbered(issued, b) && EARLY - 1 <= i <= j < |issued|
    ensures issued[i].now + (j - i) * INTERVAL <= issued[j].now
  {
    if i < j {
      SpacedApart(issued, b, i, j - 1);
    }
  }

  /**
   Over every interleaving of any number of callers: at most one is between its test-and-set and its clear; the
   samples taken are 1..n in order, n at most sixteen, spaced by the interval from the fifth on, so that sixteen
   samples span at least 240000 from the fourth; and each call that held the lock got what it would have got alone.
   */
  lemma BudgetHolds(n: nat, schedule: seq<Tick>)
    ensures var r := Run(Initial(n), schedule);
      Exclusive(r) && Sequential(r.log) && Numbered(Issued(r.log), After(r.log)) &&
      (|Issued(r.log)| == LIMIT ==> Issued(r.log)[3].now + 240000 <= Issued(r.log)[15].now) &&
      forall i: nat :: i < |r.log| ==>
        r.log[i].sample == if Due(Issued(r.log[..i]), r.log[i].now) then |Issued(r.log[..i])| + 1 else 0
  {
    ReachableInv(n, schedule);
    var r := Run(Initial(n), schedule);
    SequentialIsNumbered(r.log);
    forall i: nat | i < |r.log|
      ensures r.log[i].sample == if Due(Issued(r.log[..i]), r.log[i].now) then |Issued(r.log[..i])| + 1 else 0
    {
      AdmittedWhenDue(r.log, i);
    }
    if |Issued(r.log)| == LIMIT {
      SpacedApart(Issued(r.log), After(r.log), 3, 15);
    }
  }

  /** The interleaved run is a run of the class: replaying its log on one object gives every call its own result. */
  method Replay(log: seq<Call>) returns (b: GameCallProbeBudget, samples: seq<nat>)
    requires Sequential(log) && forall i :: 0 <= i < |log| ==> log[i].now < WORD
    ensures fresh(b) && !b.locked && Budget(b.samples, b.last) == After(log)
    ensures |samples| == |log| && forall i :: 0 <= i < |log| ==> samples[i] == log[i].sample
  {
    b := new GameCallProbeBudget();
    samples := [];
    for i := 0 to |log|
      invariant fresh(b) && b.Valid() && !b.locked && Budget(b.samples, b.last) == After(log[..i])
      invariant |samples| == i && forall j :: 0 <= j < i ==> samples[j] == log[j].sample
    {
      PrefixIsSequential(log, i + 1);
      assert log[..i + 1][..i] == log[..i];
      var sample := b.Take(log[i].now);
      samples := samples + [sample];
    }
    assert log[..|log|] == log;
  }

  lemma {:induction false} PrefixIsSequential(log: seq<Call>, n: nat)
    requires Sequential(log) && n <= |log|
    ensures Sequential(log[..n])
  {
    if n == |log| {
      assert log[..n] == log;
    } else {
      PrefixIsSequential(log[..|log| - 1], n);
      assert log[..|log| - 1][..n] == log[..n];
    }
  }

  // ---------------------------------------------------------------- every sample reaches one caller

  /** The sample a thread has taken and not yet handed back. */
  function Carried(l: Local): nat {
    match l
    case StoreLast(_, sample) => sample
    case ClearFlag(_, sample) => sample
    case Return(sample) => sample
    case _ => 0
  }

  predicate ThreadHas(s: State, t: nat, v: nat) {
    t < |s.threads| && Carried(s.threads[t]) == v
  }

  predicate CallerHas(s: State, i: nat, v: nat) {
    i < |s.returned| && s.returned[i].1 == v
  }

  ghost predicate Accounted(s: State, v: nat) {
    (exists t :: ThreadHas(s, t, v)) || (exists i :: CallerHas(s, i, v))
  }

  /** Every sample taken is with exactly one thread or has been returned exactly once, and nothing else is returned. */
  ghost predicate Delivered(s: State) {
    (forall t :: 0 <= t < |s.threads| ==> Carried(s.threads[t]) <= s.samples) &&
    (forall i :: 0 <= i < |s.returned| ==> s.returned[i].1 <= s.samples) &&
    (forall v, t, u :: v > 0 && ThreadHas(s, t, v) && ThreadHas(s, u, v) ==> t == u) &&
    (forall v, i, j :: v > 0 && CallerHas(s, i, v) && CallerHas(s, j, v) ==> i == j) &&
    (forall v, t, i :: v > 0 && ThreadHas(s, t, v) ==> !CallerHas(s, i, v)) &&
    (forall v :: 1 <= v <= s.samples ==> Accounted(s, v))
  }

  lemma StepKeepsDelivered(s: State, tick: Tick)
    requires Inv(s) && Delivered(s) && Ready(s, tick)
    ensures Delivered(Step(s, tick))
  {
    var t, r := tick.thread, Step(s, tick);
    assert HolderOk(s.threads[t], Fields(s), After(s.log));
    forall u: nat, v: nat | u != t
      ensures ThreadHas(r, u, v) <==> ThreadHas(s, u, v)
    {
      assert u < |s.threads| ==> r.threads[u] == s.threads[u];
    }
    ReturnedGrows(s, tick);
    if s.threads[t].Return? {
      assert ThreadHas(s, t, s.threads[t].sample);
    } else {
      assert ThreadHas(s, t, Carried(s.threads[t]));
    }
    forall v | 1 <= v <= r.samples
      ensures Accounted(r, v)
    {
      StepAccounts(s, tick, v);
    }
  }

  /** A return hands over exactly what the thread carried; no other step changes what callers have. */
  lemma ReturnedGrows(s: State, tick: Tick)
    requires Ready(s, tick)
    ensures var l, r := s.threads[tick.thread], Step(s, tick);
      forall i, v :: CallerHas(r, i, v) <==> CallerHas(s, i, v) || (l.Return? && i == |s.returned| && v == l.sample)
  {
  }

  lemma StepAccounts(s: State, tick: Tick, v: nat)
    requires Inv(s) && Ready(s, tick) && 1 <= v <= Step(s, tick).samples && (v <= s.samples ==> Accounted(s, v))
    ensures Accounted(Step(s, tick), v)
  {
    var t, r := tick.thread, Step(s, tick);
    assert HolderOk(s.threads[t], Fields(s), After(s.log));
    ReturnedGrows(s, tick);
    if v > s.samples {
      assert ThreadHas(r, t, v);
    } else if i :| CallerHas(s, i, v) {
      assert CallerHas(r, i, v);
    } else {
      var u :| ThreadHas(s, u, v);
      if u == t && s.threads[t].Return? {
        assert CallerHas(r, |s.returned|, v);
      } else {
        assert ThreadHas(r, u, v);
      }
    }
  }

  ghost predicate Quiet(s: State) {
    forall t :: 0 <= t < |s.threads| ==> s.threads[t].Idle?
  }

  lemma {:induction false} RunKeepsDelivered(n: nat, schedule: seq<Tick>)
    ensures Delivered(Run(Initial(n), schedule))
  {
    if schedule != [] {
      var front := schedule[..|schedule| - 1];
      var before, tick := Run(Initial(n), front), schedule[|schedule| - 1];
      ReachableInv(n, front);
      RunKeepsDelivered(n, front);
      if Ready(before, tick) {
        StepKeepsDelivered(before, tick);
      }
    }
  }

  /** In every run each nonzero result is returned once; once no call is under way the results are exactly 1..n. */
  lemma {:induction false} ResultsAreUnique(n: nat, schedule: seq<Tick>, v: nat)
    requires v > 0
    ensures var r := Run(Initial(n), schedule);
      r.samples <= LIMIT && (forall i, j :: CallerHas(r, i, v) && CallerHas(r, j, v) ==> i == j) &&
      ((exists i :: CallerHas(r, i, v)) ==> v <= r.samples) &&
      (Quiet(r) && v <= r.samples ==> exists i :: CallerHas(r, i, v))
  {
    ReachableInv(n, schedule);
    RunKeepsDelivered(n, schedule);
    var r := Run(Initial(n), schedule);
    if Quiet(r) && v <= r.samples {
      assert Accounted(r, v);
    }
  }

  // ---------------------------------------------------------------- no caller waits

  /** How many of its own steps a call has left at most. */
  function StepsLeft(l: Local): nat {
    match l
    case Idle => 0
    case Return(_) => 1
    case ClearFlag(_, _) => 2
    case StoreLast(_, _) => 3
    case StoreSamples(_, _) => 4
    case LoadSamples(_) => 5
    case ReadGap(_) => 6
    case ReadOrder(_) => 7
    case ReadEarly(_) => 8
    case ReadLimit(_) => 9
    case TestAndSet(_) => 10
  }

  /** The ticks of a schedule that move thread t. */
  function OwnTicks(schedule: seq<Tick>, t: nat): nat {
    if schedule == [] then 0
    else OwnTicks(schedule[..|schedule| - 1], t) + if schedule[|schedule| - 1].thread == t then 1 else 0
  }

  ghost predicate ValidSchedule(schedule: seq<Tick>, n: nat) {
    forall i :: 0 <= i < |schedule| ==> schedule[i].thread < n && schedule[i].now < WORD
  }

  /** Thread t has handed its result back. */
  predicate Ended(s: State, t: nat) {
    t < |s.threads| && s.threads[t].Idle?
  }

  /** By the k-th tick of the schedule thread t has handed its result back. */
  predicate EndedBy(s: State, schedule: seq<Tick>, k: nat, t: nat) {
    k <= |schedule| && Ended(Run(s, schedule[..k]), t)
  }

  lemma OwnStepCounts(s: State, tick: Tick, t: nat)
    requires Inv(s) && tick.thread < |s.threads| && tick.now < WORD && t < |s.threads| && !Ended(s, t)
    ensures Ready(s, tick)
    ensures StepsLeft(Step(s, tick).threads[t]) + (if tick.thread == t then 1 else 0) <= StepsLeft(s.threads[t])
  {
    assert HolderOk(s.threads[tick.thread], Fields(s), After(s.log));
  }

  /** Whoever moves in between, a call has ended or has used up one of its steps per own tick. */
  lemma {:induction false} StepsRunOut(s: State, t: nat, schedule: seq<Tick>)
    requires Inv(s) && t < |s.threads| && ValidSchedule(schedule, |s.threads|)
    requires forall k :: !EndedBy(s, schedule, k, t)
    ensures |Run(s, schedule).threads| == |s.threads|
    ensures StepsLeft(Run(s, schedule).threads[t]) + OwnTicks(schedule, t) <= StepsLeft(s.threads[t])
  {
    RunKeepsInv(s, schedule);
    if schedule != [] {
      var front := schedule[..|schedule| - 1];
      forall k: nat
        ensures !EndedBy(s, front, k, t)
      {
        assert k <= |front| ==> schedule[..k] == front[..k];
        assert !EndedBy(s, schedule, k, t);
      }
      StepsRunOut(s, t, front);
      assert !EndedBy(s, front, |front|, t) && front[..|front|] == front;
      RunKeepsInv(s, front);
      OwnStepCounts(Run(s, front), schedule[|schedule| - 1], t);
    }
  }

  lemma CallEnds(s: State, t: nat, future: seq<Tick>)
    requires Inv(s) && t < |s.threads| && ValidSchedule(future, |s.threads|) && OwnTicks(future, t) >= 10
    ensures exists k :: EndedBy(s, future, k, t)
  {
    if forall k :: !EndedBy(s, future, k, t) {
      assert future[..|future|] == future;
      assert !EndedBy(s, future, |future|, t);
      StepsRunOut(s, t, future);
    }
  }

  /** A call under way ends within ten of its own steps, in every interleaving. */
  lemma CallsAreWaitFree(n: nat, past: seq<Tick>, t: nat, future: seq<Tick>)
    requires t < n && ValidSchedule(future, n) && OwnTicks(future, t) >= 10
    ensures exists k :: EndedBy(Run(Initial(n), past), future, k, t)
  {
    ReachableInv(n, past);
    CallEnds(Run(Initial(n), past), t, future);
  }

  /** At the gap test the times are in order and the difference is the true one; the count never leaves its word. */
  lemma NothingWraps(n: nat, schedule: seq<Tick>, t: nat)
    requires t < n
    ensures var s := Run(Initial(n), schedule);
      |s.threads| == n && s.samples <= LIMIT &&
      (s.threads[t].ReadGap? ==>
        s.last <= s.threads[t].now < WORD && Minus(s.threads[t].now, s.last) == s.threads[t].now - s.last) &&
      (s.threads[t].LoadSamples? ==> (s.samples + 1) % HALF_WORD == s.samples + 1)
  {
    hide Run, After, Sequential, Exclusive;
    ReachableInv(n, schedule);
    var s := Run(Initial(n), schedule);
    assert HolderOk(s.threads[t], Fields(s), After(s.log));
  }
}
