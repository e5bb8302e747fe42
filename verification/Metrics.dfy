/**
 src/metrics.rs: any number of threads record resource samples in the same atomic fields, one atomic access
 at a time, and the sums are kept by a weak compare-and-exchange loop that saturates.
 */
module ResourceMetrics {
  import opened Basics

  const U64_MAX: U64 := TWO_TO_64 - 1

  datatype Resource = Cpu | Memory

  datatype Gauge = Gauge(last: U64, sum: U64, max: U64)

  /** Where a call of `record_resource_sample` stands: the atomic access it makes next. */
  datatype Stage =
    | Storing(r: Resource)
    | Counting
    | Loading(r: Resource)
    | Adding(r: Resource)
    | Raising(r: Resource)
    | Done

  /** `current` is the local of the exchange loop: what the loop believes the sum to be. */
  datatype Call = Call(cpu: U64, memory: U64, stage: Stage, current: U64) {
    function Reading(r: Resource): U64 {
      if r.Cpu? then cpu else memory
    }
  }

  datatype Metrics = Metrics(samples: U64, cpu: Gauge, memory: Gauge, calls: seq<Call>) {
    function Of(r: Resource): Gauge {
      if r.Cpu? then cpu else memory
    }

    function With(r: Resource, g: Gauge): Metrics {
      if r.Cpu? then this.(cpu := g) else this.(memory := g)
    }

    function At(i: nat, c: Call): Metrics
      requires i < |calls|
    {
      this.(calls := calls[i := c])
    }
  }

  function New(): Metrics {
    Metrics(0, Gauge(0, 0, 0), Gauge(0, 0, 0), [])
  }

  function SaturatingAdd(a: U64, b: U64): U64 {
    if a + b > U64_MAX then U64_MAX else a + b
  }

  function Capped(n: nat): (r: U64)
    ensures n < 0x1_0000_0000_0000_0000 ==> r == n
    ensures n >= 0x1_0000_0000_0000_0000 ==> r == 0xFFFF_FFFF_FFFF_FFFF
  {
    if n > U64_MAX then U64_MAX else n
  }

  function Larger(a: nat, b: nat): nat {
    if a >= b then a else b
  }

  /**
   A thread starts a call, or call `i` makes its next access. `observed` is what a relaxed load or a failed
   exchange reports, which may be any value; an exchange with `lucky` false fails spuriously.
   */
  datatype Step =
    | Begin(cpu: U64, memory: U64)
    | Advance(i: nat, observed: U64, lucky: bool)

  function Apply(m: Metrics, step: Step): Metrics {
    match step
    case Begin(cpu, memory) => m.(calls := m.calls + [Call(cpu, memory, Storing(Cpu), 0)])
    case Advance(i, observed, lucky) => if i < |m.calls| then Advanced(m, i, observed, lucky) else m
  }

  function Advanced(m: Metrics, i: nat, observed: U64, lucky: bool): Metrics
    requires i < |m.calls|
  {
    var c := m.calls[i];
    match c.stage
    case Storing(r) =>
      m.With(r, m.Of(r).(last := c.Reading(r)))
      .At(i, c.(stage := if r.Cpu? then Storing(Memory) else Counting))
    case Counting =>
      m.(samples := Bump(m.samples)).At(i, c.(stage := Loading(Cpu)))
    case Loading(r) =>
      m.At(i, c.(current := observed, stage := Adding(r)))
    case Adding(r) =>
      if lucky && m.Of(r).sum == c.current then
        m.With(r, m.Of(r).(sum := SaturatingAdd(c.current, c.Reading(r)))).At(i, c.(stage := Raising(r)))
      else
        m.At(i, c.(current := observed))
    case Raising(r) =>
      m.With(r, m.Of(r).(max := Larger(m.Of(r).max, c.Reading(r))))
      .At(i, c.(stage := if r.Cpu? then Loading(Memory) else Done))
    case Done => m
  }

  function Run(m: Metrics, steps: seq<Step>): Metrics {
    if steps == [] then m else Apply(Run(m, steps[..|steps| - 1]), steps[|steps| - 1])
  }

  // ---------- what the calls have contributed ----------

  function Rank(stage: Stage): nat {
    match stage
    case Storing(r) => if r.Cpu? then 0 else 1
    case Counting => 2
    case Loading(r) => if r.Cpu? then 3 else 6
    case Adding(r) => if r.Cpu? then 4 else 7
    case Raising(r) => if r.Cpu? then 5 else 8
    case Done => 9
  }

  /** The calls that are past a stage, each with its reading; the others count as nothing. */
  function Past(calls: seq<Call>, stage: Stage, r: Resource): (parts: seq<nat>)
    ensures |parts| == |calls|
  {
    seq(|calls|, i requires 0 <= i < |calls| => if Rank(calls[i].stage) > Rank(stage) then calls[i].Reading(r) else 0)
  }

  function Counted(calls: seq<Call>): (parts: seq<nat>)
    ensures |parts| == |calls|
  {
    seq(|calls|, i requires 0 <= i < |calls| => if Rank(calls[i].stage) > Rank(Counting) then 1 else 0)
  }

  function Total(ns: seq<nat>): nat {
    if ns == [] then 0 else Total(ns[..|ns| - 1]) + ns[|ns| - 1]
  }

  function Peak(ns: seq<nat>): nat {
    if ns == [] then 0 else Larger(Peak(ns[..|ns| - 1]), ns[|ns| - 1])
  }

  lemma {:induction false} TotalUpdate(ns: seq<nat>, i: nat, n: nat)
    requires i < |ns|
    ensures Total(ns[i := n]) == Total(ns) - ns[i] + n
  {
    var k := |ns| - 1;
    if i < k {
      TotalUpdate(ns[..k], i, n);
      assert ns[i := n][..k] == ns[..k][i := n];
    } else {
      assert ns[i := n][..k] == ns[..k];
    }
  }

  lemma {:induction false} PeakIsLargest(ns: seq<nat>)
    ensures forall n :: n in ns ==> n <= Peak(ns)
    ensures Peak(ns) == 0 || Peak(ns) in ns
  {
    if ns != [] {
      var k := |ns| - 1;
      PeakIsLargest(ns[..k]);
      assert ns == ns[..k] + [ns[k]];
    }
  }

  lemma {:induction false} PeakUpdate(ns: seq<nat>, i: nat, n: nat)
    requires i < |ns| && ns[i] <= n
    ensures Peak(ns[i := n]) == Larger(Peak(ns), n)
  {
    var k := |ns| - 1;
    if i < k {
      PeakUpdate(ns[..k], i, n);
      assert ns[i := n][..k] == ns[..k][i := n];
    } else {
      assert ns[i := n][..k] == ns[..k];
    }
  }

  /** Each addition multiplies out: a total is at most the number of terms times the largest. */
  lemma {:induction false} TotalWithin(ns: seq<nat>, ones: seq<nat>, bound: nat)
    requires |ns| == |ones|
    requires forall i :: 0 <= i < |ns| ==> ns[i] <= bound && (ones[i] == 1 || ns[i] == 0)
    ensures Total(ns) <= Total(ones) * bound
  {
    if ns != [] {
      var k := |ns| - 1;
      TotalWithin(ns[..k], ones[..k], bound);
      assert (Total(ones[..k]) + ones[k]) * bound == Total(ones[..k]) * bound + ones[k] * bound;
    }
  }

  // ---------- the invariant ----------

  /** One gauge after calls that found it as `start`. */
  ghost predicate Accounted(start: Gauge, g: Gauge, calls: seq<Call>, r: Resource) {
    && g.sum == Capped(start.sum + Total(Past(calls, Adding(r), r)))
    && g.max == Larger(start.max, Peak(Past(calls, Raising(r), r)))
    && (g.last == start.last || exists i :: 0 <= i < |calls| && StoredLast(calls[i], g, r))
  }

  predicate StoredLast(c: Call, g: Gauge, r: Resource) {
    Rank(c.stage) > Rank(Storing(r)) && c.Reading(r) == g.last
  }

  ghost predicate AllAccounted(start: Metrics, m: Metrics) {
    && Accounted(start.cpu, m.cpu, m.calls, Cpu)
    && Accounted(start.memory, m.memory, m.calls, Memory)
    && m.samples == (start.samples + Total(Counted(m.calls))) % TWO_TO_64
  }

  lemma PastStep(calls: seq<Call>, i: nat, c: Call, stage: Stage, r: Resource)
    requires i < |calls| && c.Reading(r) == calls[i].Reading(r)
    requires Rank(calls[i].stage) <= Rank(c.stage) <= Rank(calls[i].stage) + 1
    ensures Past(calls[i := c], stage, r)
         == if calls[i].stage == stage && c.stage != stage then Past(calls, stage, r)[i := c.Reading(r)]
            else Past(calls, stage, r)
    ensures calls[i].stage == stage ==> Past(calls, stage, r)[i] == 0
  {
  }

  /** A step of one call, seen from one gauge: its readings stay, and only its own accesses count. */
  lemma StepAccounts(start: Gauge, g: Gauge, g': Gauge, calls: seq<Call>, i: nat, c: Call, r: Resource)
    requires Accounted(start, g, calls, r) && i < |calls|
    requires c.Reading(r) == calls[i].Reading(r) && Rank(calls[i].stage) <= Rank(c.stage) <= Rank(calls[i].stage) + 1
    requires
      if calls[i].stage == c.stage then g' == g
      else if calls[i].stage == Storing(r) then g' == g.(last := c.Reading(r))
      else if calls[i].stage == Adding(r) then g' == g.(sum := SaturatingAdd(g.sum, c.Reading(r)))
      else if calls[i].stage == Raising(r) then g' == g.(max := Larger(g.max, c.Reading(r)))
      else g' == g
    ensures Accounted(start, g', calls[i := c], r)
  {
    hide Total, Peak, Past;
    PastStep(calls, i, c, Adding(r), r);
    PastStep(calls, i, c, Raising(r), r);
    TotalUpdate(Past(calls, Adding(r), r), i, c.Reading(r));
    if calls[i].stage == Raising(r) {
      PeakUpdate(Past(calls, Raising(r), r), i, c.Reading(r));
    }
    if g'.last != start.last {
      if calls[i].stage == Storing(r) && c.stage != Storing(r) {
        assert StoredLast(calls[i := c][i], g', r);
      } else {
        var j :| 0 <= j < |calls| && StoredLast(calls[j], g, r);
        assert StoredLast(calls[i := c][j], g', r);
      }
    }
  }

  lemma CountedStep(calls: seq<Call>, i: nat, c: Call)
    requires i < |calls| && Rank(calls[i].stage) <= Rank(c.stage) <= Rank(calls[i].stage) + 1
    ensures Total(Counted(calls[i := c]))
         == Total(Counted(calls)) + if calls[i].stage == Counting && c.stage != Counting then 1 else 0
  {
    var n := if Rank(c.stage) > Rank(Counting) then 1 else 0;
    TotalUpdate(Counted(calls), i, n);
    assert Counted(calls[i := c]) == Counted(calls)[i := n];
  }

  lemma AdvanceKeepsAccounts(start: Metrics, m: Metrics, i: nat, observed: U64, lucky: bool)
    requires AllAccounted(start, m) && i < |m.calls|
    ensures AllAccounted(start, Advanced(m, i, observed, lucky))
  {
    hide Total, Peak, Past, Counted, Accounted;
    var m' := Advanced(m, i, observed, lucky);
    if m.calls[i].stage.Done? {
      assert m' == m;
    } else {
      var c := m'.calls[i];
      assert m'.calls == m.calls[i := c];
      StepAccounts(start.cpu, m.cpu, m'.cpu, m.calls, i, c, Cpu);
      StepAccounts(start.memory, m.memory, m'.memory, m.calls, i, c, Memory);
      CountedStep(m.calls, i, c);
    }
  }

  lemma CountedBegin(calls: seq<Call>, c: Call)
    requires c.stage == Storing(Cpu)
    ensures Total(Counted(calls + [c])) == Total(Counted(calls))
  {
    assert Counted(calls + [c]) == Counted(calls) + [0];
    assert (Counted(calls) + [0])[..|calls|] == Counted(calls);
  }

  lemma BeginKeepsAccounts(start: Metrics, m: Metrics, cpu: U64, memory: U64)
    requires AllAccounted(start, m)
    ensures AllAccounted(start, Apply(m, Begin(cpu, memory)))
  {
    var c := Call(cpu, memory, Storing(Cpu), 0);
    CountedBegin(m.calls, c);
    hide Total, Peak, Past, Counted, Accounted;
    BeginAccounts(start.cpu, m.cpu, m.calls, c, Cpu);
    BeginAccounts(start.memory, m.memory, m.calls, c, Memory);
  }

  lemma PastBegin(calls: seq<Call>, c: Call, stage: Stage, r: Resource)
    requires c.stage == Storing(Cpu)
    ensures Total(Past(calls + [c], stage, r)) == Total(Past(calls, stage, r))
    ensures Peak(Past(calls + [c], stage, r)) == Peak(Past(calls, stage, r))
  {
    assert Past(calls + [c], stage, r) == Past(calls, stage, r) + [0];
    assert (Past(calls, stage, r) + [0])[..|calls|] == Past(calls, stage, r);
  }

  lemma BeginAccounts(start: Gauge, g: Gauge, calls: seq<Call>, c: Call, r: Resource)
    requires Accounted(start, g, calls, r) && c.stage == Storing(Cpu)
    ensures Accounted(start, g, calls + [c], r)
  {
    hide Total, Peak, Past;
    PastBegin(calls, c, Adding(r), r);
    PastBegin(calls, c, Raising(r), r);
    if g.last != start.last {
      var j :| 0 <= j < |calls| && StoredLast(calls[j], g, r);
      assert StoredLast((calls + [c])[j], g, r);
    }
  }

  lemma NothingYet(start: Gauge, r: Resource)
    ensures Accounted(start, start, [], r)
  {
  }

  /**
   In every state of every run, whatever the interleaving, stale loads and spurious failures: each sum is the
   saturated sum of the completed additions, each maximum the maximum of the completed raises, and the number
   of samples counts the completed increments modulo 2^64.
   */
  lemma {:induction false} EveryRunIsAccounted(start: Metrics, steps: seq<Step>)
    requires start.calls == []
    ensures AllAccounted(start, Run(start, steps))
  {
    hide Accounted;
    if steps == [] {
      NothingYet(start.cpu, Cpu);
      NothingYet(start.memory, Memory);
    } else {
      var k := |steps| - 1;
      EveryRunIsAccounted(start, steps[..k]);
      var m := Run(start, steps[..k]);
      match steps[k]
      case Begin(cpu, memory) =>
        BeginKeepsAccounts(start, m, cpu, memory);
      case Advance(i, observed, lucky) =>
        if i < |m.calls| {
          AdvanceKeepsAccounts(start, m, i, observed, lucky);
        }
    }
  }

  // ---------- what follows ----------

  /** The readings of a resource, call by call. */
  function Readings(calls: seq<Call>, r: Resource): (parts: seq<nat>)
    ensures |parts| == |calls|
  {
    seq(|calls|, i requires 0 <= i < |calls| => calls[i].Reading(r))
  }

  predicate AllDone(calls: seq<Call>) {
    forall i :: 0 <= i < |calls| ==> calls[i].stage == Done
  }

  lemma {:induction false} TotalSplit(a: seq<nat>, b: seq<nat>)
    ensures Total(a + b) == Total(a) + Total(b)
  {
    if b == [] {
      assert a + b == a;
    } else {
      var k := |b| - 1;
      TotalSplit(a, b[..k]);
      assert (a + b)[..|a| + k] == a + b[..k];
    }
  }

  lemma TotalOfOne(n: nat)
    ensures Total([n]) == n
  {
  }

  lemma TotalAround(before: seq<nat>, n: nat, after: seq<nat>)
    ensures Total(before + [n] + after) == Total(before + after) + n
    ensures multiset(before + [n] + after) == multiset(before + after) + multiset{n}
  {
    hide Total;
    TotalSplit(before + [n], after);
    TotalSplit(before, [n]);
    TotalSplit(before, after);
    TotalOfOne(n);
  }

  lemma TotalWithout(ns: seq<nat>, n: nat) returns (rest: seq<nat>)
    requires n in ns
    ensures multiset(ns) == multiset(rest) + multiset{n}
    ensures Total(ns) == Total(rest) + n && |ns| == |rest| + 1
  {
    var j :| 0 <= j < |ns| && ns[j] == n;
    assert ns == ns[..j] + [n] + ns[j + 1..];
    TotalAround(ns[..j], n, ns[j + 1..]);
    rest := ns[..j] + ns[j + 1..];
  }

  lemma {:induction false} TotalIgnoresOrder(a: seq<nat>, b: seq<nat>)
    requires multiset(a) == multiset(b)
    ensures Total(a) == Total(b)
    decreases |a|
  {
    if a == [] {
      assert |b| == |multiset(b)| == 0;
    } else {
      hide Total;
      assert a[0] in a && a[0] in multiset(a);
      var ra := TotalWithout(a, a[0]);
      var rb := TotalWithout(b, a[0]);
      assert multiset(ra) == multiset(a) - multiset{a[0]} == multiset(rb);
      TotalIgnoresOrder(ra, rb);
    }
  }

  lemma PeakIgnoresOrder(a: seq<nat>, b: seq<nat>)
    requires multiset(a) == multiset(b)
    ensures Peak(a) == Peak(b)
  {
    PeakIsLargest(a);
    PeakIsLargest(b);
    assert forall n :: n in a <==> n in multiset(a);
    assert forall n :: n in b <==> n in multiset(b);
  }

  /** Two runs from the same start that finish the same readings, in any two orders, end with the same sum and maximum. */
  lemma InterleavingIsInvisible(start: Metrics, one: seq<Step>, other: seq<Step>, r: Resource)
    requires start.calls == []
    requires AllDone(Run(start, one).calls) && AllDone(Run(start, other).calls)
    requires multiset(Readings(Run(start, one).calls, r)) == multiset(Readings(Run(start, other).calls, r))
    ensures Run(start, one).Of(r).sum == Run(start, other).Of(r).sum
         == Capped(start.Of(r).sum + Total(Readings(Run(start, one).calls, r)))
    ensures Run(start, one).Of(r).max == Run(start, other).Of(r).max
  {
    hide Total, Peak, Run;
    EveryRunIsAccounted(start, one);
    EveryRunIsAccounted(start, other);
    AllArePast(Run(start, one).calls, r);
    AllArePast(Run(start, other).calls, r);
    TotalIgnoresOrder(Readings(Run(start, one).calls, r), Readings(Run(start, other).calls, r));
    PeakIgnoresOrder(Readings(Run(start, one).calls, r), Readings(Run(start, other).calls, r));
  }

  lemma AllArePast(calls: seq<Call>, r: Resource)
    requires AllDone(calls)
    ensures Past(calls, Adding(r), r) == Past(calls, Raising(r), r) == Readings(calls, r)
  {
  }

  // ---------- snapshots ----------

  /** `snapshot` loads the number of samples, then a sum, then a maximum; the metrics may move on in between. */
  function Average(samples: U64, sum: U64): U64 {
    if samples == 0 then 0 else sum / samples
  }

  /** The average is the quotient rounded down, and 0 when there are no samples. */
  lemma AverageIsFloor(samples: U64, sum: U64)
    ensures samples > 0 ==> Average(samples, sum) * samples <= sum < (Average(samples, sum) + 1) * samples
    ensures samples == 0 ==> Average(samples, sum) == 0
  {
    if samples > 0 {
      var q, m := sum / samples, sum % samples;
      assert sum == samples * q + m && 0 <= m < samples;
      assert (q + 1) * samples == samples * q + samples;
    }
  }

  /** Which of `n` calls are past a stage; those that have not begun are not. */
  function Marks(m: Metrics, stage: Stage, n: nat): (marks: seq<bool>)
    ensures |marks| == n
  {
    seq(n, i => 0 <= i < |m.calls| && Rank(m.calls[i].stage) > Rank(stage))
  }

  /** The readings that are marked; the others count as nothing. */
  function Marked(readings: seq<nat>, marks: seq<bool>): (parts: seq<nat>)
    requires |readings| == |marks|
    ensures |parts| == |readings|
  {
    seq(|readings|, i requires 0 <= i < |readings| => if marks[i] then readings[i] else 0)
  }

  function Ones(marks: seq<bool>): (ones: seq<nat>)
    ensures |ones| == |marks|
  {
    seq(|marks|, i requires 0 <= i < |marks| => if marks[i] then 1 else 0)
  }

  /** Calls that have begun keep their place and their readings. */
  ghost predicate Continues(before: seq<Call>, after: seq<Call>) {
    |before| <= |after| && forall i, r :: 0 <= i < |before| ==> before[i].Reading(r) == after[i].Reading(r)
  }

  lemma StepContinues(m: Metrics, step: Step)
    ensures Continues(m.calls, Apply(m, step).calls)
  {
  }

  lemma {:induction false} RunContinues(start: Metrics, steps: seq<Step>, j: nat)
    requires j <= |steps|
    ensures Continues(Run(start, steps[..j]).calls, Run(start, steps).calls)
  {
    if j < |steps| {
      var k := |steps| - 1;
      assert steps[..k][..j] == steps[..j];
      RunContinues(start, steps[..k], j);
      StepContinues(Run(start, steps[..k]), steps[k]);
    } else {
      assert steps[..j] == steps;
    }
  }

  lemma {:induction false} TotalOfZeros(ns: seq<nat>)
    requires forall i :: 0 <= i < |ns| ==> ns[i] == 0
    ensures Total(ns) == 0 == Peak(ns)
  {
    if ns != [] {
      TotalOfZeros(ns[..|ns| - 1]);
    }
  }

  /** What a state has accounted for, said with the readings of any later state. */
  lemma PastIsMarked(m: Metrics, later: Metrics, stage: Stage, r: Resource)
    requires Continues(m.calls, later.calls)
    ensures Total(Past(m.calls, stage, r)) == Total(Marked(Readings(later.calls, r), Marks(m, stage, |later.calls|)))
  {
    hide Total, Peak, Rank;
    var parts, marked := Past(m.calls, stage, r), Marked(Readings(later.calls, r), Marks(m, stage, |later.calls|));
    var rest := marked[|parts|..];
    assert marked == parts + rest;
    TotalSplit(parts, rest);
    TotalOfZeros(rest);
  }

  lemma PeakIsMarked(m: Metrics, stage: Stage, r: Resource)
    ensures Past(m.calls, stage, r) == Marked(Readings(m.calls, r), Marks(m, stage, |m.calls|))
  {
  }

  /** Whatever a snapshot loads at the instants `j` and `k` of a run is determined by what is marked there. */
  lemma SnapshotLoads(steps: seq<Step>, j: nat, r: Resource)
    requires j <= |steps|
    ensures var mj, mk := Run(New(), steps[..j]), Run(New(), steps); var n := |mk.calls|;
            && mj.Of(r).sum == Capped(Total(Marked(Readings(mk.calls, r), Marks(mj, Adding(r), n))))
            && mk.Of(r).max == Peak(Marked(Readings(mk.calls, r), Marks(mk, Raising(r), n)))
  {
    var mj, mk := Run(New(), steps[..j]), Run(New(), steps);
    EveryRunIsAccounted(New(), steps[..j]);
    EveryRunIsAccounted(New(), steps);
    RunContinues(New(), steps, j);
    hide Run, Total, Peak, Past, Marked, Marks, Readings, Continues;
    PastIsMarked(mj, mk, Adding(r), r);
    PeakIsMarked(mk, Raising(r), r);
  }

  /**
   What a snapshot reports as average, in any run: the capped total of the readings added by the load of the sum,
   over the samples counted by the load of their number, rounded down.
   */
  lemma SnapshotReportsFloor(steps: seq<Step>, i: nat, j: nat, r: Resource)
    requires i <= j <= |steps|
    ensures var mi, mj, mk := Run(New(), steps[..i]), Run(New(), steps[..j]), Run(New(), steps);
            var total := Capped(Total(Marked(Readings(mk.calls, r), Marks(mj, Adding(r), |mk.calls|))));
            var samples := Total(Counted(mi.calls)) % 0x1_0000_0000_0000_0000;
            var average := Average(mi.samples, mj.Of(r).sum);
            if samples == 0 then average == 0 else average * samples <= total < (average + 1) * samples
  {
    hide Run, Total, Peak, Marked, Marks, Readings, Counted, Average, Capped;
    SnapshotLoads(steps, j, r);
    EveryRunIsAccounted(New(), steps[..i]);
    AverageIsFloor(Run(New(), steps[..i]).samples, Run(New(), steps[..j]).Of(r).sum);
  }

  /** Every call that has been added has been raised, and they are at most as many as the samples loaded. */
  ghost predicate WellLoaded(added: seq<bool>, raised: seq<bool>, samples: nat)
    requires |added| == |raised|
  {
    (forall i :: 0 <= i < |added| && added[i] ==> raised[i]) && Total(Ones(added)) <= samples
  }

  lemma MarkedWithin(readings: seq<nat>, added: seq<bool>, raised: seq<bool>, samples: nat)
    requires |readings| == |added| == |raised| && WellLoaded(added, raised, samples) && samples > 0
    ensures Capped(Total(Marked(readings, added))) / samples <= Peak(Marked(readings, raised))
  {
    var peak := Peak(Marked(readings, raised));
    PeakIsLargest(Marked(readings, raised));
    forall i | 0 <= i < |readings| ensures Marked(readings, added)[i] <= peak {
      assert Marked(readings, raised)[i] in Marked(readings, raised);
    }
    TotalWithin(Marked(readings, added), Ones(added), peak);
    ProductGrows(Total(Ones(added)), samples, peak);
    QuotientWithin(Capped(Total(Marked(readings, added))), samples, peak);
  }

  lemma ProductGrows(a: nat, b: nat, c: nat)
    requires a <= b
    ensures a * c <= b * c
  {
  }

  lemma QuotientWithin(n: nat, d: nat, q: nat)
    requires d > 0 && n <= d * q
    ensures n / d <= q
  {
    var k := n / d - q;
    assert d * k == d * (n / d) - d * q <= 0;
    assert k >= 1 ==> d * k >= d;
  }

  /**
   A snapshot loads the number of samples at instant `i` of a run, the sum at `j` and the maximum at the end. When
   every call added by `j` is raised by the end, and they are no more than the samples loaded, the reported average
   is at most the reported maximum. How many calls there are, and whether the count has wrapped, does not matter.
   */
  lemma AverageWithinMaximum(steps: seq<Step>, i: nat, j: nat, r: Resource)
    requires i <= j <= |steps|
    requires var mj, mk := Run(New(), steps[..j]), Run(New(), steps); var n := |mk.calls|;
             WellLoaded(Marks(mj, Adding(r), n), Marks(mk, Raising(r), n), Run(New(), steps[..i]).samples)
    ensures Average(Run(New(), steps[..i]).samples, Run(New(), steps[..j]).Of(r).sum) <= Run(New(), steps).Of(r).max
  {
    hide Run, Total, Peak, Marked, Marks, Readings, WellLoaded;
    var mi, mj, mk := Run(New(), steps[..i]), Run(New(), steps[..j]), Run(New(), steps);
    SnapshotLoads(steps, j, r);
    if mi.samples > 0 {
      MarkedWithin(Readings(mk.calls, r), Marks(mj, Adding(r), |mk.calls|), Marks(mk, Raising(r), |mk.calls|), mi.samples);
    }
  }

  /**
   The condition is exact: with that many calls added, raised and counted, the average is at most the maximum for
   all readings if and only if the calls added are raised and no more than the samples. (Below 2^32 calls, where
   the sum of the counterexample does not saturate.)
   */
  lemma WellLoadedIsExact(added: seq<bool>, raised: seq<bool>, samples: nat)
    requires |added| == |raised| < TWO_TO_32 && 0 < samples < TWO_TO_32
    ensures WellLoaded(added, raised, samples) <==>
            forall readings: seq<U64> :: |readings| == |added| ==>
              Average(samples, Capped(Total(Marked(readings, added)))) <= Peak(Marked(readings, raised))
  {
    if WellLoaded(added, raised, samples) {
      forall readings: seq<U64> | |readings| == |added|
        ensures Average(samples, Capped(Total(Marked(readings, added)))) <= Peak(Marked(readings, raised))
      {
        MarkedWithin(readings, added, raised, samples);
      }
    } else if i :| 0 <= i < |added| && added[i] && !raised[i] {
      OneReadingTooEarly(added, raised, samples, i);
    } else {
      EqualReadingsTooMany(added, raised, samples);
    }
  }

  /** A reading of one call, and nothing else. */
  function OnlyAt(n: nat, i: nat, reading: U64): (readings: seq<U64>)
    requires i < n
    ensures |readings| == n && forall x :: 0 <= x < n ==> readings[x] == if x == i then reading else 0
  {
    seq(n, x => if x == i then reading else 0)
  }

  lemma TotalOfOnlyAt(n: nat, i: nat, reading: U64)
    requires i < n
    ensures Total(OnlyAt(n, i, reading)) == reading
  {
    hide Total;
    var zeros: seq<nat> := seq(n, _ => 0);
    TotalOfZeros(zeros);
    TotalUpdate(zeros, i, reading);
    assert OnlyAt(n, i, reading) == zeros[i := reading];
  }

  /** The reading of a call that is added and not raised shows in the average alone. */
  lemma OneReadingTooEarly(added: seq<bool>, raised: seq<bool>, samples: nat, i: nat)
    requires |added| == |raised| && 0 < samples < TWO_TO_32 && i < |added| && added[i] && !raised[i]
    ensures exists readings: seq<U64> :: |readings| == |added|
              && Average(samples, Capped(Total(Marked(readings, added)))) > Peak(Marked(readings, raised))
  {
    hide Total, Peak, OnlyAt;
    var readings := OnlyAt(|added|, i, samples);
    TotalOfOnlyAt(|added|, i, samples);
    TotalOfZeros(Marked(readings, raised));
    assert Marked(readings, added) == readings;
    hide Marked;
    assert samples / samples == 1;
  }

  /** Equal readings of more calls than were counted average above their common value. */
  lemma EqualReadingsTooMany(added: seq<bool>, raised: seq<bool>, samples: nat)
    requires |added| == |raised| < TWO_TO_32 && 0 < samples < TWO_TO_32 && Total(Ones(added)) > samples
    ensures exists readings: seq<U64> :: |readings| == |added|
              && Average(samples, Capped(Total(Marked(readings, added)))) > Peak(Marked(readings, raised))
  {
    hide Total, Peak;
    var readings: seq<U64> := seq(|added|, _ => samples);
    var count := Total(Ones(added));
    EqualTotal(readings, added, samples);
    AtMostAll(added);
    PeakIsLargest(Marked(readings, raised));
    Multiple(count, samples);
    assert Average(samples, Capped(Total(Marked(readings, added)))) == count;
  }

  lemma Multiple(count: nat, samples: nat)
    requires count < TWO_TO_32 && 0 < samples < TWO_TO_32
    ensures count * samples < TWO_TO_64 && (count * samples) / samples == count
  {
    ProductGrows(count, TWO_TO_32, samples);
    QuotientWithin(count * samples, samples, count);
    if (count * samples) / samples < count {
      var q := (count * samples) / samples;
      assert samples * q + samples > count * samples;
      ProductGrows(q + 1, count, samples);
      assert false;
    }
  }

  lemma {:induction false} EqualTotal(readings: seq<nat>, marks: seq<bool>, n: nat)
    requires |readings| == |marks| && forall i :: 0 <= i < |readings| ==> readings[i] == n
    ensures Total(Marked(readings, marks)) == Total(Ones(marks)) * n
  {
    if marks != [] {
      var k := |marks| - 1;
      EqualTotal(readings[..k], marks[..k], n);
      assert Marked(readings, marks)[..k] == Marked(readings[..k], marks[..k]);
      assert Ones(marks)[..k] == Ones(marks[..k]);
      assert (Total(Ones(marks[..k])) + Ones(marks)[k]) * n == Total(Ones(marks[..k])) * n + Ones(marks)[k] * n;
    }
  }

  lemma {:induction false} AtMostAll(marks: seq<bool>)
    ensures Total(Ones(marks)) <= |marks|
  {
    if marks != [] {
      var k := |marks| - 1;
      assert Ones(marks)[..k] == Ones(marks[..k]);
      AtMostAll(marks[..k]);
    }
  }

  // ---------- snapshots of one state ----------

  /** No call stands between its addition to a sum and its raise of the maximum. */
  predicate Settled(m: Metrics, r: Resource) {
    forall i :: 0 <= i < |m.calls| ==> m.calls[i].stage != Raising(r)
  }

  /** When all loads see one settled state, and the count has not wrapped, the average is at most the maximum. */
  lemma SettledWithinMaximum(steps: seq<Step>, r: Resource)
    requires var m := Run(New(), steps); Settled(m, r) && Total(Counted(m.calls)) < TWO_TO_64
    ensures var m := Run(New(), steps); Average(m.samples, m.Of(r).sum) <= m.Of(r).max
  {
    hide Run, Total, Peak, Past;
    var m := Run(New(), steps);
    EveryRunIsAccounted(New(), steps);
    var marks := Marks(m, Adding(r), |m.calls|);
    TotalGrows(Ones(marks), Counted(m.calls));
    assert steps[..|steps|] == steps;
    AverageWithinMaximum(steps, |steps|, |steps|, r);
  }

  lemma {:induction false} TotalGrows(ns: seq<nat>, ms: seq<nat>)
    requires |ns| == |ms| && forall i :: 0 <= i < |ns| ==> ns[i] <= ms[i]
    ensures Total(ns) <= Total(ms)
  {
    if ns != [] {
      TotalGrows(ns[..|ns| - 1], ms[..|ms| - 1]);
    }
  }

  /** Between the addition and the raise the promise fails: a single sample of 5 that is not yet in the maximum. */
  lemma AverageMayExceedMaximum(steps: seq<Step>)
    requires steps == [Begin(5, 7)] + [Advance(0, 0, true), Advance(0, 0, true), Advance(0, 0, true)]
                      + [Advance(0, 0, true), Advance(0, 0, true)]
    ensures !Settled(Run(New(), steps), Cpu)
    ensures var m := Run(New(), steps); Average(m.samples, m.cpu.sum) == 5 && m.cpu.max == 0
  {
    var c := Call(5, 7, Storing(Cpu), 0);
    var idle := Gauge(0, 0, 0);
    assert Run(New(), steps[..1]) == Metrics(0, idle, idle, [c]);
    assert steps[..2][..1] == steps[..1];
    assert Run(New(), steps[..2]) == Metrics(0, Gauge(5, 0, 0), idle, [c.(stage := Storing(Memory))]);
    assert steps[..3][..2] == steps[..2];
    assert Run(New(), steps[..3]) == Metrics(0, Gauge(5, 0, 0), Gauge(7, 0, 0), [c.(stage := Counting)]);
    assert steps[..4][..3] == steps[..3];
    assert Run(New(), steps[..4]) == Metrics(1, Gauge(5, 0, 0), Gauge(7, 0, 0), [c.(stage := Loading(Cpu))]);
    assert steps[..5][..4] == steps[..4];
    assert Run(New(), steps[..5]) == Metrics(1, Gauge(5, 0, 0), Gauge(7, 0, 0), [c.(stage := Adding(Cpu))]);
    assert steps[..6][..5] == steps[..5] && steps[..6] == steps;
    assert Run(New(), steps) == Metrics(1, Gauge(5, 5, 0), Gauge(7, 0, 0), [c.(stage := Raising(Cpu))]);
    assert Run(New(), steps).calls[0].stage == Raising(Cpu);
  }

  // ---------- a reading between two loads ----------

  /** Three accesses of a call; `observed` matters to the first one, when it is a load. */
  function Thrice(n: nat, observed: U64): seq<Step> {
    [Advance(n, observed, true), Advance(n, 0, true), Advance(n, 0, true)]
  }

  /** A call that nobody interferes with, from its beginning to its end. */
  function WholeCall(n: nat, cpu: U64, memory: U64, cpuSum: U64, memorySum: U64): seq<Step> {
    [Begin(cpu, memory)] + Thrice(n, 0) + Thrice(n, cpuSum) + Thrice(n, memorySum)
  }

  function Recorded(g: Gauge, reading: U64): Gauge {
    Gauge(reading, SaturatingAdd(g.sum, reading), Larger(g.max, reading))
  }

  lemma {:induction false} RunAppend(start: Metrics, front: seq<Step>, back: seq<Step>)
    ensures Run(start, front + back) == Run(Run(start, front), back)
  {
    hide Apply;
    if back == [] {
      assert front + back == front;
    } else {
      var k := |back| - 1;
      assert (front + back)[..|front| + k] == front + back[..k];
      RunAppend(start, front, back[..k]);
    }
  }

  lemma RunOne(m: Metrics, step: Step)
    ensures Run(m, [step]) == Apply(m, step)
  {
    hide Apply;
    assert [step][..0] == [];
    assert Run(m, []) == m;
  }

  lemma RunThrice(m: Metrics, n: nat, observed: U64)
    ensures Run(m, Thrice(n, observed))
         == Apply(Apply(Apply(m, Advance(n, observed, true)), Advance(n, 0, true)), Advance(n, 0, true))
  {
    hide Run, Apply;
    RunOne(m, Advance(n, observed, true));
    var m1 := Apply(m, Advance(n, observed, true));
    RunOne(m1, Advance(n, 0, true));
    RunOne(Apply(m1, Advance(n, 0, true)), Advance(n, 0, true));
    assert Thrice(n, observed) == [Advance(n, observed, true)] + [Advance(n, 0, true)] + [Advance(n, 0, true)];
    RunAppend(m, [Advance(n, observed, true)], [Advance(n, 0, true)]);
    RunAppend(m, [Advance(n, observed, true)] + [Advance(n, 0, true)], [Advance(n, 0, true)]);
  }

  /** The first accesses of a call: both values are stored, and the sample is counted. */
  lemma CallStores(m: Metrics, front: seq<Call>, c: Call)
    requires m.calls == front + [c] && c.stage == Storing(Cpu)
    ensures Run(m, Thrice(|front|, 0))
         == Metrics(Bump(m.samples), m.cpu.(last := c.cpu), m.memory.(last := c.memory), front + [c.(stage := Loading(Cpu))])
  {
    RunThrice(m, |front|, 0);
    hide Run;
    var n := |front|;
    var m1 := Apply(m, Advance(n, 0, true));
    assert m1 == m.(cpu := m.cpu.(last := c.cpu), calls := front + [c.(stage := Storing(Memory))]);
    var m2 := Apply(m1, Advance(n, 0, true));
    assert m2 == m1.(memory := m.memory.(last := c.memory), calls := front + [c.(stage := Counting)]);
    assert Apply(m2, Advance(n, 0, true)) == m2.(samples := Bump(m.samples), calls := front + [c.(stage := Loading(Cpu))]);
  }

  /** What a call does to one gauge: it loads the sum, adds to it at the first try, and raises the maximum. */
  lemma CallAdds(m: Metrics, front: seq<Call>, c: Call, r: Resource)
    requires m.calls == front + [c] && c.stage == Loading(r)
    ensures var g, v := m.Of(r), c.Reading(r);
            Run(m, Thrice(|front|, g.sum))
            == m.With(r, Gauge(g.last, SaturatingAdd(g.sum, v), Larger(g.max, v)))
                .(calls := front + [c.(current := g.sum, stage := if r.Cpu? then Loading(Memory) else Done)])
  {
    var n, g, v := |front|, m.Of(r), c.Reading(r);
    RunThrice(m, n, g.sum);
    hide Run, SaturatingAdd, Larger;
    var m1 := Apply(m, Advance(n, g.sum, true));
    assert m1 == m.(calls := front + [c.(current := g.sum, stage := Adding(r))]);
    var m2 := Apply(m1, Advance(n, 0, true));
    assert m2 == m.With(r, g.(sum := SaturatingAdd(g.sum, v))).(calls := front + [c.(current := g.sum, stage := Raising(r))]);
  }

  /** A call that nobody interferes with records its two readings and is done. */
  lemma WholeCallRecords(m: Metrics, cpu: U64, memory: U64)
    ensures Run(m, WholeCall(|m.calls|, cpu, memory, m.cpu.sum, m.memory.sum))
         == Metrics(Bump(m.samples), Recorded(m.cpu, cpu), Recorded(m.memory, memory), m.calls + [Call(cpu, memory, Done, m.memory.sum)])
  {
    var front, n, c := m.calls, |m.calls|, Call(cpu, memory, Storing(Cpu), 0);
    RunOne(m, Begin(cpu, memory));
    hide Run, Thrice, Bump;
    var m1 := m.(calls := front + [c]);
    CallStores(m1, front, c);
    var m2 := Run(m1, Thrice(n, 0));
    CallAdds(m2, front, c.(stage := Loading(Cpu)), Cpu);
    var m3 := Run(m2, Thrice(n, m.cpu.sum));
    CallAdds(m3, front, c.(stage := Loading(Memory), current := m.cpu.sum), Memory);
    RunAppend(m, [Begin(cpu, memory)], Thrice(n, 0));
    RunAppend(m, [Begin(cpu, memory)] + Thrice(n, 0), Thrice(n, m.cpu.sum));
    RunAppend(m, [Begin(cpu, memory)] + Thrice(n, 0) + Thrice(n, m.cpu.sum), Thrice(n, m.memory.sum));
  }

  /**
   A snapshot that loads the number of samples after one whole call and the rest after a second one, both with the
   reading 5: it reports an average of 10 and a maximum of 5, although no call is under way at any of the loads.
   */
  lemma SnapshotMayExceedMaximum() returns (steps: seq<Step>, i: nat)
    ensures i <= |steps|
    ensures var m0, m1 := Run(New(), steps[..i]), Run(New(), steps);
            && AllDone(m0.calls) && AllDone(m1.calls)
            && Average(m0.samples, m1.cpu.sum) == 10 && m1.cpu.max == 5
  {
    hide Run, WholeCall, Capped, Apply;
    var first := WholeCall(0, 5, 7, 0, 0);
    WholeCallRecords(New(), 5, 7);
    var m := Run(New(), first);
    var second := WholeCall(|m.calls|, 5, 7, m.cpu.sum, m.memory.sum);
    WholeCallRecords(m, 5, 7);
    RunAppend(New(), first, second);
    steps, i := first + second, |first|;
    assert steps[..i] == first;
    var m1 := Run(New(), steps);
  }
}
