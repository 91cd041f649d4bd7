/**
  The anonymous telemetry counters. Each cycle reads one 64-bit request counter per controller and
  reports the growth since the last acknowledged cycle; the basis only moves when the server says
  that it has processed the data.
 */
module TelemetryModel {
  import opened Basics

  const MODULUS: nat := 0x1_0000_0000_0000_0000
  const MAX: nat := MODULUS - 1

  type UInt64 = x: int | 0 <= x < MODULUS

  function Add(a: UInt64, b: UInt64): UInt64 { (a + b) % MODULUS }

  function Sub(a: UInt64, b: UInt64): UInt64 { (a - b) % MODULUS }

  datatype Data = Data(requestsHandled: seq<UInt64>, timestamp: nat)

  /** What one request body says. */
  datatype Report = Report(handled: UInt64, begin: nat, end: nat)

  /** How the exchange with the server ends: no usable answer, or one that passed validation. */
  datatype Reply = Failed | Answer(processed: bool, backoff: Option<nat>)

  /** The growth of one counter, with the branch for overflow. */
  function Growth(now: UInt64, last: UInt64): UInt64 {
    if now >= last then Sub(now, last) else Add(Add(Sub(MAX, last), 1), now)
  }

  function TotalGrowth(now: seq<UInt64>, last: seq<UInt64>): UInt64
    requires |now| == |last|
  {
    if now == [] then 0
    else
      var n := |now| - 1;
      Add(TotalGrowth(now[..n], last[..n]), Growth(now[n], last[n]))
  }

  function ReportOf(now: Data, last: Data): Report
    requires |now.requestsHandled| == |last.requestsHandled|
  {
    Report(TotalGrowth(now.requestsHandled, last.requestsHandled), last.timestamp, now.timestamp)
  }

  // ----- runs

  /** One collection cycle. `counts` are the numbers of requests each controller has really begun;
      the collector sees them through counters that wrap at `width`, which is 2^64 or less. */
  datatype Cycle = Cycle(disabled: bool, counts: seq<nat>, time: nat, reply: Reply) {
    predicate Acknowledged() {
      !disabled && reply.Answer? && reply.processed
    }
  }

  type Width = w: int | 0 < w <= MODULUS witness 1

  function Wrapped(counts: seq<nat>, width: Width): (w: seq<UInt64>)
    ensures |w| == |counts| && forall i | 0 <= i < |w| :: w[i] == counts[i] % width
  {
    seq(|counts|, i requires 0 <= i < |counts| => counts[i] % width)
  }

  function Seen(c: Cycle, width: Width): Data {
    Data(Wrapped(c.counts, width), c.time)
  }

  /** The collector and the reports that the server has acknowledged. */
  datatype State = State(last: Data, acknowledged: seq<Report>)

  function Zeros(n: nat): (z: seq<nat>)
    ensures |z| == n && forall i | 0 <= i < n :: z[i] == 0
  {
    seq(n, _ => 0)
  }

  function Initial(n: nat, time: nat): State {
    State(Data(Wrapped(Zeros(n), MODULUS), time), [])
  }

  function Next(s: State, c: Cycle, width: Width): State
    requires |c.counts| == |s.last.requestsHandled|
  {
    if c.Acknowledged() then 
      State(Seen(c, width), s.acknowledged + [ReportOf(Seen(c, width), s.last)]) else s
  }

  predicate AllOfSize(cycles: seq<Cycle>, n: nat) {
    forall i | 0 <= i < |cycles| :: |cycles[i].counts| == n
  }

  function Run(n: nat, time: nat, cycles: seq<Cycle>, width: Width): (s: State)
    requires AllOfSize(cycles, n)
    ensures |s.last.requestsHandled| == n
  {
    if cycles == [] then Initial(n, time)
    else Next(Run(n, time, cycles[..|cycles| - 1], width), cycles[|cycles| - 1], width)
  }

  function Sum(xs: seq<int>): int {
    if xs == [] then 0 else Sum(xs[..|xs| - 1]) + xs[|xs| - 1]
  }

  function TotalReported(reports: seq<Report>): nat {
    if reports == [] then 0 else TotalReported(reports[..|reports| - 1]) + reports[|reports| - 1].handled
  }

  predicate Congruent(a: int, b: int) {
    (a - b) % MODULUS == 0
  }

  // ----- one report

  lemma GrowthIsDifference(now: UInt64, last: UInt64)
    ensures Growth(now, last) == if now >= last then now - last else MODULUS - last + now
    ensures Congruent(Growth(now, last), now - last)
  {
    if now < last {
      assert Sub(MAX, last) == MAX - last;
      assert Add(Sub(MAX, last), 1) == MODULUS - last;
    }
  }

  lemma AddIsSum(a: UInt64, b: UInt64)
    ensures Congruent(Add(a, b), a + b)
  {
  }

  lemma Multiples(a: int, k: int)
    requires a == MODULUS * k
    ensures Congruent(a, 0)
  {
  }

  lemma Quotient(a: int, b: int) returns (k: int)
    requires Congruent(a, b)
    ensures a - b == MODULUS * k
  {
    k := (a - b) / MODULUS;
  }

  lemma CongruentSum(a: int, b: int, c: int, d: int)
    requires Congruent(a, b) && Congruent(c, d)
    ensures Congruent(a + c, b + d) && Congruent(a - c, b - d)
  {
    var k := Quotient(a, b);
    var l := Quotient(c, d);
    Distribute(MODULUS, k, l);
    Distribute(MODULUS, k, 0 - l);
    Multiples((a + c) - (b + d), k + l);
    Multiples((a - c) - (b - d), k - l);
  }

  lemma CongruentChain(a: int, b: int, c: int)
    requires Congruent(a, b) && Congruent(b, c)
    ensures Congruent(a, c)
  {
    var k := Quotient(a, b);
    var l := Quotient(b, c);
    Distribute(MODULUS, k, l);
    Multiples(a - c, k + l);
  }

  lemma {:induction false} TotalGrowthIsDifference(now: seq<UInt64>, last: seq<UInt64>)
    requires |now| == |last|
    ensures Congruent(TotalGrowth(now, last), Sum(now) - Sum(last))
    decreases |now|
  {
    if now == [] {
      assert last == [] && Sum(now) == Sum(last) == 0;
    } else {
      var n := |now| - 1;
      var t, g := TotalGrowth(now[..n], last[..n]), Growth(now[n], last[n]);
      TotalGrowthIsDifference(now[..n], last[..n]);
      GrowthIsDifference(now[n], last[n]);
      hide Congruent, Growth, Add;
      AddIsSum(t, g);
      var x: int, y: int, d: int := t, g, now[n] as int - last[n] as int;
      CongruentSum(x, Sum(now[..n]) - Sum(last[..n]), y, d);
      CongruentChain(Add(t, g), x + y, Sum(now[..n]) - Sum(last[..n]) + d);
    }
  }

  /** How often each counter has wrapped. */
  function Wraps(counts: seq<nat>, width: Width): (q: seq<nat>)
    ensures |q| == |counts| && forall i | 0 <= i < |q| :: q[i] == Turns(counts[i], width)
  {
    seq(|counts|, i requires 0 <= i < |counts| => Turns(counts[i], width))
  }

  function Turns(count: nat, width: Width): nat {
    count / width
  }

  /** What the counters have lost by wrapping. */
  function Lost(counts: seq<nat>, width: Width): int {
    width * Sum(Wraps(counts, width))
  }

  lemma {:induction false} WrappedSum(counts: seq<nat>, width: Width)
    ensures Sum(Wrapped(counts, width)) == Sum(counts) - Lost(counts, width)
    decreases |counts|
  {
    if counts != [] {
      var n := |counts| - 1;
      WrappedSum(counts[..n], width);
      assert Wrapped(counts, width)[..n] == Wrapped(counts[..n], width);
      assert Wraps(counts, width)[..n] == Wraps(counts[..n], width);
      Distribute(width, Sum(Wraps(counts[..n], width)), counts[n] / width);
      assert counts[n] == width * (counts[n] / width) + counts[n] % width;
    }
  }

  lemma Distribute(w: int, a: int, b: int)
    ensures w * (a + b) == w * a + w * b
  {
  }

  /** The report is the growth of the counters as they are seen, modulo 2^64: the true growth less
      what the counters have lost in between. */
  lemma ReportIsSeenGrowth(now: seq<nat>, last: seq<nat>, width: Width)
    requires |now| == |last|
    ensures TotalGrowth(Wrapped(now, width), Wrapped(last, width))
         == ((Sum(now) - Sum(last)) - (Lost(now, width) - Lost(last, width))) % MODULUS
  {
    hide TotalGrowth, Sum, Wrapped, Lost, Congruent;
    var a, b := Wrapped(now, width), Wrapped(last, width);
    TotalGrowthIsDifference(a, b);
    WrappedSum(now, width);
    WrappedSum(last, width);
    Same(Sum(a) - Sum(b));
    Residue(TotalGrowth(a, b), Sum(a) - Sum(b), Sum(a) - Sum(b));
  }

  lemma Same(a: int)
    ensures Congruent(a, a)
  {
  }

  /** Full-width counters lose multiples of 2^64 only: overflow or not, the report is the true
      growth modulo 2^64. */
  lemma ReportIsGrowth(now: seq<nat>, last: seq<nat>)
    requires |now| == |last|
    ensures TotalGrowth(Wrapped(now, MODULUS), Wrapped(last, MODULUS)) == (Sum(now) - Sum(last)) % MODULUS
  {
    hide TotalGrowth, Sum, Wrapped, Wraps;
    ReportIsSeenGrowth(now, last, MODULUS);
    var a, b := Sum(Wraps(now, MODULUS)), Sum(Wraps(last, MODULUS));
    Distribute(MODULUS, a, 0 - b);
    LostIsMultiple(Sum(now) - Sum(last), a - b);
  }

  lemma LostIsMultiple(d: int, k: int)
    ensures (d - MODULUS * k) % MODULUS == d % MODULUS
  {
  }

  lemma Residue(r: UInt64, a: int, b: int)
    requires Congruent(r, a) && Congruent(a, b)
    ensures r == b % MODULUS
  {
  }

  // ----- whole runs

  /** The true counts at the last acknowledged cycle. */
  function LastCounts(n: nat, cycles: seq<Cycle>): (c: seq<nat>)
    requires AllOfSize(cycles, n)
    ensures |c| == n
  {
    if cycles == [] then Zeros(n)
    else if cycles[|cycles| - 1].Acknowledged() then cycles[|cycles| - 1].counts
    else LastCounts(n, cycles[..|cycles| - 1])
  }

  /** The gain of a quantity over each stretch from one acknowledged cycle to the next. */
  function Gains(n: nat, cycles: seq<Cycle>, f: seq<nat> -> int): seq<int>
    requires AllOfSize(cycles, n)
  {
    if cycles == [] then []
    else
      var before, c := cycles[..|cycles| - 1], cycles[|cycles| - 1];
      Gains(n, before, f) + if c.Acknowledged() then [f(c.counts) - f(LastCounts(n, before))] else []
  }

  function Begun(counts: seq<nat>): int {
    Sum(counts)
  }

  function LostAt(width: Width): seq<nat> -> int {
    counts => Lost(counts, width)
  }

  /** The requests begun in each stretch. */
  function Stretches(n: nat, cycles: seq<Cycle>): seq<int>
    requires AllOfSize(cycles, n)
  {
    Gains(n, cycles, Begun)
  }

  /** What the counters lose in each stretch. */
  function Losses(n: nat, cycles: seq<Cycle>, width: Width): seq<int>
    requires AllOfSize(cycles, n)
  {
    Gains(n, cycles, LostAt(width))
  }

  lemma {:induction false} LastIsSeen(n: nat, time: nat, cycles: seq<Cycle>, width: Width)
    requires AllOfSize(cycles, n)
    ensures Run(n, time, cycles, width).last.requestsHandled == Wrapped(LastCounts(n, cycles), width)
    decreases |cycles|
  {
    if cycles != [] {
      LastIsSeen(n, time, cycles[..|cycles| - 1], width);
    }
  }

  predicate ReportsAre(reports: seq<Report>, stretches: seq<int>, losses: seq<int>) {
    && |reports| == |stretches| == |losses|
    && forall i | 0 <= i < |reports| :: reports[i].handled == (stretches[i] - losses[i]) % MODULUS
  }

  /** Each acknowledged report is, modulo 2^64, the growth over its stretch less what the counters
      lost in it. */
  lemma {:induction false} ReportsAreStretches(n: nat, time: nat, cycles: seq<Cycle>, width: Width)
    requires AllOfSize(cycles, n)
    ensures ReportsAre(Run(n, time, cycles, width).acknowledged, Stretches(n, cycles), Losses(n, cycles, width))
    decreases |cycles|
  {
    if cycles != [] {
      var before, c := cycles[..|cycles| - 1], cycles[|cycles| - 1];
      ReportsAreStretches(n, time, before, width);
      LastIsSeen(n, time, before, width);
      GainsNext(n, cycles, Begun);
      GainsNext(n, cycles, LostAt(width));
      hide Lost, Sum, Wrapped, TotalGrowth, Gains, LastCounts;
      if c.Acknowledged() {
        ReportIsSeenGrowth(c.counts, LastCounts(n, before), width);
      }
    }
  }

  lemma SumSnoc(xs: seq<int>, x: int)
    ensures Sum(xs + [x]) == Sum(xs) + x
  {
  }

  lemma {:induction false} ZerosSum(n: nat)
    ensures Sum(Zeros(n)) == 0
    decreases n
  {
    if n > 0 {
      ZerosSum(n - 1);
      assert Zeros(n)[..n - 1] == Zeros(n - 1);
    }
  }

  lemma NothingLost(n: nat, width: Width)
    ensures Lost(Zeros(n), width) == 0
  {
    ZerosSum(n);
    assert Wraps(Zeros(n), width) == Zeros(n);
  }

  /** The stretches tile the run. */
  lemma {:induction false} GainsTelescope(n: nat, cycles: seq<Cycle>, f: seq<nat> -> int)
    requires AllOfSize(cycles, n) && f(Zeros(n)) == 0
    ensures Sum(Gains(n, cycles, f)) == f(LastCounts(n, cycles))
    decreases |cycles|
  {
    if cycles != [] {
      var before, c := cycles[..|cycles| - 1], cycles[|cycles| - 1];
      GainsTelescope(n, before, f);
      if c.Acknowledged() {
        SumSnoc(Gains(n, before, f), f(c.counts) - f(LastCounts(n, before)));
      } else {
        assert Gains(n, before, f) + [] == Gains(n, before, f);
      }
    }
  }

  lemma StretchesTelescope(n: nat, cycles: seq<Cycle>, width: Width)
    requires AllOfSize(cycles, n)
    ensures Sum(Stretches(n, cycles)) == Sum(LastCounts(n, cycles))
    ensures Sum(Losses(n, cycles, width)) == Lost(LastCounts(n, cycles), width)
  {
    ZerosSum(n);
    NothingLost(n, width);
    hide Sum, Lost, Gains;
    GainsTelescope(n, cycles, Begun);
    GainsTelescope(n, cycles, LostAt(width));
  }

  lemma {:induction false} ResiduesSum(reports: seq<Report>, stretches: seq<int>, losses: seq<int>)
    requires ReportsAre(reports, stretches, losses)
    ensures Congruent(TotalReported(reports), Sum(stretches) - Sum(losses))
    decreases |reports|
  {
    if reports != [] {
      var n := |reports| - 1;
      ResiduesSum(reports[..n], stretches[..n], losses[..n]);
      var d := stretches[n] - losses[n];
      assert Congruent(reports[n].handled, d);
      hide Congruent;
      CongruentSum(TotalReported(reports[..n]), Sum(stretches[..n]) - Sum(losses[..n]), reports[n].handled, d);
    }
  }

  /** In every run, with lost, refused and disabled cycles anywhere and counters of any width: what
      the server acknowledged adds up, modulo 2^64, to the requests begun at the last acknowledged
      cycle, less what the counters have lost by then. */
  lemma ReportsTelescope(n: nat, time: nat, cycles: seq<Cycle>, width: Width)
    requires AllOfSize(cycles, n)
    ensures
      var counts := LastCounts(n, cycles);
      Congruent(TotalReported(Run(n, time, cycles, width).acknowledged), Sum(counts) - Lost(counts, width))
  {
    hide *;
    ReportsAreStretches(n, time, cycles, width);
    StretchesTelescope(n, cycles, width);
    ResiduesSum(Run(n, time, cycles, width).acknowledged, Stretches(n, cycles), Losses(n, cycles, width));
  }

  /** So it adds up to the requests begun, modulo 2^64, if and only if the loss is a multiple of
      2^64; with 64-bit counters it always is. */
  lemma TotalRightIff(n: nat, time: nat, cycles: seq<Cycle>, width: Width)
    requires AllOfSize(cycles, n)
    ensures
      var counts := LastCounts(n, cycles);
      Congruent(TotalReported(Run(n, time, cycles, width).acknowledged), Sum(counts)) <==>
        Congruent(Lost(counts, width), 0)
    ensures width == MODULUS ==>
      Congruent(TotalReported(Run(n, time, cycles, width).acknowledged), Sum(LastCounts(n, cycles)))
  {
    var counts := LastCounts(n, cycles);
    FullWidthLoses(counts);
    hide Run, TotalReported, LastCounts, Sum, Lost, Congruent, AllOfSize;
    ReportsTelescope(n, time, cycles, width);
    Shifted(TotalReported(Run(n, time, cycles, width).acknowledged), Sum(counts), Lost(counts, width));
  }

  lemma FullWidthLoses(counts: seq<nat>)
    ensures Congruent(Lost(counts, MODULUS), 0)
  {
    Multiples(Lost(counts, MODULUS), Sum(Wraps(counts, MODULUS)));
  }

  lemma Shifted(t: int, a: int, l: int)
    requires Congruent(t, a - l)
    ensures Congruent(t, a) <==> Congruent(l, 0)
  {
  }

  /** While fewer than 2^64 requests were begun in all, that is the case if and only if no counter
      has wrapped. */
  lemma TotalRightIffNoWrap(n: nat, time: nat, cycles: seq<Cycle>, width: Width)
    requires AllOfSize(cycles, n) && Sum(LastCounts(n, cycles)) < MODULUS
    ensures
      var counts := LastCounts(n, cycles);
      Congruent(TotalReported(Run(n, time, cycles, width).acknowledged), Sum(counts)) <==>
        forall i | 0 <= i < n :: counts[i] < width
  {
    var counts := LastCounts(n, cycles);
    TotalRightIff(n, time, cycles, width);
    WrappedSum(counts, width);
    SumNonNegative(Wrapped(counts, width));
    NoLossIff(counts, width);
    hide Lost, Sum, Run, TotalReported;
    SmallMultiple(Lost(counts, width));
  }

  lemma SmallMultiple(l: int)
    requires 0 <= l < MODULUS
    ensures Congruent(l, 0) <==> l == 0
  {
  }

  lemma {:induction false} SumNonNegative(xs: seq<nat>)
    ensures Sum(xs) >= 0
    ensures Sum(xs) == 0 <==> forall i | 0 <= i < |xs| :: xs[i] == 0
    decreases |xs|
  {
    if xs != [] {
      var n := |xs| - 1;
      SumNonNegative(xs[..n]);
      assert forall i | 0 <= i < n :: xs[..n][i] == xs[i];
    }
  }

  lemma NoLossIff(counts: seq<nat>, width: Width)
    ensures Lost(counts, width) >= 0
    ensures Lost(counts, width) == 0 <==> forall i | 0 <= i < |counts| :: counts[i] < width
  {
    var q := Wraps(counts, width);
    SumNonNegative(q);
    ProductZero(width, Sum(q));
    forall i | 0 <= i < |counts| ensures q[i] == 0 <==> counts[i] < width {
      QuotientZero(counts[i], width);
    }
  }

  lemma ProductZero(w: int, k: int)
    requires w > 0 && k >= 0
    ensures w * k >= 0 && (w * k == 0 <==> k == 0)
  {
  }

  lemma QuotientZero(a: nat, width: Width)
    ensures a / width == 0 <==> a < width
  {
    assert a == width * (a / width) + a % width;
    ProductZero(width, a / width);
    if a / width >= 1 {
      assert width * (a / width) >= width;
    }
  }

  /** A single report is right if and only if fewer than 2^64 requests were begun in its stretch and
      the counters lost a multiple of 2^64 in it. */
  lemma ReportRightIff(n: nat, time: nat, cycles: seq<Cycle>, width: Width, i: nat)
    requires AllOfSize(cycles, n) && i < |Stretches(n, cycles)|
    ensures |Run(n, time, cycles, width).acknowledged| == |Stretches(n, cycles)| == |Losses(n, cycles, width)|
    ensures Run(n, time, cycles, width).acknowledged[i].handled == Stretches(n, cycles)[i] <==>
      0 <= Stretches(n, cycles)[i] < MODULUS && Congruent(Losses(n, cycles, width)[i], 0)
  {
    ReportsAreStretches(n, time, cycles, width);
    hide Run, Gains;
    ResidueRight(Stretches(n, cycles)[i], Losses(n, cycles, width)[i]);
  }

  lemma ResidueRight(d: int, l: int)
    ensures (d - l) % MODULUS == d <==> 0 <= d < MODULUS && Congruent(l, 0)
  {
  }

  /** A cycle that is disabled, fails, or whose data the server did not process, changes nothing; any
      other makes what was seen the new basis and records its report. */
  lemma OnlyProcessedDataCounts(s: State, c: Cycle, width: Width)
    requires |c.counts| == |s.last.requestsHandled|
    ensures c.disabled || c.reply.Failed? || !c.reply.processed ==> Next(s, c, width) == s
    ensures !c.disabled && c.reply.Answer? && c.reply.processed ==>
              && Next(s, c, width).last == Seen(c, width)
              && |Next(s, c, width).acknowledged| == |s.acknowledged| + 1
              && Next(s, c, width).acknowledged[|s.acknowledged|].begin == s.last.timestamp
              && Next(s, c, width).acknowledged[|s.acknowledged|].end == c.time
  {
  }

  lemma {:induction false} LastCountsAre(n: nat, cycles: seq<Cycle>, i: nat)
    requires AllOfSize(cycles, n) && i < |cycles|
    requires !cycles[i].disabled && cycles[i].reply.Answer? && cycles[i].reply.processed
    requires forall j | i < j < |cycles| ::
               cycles[j].disabled || cycles[j].reply.Failed? || !cycles[j].reply.processed
    ensures LastCounts(n, cycles) == cycles[i].counts
    decreases |cycles|
  {
    if i < |cycles| - 1 {
      var before := cycles[..|cycles| - 1];
      assert forall j | 0 <= j < |before| :: before[j] == cycles[j];
      LastCountsAre(n, before, i);
    }
  }

  /** The last cycle `i` that was enabled and whose data the server processed: the acknowledged reports
      add up, modulo 2^64, to its counts less what the counters have lost by then. */
  lemma ReportsReachLastProcessed(n: nat, time: nat, cycles: seq<Cycle>, width: Width, i: nat)
    requires AllOfSize(cycles, n) && i < |cycles|
    requires !cycles[i].disabled && cycles[i].reply.Answer? && cycles[i].reply.processed
    requires forall j | i < j < |cycles| ::
               cycles[j].disabled || cycles[j].reply.Failed? || !cycles[j].reply.processed
    ensures Congruent(TotalReported(Run(n, time, cycles, width).acknowledged),
                      Sum(cycles[i].counts) - Lost(cycles[i].counts, width))
  {
    LastCountsAre(n, cycles, i);
    hide LastCounts, Run, TotalReported, Congruent, Sum, Lost;
    ReportsTelescope(n, time, cycles, width);
  }

  /** And if no cycle was processed, nothing is acknowledged. */
  lemma {:induction false} NothingProcessedNothingReported(n: nat, time: nat, cycles: seq<Cycle>, width: Width)
    requires AllOfSize(cycles, n)
    requires forall j | 0 <= j < |cycles| ::
               cycles[j].disabled || cycles[j].reply.Failed? || !cycles[j].reply.processed
    ensures Run(n, time, cycles, width) == Initial(n, time)
    decreases |cycles|
  {
    if cycles != [] {
      NothingProcessedNothingReported(n, time, cycles[..|cycles| - 1], width);
    }
  }

  // ----- exactness

  /** Controllers only ever begin more requests. */
  predicate Growing(cycles: seq<Cycle>) {
    forall i, j, k | 0 <= i <= j < |cycles| && 0 <= k < |cycles[i].counts| && k < |cycles[j].counts| ::
      cycles[i].counts[k] <= cycles[j].counts[k]
  }

  lemma {:induction false} SumMonotone(a: seq<nat>, b: seq<nat>)
    requires |a| == |b| && forall k | 0 <= k < |a| :: a[k] <= b[k]
    ensures Sum(a) <= Sum(b)
    decreases |a|
  {
    if a != [] {
      SumMonotone(a[..|a| - 1], b[..|b| - 1]);
    }
  }

  lemma {:induction false} LastCountsBelow(n: nat, cycles: seq<Cycle>, c: Cycle)
    requires AllOfSize(cycles, n) && |c.counts| == n && Growing(cycles + [c])
    ensures forall k | 0 <= k < n :: LastCounts(n, cycles)[k] <= c.counts[k]
    decreases |cycles|
  {
    var all := cycles + [c];
    assert all[|cycles|] == c;
    assert forall i | 0 <= i < |cycles| :: all[i] == cycles[i];
    if cycles != [] && !cycles[|cycles| - 1].Acknowledged() {
      var shorter := cycles[..|cycles| - 1];
      var less := shorter + [c];
      forall i, j, k | 0 <= i <= j < |less| && 0 <= k < |less[i].counts| && k < |less[j].counts|
        ensures less[i].counts[k] <= less[j].counts[k]
      {
        var j2 := if j == |shorter| then |cycles| else j;
        var i2 := if i == |shorter| then |cycles| else i;
        assert all[i2] == less[i] && all[j2] == less[j];
      }
      LastCountsBelow(n, shorter, c);
    }
  }

  lemma StretchGrows(n: nat, before: seq<Cycle>, c: Cycle)
    requires AllOfSize(before, n) && |c.counts| == n && Growing(before + [c])
    ensures Begun(c.counts) - Begun(LastCounts(n, before)) >= 0
  {
    LastCountsBelow(n, before, c);
    hide Growing, LastCounts, Sum;
    SumMonotone(LastCounts(n, before), c.counts);
  }

  lemma GrowingPrefix(cycles: seq<Cycle>, k: nat)
    requires Growing(cycles) && k <= |cycles|
    ensures Growing(cycles[..k])
  {
  }

  lemma {:induction false} StretchesGrow(n: nat, cycles: seq<Cycle>)
    requires AllOfSize(cycles, n) && Growing(cycles)
    ensures forall i | 0 <= i < |Stretches(n, cycles)| :: Stretches(n, cycles)[i] >= 0
    decreases |cycles|
  {
    if cycles != [] {
      var before, c := cycles[..|cycles| - 1], cycles[|cycles| - 1];
      assert cycles == before + [c];
      hide Growing, LastCounts, Sum;
      GrowingPrefix(cycles, |cycles| - 1);
      StretchesGrow(n, before);
      StretchGrows(n, before, c);
      GainsNext(n, cycles, Begun);
      hide Gains;
      var gain := Begun(c.counts) - Begun(LastCounts(n, before));
      assert Stretches(n, cycles) == Stretches(n, before) + if c.Acknowledged() then [gain] else [];
    }
  }

  lemma GainsNext(n: nat, cycles: seq<Cycle>, f: seq<nat> -> int)
    requires AllOfSize(cycles, n) && cycles != []
    ensures
      var before, c := cycles[..|cycles| - 1], cycles[|cycles| - 1];
      Gains(n, cycles, f) ==
        Gains(n, before, f) + if c.Acknowledged() then [f(c.counts) - f(LastCounts(n, before))] else []
  {
  }

  lemma {:induction false} ResiduesExactIff(reports: seq<Report>, stretches: seq<int>)
    requires |reports| == |stretches|
    requires forall i | 0 <= i < |reports| :: 0 <= stretches[i] && reports[i].handled == stretches[i] % MODULUS
    ensures TotalReported(reports) <= Sum(stretches)
    ensures TotalReported(reports) == Sum(stretches) <==> forall i | 0 <= i < |stretches| :: stretches[i] < MODULUS
    decreases |reports|
  {
    if reports != [] {
      var n := |reports| - 1;
      ResiduesExactIff(reports[..n], stretches[..n]);
      ResidueBelow(stretches[n]);
      assert forall i | 0 <= i < n :: stretches[..n][i] == stretches[i];
    }
  }

  lemma ResidueBelow(d: nat)
    ensures d % MODULUS <= d && (d % MODULUS == d <==> d < MODULUS)
  {
  }

  /** Full-width counters lose multiples of 2^64 in every stretch. */
  lemma {:induction false} FullWidthLosses(n: nat, cycles: seq<Cycle>)
    requires AllOfSize(cycles, n)
    ensures forall i | 0 <= i < |Losses(n, cycles, MODULUS)| :: Congruent(Losses(n, cycles, MODULUS)[i], 0)
    decreases |cycles|
  {
    if cycles != [] {
      var before, c := cycles[..|cycles| - 1], cycles[|cycles| - 1];
      FullWidthLosses(n, before);
      var a, b := Sum(Wraps(c.counts, MODULUS)), Sum(Wraps(LastCounts(n, before), MODULUS));
      Distribute(MODULUS, a, 0 - b);
      LostIsMultiple(0, b - a);
      var gain := Lost(c.counts, MODULUS) - Lost(LastCounts(n, before), MODULUS);
      assert Congruent(gain, 0);
      hide Congruent, Lost, LastCounts, Sum;
      assert Losses(n, cycles, MODULUS) == Losses(n, before, MODULUS) + if c.Acknowledged() then [gain] else [];
    }
  }

  /** With 64-bit counters never more than was begun is reported, and exactly what was begun if and
      only if no stretch between two acknowledged cycles saw 2^64 requests or more. */
  lemma ReportsExactIff(n: nat, time: nat, cycles: seq<Cycle>)
    requires AllOfSize(cycles, n) && Growing(cycles)
    ensures TotalReported(Run(n, time, cycles, MODULUS).acknowledged) <= Sum(LastCounts(n, cycles))
    ensures TotalReported(Run(n, time, cycles, MODULUS).acknowledged) == Sum(LastCounts(n, cycles)) <==>
      forall i | 0 <= i < |Stretches(n, cycles)| :: Stretches(n, cycles)[i] < MODULUS
  {
    hide Run, Gains, Stretches, Losses, Sum, TotalReported, Growing, LastCounts, AllOfSize;
    FullWidthReports(n, time, cycles);
    StretchesTelescope(n, cycles, MODULUS);
    StretchesGrow(n, cycles);
    ResiduesExactIff(Run(n, time, cycles, MODULUS).acknowledged, Stretches(n, cycles));
  }

  lemma FullWidthReports(n: nat, time: nat, cycles: seq<Cycle>)
    requires AllOfSize(cycles, n)
    ensures
      var reports, d := Run(n, time, cycles, MODULUS).acknowledged, Stretches(n, cycles);
      |reports| == |d| && forall i | 0 <= i < |reports| :: reports[i].handled == d[i] % MODULUS
  {
    hide Run, Gains, Congruent, Stretches, Losses, AllOfSize;
    ReportsAreStretches(n, time, cycles, MODULUS);
    FullWidthLosses(n, cycles);
    var reports, d, l := Run(n, time, cycles, MODULUS).acknowledged, Stretches(n, cycles), Losses(n, cycles, MODULUS);
    forall i | 0 <= i < |reports| ensures reports[i].handled == d[i] % MODULUS {
      ResidueIgnores(d[i], l[i]);
    }
  }

  lemma ResidueIgnores(d: int, l: int)
    requires Congruent(l, 0)
    ensures (d - l) % MODULUS == d % MODULUS
  {
  }

  // ----- time

  /** The acknowledged reports cover the time from the start to the last acknowledged cycle without
      gap or overlap. */
  lemma {:induction false} ReportsTileTime(n: nat, time: nat, cycles: seq<Cycle>, width: Width)
    requires AllOfSize(cycles, n)
    ensures
      var s := Run(n, time, cycles, width);
      var r := s.acknowledged;
      && (r == [] ==> s.last.timestamp == time)
      && (r != [] ==> r[0].begin == time && r[|r| - 1].end == s.last.timestamp)
      && forall i | 0 < i < |r| :: r[i].begin == r[i - 1].end
    decreases |cycles|
  {
    if cycles != [] {
      ReportsTileTime(n, time, cycles[..|cycles| - 1], width);
    }
  }

  // ----- the width of one counter

  /** The growth that is reported for a counter of any width is the true one if and only if the
      counter did not wrap, or its wraps make up 2^64 exactly and the overflow branch is taken. */
  lemma CounterRightIff(begun: nat, before: nat, width: Width)
    requires before <= begun
    ensures Growth(begun % width, before % width) == begun - before <==>
      || begun / width == before / width
      || (begun % width < before % width && width * (begun / width - before / width) == MODULUS)
  {
    var q, p := begun / width, before / width;
    assert begun == width * q + begun % width && before == width * p + before % width;
    Distribute(width, q, 0 - p);
    NoMultipleIff(width, q - p);
    GrowthAgainst(begun % width, before % width, begun - before, width * (q - p));
  }

  /** The overflow branch is written for 64-bit counters. With a narrower one, over any growth that
      such counters can tell apart, the report is right if and only if the counter did not wrap. */
  lemma NarrowCounterRightIff(begun: nat, before: nat, width: Width)
    requires before <= begun && begun - before < MODULUS - width
    ensures Growth(begun % width, before % width) == begun - before <==> begun / width == before / width
  {
    CounterRightIff(begun, before, width);
    LessThanModulus(begun, before, width);
  }

  lemma LessThanModulus(begun: nat, before: nat, width: Width)
    requires begun - before < MODULUS - width
    ensures width * (begun / width - before / width) < MODULUS
  {
    var q, p := begun / width, before / width;
    assert begun == width * q + begun % width && before == width * p + before % width;
    Distribute(width, q, 0 - p);
  }

  lemma GrowthAgainst(now: UInt64, last: UInt64, growth: nat, lost: int)
    requires growth == lost + now as int - last as int
    ensures Growth(now, last) == growth <==> (now >= last && lost == 0) || (now < last && lost == MODULUS)
  {
    GrowthIsDifference(now, last);
  }

  lemma NoMultipleIff(width: Width, k: int)
    ensures width * k == 0 <==> k == 0
  {
  }

  /** A 32-bit counter that goes from its last value to zero is reported as almost 2^64 requests,
      and one that comes round to where it was as none. */
  lemma NarrowCounterMiscounts()
    ensures
      var width := 0x1_0000_0000;
      && Growth(width % width, (width - 1) % width) == MODULUS - (width - 1)
      && Growth((width + 5) % width, 5 % width) == 0
  {
    var width := 0x1_0000_0000;
    GrowthIsDifference(0, width - 1);
    GrowthIsDifference(5, 5);
  }
}

module Telemetry {
  import opened Basics
  import opened TelemetryModel

  class Collector {
    var last: Data
    ghost var acknowledged: seq<Report>

    ghost function View(): State
      reads this
    {
      State(last, acknowledged)
    }

    /** initialize, for this many controllers. */
    constructor (controllers: nat, now: nat)
      ensures View() == Initial(controllers, now)
    {
      last := Data(Wrapped(Zeros(controllers), MODULUS), now);
      acknowledged := [];
    }

    method CreateRequestBody(tmData: Data) returns (report: Report)
      requires |tmData.requestsHandled| == |last.requestsHandled|
      ensures report == ReportOf(tmData, last)
    {
      var now, before := tmData.requestsHandled, last.requestsHandled;
      var total: UInt64 := 0;
      var i := 0;
      while i < |now|
        invariant 0 <= i <= |now|
        invariant total == TotalGrowth(now[..i], before[..i])
      {
        assert now[..i + 1][..i] == now[..i] && before[..i + 1][..i] == before[..i];
        if now[i] >= before[i] {
          total := Add(total, Sub(now[i], before[i]));
        } else {
          total := Add(total, Add(Add(Sub(MAX, before[i]), 1), now[i]));
        }
        i := i + 1;
      }
      assert now[..i] == now && before[..i] == before;
      report := Report(total, last.timestamp, tmData.timestamp);
    }

    method HandleResponseBody(tmData: Data, processed: bool, backoff: Option<nat>, ghost report: Report)
      returns (backoffSec: nat)
      modifies this
      ensures View() == if processed then State(tmData, old(acknowledged) + [report]) else old(View())
      ensures backoffSec == if backoff.Some? then backoff.value else 0
    {
      backoffSec := 0;
      if processed {
        last := tmData;
        acknowledged := acknowledged + [report];
      }
      if backoff.Some? {
        backoffSec := backoff.value;
      }
    }

    /** A cycle in which the controllers show `tmData` and the exchange ends with `reply`. */
    method RunOneCycle(disabled: bool, tmData: Data, reply: Reply, ghost counts: seq<nat>, ghost width: Width)
      returns (backoffSec: nat)
      requires |counts| == |last.requestsHandled| && tmData.requestsHandled == Wrapped(counts, width)
      modifies this
      ensures View() == Next(old(View()), Cycle(disabled, counts, tmData.timestamp, reply), width)
      ensures backoffSec == if !disabled && reply.Answer? && reply.backoff.Some? then reply.backoff.value else 0
    {
      if disabled {
        return 0;
      }
      var report := CreateRequestBody(tmData);
      if reply.Failed? {
        return 0;
      }
      backoffSec := HandleResponseBody(tmData, reply.processed, reply.backoff, report);
    }
  }
}
