/** The telemetry history: raw samples are rolled up into minute buckets by a janitor that then
    deletes expired rows. Time is unix milliseconds. */
module MinuteHistory {

  datatype Sample = Sample(v: real, i: real, p: real, t: real)
  datatype Channel = Volts | Amps | Watts | Celsius
  datatype Stats = Stats(min: real, avg: real, max: real)
  datatype Bucket = Bucket(v: Stats, i: Stats, p: Stats, tAvg: real, cnt: nat)

  type Samples = map<nat, Sample>
  type Buckets = map<nat, Bucket>

  const MINUTE: nat := 60_000
  const DAY: nat := 24 * 60 * MINUTE
  const RAW_RETENTION: nat := 30 * DAY
  const MINUTE_RETENTION: nat := 365 * DAY

  function MinuteOf(ts: nat): (m: nat)
    ensures m <= ts < m + MINUTE && m % MINUTE == 0
  {
    ts / MINUTE * MINUTE
  }

  // --- aggregates of one minute's rows ---

  function Read(s: Sample, c: Channel): real {
    match c
    case Volts => s.v
    case Amps => s.i
    case Watts => s.p
    case Celsius => s.t
  }

  lemma PickLeast(keys: set<nat>) returns (least: nat)
    requires keys != {}
    ensures least in keys && forall j | j in keys :: least <= j
  {
    least :| least in keys;
    if keys != {least} {
      var rest := keys - {least};
      assert keys == rest + {least};
      var l := PickLeast(rest);
      if l < least { least := l; }
    }
  }

  lemma LeastExists(keys: set<nat>)
    requires keys != {}
    ensures exists k :: k in keys && forall j | j in keys :: k <= j
  {
    var least := PickLeast(keys);
  }

  function Oldest(rows: Samples): (k: nat)
    requires rows != map[]
    ensures k in rows && forall j | j in rows :: k <= j
  {
    LeastExists(rows.Keys);
    var k :| k in rows && forall j | j in rows :: k <= j;
    k
  }

  lemma PickGreatest(keys: set<nat>) returns (greatest: nat)
    requires keys != {}
    ensures greatest in keys && forall j | j in keys :: j <= greatest
  {
    greatest :| greatest in keys;
    if keys != {greatest} {
      var rest := keys - {greatest};
      assert keys == rest + {greatest};
      var g := PickGreatest(rest);
      if g > greatest { greatest := g; }
    }
  }

  lemma GreatestExists(keys: set<nat>)
    requires keys != {}
    ensures exists k :: k in keys && forall j | j in keys :: j <= k
  {
    var greatest := PickGreatest(keys);
  }

  function Newest(minutes: Buckets): (k: nat)
    requires minutes != map[]
    ensures k in minutes && forall j | j in minutes :: j <= k
  {
    GreatestExists(minutes.Keys);
    var k :| k in minutes && forall j | j in minutes :: j <= k;
    k
  }

  function Sum(rows: Samples, c: Channel): real
    decreases |rows|
  {
    if rows == map[] then 0.0 else Read(rows[Oldest(rows)], c) + Sum(rows - {Oldest(rows)}, c)
  }

  function Least(rows: Samples, c: Channel): real
    requires rows != map[]
    decreases |rows|
  {
    var k := Oldest(rows);
    var rest := rows - {k};
    if rest == map[] then Read(rows[k], c)
    else if Read(rows[k], c) <= Least(rest, c) then Read(rows[k], c) else Least(rest, c)
  }

  function Greatest(rows: Samples, c: Channel): real
    requires rows != map[]
    decreases |rows|
  {
    var k := Oldest(rows);
    var rest := rows - {k};
    if rest == map[] then Read(rows[k], c)
    else if Read(rows[k], c) >= Greatest(rest, c) then Read(rows[k], c) else Greatest(rest, c)
  }

  function StatsOf(rows: Samples, c: Channel): Stats
    requires rows != map[]
  {
    Stats(Least(rows, c), Sum(rows, c) / |rows| as real, Greatest(rows, c))
  }

  function BucketOf(rows: Samples): Bucket
    requires rows != map[]
  {
    Bucket(StatsOf(rows, Volts), StatsOf(rows, Amps), StatsOf(rows, Watts),
           Sum(rows, Celsius) / |rows| as real, |rows|)
  }

  lemma {:induction false} ExtremesAreRight(rows: Samples, c: Channel)
    requires rows != map[]
    ensures exists k :: k in rows && Read(rows[k], c) == Least(rows, c)
    ensures exists k :: k in rows && Read(rows[k], c) == Greatest(rows, c)
    ensures forall k | k in rows :: Least(rows, c) <= Read(rows[k], c) <= Greatest(rows, c)
    decreases |rows|
  {
    var o := Oldest(rows);
    var rest := rows - {o};
    assert forall k | k in rows :: k == o || k in rest;
    if rest != map[] { ExtremesAreRight(rest, c); }
  }

  /** The sum does not depend on the order of the rows: any row can be taken out first. */
  lemma {:induction false} SumAnyOrder(rows: Samples, c: Channel, k: nat)
    requires k in rows
    ensures Sum(rows, c) == Read(rows[k], c) + Sum(rows - {k}, c)
    decreases |rows|
  {
    var o := Oldest(rows);
    if k != o {
      SumAnyOrder(rows - {o}, c, k);
      assert o in rows - {k};
      assert Oldest(rows - {k}) == o;
      assert rows - {o} - {k} == rows - {k} - {o};
    }
  }

  // --- a bucket in figures ---

  /** The sum of one figure over the rows. */
  function TotalOf(rows: Samples, figure: Sample -> real): real
    decreases |rows|
  {
    if rows == map[] then 0.0 else figure(rows[Oldest(rows)]) + TotalOf(rows - {Oldest(rows)}, figure)
  }

  lemma {:induction false} SumIsTotal(rows: Samples, c: Channel, figure: Sample -> real)
    requires forall s :: figure(s) == Read(s, c)
    ensures Sum(rows, c) == TotalOf(rows, figure)
    decreases |rows|
  {
    if rows != map[] { SumIsTotal(rows - {Oldest(rows)}, c, figure); }
  }

  predicate Averages(avg: real, n: nat, total: real) {
    avg * n as real == total
  }

  /** One quantity of a bucket: its extremes are attained and bound every row, its average times the number of
      rows is the sum. */
  ghost predicate StatsRight(rows: Samples, st: Stats, figure: Sample -> real) {
    && (exists k :: k in rows && figure(rows[k]) == st.min)
    && (exists k :: k in rows && figure(rows[k]) == st.max)
    && (forall k | k in rows :: st.min <= figure(rows[k]) <= st.max)
    && Averages(st.avg, |rows|, TotalOf(rows, figure))
  }

  lemma StatsAreRight(rows: Samples, c: Channel, figure: Sample -> real)
    requires rows != map[] && forall s :: figure(s) == Read(s, c)
    ensures StatsRight(rows, StatsOf(rows, c), figure)
  {
    ExtremesAreRight(rows, c);
    var least :| least in rows && Read(rows[least], c) == Least(rows, c);
    var greatest :| greatest in rows && Read(rows[greatest], c) == Greatest(rows, c);
    assert figure(rows[least]) == Least(rows, c) && figure(rows[greatest]) == Greatest(rows, c);
    SumIsTotal(rows, c, figure);
    AverageTimesCount(Sum(rows, c), |rows|);
  }

  lemma AverageTimesCount(sum: real, n: nat)
    requires n > 0
    ensures Averages(sum / n as real, n, sum)
  {
  }

  /** A bucket says of its rows, field by field, the voltage, current and power with their extremes and
      averages, the average temperature, and the number. */
  ghost predicate Summarises(rows: Samples, b: Bucket) {
    && StatsRight(rows, b.v, (s: Sample) => s.v)
    && StatsRight(rows, b.i, (s: Sample) => s.i)
    && StatsRight(rows, b.p, (s: Sample) => s.p)
    && Averages(b.tAvg, |rows|, TotalOf(rows, (s: Sample) => s.t))
    && b.cnt == |rows|
  }

  lemma BucketSummarises(rows: Samples)
    requires rows != map[]
    ensures Summarises(rows, BucketOf(rows))
  {
    StatsAreRight(rows, Volts, (s: Sample) => s.v);
    StatsAreRight(rows, Amps, (s: Sample) => s.i);
    StatsAreRight(rows, Watts, (s: Sample) => s.p);
    SumIsTotal(rows, Celsius, (s: Sample) => s.t);
    AverageTimesCount(Sum(rows, Celsius), |rows|);
  }

  // --- the tables ---

  datatype Db = Db(samples: Samples, minutes: Buckets)

  function InMinute(samples: Samples, m: nat): Samples {
    map ts | ts in samples && MinuteOf(ts) == m :: samples[ts]
  }

  function MinutesOf(samples: Samples): set<nat> {
    set ts | ts in samples :: MinuteOf(ts)
  }

  lemma MinuteHasRows(samples: Samples, m: nat)
    requires m in MinutesOf(samples)
    ensures InMinute(samples, m) != map[]
  {
    var ts :| ts in samples && MinuteOf(ts) == m;
    assert ts in InMinute(samples, m);
  }

  /** One bucket for every minute from `from` up to `to` that holds a sample. */
  function RollUp(samples: Samples, from: int, to: int): Buckets {
    map m | m in MinutesOf(samples) && from <= m < to :: MinuteHasRows(samples, m); BucketOf(InMinute(samples, m))
  }

  function Inserted(db: Db, batch: Samples): Db {
    db.(samples := batch + db.samples)
  }

  /** The roll-up resumes after the last bucket, or at the first sample. */
  function ResumeAt(db: Db): nat
    requires db.minutes != map[] || db.samples != map[]
  {
    if db.minutes != map[] then Newest(db.minutes) + MINUTE else MinuteOf(Oldest(db.samples))
  }

  /** It stops before the minute still filling. */
  function Aggregated(db: Db, now: nat): Db {
    if (db.minutes == map[] && db.samples == map[]) || ResumeAt(db) >= MinuteOf(now) then db
    else db.(minutes := RollUp(db.samples, ResumeAt(db), MinuteOf(now)) + db.minutes)
  }

  function RawExpired(db: Db, now: nat): Db {
    db.(samples := map ts | ts in db.samples && ts >= now - RAW_RETENTION :: db.samples[ts])
  }

  /** The buckets from `from` on. */
  function Live(minutes: Buckets, from: int): Buckets {
    map m | m in minutes && m >= from :: minutes[m]
  }

  function MinutesExpired(db: Db, now: nat): Db {
    db.(minutes := Live(db.minutes, now - MINUTE_RETENTION))
  }

  /** Where a sweep can break off. */
  datatype Fault = NoFault | AtAggregate | AtRawDelete | AtMinuteDelete

  /** The retention pass: raw rows first, then buckets. */
  function Retained(db: Db, now: nat, fault: Fault): Db {
    if fault.AtRawDelete? then db
    else if fault.AtMinuteDelete? then RawExpired(db, now)
    else MinutesExpired(RawExpired(db, now), now)
  }

  function Swept(db: Db, now: nat, fault: Fault): Db {
    if fault.AtAggregate? then db else Retained(Aggregated(db, now), now, fault)
  }

  class History {
    var samples: Samples
    var minutes: Buckets

    ghost function Tables(): Db reads this { Db(samples, minutes) }

    constructor ()
      ensures Tables() == Db(map[], map[])
    {
      samples, minutes := map[], map[];
    }

    /** A timestamp already stored keeps its row. */
    method Insert(batch: Samples)
      modifies this
      ensures Tables() == Inserted(old(Tables()), batch)
    {
      samples := batch + samples;
    }

    method Aggregate(now: nat)
      modifies this`minutes
      ensures Tables() == Aggregated(old(Tables()), now)
    {
      ghost var db := Tables();
      var from: nat;
      if minutes != map[] {
        from := Newest(minutes) + MINUTE;
      } else {
        if samples == map[] { return; }
        from := MinuteOf(Oldest(samples));
      }
      assert from == ResumeAt(db);
      var to := MinuteOf(now);
      if from >= to { return; }
      var rolled := RollUp(samples, from, to);
      minutes := rolled + minutes;
      assert Tables() == db.(minutes := RollUp(db.samples, ResumeAt(db), MinuteOf(now)) + db.minutes);
    }

    method Retain(now: nat, fault: Fault) returns (ok: bool)
      modifies this
      ensures Tables() == Retained(old(Tables()), now, fault)
      ensures ok <==> !fault.AtRawDelete? && !fault.AtMinuteDelete?
    {
      if fault.AtRawDelete? { return false; }
      samples := map ts | ts in samples && ts >= now - RAW_RETENTION :: samples[ts];
      if fault.AtMinuteDelete? { return false; }
      minutes := Live(minutes, now - MINUTE_RETENTION);
      ok := true;
    }

    method Sweep(now: nat, fault: Fault) returns (ok: bool)
      modifies this
      ensures Tables() == Swept(old(Tables()), now, fault)
      ensures ok <==> fault.NoFault?
    {
      if fault.AtAggregate? { return false; }
      Aggregate(now);
      ok := Retain(now, fault);
    }
  }

  // --- whole histories ---

  datatype Op = Insert(batch: Samples) | Sweep(now: nat, fault: Fault)

  /** The tables, every sample ever inserted, the horizon below which buckets are expired, and the
      time of the last sweep. */
  datatype World = World(db: Db, ever: Samples, horizon: int, lastSweep: nat)

  const EMPTY := World(Db(map[], map[]), map[], -(MINUTE_RETENTION as int), 0)

  function Next(w: World, op: Op): World {
    match op
    case Insert(batch) => w.(db := Inserted(w.db, batch), ever := batch + w.ever)
    case Sweep(now, fault) =>
      w.(db := Swept(w.db, now, fault), lastSweep := now,
         horizon := if fault.NoFault? then now - MINUTE_RETENTION else w.horizon)
  }

  function Run(ops: seq<Op>): World {
    if ops == [] then EMPTY else Next(Run(ops[..|ops| - 1]), ops[|ops| - 1])
  }

  /** Sweeps come at non-decreasing times; batches are not restricted. */
  predicate Timely(w: World, op: Op) {
    op.Sweep? ==> w.lastSweep <= op.now
  }

  predicate Orderly(ops: seq<Op>) {
    ops == [] || (Orderly(ops[..|ops| - 1]) && Timely(Run(ops[..|ops| - 1]), ops[|ops| - 1]))
  }

  /** The horizon follows the sweeps, and buckets are aligned and cover whole minutes only. */
  ghost predicate Inv(w: World) {
    && w.horizon <= w.lastSweep - MINUTE_RETENTION
    && forall m | m in w.db.minutes :: m % MINUTE == 0 && m < MinuteOf(w.lastSweep)
  }

  /** Some bucket lies at or after minute m, so the roll-up will not look at m again. */
  predicate Passed(db: Db, m: nat) {
    exists b :: b in db.minutes && m <= b
  }

  /** Minute m has a bucket, which aggregates all samples ever inserted in it. */
  ghost predicate RolledUp(w: World, m: nat) {
    && m in w.db.minutes && m in MinutesOf(w.ever)
    && InMinute(w.ever, m) != map[] && w.db.minutes[m] == BucketOf(InMinute(w.ever, m))
  }

  /** Minute m is rolled up, or still lies ahead of the roll-up with all its samples stored. */
  ghost predicate Sound(w: World, m: nat) {
    if m in w.db.minutes then RolledUp(w, m)
    else InMinute(w.db.samples, m) == InMinute(w.ever, m) && (m in MinutesOf(w.ever) ==> !Passed(w.db, m))
  }

  /** The batch brings minute m a sample not seen before, although a bucket lies at or after m. */
  predicate Late(w: World, op: Op, m: nat) {
    op.Insert? && Passed(w.db, m) && exists ts :: ts in op.batch && ts !in w.ever && MinuteOf(ts) == m
  }

  predicate LateAt(ops: seq<Op>, i: nat, m: nat)
    requires i < |ops|
  {
    Late(Run(ops[..i]), ops[i], m)
  }

  predicate NoneLate(ops: seq<Op>, m: nat) {
    forall i: nat | i < |ops| :: !LateAt(ops, i, m)
  }

  lemma MinutesAreMonotone(a: nat, b: nat)
    requires a <= b
    ensures MinuteOf(a) <= MinuteOf(b)
  {
  }

  lemma MinutesAfterAligned(m: nat, n: nat)
    requires m % MINUTE == 0 && n % MINUTE == 0 && m < n
    ensures m + MINUTE <= n
  {
  }

  lemma StepKeepsInv(w: World, op: Op)
    requires Inv(w) && Timely(w, op)
    ensures Inv(Next(w, op)) && w.horizon <= Next(w, op).horizon
  {
    if op.Sweep? { MinutesAreMonotone(w.lastSweep, op.now); }
  }

  lemma {:induction false} OrderlyKeepsInv(ops: seq<Op>)
    requires Orderly(ops)
    ensures Inv(Run(ops))
  {
    if ops != [] {
      OrderlyKeepsInv(ops[..|ops| - 1]);
      StepKeepsInv(Run(ops[..|ops| - 1]), ops[|ops| - 1]);
    }
  }

  // --- one operation and one minute ---

  lemma InMinuteOfBoth(a: Samples, b: Samples, m: nat)
    ensures InMinute(a + b, m) == InMinute(a, m) + InMinute(b, m)
  {
  }

  /** A batch without a new sample for m leaves the samples of m as they were. */
  lemma NothingNew(ever: Samples, batch: Samples, m: nat)
    requires forall ts | ts in batch && MinuteOf(ts) == m :: ts in ever
    ensures InMinute(batch + ever, m) == InMinute(ever, m)
  {
  }

  lemma MinuteOfAny(samples: Samples, m: nat)
    ensures m in MinutesOf(samples) <==> InMinute(samples, m) != map[]
  {
    if m in MinutesOf(samples) { MinuteHasRows(samples, m); }
    if InMinute(samples, m) != map[] {
      var ts := Oldest(InMinute(samples, m));
      assert ts in samples && MinuteOf(ts) == m;
    }
  }

  lemma InsertKeepsSound(w: World, batch: Samples, m: nat)
    requires Sound(w, m) && !Late(w, Insert(batch), m)
    ensures Sound(Next(w, Insert(batch)), m)
  {
    MinuteOfAny(batch + w.ever, m);
    if Passed(w.db, m) {
      MinuteOfAny(w.ever, m);
      NothingNew(w.ever, batch, m);
      InMinuteOfBoth(batch, w.db.samples, m);
      InMinuteOfBoth(batch, w.ever, m);
    } else {
      InMinuteOfBoth(batch, w.db.samples, m);
      InMinuteOfBoth(batch, w.ever, m);
    }
  }

  /** A sample that still has to be rolled up is not before the resume point. */
  lemma AheadOfResume(db: Db, ts: nat)
    requires ts in db.samples && !Passed(db, MinuteOf(ts)) && forall m | m in db.minutes :: m % MINUTE == 0
    ensures ResumeAt(db) <= MinuteOf(ts)
  {
    if db.minutes != map[] {
      assert Newest(db.minutes) < MinuteOf(ts);
      MinutesAfterAligned(Newest(db.minutes), MinuteOf(ts));
    } else {
      MinutesAreMonotone(Oldest(db.samples), ts);
    }
  }

  /** What a roll-up does to one minute. */
  lemma AggregatedAt(db: Db, now: nat, m: nat)
    ensures var after := Aggregated(db, now);
      && after.samples == db.samples
      && (m in db.minutes ==> m in after.minutes && after.minutes[m] == db.minutes[m])
      && (m in after.minutes && m !in db.minutes ==>
            && m < MinuteOf(now) && m in MinutesOf(db.samples) && !Passed(db, m)
            && InMinute(db.samples, m) != map[] && after.minutes[m] == BucketOf(InMinute(db.samples, m)))
  {
    var after := Aggregated(db, now);
    if m in after.minutes && m !in db.minutes {
      assert m in MinutesOf(db.samples) && ResumeAt(db) <= m < MinuteOf(now);
      MinuteHasRows(db.samples, m);
      if db.minutes != map[] { assert Newest(db.minutes) < m; }
    }
  }

  /** After the roll-up every complete minute with samples has its bucket. */
  ghost predicate CaughtUp(w: World, m: nat, now: nat) {
    m in MinutesOf(w.ever) && m < MinuteOf(now) ==> m in w.db.minutes
  }

  lemma AggregateKeepsSound(w: World, now: nat, m: nat)
    requires Inv(w) && Sound(w, m)
    ensures var w' := w.(db := Aggregated(w.db, now)); Sound(w', m) && CaughtUp(w', m, now)
  {
    AggregatedAt(w.db, now, m);
    MinuteOfAny(w.ever, m);
    MinuteOfAny(w.db.samples, m);
    if m !in w.db.minutes && m in MinutesOf(w.ever) {
      var ts :| ts in w.db.samples && MinuteOf(ts) == m;
      AheadOfResume(w.db, ts);
      if m >= MinuteOf(now) { StaysAhead(w.db, now, m); } else { assert ResumeAt(w.db) < MinuteOf(now); }
    }
  }

  lemma StaysAhead(db: Db, now: nat, m: nat)
    requires !Passed(db, m) && m >= MinuteOf(now)
    ensures !Passed(Aggregated(db, now), m)
  {
  }

  lemma RawExpiryKeepsSound(w: World, now: nat, m: nat)
    requires Sound(w, m) && CaughtUp(w, m, now)
    ensures var w' := w.(db := RawExpired(w.db, now)); Sound(w', m)
  {
    if m !in w.db.minutes {
      MinuteOfAny(w.ever, m);
      if m in MinutesOf(w.ever) {
        assert forall ts | ts in w.db.samples && MinuteOf(ts) == m :: ts >= now - RAW_RETENTION;
      }
      assert InMinute(RawExpired(w.db, now).samples, m) == InMinute(w.db.samples, m);
    }
  }

  lemma MinuteExpiryKeepsSound(w: World, now: nat, m: nat)
    requires Sound(w, m) && m >= now - MINUTE_RETENTION
    ensures Sound(w.(db := MinutesExpired(w.db, now)), m)
  {
  }

  lemma SweepKeepsSound(w: World, now: nat, fault: Fault, m: nat)
    requires Inv(w) && Sound(w, m) && m >= Next(w, Sweep(now, fault)).horizon
    ensures Sound(Next(w, Sweep(now, fault)), m)
    ensures fault.NoFault? ==> CaughtUp(Next(w, Sweep(now, fault)), m, now)
  {
    AggregateKeepsSound(w, now, m);
    var w1 := w.(db := Aggregated(w.db, now));
    RawExpiryKeepsSound(w1, now, m);
    if fault.NoFault? { MinuteExpiryKeepsSound(w1.(db := RawExpired(w1.db, now)), now, m); }
  }

  // --- one minute over a whole history ---

  lemma {:induction false} HorizonRises(ops: seq<Op>, i: nat)
    requires Orderly(ops) && i <= |ops|
    ensures Orderly(ops[..i]) && Run(ops[..i]).horizon <= Run(ops).horizon
    ensures Run(ops[..i]).lastSweep <= Run(ops).lastSweep
  {
    if i == |ops| {
      assert ops[..i] == ops;
    } else {
      var before := ops[..|ops| - 1];
      assert before[..i] == ops[..i];
      HorizonRises(before, i);
      OrderlyKeepsInv(before);
      StepKeepsInv(Run(before), ops[|ops| - 1]);
    }
  }

  lemma NoneLateBefore(ops: seq<Op>, n: nat, m: nat)
    requires n <= |ops| && forall i: nat | i < n :: !LateAt(ops, i, m)
    ensures NoneLate(ops[..n], m)
  {
    forall i: nat | i < n ensures !LateAt(ops[..n], i, m) {
      assert ops[..n][..i] == ops[..i];
      assert !LateAt(ops, i, m);
    }
  }

  /** Through every series of inserts and sweeps, faulty ones included, a live minute that got no late
      sample stays sound. */
  lemma {:induction false} MinuteStaysSound(ops: seq<Op>, m: nat)
    requires Orderly(ops) && NoneLate(ops, m) && m >= Run(ops).horizon
    ensures Sound(Run(ops), m)
  {
    if ops != [] {
      var n := |ops| - 1;
      HorizonRises(ops, n);
      NoneLateBefore(ops, n, m);
      MinuteStaysSound(ops[..n], m);
      OrderlyKeepsInv(ops[..n]);
      assert !LateAt(ops, n, m);
      match ops[n]
      case Insert(batch) => InsertKeepsSound(Run(ops[..n]), batch, m);
      case Sweep(now, fault) => SweepKeepsSound(Run(ops[..n]), now, fault, m);
    }
  }

  /** Minute m has the same bucket in both, or none in either. */
  predicate SameAt(was: Buckets, now: Buckets, m: nat) {
    (m in now <==> m in was) && (m in now ==> now[m] == was[m])
  }

  /** One operation leaves everything at or before a bucket alone. */
  lemma FrozenStep(w: World, op: Op, b: nat, m: nat)
    requires b in w.db.minutes && m <= b && m >= Next(w, op).horizon
    ensures b in Next(w, op).db.minutes && SameAt(w.db.minutes, Next(w, op).db.minutes, m)
  {
    if op.Sweep? {
      AggregatedAt(w.db, op.now, m);
      AggregatedAt(w.db, op.now, b);
      assert Passed(w.db, m);
    }
  }

  lemma StaysFrozen(was: Buckets, w: World, op: Op, w': World, b: nat, m: nat)
    requires w' == Next(w, op) && b in w.db.minutes && w'.horizon <= m <= b && SameAt(was, w.db.minutes, m)
    ensures b in w'.db.minutes && SameAt(was, w'.db.minutes, m)
  {
    FrozenStep(w, op, b, m);
  }

  /** What lies at or before a bucket is final: whatever is inserted and however sweeps go, no live bucket
      there changes, and no live minute passed over there ever gets one. */
  lemma {:induction false} BucketsAreFinal(ops: seq<Op>, i: nat, b: nat, m: nat)
    requires Orderly(ops) && i <= |ops| && b in Run(ops[..i]).db.minutes && Run(ops).horizon <= m <= b
    ensures b in Run(ops).db.minutes && SameAt(Run(ops[..i]).db.minutes, Run(ops).db.minutes, m)
    decreases |ops|
  {
    if i == |ops| {
      assert ops[..i] == ops;
    } else {
      var n := |ops| - 1;
      assert ops[..n][..i] == ops[..i];
      HorizonRises(ops, n);
      BucketsAreFinal(ops[..n], i, b, m);
      StaysFrozen(Run(ops[..i]).db.minutes, Run(ops[..n]), ops[n], Run(ops), b, m);
    }
  }

  lemma {:induction false} FewerRows(rows: Samples, more: Samples, ts: nat)
    requires rows.Keys <= more.Keys && ts in more && ts !in rows
    ensures |rows| < |more|
    decreases |rows|
  {
    if rows != map[] {
      var k := Oldest(rows);
      assert forall j | j in rows - {k} :: j in more - {k};
      FewerRows(rows - {k}, more - {k}, ts);
    }
  }

  /** A new sample changes the aggregate of its minute. */
  lemma NewSampleIsCounted(ever: Samples, more: Samples, ts: nat, m: nat)
    requires ts in more && ts !in ever && m == MinuteOf(ts) && ever.Keys <= more.Keys
    requires InMinute(ever, m) != map[] && InMinute(more, m) != map[]
    ensures BucketOf(InMinute(ever, m)) != BucketOf(InMinute(more, m))
  {
    assert ts in InMinute(more, m) && ts !in InMinute(ever, m);
    assert InMinute(ever, m).Keys <= InMinute(more, m).Keys;
    FewerRows(InMinute(ever, m), InMinute(more, m), ts);
  }

  /** An insert, whatever its batch, leaves a bucket the aggregate of all samples of its minute exactly
      when it brings no new sample for that minute. */
  lemma InsertKeepsBucketIff(w: World, batch: Samples, m: nat)
    requires RolledUp(w, m)
    ensures RolledUp(Next(w, Insert(batch)), m) <==> !Late(w, Insert(batch), m)
  {
    assert Passed(w.db, m);
    if Late(w, Insert(batch), m) {
      var ts :| ts in batch && ts !in w.ever && MinuteOf(ts) == m;
      MinuteOfAny(batch + w.ever, m);
      assert ts in batch + w.ever;
      NewSampleIsCounted(w.ever, batch + w.ever, ts, m);
    } else {
      NothingNew(w.ever, batch, m);
      MinuteOfAny(batch + w.ever, m);
    }
  }

  lemma {:induction false} EverGrows(ops: seq<Op>, i: nat)
    requires i <= |ops|
    ensures Run(ops[..i]).ever.Keys <= Run(ops).ever.Keys
  {
    if i == |ops| {
      assert ops[..i] == ops;
    } else {
      assert ops[..|ops| - 1][..i] == ops[..i];
      EverGrows(ops[..|ops| - 1], i);
    }
  }

  lemma {:induction false} FirstLate(ops: seq<Op>, m: nat) returns (i: nat)
    requires !NoneLate(ops, m)
    ensures i < |ops| && LateAt(ops, i, m) && NoneLate(ops[..i], m)
  {
    i :| i < |ops| && LateAt(ops, i, m);
    if !NoneLate(ops[..i], m) {
      var j := FirstLate(ops[..i], m);
      assert ops[..i][..j] == ops[..j];
      i := j;
    }
  }

  /** A late sample is never counted: from then on, as long as its minute is live, the minute has no
      bucket or one that is not the aggregate of its samples. */
  lemma LateSampleIsNeverCounted(ops: seq<Op>, m: nat)
    requires Orderly(ops) && !NoneLate(ops, m) && m >= Run(ops).horizon
    ensures m in MinutesOf(Run(ops).ever) && !RolledUp(Run(ops), m)
    ensures Passed(Run(ops).db, m)
  {
    var i := FirstLate(ops, m);
    var w, w' := Run(ops[..i]), Run(ops);
    HorizonRises(ops, i);
    MinuteStaysSound(ops[..i], m);
    var ts :| ts in ops[i].batch && ts !in w.ever && MinuteOf(ts) == m;
    var b :| b in w.db.minutes && m <= b;
    BucketsAreFinal(ops, i, b, m);
    EverGrows(ops, i);
    EverGrows(ops, i + 1);
    assert ops[..i + 1][..i] == ops[..i];
    assert ts in w'.ever;
    if m in w.db.minutes {
      MinuteOfAny(w'.ever, m);
      NewSampleIsCounted(w.ever, w'.ever, ts, m);
    }
  }

  /** The bucket a roll-up of everything ever inserted would give minute m is there, or neither is. */
  ghost predicate Right(w: World, m: nat) {
    if m in MinutesOf(w.ever) then RolledUp(w, m) else m !in w.db.minutes
  }

  lemma LastSweep(ops: seq<Op>, now: nat)
    requires Orderly(ops + [Sweep(now, NoFault)])
    ensures Orderly(ops) && Run(ops).lastSweep <= now
    ensures Run(ops + [Sweep(now, NoFault)]) == Next(Run(ops), Sweep(now, NoFault))
  {
    assert (ops + [Sweep(now, NoFault)])[..|ops|] == ops;
  }

  lemma SweepsAreNotLate(ops: seq<Op>, now: nat, m: nat)
    ensures NoneLate(ops + [Sweep(now, NoFault)], m) <==> NoneLate(ops, m)
  {
    var all := ops + [Sweep(now, NoFault)];
    assert all[..|ops|] == ops;
    if NoneLate(all, m) { NoneLateBefore(all, |ops|, m); }
    if NoneLate(ops, m) {
      forall i: nat | i < |all| ensures !LateAt(all, i, m) {
        assert i < |ops| ==> all[..i] == ops[..i] && !LateAt(ops, i, m);
      }
    }
  }

  /** A complete, live minute after a sweep that ran through: its bucket is right exactly when none of its
      samples came late, whatever happened in the other minutes. */
  lemma MinuteIsRightIffNoneLate(ops: seq<Op>, now: nat, m: nat)
    requires Orderly(ops + [Sweep(now, NoFault)]) && now - MINUTE_RETENTION <= m < MinuteOf(now)
    ensures Right(Run(ops + [Sweep(now, NoFault)]), m) <==> NoneLate(ops, m)
  {
    var all := ops + [Sweep(now, NoFault)];
    LastSweep(ops, now);
    SweepsAreNotLate(ops, now, m);
    if NoneLate(ops, m) {
      MinuteStaysSound(all, m);
      HorizonRises(all, |ops|);
      assert all[..|ops|] == ops;
      OrderlyKeepsInv(ops);
      MinuteStaysSound(ops, m);
      SweepKeepsSound(Run(ops), now, NoFault, m);
      MinuteOfAny(Run(all).ever, m);
    } else {
      LateSampleIsNeverCounted(all, m);
    }
  }

  /** The buckets are exactly one roll-up of every sample ever inserted, without the expired ones. */
  ghost predicate Exact(w: World) {
    w.db.minutes == RollUp(w.ever, w.horizon, MinuteOf(w.lastSweep))
  }

  lemma RollUpAt(ever: Samples, from: int, to: int, m: nat)
    ensures m in RollUp(ever, from, to) <==> m in MinutesOf(ever) && from <= m < to
    ensures m in RollUp(ever, from, to) ==>
      InMinute(ever, m) != map[] && RollUp(ever, from, to)[m] == BucketOf(InMinute(ever, m))
  {
    if m in MinutesOf(ever) { MinuteHasRows(ever, m); }
  }

  /** Minute by minute. */
  lemma ExactIffRight(w: World)
    requires forall m | m in w.db.minutes :: w.horizon <= m < MinuteOf(w.lastSweep)
    ensures Exact(w) <==> forall m: nat | w.horizon <= m < MinuteOf(w.lastSweep) :: Right(w, m)
  {
    var all := RollUp(w.ever, w.horizon, MinuteOf(w.lastSweep));
    forall m: nat | w.horizon <= m < MinuteOf(w.lastSweep)
      ensures Right(w, m) <==> (m in all <==> m in w.db.minutes) && (m in all ==> all[m] == w.db.minutes[m])
    {
      RollUpAt(w.ever, w.horizon, MinuteOf(w.lastSweep), m);
    }
    if forall m: nat | w.horizon <= m < MinuteOf(w.lastSweep) :: Right(w, m) {
      assert forall m | m in all :: w.horizon <= m < MinuteOf(w.lastSweep) && Right(w, m);
      assert forall m | m in w.db.minutes :: Right(w, m);
    }
  }

  /** After a sweep that ran through, the bucket of every complete, live minute that got samples, none of
      them late, says in figures what all samples ever inserted in these 60 seconds say. */
  lemma SweptBucketsSummarise(ops: seq<Op>, now: nat, m: nat)
    requires Orderly(ops + [Sweep(now, NoFault)]) && now - MINUTE_RETENTION <= m < MinuteOf(now)
    requires NoneLate(ops, m) && m % MINUTE == 0
    ensures var w := Run(ops + [Sweep(now, NoFault)]);
            var rows := map ts | ts in w.ever && m <= ts < m + MINUTE :: w.ever[ts];
            if rows == map[] then m !in w.db.minutes else m in w.db.minutes && Summarises(rows, w.db.minutes[m])
  {
    var w := Run(ops + [Sweep(now, NoFault)]);
    var rows := map ts | ts in w.ever && m <= ts < m + MINUTE :: w.ever[ts];
    forall ts | ts in w.ever ensures MinuteOf(ts) == m <==> m <= ts < m + MINUTE { OneMinute(ts, m); }
    assert rows == InMinute(w.ever, m);
    MinuteOfAny(w.ever, m);
    MinuteIsRightIffNoneLate(ops, now, m);
    if rows != map[] { BucketSummarises(rows); }
  }

  lemma OneMinute(ts: nat, m: nat)
    requires m % MINUTE == 0
    ensures MinuteOf(ts) == m <==> m <= ts < m + MINUTE
  {
    if m <= ts < m + MINUTE && MinuteOf(ts) != m {
      if MinuteOf(ts) < m { MinutesAfterAligned(MinuteOf(ts), m); } else { MinutesAfterAligned(m, MinuteOf(ts)); }
    }
  }

  /** No minute is passed before it is complete. */
  lemma NothingPassesTheSweeps(ops: seq<Op>, now: nat, m: nat)
    requires Orderly(ops) && Run(ops).lastSweep <= now && m >= MinuteOf(now)
    ensures NoneLate(ops, m)
  {
    forall i: nat | i < |ops| ensures !LateAt(ops, i, m) {
      HorizonRises(ops, i);
      OrderlyKeepsInv(ops[..i]);
      MinutesAreMonotone(Run(ops[..i]).lastSweep, now);
    }
  }

  /** No sample of a minute that is live at `horizon` came late. */
  ghost predicate LiveInTime(ops: seq<Op>, horizon: int) {
    forall m: nat | m >= horizon :: NoneLate(ops, m)
  }

  lemma LiveMinutesInTime(ops: seq<Op>, now: nat)
    requires Orderly(ops) && Run(ops).lastSweep <= now
    requires forall m: nat | now - MINUTE_RETENTION <= m < MinuteOf(now) :: NoneLate(ops, m)
    ensures LiveInTime(ops, now - MINUTE_RETENTION)
  {
    forall m: nat | m >= now - MINUTE_RETENTION ensures NoneLate(ops, m) {
      if m >= MinuteOf(now) { NothingPassesTheSweeps(ops, now, m); }
    }
  }

  lemma ExactIffInTime(ops: seq<Op>, now: nat)
    requires Orderly(ops + [Sweep(now, NoFault)])
    ensures Exact(Run(ops + [Sweep(now, NoFault)])) <==> LiveInTime(ops, now - MINUTE_RETENTION)
  {
    var w := Run(ops + [Sweep(now, NoFault)]);
    LastSweep(ops, now);
    OrderlyKeepsInv(ops + [Sweep(now, NoFault)]);
    ExactIffRight(w);
    forall m: nat | now - MINUTE_RETENTION <= m < MinuteOf(now) ensures Right(w, m) <==> NoneLate(ops, m) {
      MinuteIsRightIffNoneLate(ops, now, m);
    }
    if Exact(w) { LiveMinutesInTime(ops, now); }
  }

  /** Whatever inserts and sweeps came before, faulty ones included, a sweep that runs through leaves
      exactly the buckets of one roll-up of all samples ever inserted, minus the expired ones, if and
      only if no sample of a minute that is still live came when a bucket lay at or after its minute. */
  lemma SweepsEqualOneRollUp(ops: seq<Op>, now: nat)
    requires Orderly(ops + [Sweep(now, NoFault)])
    ensures Run(ops + [Sweep(now, NoFault)]).db.minutes ==
            RollUp(Run(ops).ever, now - MINUTE_RETENTION, MinuteOf(now))
            <==> LiveInTime(ops, now - MINUTE_RETENTION)
  {
    LastSweep(ops, now);
    ExactIffInTime(ops, now);
  }

  /** No live raw sample of a minute without late samples is deleted, by any sweep, before its minute has
      its bucket. */
  lemma NoSampleLostBeforeRollUp(ops: seq<Op>, now: nat, fault: Fault, ts: nat)
    requires Orderly(ops) && Run(ops).lastSweep <= now && NoneLate(ops, MinuteOf(ts))
    requires ts in Run(ops).db.samples && MinuteOf(ts) >= Run(ops).horizon
    requires ts !in Swept(Run(ops).db, now, fault).samples
    ensures RolledUp(Run(ops).(db := Aggregated(Run(ops).db, now)), MinuteOf(ts))
  {
    var w, m := Run(ops), MinuteOf(ts);
    OrderlyKeepsInv(ops);
    MinuteStaysSound(ops, m);
    AggregateKeepsSound(w, now, m);
    assert ts < now - RAW_RETENTION;
    assert m < MinuteOf(now);
    StoredIsEver(ops, ts);
  }

  lemma {:induction false} StoredIsEver(ops: seq<Op>, ts: nat)
    requires ts in Run(ops).db.samples
    ensures ts in Run(ops).ever
  {
    if ops != [] {
      var before := ops[..|ops| - 1];
      if ts in Run(before).db.samples { StoredIsEver(before, ts); }
    }
  }

  /** Operation i inserts a sample under the timestamp. */
  predicate InsertsAt(ops: seq<Op>, ts: nat, i: nat)
    requires i < |ops|
  {
    ops[i].Insert? && ts in ops[i].batch
  }

  predicate Inserts(ops: seq<Op>, ts: nat) {
    exists i: nat :: i < |ops| && InsertsAt(ops, ts, i)
  }

  lemma InsertsOne(ops: seq<Op>, ts: nat)
    requires ops != []
    ensures Inserts(ops, ts) <==> Inserts(ops[..|ops| - 1], ts) || InsertsAt(ops, ts, |ops| - 1)
  {
    var before := ops[..|ops| - 1];
    if i: nat :| i < |before| && InsertsAt(ops, ts, i) { assert InsertsAt(before, ts, i); }
    if i: nat :| i < |before| && InsertsAt(before, ts, i) { assert InsertsAt(ops, ts, i); }
  }

  lemma {:induction false} EverIsInserted(ops: seq<Op>, ts: nat)
    ensures ts in Run(ops).ever <==> Inserts(ops, ts)
  {
    if ops != [] {
      EverIsInserted(ops[..|ops| - 1], ts);
      InsertsOne(ops, ts);
    }
  }

  /** What counts as ever inserted: under each timestamp the first sample that came. */
  lemma {:induction false} EverIsFirst(ops: seq<Op>, ts: nat, i: nat)
    requires i < |ops| && InsertsAt(ops, ts, i) && !Inserts(ops[..i], ts)
    ensures ts in Run(ops).ever && Run(ops).ever[ts] == ops[i].batch[ts]
    decreases |ops|
  {
    var n := |ops| - 1;
    if i < n {
      assert ops[..n][..i] == ops[..i] && InsertsAt(ops[..n], ts, i);
      EverIsFirst(ops[..n], ts, i);
    } else {
      EverIsInserted(ops[..n], ts);
    }
  }

  /** A sweep that breaks off has done its work up to that point: nothing, or the roll-up, or the roll-up and
      the deletion of raw rows. */
  lemma SweepBreaksOff(ops: seq<Op>, now: nat, fault: Fault, ts: nat)
    requires !fault.NoFault?
    ensures var was, left := Run(ops).db, Run(ops + [Sweep(now, fault)]).db;
            && left.minutes == (if fault.AtAggregate? then was.minutes else Aggregated(was, now).minutes)
            && (ts in left.samples <==>
                  ts in was.samples && (fault.AtMinuteDelete? ==> now - ts <= 30 * 24 * 60 * 60 * 1000))
            && (ts in left.samples ==> left.samples[ts] == was.samples[ts])
  {
    RunOne(ops, Sweep(now, fault));
  }

  /** A sweep that runs through leaves exactly the raw samples of the last thirty days. */
  lemma RawRowsAfterSweep(ops: seq<Op>, now: nat, ts: nat)
    ensures var was, left := Run(ops).db.samples, Run(ops + [Sweep(now, NoFault)]).db.samples;
            (ts in left <==> ts in was && now - ts <= 30 * 24 * 60 * 60 * 1000) && (ts in left ==> left[ts] == was[ts])
  {
    RunOne(ops, Sweep(now, NoFault));
  }

  lemma RunOne(before: seq<Op>, op: Op)
    ensures Run(before + [op]) == Next(Run(before), op)
    ensures Orderly(before + [op]) <==> Orderly(before) && Timely(Run(before), op)
  {
    assert (before + [op])[..|before|] == before;
  }

  /** A sample that comes after a bucket at or after its minute is stored until its raw retention is up,
      then deleted, and never counted. */
  lemma LateInsertIsLost(before: seq<Op>, b: nat, late: nat, s: Sample, now: nat)
    requires Orderly(before) && b in Run(before).db.minutes && MinuteOf(late) <= b && late !in Run(before).ever
    requires Run(before).lastSweep <= now && now - MINUTE_RETENTION <= MinuteOf(late) && late < now - RAW_RETENTION
    ensures var stored := before + [Insert(map[late := s])]; var swept := stored + [Sweep(now, NoFault)];
      && Orderly(swept) && late in Run(stored).db.samples && late !in Run(swept).db.samples
      && MinuteOf(late) in MinutesOf(Run(swept).ever) && !RolledUp(Run(swept), MinuteOf(late))
  {
    var insert, sweep, m := Insert(map[late := s]), Sweep(now, NoFault), MinuteOf(late);
    var all := before + [insert] + [sweep];
    RunOne(before, insert);
    RunOne(before + [insert], sweep);
    assert all[..|before|] == before && all[|before|] == insert;
    assert late in insert.batch && Late(Run(before), insert, m);
    assert LateAt(all, |before|, m);
    LateSampleIsNeverCounted(all, m);
  }

  lemma FirstSample(ops: seq<Op>, s: Sample, at: nat, m: nat)
    requires ops == [Insert(map[at := s])]
    ensures Orderly(ops) && NoneLate(ops, m)
    ensures Run(ops) == World(Db(map[at := s], map[]), map[at := s], EMPTY.horizon, 0)
  {
    assert ops[..0] == [];
  }

  /** The world after a first sample has been rolled up. */
  lemma FirstBucket(first: seq<Op>, s: Sample, at: nat, now: nat)
    requires first == [Insert(map[at := s])] && MinuteOf(at) < MinuteOf(now) && now <= MINUTE_RETENTION
    ensures var ops := first + [Sweep(now, NoFault)]; var w := Run(ops);
      Orderly(ops) && MinuteOf(at) in w.db.minutes && w.ever == map[at := s] && w.lastSweep == now
  {
    var m, w := MinuteOf(at), Run(first + [Sweep(now, NoFault)]);
    FirstSample(first, s, at, m);
    RunOne(first, Sweep(now, NoFault));
    MinuteIsRightIffNoneLate(first, now, m);
    assert at in w.ever;
    assert m in MinutesOf(w.ever);
  }

  /** A second sample for the minute of the first, or for an earlier one, after the first bucket. */
  lemma SecondSampleIsLost(first: seq<Op>, s: Sample, at: nat, now: nat, late: nat, later: nat)
    requires first == [Insert(map[at := s])] && MinuteOf(at) < MinuteOf(now) && now <= later <= MINUTE_RETENTION
    requires late != at && MinuteOf(late) <= MinuteOf(at) && late < later - RAW_RETENTION
    ensures var stored := first + [Sweep(now, NoFault)] + [Insert(map[late := s])];
      var swept := stored + [Sweep(later, NoFault)];
      && Orderly(swept) && late in Run(stored).db.samples && late !in Run(swept).db.samples
      && MinuteOf(late) in MinutesOf(Run(swept).ever) && !RolledUp(Run(swept), MinuteOf(late))
  {
    var before := first + [Sweep(now, NoFault)];
    FirstBucket(first, s, at, now);
    LateInsertIsLost(before, MinuteOf(at), late, s, later);
  }

  /** For instance: after the bucket of minute 1 came, a second sample for minute 1 or one for minute 0. */
  lemma LateSampleIsLost(s: Sample, late: nat, at: nat, now: nat) returns (ops: seq<Op>)
    requires at == MINUTE && now == 2 * MINUTE && late < now && late != at
    ensures |ops| == 4 && Orderly(ops) && late in Run(ops[..3]).db.samples && late !in Run(ops).db.samples
    ensures MinuteOf(late) in MinutesOf(Run(ops).ever) && !RolledUp(Run(ops), MinuteOf(late))
  {
    var first := [Insert(map[at := s])];
    var stored := first + [Sweep(now, NoFault)] + [Insert(map[late := s])];
    MinutesAreMonotone(late, now - 1);
    SecondSampleIsLost(first, s, at, now, late, now + RAW_RETENTION);
    ops := stored + [Sweep(now + RAW_RETENTION, NoFault)];
    assert ops[..3] == stored;
  }
}
