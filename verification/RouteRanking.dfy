/** Ranking the selected pool: priority buckets, the position reported for every candidate, and the share
    of the traffic it is expected to get. */
module RouteRanking {
  import opened Rounding
  import opened RouteSelection
  import Sorting

  // ----- priority buckets -----

  const NUDGE := 0.000000001

  /** effPriorityBucket: tenths of a priority point. */
  function EffBucket(p: real): int {
    var scaled := p * 10.0;
    Trunc(if scaled >= 0.0 then scaled + NUDGE else scaled - NUDGE)
  }

  /** routeDiagnosticPriorityBucket */
  function Bucket(d: Diagnostic, health: bool): int {
    if health then EffBucket(d.effectivePriority) else d.cfg.priority
  }

  /** routeDiagnosticPriorityBucket as a function value: the ranking below only needs to know that it reads
      nothing that the ranking writes. */
  function BucketOf(health: bool): Diagnostic -> int {
    (d: Diagnostic) => Bucket(d, health)
  }

  ghost predicate IgnoresMarks(bucket: Diagnostic -> int) {
    forall d: Diagnostic, e: Diagnostic ::
      d.cfg == e.cfg && d.effectivePriority == e.effectivePriority ==> bucket(d) == bucket(e)
  }

  lemma BucketsIgnoreMarks(health: bool)
    ensures IgnoresMarks(BucketOf(health))
  {
  }

  /** Truncation keeps the order of priorities on both sides of zero. */
  lemma BucketsKeepTheOrder(p: real, q: real)
    requires p <= q
    ensures EffBucket(p) <= EffBucket(q)
  {
    var s, t := p * 10.0, q * 10.0;
    if s < 0.0 && t < 0.0 {
      assert -(t - NUDGE) <= -(s - NUDGE);
      assert (-(t - NUDGE)).Floor <= (-(s - NUDGE)).Floor;
    } else if s < 0.0 {
      assert (-(s - NUDGE)).Floor >= 0;
    }
  }

  /** A channel without a health penalty keeps its configured rank: ten buckets per priority point. */
  lemma WholePrioritiesAreExact(k: int)
    ensures EffBucket(k as real) == 10 * k
  {
    var s := k as real * 10.0;
    assert s == (10 * k) as real;
    if k >= 0 {
      assert (s + NUDGE).Floor == 10 * k;
    } else {
      assert (-(s - NUDGE)).Floor == -10 * k;
    }
  }

  /** A bucket holds a tenth of a priority point, shifted by the nudge towards zero; below zero it mirrors the buckets
      above, and the bucket around zero is twice as wide. */
  lemma BucketHoldsATenth(p: real)
    ensures p >= 0.0 ==> EffBucket(p) as real <= p * 10.0 + 0.000000001 < EffBucket(p) as real + 1.0
    ensures p < 0.0 ==> EffBucket(p) == -EffBucket(-p)
  {
    if p < 0.0 {
      assert -(p * 10.0 - NUDGE) == -p * 10.0 + NUDGE;
    }
  }

  predicate Ahead(a: Diagnostic, b: Diagnostic, health: bool) {
    if Bucket(a, health) != Bucket(b, health) then Bucket(a, health) > Bucket(b, health) else a.cfg.id < b.cfg.id
  }

  function AheadBy(health: bool): (Diagnostic, Diagnostic) -> bool {
    (a: Diagnostic, b: Diagnostic) => Ahead(a, b, health)
  }

  // ----- sorting -----

  predicate DistinctChannels(ds: seq<Diagnostic>) {
    forall i, j :: 0 <= i < j < |ds| ==> ds[i].cfg.id != ds[j].cfg.id
  }

  /** The bucket of every row. */
  function Buckets(ds: seq<Diagnostic>, bucket: Diagnostic -> int): (bs: seq<int>)
    ensures |bs| == |ds| && forall i :: 0 <= i < |ds| ==> bs[i] == bucket(ds[i])
  {
    seq(|ds|, i requires 0 <= i < |ds| => bucket(ds[i]))
  }

  /** Highest bucket first. */
  predicate Grouped(bs: seq<int>) {
    forall i, j :: 0 <= i < j < |bs| ==> bs[i] >= bs[j]
  }

  /** sortRouteDiagnosticPool; the library sort it calls is Sorting.Sort. */
  method SortPool(pool: seq<Diagnostic>, health: bool) returns (r: seq<Diagnostic>)
    ensures multiset(r) == multiset(pool) && Sorting.SortedBy(r, AheadBy(health)) && Grouped(Buckets(r, BucketOf(health)))
    ensures forall i, j :: 0 <= i < j < |r| ==>
              var a, b := r[i], r[j];
              var (p, q) := if health then (EffBucket(a.effectivePriority), EffBucket(b.effectivePriority)) else (a.cfg.priority, b.cfg.priority);
              p > q || (p == q && a.cfg.id <= b.cfg.id)
  {
    r := Sorting.Sort(pool, AheadBy(health));
    Sorting.SortPermutes(pool, AheadBy(health));
    Sorting.SortSorted(pool, AheadBy(health));
    forall i, j | 0 <= i < j < |r|
      ensures Bucket(r[i], health) > Bucket(r[j], health) || (Bucket(r[i], health) == Bucket(r[j], health) && r[i].cfg.id <= r[j].cfg.id)
    {
      assert !AheadBy(health)(r[j], r[i]);
    }
  }

  /** The order of the pool depends only on which channels are in it. */
  lemma PoolOrderIsUnique(pool: seq<Diagnostic>, r: seq<Diagnostic>, s: seq<Diagnostic>, health: bool)
    requires DistinctChannels(pool) && multiset(r) == multiset(pool) == multiset(s)
    requires Sorting.SortedBy(r, AheadBy(health)) && Sorting.SortedBy(s, AheadBy(health))
    ensures r == s
  {
    forall a, b | a in r && b in r && a != b
      ensures AheadBy(health)(a, b) || AheadBy(health)(b, a)
    {
      assert a in multiset(pool) && b in multiset(pool);
      var i :| 0 <= i < |pool| && pool[i] == a;
      var j :| 0 <= j < |pool| && pool[j] == b;
      assert i != j;
    }
    Sorting.SortedUnique(r, s, AheadBy(health));
  }

  // ----- what the marks mean -----

  /** The buckets of the pool that come before bucket `b`. */
  function BucketsAbove(bs: seq<int>, b: int): set<int> {
    set c | c in bs && c > b
  }

  datatype Side = Above | Level | Below

  function SideOf(c: int, b: int): Side {
    if c > b then Above else if c == b then Level else Below
  }

  /** How many rows lie on one side of bucket `b`. */
  function Rows(bs: seq<int>, b: int, side: Side): nat {
    if bs == [] then 0
    else Rows(bs[..|bs| - 1], b, side) + if SideOf(bs[|bs| - 1], b) == side then 1 else 0
  }

  function KeyWeight(d: Diagnostic): (w: nat)
    ensures w > 0
  {
    if d.activeKeys > 1 then d.activeKeys else 1
  }

  function Weights(ds: seq<Diagnostic>): (ws: seq<nat>)
    ensures |ws| == |ds| && forall i :: 0 <= i < |ds| ==> ws[i] == KeyWeight(ds[i])
  {
    seq(|ds|, i requires 0 <= i < |ds| => KeyWeight(ds[i]))
  }

  function Weight(bs: seq<int>, ws: seq<nat>, b: int): (w: nat)
    requires |bs| == |ws|
    ensures forall i :: 0 <= i < |bs| && bs[i] == b ==> w >= ws[i]
  {
    if bs == [] then 0
    else
      var n := |bs| - 1;
      var w := Weight(bs[..n], ws[..n], b);
      assert forall i :: 0 <= i < n && bs[i] == b ==> w >= ws[..n][i] == ws[i];
      w + if bs[n] == b then ws[n] else 0
  }

  /** What the mark of row `i` says about the pool. */
  ghost predicate Marked(d: Diagnostic, was: seq<Diagnostic>, i: nat, bs: seq<int>, ws: seq<nat>)
    requires i < |was| == |bs| == |ws|
  {
    && d == was[i].(candidate := true, position := d.position, higher := d.higher, same := d.same, share := d.share)
    && d.position == 1 + |BucketsAbove(bs, bs[i])|
    && d.higher == Rows(bs, bs[i], Above)
    && d.same == Rows(bs, bs[i], Level)
    && Weight(bs, ws, bs[i]) > 0
    && d.share == ws[i] as real / Weight(bs, ws, bs[i]) as real
  }

  ghost predicate AllMarked(out: seq<Diagnostic>, was: seq<Diagnostic>, bs: seq<int>, ws: seq<nat>) {
    |out| == |was| == |bs| == |ws| && forall i :: 0 <= i < |out| ==> Marked(out[i], was, i, bs, ws)
  }

  /** The buckets seen so far, each with its rank. */
  ghost predicate Numbered(positions: map<int, nat>, bs: seq<int>) {
    forall b :: b in positions <==> b in bs
  }

  ghost predicate Ranked(positions: map<int, nat>, bs: seq<int>) {
    forall b :: b in positions ==> positions[b] == 1 + |BucketsAbove(bs, b)|
  }

  method PriorityPositions(pool: array<Diagnostic>, bucket: Diagnostic -> int, ghost bs: seq<int>) returns (positions: map<int, nat>)
    requires bs == Buckets(pool[..], bucket) && Grouped(bs)
    ensures Numbered(positions, bs) && Ranked(positions, bs)
  {
    positions := map[];
    var next := 1;
    for i := 0 to pool.Length
      invariant next == 1 + |positions| && Numbered(positions, bs[..i]) && Ranked(positions, bs)
    {
      var b := bucket(pool[i]);
      assert b == bs[i];
      NextPosition(positions, bs, i);
      if b !in positions {
        positions := positions[b := next];
        next := next + 1;
      }
    }
    assert bs[..pool.Length] == bs;
  }

  lemma NextPosition(positions: map<int, nat>, bs: seq<int>, i: nat)
    requires Grouped(bs) && i < |bs| && Numbered(positions, bs[..i]) && Ranked(positions, bs)
    ensures var r := if bs[i] in positions then positions else positions[bs[i] := 1 + |positions|];
            Numbered(r, bs[..i + 1]) && Ranked(r, bs)
  {
    assert bs[..i + 1] == bs[..i] + [bs[i]];
    if bs[i] !in positions {
      NumberedAreAbove(positions, bs, i, bs[i]);
    }
  }

  lemma NumberedAreAbove(positions: map<int, nat>, bs: seq<int>, i: nat, b: int)
    requires Grouped(bs) && i < |bs| && Numbered(positions, bs[..i]) && b == bs[i] && b !in positions
    ensures positions.Keys == BucketsAbove(bs, b)
  {
    hide Grouped;
    assert b !in bs[..i];
    SeenAreAbove(bs, i);
    assert forall c :: c in positions.Keys <==> c in BucketsAbove(bs, bs[i]);
  }

  lemma SeenAreAbove(bs: seq<int>, i: nat)
    requires Grouped(bs) && i < |bs| && bs[i] !in bs[..i]
    ensures forall c :: c in bs[..i] <==> c in bs && c > bs[i]
  {
    forall c | c in bs[..i]
      ensures c in bs && c > bs[i]
    {
      var j :| 0 <= j < i && bs[j] == c;
      assert bs[j] in bs[..i];
    }
    forall c | c in bs && c > bs[i]
      ensures c in bs[..i]
    {
      var j :| 0 <= j < |bs| && bs[j] == c;
    }
  }

  /** The first `n` rows are marked, the others untouched, and the marks have not moved any row. */
  ghost predicate MarkedUpTo(rows: seq<Diagnostic>, was: seq<Diagnostic>, bs: seq<int>, ws: seq<nat>, n: nat) {
    && |rows| == |was| == |bs| == |ws|
    && (forall j :: 0 <= j < n <= |rows| ==> Marked(rows[j], was, j, bs, ws))
    && (forall j :: n <= j < |rows| ==> rows[j] == was[j])
  }

  ghost predicate Reads(rows: seq<Diagnostic>, bucket: Diagnostic -> int, bs: seq<int>, ws: seq<nat>) {
    |rows| == |bs| == |ws| && forall j :: 0 <= j < |rows| ==> bucket(rows[j]) == bs[j] && KeyWeight(rows[j]) == ws[j]
  }

  lemma OneMoreMarked(rows: seq<Diagnostic>, was: seq<Diagnostic>, bucket: Diagnostic -> int,
                      bs: seq<int>, ws: seq<nat>, i: nat, row: Diagnostic)
    requires MarkedUpTo(rows, was, bs, ws, i) && Reads(rows, bucket, bs, ws)
    requires i < |rows| && Marked(row, was, i, bs, ws) && bucket(row) == bs[i] && KeyWeight(row) == ws[i]
    ensures MarkedUpTo(rows[i := row], was, bs, ws, i + 1) && Reads(rows[i := row], bucket, bs, ws)
  {
  }

  /** markRouteDiagnosticCandidates */
  method Mark(pool: array<Diagnostic>, bucket: Diagnostic -> int)
    requires IgnoresMarks(bucket) && Grouped(Buckets(pool[..], bucket)) && forall d :: d in pool[..] ==> Unplaced(d)
    modifies pool
    ensures var was := old(pool[..]); AllMarked(pool[..], was, Buckets(was, bucket), Weights(was))
  {
    ghost var was := pool[..];
    ghost var bs: seq<int>, ws: seq<nat> := Buckets(was, bucket), Weights(was);
    var positions := PriorityPositions(pool, bucket, bs);
    for i := 0 to pool.Length
      invariant MarkedUpTo(pool[..], was, bs, ws, i) && Reads(pool[..], bucket, bs, ws)
    {
      assert was[i] in was && bs[i] in bs;
      MarkRow(pool, i, positions, bucket, was, bs, ws);
    }
  }

  method MarkRow(pool: array<Diagnostic>, i: nat, positions: map<int, nat>, bucket: Diagnostic -> int,
                 ghost was: seq<Diagnostic>, ghost bs: seq<int>, ghost ws: seq<nat>)
    requires IgnoresMarks(bucket) && i < pool.Length && Reads(pool[..], bucket, bs, ws)
    requires MarkedUpTo(pool[..], was, bs, ws, i) && Unplaced(was[i])
    requires bs[i] in positions && positions[bs[i]] == 1 + |BucketsAbove(bs, bs[i])|
    modifies pool
    ensures MarkedUpTo(pool[..], was, bs, ws, i + 1) && Reads(pool[..], bucket, bs, ws)
  {
    ghost var rows := pool[..];
    assert pool[i] == rows[i] == was[i];
    var same, higher, groupWeight := CountPeers(pool, i, bucket, bs, ws);
    var row := Placed(pool[i], positions[bucket(pool[i])], same, higher, groupWeight);
    pool[i] := row;
    assert pool[..] == rows[i := row];
    OneMoreMarked(rows, was, bucket, bs, ws, i, row);
  }

  function Placed(d: Diagnostic, position: nat, same: nat, higher: nat, groupWeight: nat): Diagnostic {
    var row := d.(candidate := true, position := position, same := d.same + same, higher := d.higher + higher);
    if groupWeight > 0 then row.(share := KeyWeight(d) as real / groupWeight as real) else row
  }

  method CountPeers(pool: array<Diagnostic>, i: nat, bucket: Diagnostic -> int, ghost bs: seq<int>, ghost ws: seq<nat>)
    returns (same: nat, higher: nat, groupWeight: nat)
    requires i < pool.Length == |bs| == |ws|
    requires Reads(pool[..], bucket, bs, ws)
    ensures same == Rows(bs, bs[i], Level) && higher == Rows(bs, bs[i], Above)
    ensures groupWeight == Weight(bs, ws, bs[i])
  {
    var b := bucket(pool[i]);
    same, higher, groupWeight := 0, 0, 0;
    for j := 0 to pool.Length
      invariant same == Rows(bs[..j], b, Level)
      invariant higher == Rows(bs[..j], b, Above)
      invariant groupWeight == Weight(bs[..j], ws[..j], b)
    {
      assert bs[..j + 1][..j] == bs[..j] && ws[..j + 1][..j] == ws[..j];
      assert pool[..][j] == pool[j];
      var c := bucket(pool[j]);
      if c == b {
        same := same + 1;
        groupWeight := groupWeight + KeyWeight(pool[j]);
      } else if c > b {
        higher := higher + 1;
      }
    }
    assert bs[..pool.Length] == bs && ws[..pool.Length] == ws;
  }

  // ----- consequences for the whole pool -----

  lemma {:induction false} SidesPartition(bs: seq<int>, b: int)
    ensures Rows(bs, b, Above) + Rows(bs, b, Level) + Rows(bs, b, Below) == |bs|
  {
    if bs != [] {
      SidesPartition(bs[..|bs| - 1], b);
    }
  }

  /** In a grouped pool a row is preceded by exactly the rows above it. */
  lemma {:induction false} GroupIsAnInterval(bs: seq<int>, b: int, k: nat)
    requires Grouped(bs) && k < |bs|
    ensures SideOf(bs[k], b) == Above <==> k < Rows(bs, b, Above)
    ensures SideOf(bs[k], b) == Below <==> k >= Rows(bs, b, Above) + Rows(bs, b, Level)
  {
    var init, last := bs[..|bs| - 1], bs[|bs| - 1];
    SidesPartition(init, b);
    SidesPartition(bs, b);
    if SideOf(last, b) == Above {
      AllAbove(init, b);
    } else if SideOf(last, b) == Level {
      NoneBelow(init, b);
    }
    if k < |init| {
      GroupIsAnInterval(init, b, k);
    }
  }

  lemma {:induction false} AllAbove(bs: seq<int>, b: int)
    requires forall i :: 0 <= i < |bs| ==> bs[i] > b
    ensures Rows(bs, b, Above) == |bs|
  {
    if bs != [] {
      AllAbove(bs[..|bs| - 1], b);
    }
  }

  lemma {:induction false} NoneBelow(bs: seq<int>, b: int)
    requires forall i :: 0 <= i < |bs| ==> bs[i] >= b
    ensures Rows(bs, b, Below) == 0
  {
    if bs != [] {
      NoneBelow(bs[..|bs| - 1], b);
    }
  }

  /** The higher, same and lower counts of a row partition the pool, and they say where its group stands:
      rows higher .. higher + same are exactly the rows of its bucket. */
  lemma CountsPartitionThePool(out: seq<Diagnostic>, was: seq<Diagnostic>, bs: seq<int>, ws: seq<nat>, i: nat, k: nat)
    requires AllMarked(out, was, bs, ws) && Grouped(bs) && i < |out| && k < |out|
    ensures out[i].higher + out[i].same + Rows(bs, bs[i], Below) == |out|
    ensures out[i].higher <= i < out[i].higher + out[i].same
    ensures out[i].higher <= k < out[i].higher + out[i].same <==> bs[k] == bs[i]
  {
    SidesPartition(bs, bs[i]);
    GroupIsAnInterval(bs, bs[i], i);
    GroupIsAnInterval(bs, bs[i], k);
  }

  /** The reported position is the dense rank of the bucket: it starts at one, stays the same inside a
      bucket and goes up by one at each new bucket, so it never decreases along the pool. */
  lemma PositionIsDenseRank(out: seq<Diagnostic>, was: seq<Diagnostic>, bs: seq<int>, ws: seq<nat>, i: nat, j: nat)
    requires AllMarked(out, was, bs, ws) && Grouped(bs) && i <= j < |out|
    ensures out[0].position == 1
    ensures i > 0 ==> out[i].position == out[i - 1].position + if bs[i - 1] == bs[i] then 0 else 1
    ensures out[i].position <= out[j].position
    ensures out[i].position == out[j].position <==> bs[i] == bs[j]
  {
    DenseRanks(bs, i, j);
    if i > 0 {
      NextBucket(bs, i);
    }
  }

  lemma AboveGrows(bs: seq<int>, b: int, c: int)
    requires b >= c
    ensures |BucketsAbove(bs, b)| <= |BucketsAbove(bs, c)|
    ensures b in bs && b > c ==> |BucketsAbove(bs, b)| < |BucketsAbove(bs, c)|
  {
    var fewer, more := BucketsAbove(bs, b), BucketsAbove(bs, c);
    assert more == fewer + (more - fewer);
    if b in bs && b > c {
      assert b in more - fewer;
    }
  }

  lemma DenseRanks(bs: seq<int>, i: nat, j: nat)
    requires Grouped(bs) && i <= j < |bs|
    ensures |BucketsAbove(bs, bs[0])| == 0
    ensures |BucketsAbove(bs, bs[i])| <= |BucketsAbove(bs, bs[j])|
    ensures |BucketsAbove(bs, bs[i])| == |BucketsAbove(bs, bs[j])| <==> bs[i] == bs[j]
  {
    assert BucketsAbove(bs, bs[0]) == {};
    AboveGrows(bs, bs[i], bs[j]);
    if bs[i] > bs[j] {
      assert bs[i] in bs;
    }
  }

  lemma NextBucket(bs: seq<int>, i: nat)
    requires Grouped(bs) && 0 < i < |bs|
    ensures |BucketsAbove(bs, bs[i])| == |BucketsAbove(bs, bs[i - 1])| + if bs[i - 1] == bs[i] then 0 else 1
  {
    if bs[i - 1] != bs[i] {
      assert BucketsAbove(bs, bs[i]) == BucketsAbove(bs, bs[i - 1]) + {bs[i - 1]};
    }
  }

  /** The shares of the rows of one bucket, added up. */
  function SharesIn(out: seq<Diagnostic>, bs: seq<int>, b: int): real
    requires |out| == |bs|
  {
    if out == [] then 0.0
    else
      var n := |out| - 1;
      SharesIn(out[..n], bs[..n], b) + if bs[n] == b then out[n].share else 0.0
  }

  lemma Quotients(a: nat, b: nat, total: nat)
    requires total > 0
    ensures (a + b) as real / total as real == a as real / total as real + b as real / total as real
    ensures a == total ==> a as real / total as real == 1.0
    ensures 0 < a <= total ==> 0.0 < a as real / total as real <= 1.0
  {
    QuotientsOfReals(a as real, b as real, total as real);
  }

  lemma QuotientsOfReals(a: real, b: real, t: real)
    requires t > 0.0
    ensures (a + b) / t == a / t + b / t
    ensures t / t == 1.0
    ensures 0.0 < a <= t ==> 0.0 < a / t <= 1.0
  {
    assert t / t == 1.0;
    if 0.0 < a <= t {
      assert a / t <= t / t;
    }
  }

  lemma {:induction false} SharesFollowWeights(out: seq<Diagnostic>, bs: seq<int>, ws: seq<nat>, b: int, total: nat)
    requires |out| == |bs| == |ws| && total > 0
    requires forall i :: 0 <= i < |out| && bs[i] == b ==> out[i].share == ws[i] as real / total as real
    ensures SharesIn(out, bs, b) == Weight(bs, ws, b) as real / total as real
  {
    if out == [] {
      Quotients(0, 0, total);
    } else {
      var n := |out| - 1;
      SharesFollowWeights(out[..n], bs[..n], ws[..n], b, total);
      Quotients(Weight(bs[..n], ws[..n], b), ws[n], total);
    }
  }

  /** Every candidate gets some traffic, and the shares of its bucket add up to exactly one. */
  lemma SharesSumToOne(out: seq<Diagnostic>, was: seq<Diagnostic>, bs: seq<int>, ws: seq<nat>, i: nat)
    requires AllMarked(out, was, bs, ws) && ws == Weights(was) && i < |out|
    ensures 0.0 < out[i].share <= 1.0
    ensures out[i].same == 1 ==> out[i].share == 1.0
    ensures SharesIn(out, bs, bs[i]) == 1.0
  {
    var total := Weight(bs, ws, bs[i]);
    Quotients(total, 0, total);
    Quotients(ws[i], 0, total);
    SharesFollowWeights(out, bs, ws, bs[i], total);
    if out[i].same == 1 {
      OnlyRow(bs, ws, i);
    }
  }

  /** Rows of one bucket share the traffic in proportion to their active keys, a row without any counting as one. */
  lemma SharesFollowKeys(out: seq<Diagnostic>, was: seq<Diagnostic>, bs: seq<int>, i: nat, j: nat)
    requires AllMarked(out, was, bs, Weights(was)) && i < |out| && j < |out| && bs[i] == bs[j]
    ensures var k, l := if out[i].activeKeys > 1 then out[i].activeKeys else 1, if out[j].activeKeys > 1 then out[j].activeKeys else 1;
            out[i].share * l as real == out[j].share * k as real
  {
    hide Weight;
    var ws := Weights(was);
    assert Marked(out[i], was, i, bs, ws) && Marked(out[j], was, j, bs, ws);
    Proportion(ws[i] as real, ws[j] as real, Weight(bs, ws, bs[i]) as real);
  }

  lemma Proportion(a: real, b: real, t: real)
    requires t != 0.0
    ensures a / t * b == b / t * a
  {
  }

  lemma {:induction false} OnlyRow(bs: seq<int>, ws: seq<nat>, i: nat)
    requires i < |bs| == |ws| && Rows(bs, bs[i], Level) == 1
    ensures Weight(bs, ws, bs[i]) == ws[i]
  {
    var n := |bs| - 1;
    if i < n {
      SomeRow(bs[..n], i);
      OnlyRow(bs[..n], ws[..n], i);
    } else {
      NoRow(bs[..n], ws[..n], bs[i]);
    }
  }

  lemma {:induction false} SomeRow(bs: seq<int>, i: nat)
    requires i < |bs|
    ensures Rows(bs, bs[i], Level) > 0
  {
    if i < |bs| - 1 {
      SomeRow(bs[..|bs| - 1], i);
    }
  }

  lemma {:induction false} NoRow(bs: seq<int>, ws: seq<nat>, b: int)
    requires |bs| == |ws| && Rows(bs, b, Level) == 0
    ensures Weight(bs, ws, b) == 0
  {
    if bs != [] {
      NoRow(bs[..|bs| - 1], ws[..|bs| - 1], b);
    }
  }
}
