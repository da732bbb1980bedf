/** The health timeline of a channel: the points of its models merged bucket by bucket, in whatever order
    the map of timelines is walked. */
module HealthTimeline {
  import opened Sums

  /** A point without data has a negative success rate.  Averages are over the successful requests. */
  datatype Point = Point(
    ts: int,
    rate: real,
    success: nat,
    errors: nat,
    limited: nat,
    avgFirstByte: real,
    avgDuration: real,
    inputTokens: nat,
    outputTokens: nat,
    cacheRead: nat,
    cacheCreated: nat,
    cost: real,
    effectiveCost: real)

  function NoData(ts: int): Point {
    Point(ts, -1.0, 0, 0, 0, 0.0, 0.0, 0, 0, 0, 0, 0.0, 0.0)
  }

  predicate HasData(p: Point) {
    p.rate >= 0.0
  }

  function Rate(success: nat, errors: nat): real {
    if success + errors > 0 then success as real / (success + errors) as real else 0.0
  }

  /** How the points of a single model are filled in. */
  predicate WellFormed(p: Point) {
    if HasData(p) then p.rate == Rate(p.success, p.errors) else p == NoData(p.ts)
  }

  datatype Quantity =
    | Success | Errors | Limited | InputTokens | OutputTokens | CacheRead | CacheCreated | Cost | EffectiveCost
    | FirstByteTotal | DurationTotal

  /** The last two are average times success count, the part of a weighted mean that can be added up. */
  function Amount(p: Point, q: Quantity): real {
    if !HasData(p) then 0.0
    else
      match q
      case Success => p.success as real
      case Errors => p.errors as real
      case Limited => p.limited as real
      case InputTokens => p.inputTokens as real
      case OutputTokens => p.outputTokens as real
      case CacheRead => p.cacheRead as real
      case CacheCreated => p.cacheCreated as real
      case Cost => p.cost
      case EffectiveCost => p.effectiveCost
      case FirstByteTotal => p.avgFirstByte * p.success as real
      case DurationTotal => p.avgDuration * p.success as real
  }

  /** What a point with data adds to each sum. */
  lemma AmountsRead(p: Point)
    requires p.rate >= 0.0
    ensures Amount(p, Success) == p.success as real && Amount(p, Errors) == p.errors as real && Amount(p, Limited) == p.limited as real
    ensures Amount(p, InputTokens) == p.inputTokens as real && Amount(p, OutputTokens) == p.outputTokens as real
    ensures Amount(p, CacheRead) == p.cacheRead as real && Amount(p, CacheCreated) == p.cacheCreated as real
    ensures Amount(p, Cost) == p.cost && Amount(p, EffectiveCost) == p.effectiveCost
    ensures Amount(p, FirstByteTotal) == p.avgFirstByte * p.success as real
    ensures Amount(p, DurationTotal) == p.avgDuration * p.success as real
  {
  }

  function Of(q: Quantity): Point -> real {
    (p: Point) => Amount(p, q)
  }

  // ----- merging two points -----

  function Blend(a: real, m: nat, b: real, n: nat): real {
    if m + n > 0 then (a * m as real + b * n as real) / (m + n) as real else a
  }

  lemma BlendKeepsProduct(a: real, m: nat, b: real, n: nat)
    ensures Blend(a, m, b, n) * (m + n) as real == a * m as real + b * n as real
  {
    var t := a * m as real + b * n as real;
    if m + n > 0 {
      Quotient(t, (m + n) as real);
    } else {
      assert a * 0.0 == 0.0 && b * 0.0 == 0.0;
    }
  }

  lemma Quotient(t: real, w: real)
    requires w != 0.0
    ensures t / w * w == t
  {
  }

  /** The body of the innermost loop. */
  function Merge(c: Point, p: Point): Point {
    if !HasData(p) then c
    else if !HasData(c) then p
    else
      var success, errors := c.success + p.success, c.errors + p.errors;
      Point(c.ts, if success + errors > 0 then Rate(success, errors) else c.rate, success, errors, c.limited + p.limited,
            Blend(c.avgFirstByte, c.success, p.avgFirstByte, p.success),
            Blend(c.avgDuration, c.success, p.avgDuration, p.success),
            c.inputTokens + p.inputTokens, c.outputTokens + p.outputTokens, c.cacheRead + p.cacheRead,
            c.cacheCreated + p.cacheCreated, c.cost + p.cost, c.effectiveCost + p.effectiveCost)
  }

  lemma RateIsNonNegative(success: nat, errors: nat)
    ensures Rate(success, errors) >= 0.0
  {
    if success + errors > 0 {
      Fraction(success as real, (success + errors) as real);
    }
  }

  lemma Fraction(a: real, b: real)
    requires a >= 0.0 && b > 0.0
    ensures a / b >= 0.0
  {
  }

  predicate IsProduct(q: Quantity) {
    q.FirstByteTotal? || q.DurationTotal?
  }

  lemma MergeKeepsForm(c: Point, p: Point)
    requires WellFormed(c) && WellFormed(p)
    ensures WellFormed(Merge(c, p)) && (HasData(Merge(c, p)) <==> HasData(c) || HasData(p))
  {
    RateIsNonNegative(c.success + p.success, c.errors + p.errors);
  }

  lemma MergeAddsCounts(c: Point, p: Point, q: Quantity)
    requires HasData(c) && HasData(p) && HasData(Merge(c, p)) && !IsProduct(q)
    ensures Amount(Merge(c, p), q) == Amount(c, q) + Amount(p, q)
  {
  }

  lemma MergeAddsProducts(c: Point, p: Point, q: Quantity)
    requires HasData(c) && HasData(p) && HasData(Merge(c, p)) && IsProduct(q)
    ensures Amount(Merge(c, p), q) == Amount(c, q) + Amount(p, q)
  {
    if q.FirstByteTotal? {
      BlendKeepsProduct(c.avgFirstByte, c.success, p.avgFirstByte, p.success);
    } else {
      BlendKeepsProduct(c.avgDuration, c.success, p.avgDuration, p.success);
    }
  }

  lemma MergeAdds(c: Point, p: Point, q: Quantity)
    requires WellFormed(c) && WellFormed(p)
    ensures Amount(Merge(c, p), q) == Amount(c, q) + Amount(p, q)
  {
    MergeKeepsForm(c, p);
    if HasData(c) && HasData(p) {
      if IsProduct(q) {
        MergeAddsProducts(c, p, q);
      } else {
        MergeAddsCounts(c, p, q);
      }
    }
  }

  // ----- one bucket over all models -----

  /** The parts of a bucket merged in the order in which they come. */
  function Fold(parts: seq<Point>, ts: int): Point {
    if parts == [] then NoData(ts) else Merge(Fold(parts[..|parts| - 1], ts), parts[|parts| - 1])
  }

  predicate AllWellFormed(parts: seq<Point>, ts: int) {
    forall i :: 0 <= i < |parts| ==> WellFormed(parts[i]) && parts[i].ts == ts
  }

  predicate SomeData(parts: seq<Point>) {
    exists i :: 0 <= i < |parts| && HasData(parts[i])
  }

  /** Conservation: every sum of the merged point, and every average times success count, is the sum over
      the parts; and the success rate is the rate of the sums. */
  lemma {:induction false} FoldConserves(parts: seq<Point>, ts: int, q: Quantity)
    requires AllWellFormed(parts, ts)
    ensures Amount(Fold(parts, ts), q) == Sum(parts, Of(q))
    ensures WellFormed(Fold(parts, ts)) && Fold(parts, ts).ts == ts
    ensures HasData(Fold(parts, ts)) <==> SomeData(parts)
    ensures var p := Fold(parts, ts);
            HasData(p) ==> p.rate == if p.success + p.errors > 0 then p.success as real / (p.success + p.errors) as real else 0.0
  {
    if parts != [] {
      var n := |parts| - 1;
      FoldConserves(parts[..n], ts, q);
      MergeKeepsForm(Fold(parts[..n], ts), parts[n]);
      MergeAdds(Fold(parts[..n], ts), parts[n], q);
      if SomeData(parts) && !HasData(parts[n]) {
        var i :| 0 <= i < |parts| && HasData(parts[i]);
        assert HasData(parts[..n][i]);
      }
    }
  }

  lemma SameAmounts(a: Point, b: Point)
    requires WellFormed(a) && WellFormed(b) && a.ts == b.ts && HasData(a) && HasData(b)
    requires forall q :: Amount(a, q) == Amount(b, q)
    ensures a == b.(avgFirstByte := a.avgFirstByte, avgDuration := a.avgDuration)
    ensures a.success > 0 ==> a == b
  {
    assert Amount(a, Success) == Amount(b, Success) && Amount(a, Errors) == Amount(b, Errors);
    assert Amount(a, Limited) == Amount(b, Limited) && Amount(a, InputTokens) == Amount(b, InputTokens);
    assert Amount(a, OutputTokens) == Amount(b, OutputTokens) && Amount(a, CacheRead) == Amount(b, CacheRead);
    assert Amount(a, CacheCreated) == Amount(b, CacheCreated) && Amount(a, Cost) == Amount(b, Cost);
    assert Amount(a, EffectiveCost) == Amount(b, EffectiveCost);
    if a.success > 0 {
      assert Amount(a, FirstByteTotal) == Amount(b, FirstByteTotal);
      assert Amount(a, DurationTotal) == Amount(b, DurationTotal);
      Cancel(a.avgFirstByte, b.avgFirstByte, a.success as real);
      Cancel(a.avgDuration, b.avgDuration, a.success as real);
    }
  }

  lemma Cancel(a: real, b: real, w: real)
    requires a * w == b * w && w != 0.0
    ensures a == b
  {
  }

  /** Two orders of the same parts agree except, perhaps, on the averages, and on everything as soon as the
      bucket has a success. */
  lemma FoldsAgree(parts: seq<Point>, others: seq<Point>, ts: int)
    requires AllWellFormed(parts, ts) && multiset(parts) == multiset(others)
    ensures AllWellFormed(others, ts)
    ensures var a, b := Fold(parts, ts), Fold(others, ts);
            && a == b.(avgFirstByte := a.avgFirstByte, avgDuration := a.avgDuration)
            && (a.success > 0 ==> a == b)
  {
    forall i | 0 <= i < |others|
      ensures WellFormed(others[i]) && others[i].ts == ts
    {
      assert others[i] in multiset(parts);
    }
    var a, b := Fold(parts, ts), Fold(others, ts);
    forall q
      ensures Amount(a, q) == Amount(b, q)
    {
      FoldConserves(parts, ts, q);
      FoldConserves(others, ts, q);
      SumPermutes(parts, others, Of(q));
    }
    FoldConserves(parts, ts, Success);
    FoldConserves(others, ts, Success);
    SameData(parts, others);
    SameData(others, parts);
    if HasData(a) {
      SameAmounts(a, b);
    }
  }

  lemma SameData(parts: seq<Point>, others: seq<Point>)
    requires multiset(parts) == multiset(others)
    ensures SomeData(parts) ==> SomeData(others)
  {
    if SomeData(parts) {
      var i :| 0 <= i < |parts| && HasData(parts[i]);
      assert parts[i] in multiset(others);
      var j :| 0 <= j < |others| && others[j] == parts[i];
    }
  }

  // ----- buckets without a success -----

  function FirstData(parts: seq<Point>): (i: nat)
    requires SomeData(parts)
    ensures i < |parts| && HasData(parts[i]) && forall j :: 0 <= j < i ==> !HasData(parts[j])
  {
    if HasData(parts[0]) then 0
    else
      assert SomeData(parts[1..]) by {
        var i :| 0 <= i < |parts| && HasData(parts[i]);
        assert parts[1..][i - 1] == parts[i];
      }
      1 + FirstData(parts[1..])
  }

  /** Without a success the averages are those of the first part with data. */
  lemma {:induction false} FirstAverageStays(parts: seq<Point>, ts: int)
    requires AllWellFormed(parts, ts) && SomeData(parts)
    requires forall i :: 0 <= i < |parts| ==> parts[i].success == 0
    ensures var first, a := parts[FirstData(parts)], Fold(parts, ts);
            a.success == 0 && a.avgFirstByte == first.avgFirstByte && a.avgDuration == first.avgDuration
  {
    var n := |parts| - 1;
    FoldConserves(parts[..n], ts, Success);
    var k := FirstData(parts);
    if k < n {
      assert HasData(parts[..n][k]);
      assert FirstData(parts[..n]) == k;
      FirstAverageStays(parts[..n], ts);
    } else {
      assert !SomeData(parts[..n]);
    }
  }

  predicate SameAverages(parts: seq<Point>) {
    forall i, j :: 0 <= i < |parts| && 0 <= j < |parts| && HasData(parts[i]) && HasData(parts[j]) ==>
      parts[i].avgFirstByte == parts[j].avgFirstByte && parts[i].avgDuration == parts[j].avgDuration
  }

  ghost predicate OrderFree(parts: seq<Point>, ts: int) {
    forall others :: multiset(others) == multiset(parts) ==> Fold(others, ts) == Fold(parts, ts)
  }

  lemma {:induction false} NoSuccess(parts: seq<Point>, ts: int)
    requires AllWellFormed(parts, ts) && Fold(parts, ts).success == 0
    ensures forall i :: 0 <= i < |parts| ==> parts[i].success == 0
  {
    if parts != [] {
      var n := |parts| - 1;
      FoldConserves(parts[..n], ts, Success);
      FoldConserves(parts, ts, Success);
      NoSuccess(parts[..n], ts);
    }
  }

  /** The merged point is the same for every order of the map if and only if the bucket has a success or
      all models with data in it show the same averages. */
  lemma OrderFreeExactly(parts: seq<Point>, ts: int)
    requires AllWellFormed(parts, ts)
    ensures OrderFree(parts, ts) <==> Fold(parts, ts).success > 0 || SameAverages(parts)
  {
    if Fold(parts, ts).success > 0 || SameAverages(parts) {
      forall others | multiset(others) == multiset(parts)
        ensures Fold(others, ts) == Fold(parts, ts)
      {
        FoldsAgree(parts, others, ts);
        if Fold(parts, ts).success == 0 && SomeData(parts) {
          AgreeOnAverages(parts, others, ts);
        } else if !SomeData(parts) {
          SameData(others, parts);
          FoldConserves(parts, ts, Success);
          FoldConserves(others, ts, Success);
        }
      }
    } else {
      NoSuccess(parts, ts);
      var i, j :| 0 <= i < |parts| && 0 <= j < |parts| && HasData(parts[i]) && HasData(parts[j])
                  && !(parts[i].avgFirstByte == parts[j].avgFirstByte && parts[i].avgDuration == parts[j].avgDuration);
      FrontMatters(parts, ts, i);
      FrontMatters(parts, ts, j);
      assert multiset(ToFront(parts, i)) == multiset(parts) == multiset(ToFront(parts, j));
      assert Fold(ToFront(parts, i), ts) != Fold(ToFront(parts, j), ts);
    }
  }

  /** A bucket that depends on the order: two models without a success and with different averages. */
  lemma OrderShows(ts: int, x: real, y: real)
    requires x != y
    ensures var parts := [Failing(ts, x), Failing(ts, y)]; AllWellFormed(parts, ts) && !OrderFree(parts, ts)
  {
    var parts := [Failing(ts, x), Failing(ts, y)];
    FoldConserves(parts, ts, Success);
    assert Sum(parts, Of(Success)) == 0.0 by {
      SumZero(parts, Of(Success));
    }
    assert parts[0].avgDuration != parts[1].avgDuration;
    OrderFreeExactly(parts, ts);
  }

  /** One failed request, with an average duration. */
  function Failing(ts: int, duration: real): Point {
    Point(ts, 0.0, 0, 1, 0, 0.0, duration, 0, 0, 0, 0, 0.0, 0.0)
  }

  lemma AgreeOnAverages(parts: seq<Point>, others: seq<Point>, ts: int)
    requires AllWellFormed(parts, ts) && AllWellFormed(others, ts) && multiset(parts) == multiset(others)
    requires SomeData(parts) && SameAverages(parts) && Fold(parts, ts).success == 0 && Fold(others, ts).success == 0
    ensures Fold(parts, ts).avgFirstByte == Fold(others, ts).avgFirstByte
    ensures Fold(parts, ts).avgDuration == Fold(others, ts).avgDuration
  {
    SameData(parts, others);
    NoSuccess(parts, ts);
    NoSuccess(others, ts);
    FirstAverageStays(parts, ts);
    FirstAverageStays(others, ts);
    assert others[FirstData(others)] in multiset(parts);
    var k :| 0 <= k < |parts| && parts[k] == others[FirstData(others)];
  }

  function ToFront(parts: seq<Point>, i: nat): seq<Point>
    requires i < |parts|
  {
    [parts[i]] + (parts[..i] + parts[i + 1..])
  }

  lemma FrontMatters(parts: seq<Point>, ts: int, i: nat)
    requires AllWellFormed(parts, ts) && i < |parts| && HasData(parts[i])
    requires forall k :: 0 <= k < |parts| ==> parts[k].success == 0
    ensures multiset(ToFront(parts, i)) == multiset(parts)
    ensures Fold(ToFront(parts, i), ts).avgFirstByte == parts[i].avgFirstByte
    ensures Fold(ToFront(parts, i), ts).avgDuration == parts[i].avgDuration
  {
    var front := ToFront(parts, i);
    assert parts == parts[..i] + [parts[i]] + parts[i + 1..];
    assert HasData(front[0]);
    assert FirstData(front) == 0;
    FirstAverageStays(front, ts);
  }

  // ----- the loops -----

  /** The timeline of one model of a channel. */
  datatype Line = Line(channel: int, points: seq<Point>)

  predicate WellFormedLines(lines: seq<Line>, stamps: seq<int>) {
    forall k :: 0 <= k < |lines| ==>
      |lines[k].points| == |stamps| &&
      forall i :: 0 <= i < |stamps| ==> WellFormed(lines[k].points[i]) && lines[k].points[i].ts == stamps[i]
  }

  /** What the first `n` lines say about one bucket of a channel. */
  function Parts(lines: seq<Line>, channel: int, i: nat, n: nat): (parts: seq<Point>)
    requires n <= |lines| && forall k :: 0 <= k < |lines| ==> i < |lines[k].points|
  {
    if n == 0 then []
    else if lines[n - 1].channel == channel then Parts(lines, channel, i, n - 1) + [lines[n - 1].points[i]]
    else Parts(lines, channel, i, n - 1)
  }

  predicate Mentions(lines: seq<Line>, channel: int, n: nat)
    requires n <= |lines|
  {
    exists k :: 0 <= k < n && lines[k].channel == channel
  }

  lemma {:induction false} PartsAreWellFormed(lines: seq<Line>, stamps: seq<int>, channel: int, i: nat, n: nat)
    requires WellFormedLines(lines, stamps) && i < |stamps| && n <= |lines|
    ensures AllWellFormed(Parts(lines, channel, i, n), stamps[i])
  {
    if n > 0 {
      PartsAreWellFormed(lines, stamps, channel, i, n - 1);
    }
  }

  lemma FoldMore(parts: seq<Point>, p: Point, ts: int)
    ensures Fold(parts + [p], ts) == Merge(Fold(parts, ts), p)
  {
    assert (parts + [p])[..|parts|] == parts;
  }

  /** A row of the result: every bucket of a channel, as the first `n` lines determine it. */
  ghost predicate IsRow(row: seq<Point>, lines: seq<Line>, stamps: seq<int>, channel: int, n: nat)
    requires WellFormedLines(lines, stamps) && n <= |lines|
  {
    |row| == |stamps| && forall i :: 0 <= i < |row| ==> row[i] == Fold(Parts(lines, channel, i, n), stamps[i])
  }

  lemma {:induction false} EmptyRow(row: seq<Point>, lines: seq<Line>, stamps: seq<int>, channel: int, n: nat)
    requires WellFormedLines(lines, stamps) && n <= |lines| && !Mentions(lines, channel, n)
    requires |row| == |stamps| && forall i :: 0 <= i < |row| ==> row[i] == NoData(stamps[i])
    ensures IsRow(row, lines, stamps, channel, n)
  {
    if n > 0 {
      assert !Mentions(lines, channel, n - 1);
      EmptyRow(row, lines, stamps, channel, n - 1);
    }
  }

  lemma NextRow(was: seq<Point>, row: seq<Point>, lines: seq<Line>, stamps: seq<int>, channel: int, n: nat)
    requires WellFormedLines(lines, stamps) && n < |lines| && IsRow(was, lines, stamps, channel, n)
    requires |row| == |was| && forall i :: 0 <= i < |row| ==>
               row[i] == if lines[n].channel == channel then Merge(was[i], lines[n].points[i]) else was[i]
    ensures IsRow(row, lines, stamps, channel, n + 1)
  {
    forall i | 0 <= i < |row|
      ensures row[i] == Fold(Parts(lines, channel, i, n + 1), stamps[i])
    {
      FoldMore(Parts(lines, channel, i, n), lines[n].points[i], stamps[i]);
    }
  }

  method MergeLine(ch: array<Point>, points: seq<Point>)
    requires ch.Length == |points|
    modifies ch
    ensures forall i :: 0 <= i < ch.Length ==> ch[i] == Merge(old(ch[i]), points[i])
  {
    for i := 0 to |points|
      invariant forall j :: 0 <= j < i ==> ch[j] == Merge(old(ch[j]), points[j])
      invariant forall j :: i <= j < ch.Length ==> ch[j] == old(ch[j])
    {
      var pt := points[i];
      if !HasData(pt) {
        continue;
      }
      if !HasData(ch[i]) {
        ch[i] := pt;
        continue;
      }
      var oldSucc, newSucc := ch[i].success, pt.success;
      ch[i] := ch[i].(avgFirstByte := Blend(ch[i].avgFirstByte, oldSucc, pt.avgFirstByte, newSucc),
                      avgDuration := Blend(ch[i].avgDuration, oldSucc, pt.avgDuration, newSucc));
      ch[i] := ch[i].(success := ch[i].success + pt.success, errors := ch[i].errors + pt.errors,
                      limited := ch[i].limited + pt.limited);
      if ch[i].success + ch[i].errors > 0 {
        ch[i] := ch[i].(rate := Rate(ch[i].success, ch[i].errors));
      }
      ch[i] := ch[i].(inputTokens := ch[i].inputTokens + pt.inputTokens, outputTokens := ch[i].outputTokens + pt.outputTokens,
                      cacheRead := ch[i].cacheRead + pt.cacheRead, cacheCreated := ch[i].cacheCreated + pt.cacheCreated,
                      cost := ch[i].cost + pt.cost, effectiveCost := ch[i].effectiveCost + pt.effectiveCost);
    }
  }

  /** The aggregation at the end of fillHealthTimeline; `lines` is the map of timelines in the order in which
      it happens to be walked. */
  method ChannelHealth(lines: seq<Line>, stamps: seq<int>) returns (health: map<int, array<Point>>)
    requires WellFormedLines(lines, stamps)
    ensures forall c :: c in health <==> Mentions(lines, c, |lines|)
    ensures forall c :: c in health ==> fresh(health[c]) && IsRow(health[c][..], lines, stamps, c, |lines|)
  {
    hide Fold, Merge;
    health := map[];
    for n := 0 to |lines|
      invariant forall c :: c in health <==> Mentions(lines, c, n)
      invariant forall c :: c in health ==> fresh(health[c]) && IsRow(health[c][..], lines, stamps, c, n)
      invariant forall c, d :: c in health && d in health && c != d ==> health[c] != health[d]
    {
      var channel := lines[n].channel;
      if channel !in health {
        var empty := new Point[|stamps|](i requires 0 <= i < |stamps| => NoData(stamps[i]));
        EmptyRow(empty[..], lines, stamps, channel, n);
        health := health[channel := empty];
      }
      var ch := health[channel];
      label before:
      MergeLine(ch, lines[n].points);
      forall c | c in health
        ensures IsRow(health[c][..], lines, stamps, c, n + 1)
      {
        NextRow(old@before(health[c][..]), health[c][..], lines, stamps, c, n);
      }
      assert forall c :: Mentions(lines, c, n + 1) <==> Mentions(lines, c, n) || c == channel;
    }
  }

  /** What a line contributes to one bucket of a channel. */
  function LineAmount(channel: int, i: nat, q: Quantity): Line -> real {
    (l: Line) => if l.channel == channel && i < |l.points| then Amount(l.points[i], q) else 0.0
  }

  lemma {:induction false} PartsSum(lines: seq<Line>, stamps: seq<int>, channel: int, i: nat, n: nat, q: Quantity)
    requires WellFormedLines(lines, stamps) && i < |stamps| && n <= |lines|
    ensures Sum(Parts(lines, channel, i, n), Of(q)) == Sum(lines[..n], LineAmount(channel, i, q))
  {
    if n > 0 {
      PartsSum(lines, stamps, channel, i, n - 1, q);
      assert lines[..n][..n - 1] == lines[..n - 1];
      var parts := Parts(lines, channel, i, n - 1);
      SumConcat(parts, [lines[n - 1].points[i]], Of(q));
      SumOne(lines[n - 1].points[i], Of(q));
    }
  }

  /** Each sum shown for a bucket is the sum over the models of that channel. */
  lemma {:induction false} BucketConserves(lines: seq<Line>, stamps: seq<int>, channel: int, i: nat, q: Quantity)
    requires WellFormedLines(lines, stamps) && i < |stamps|
    ensures var p := Fold(Parts(lines, channel, i, |lines|), stamps[i]);
            && Amount(p, q) == Sum(lines, LineAmount(channel, i, q))
            && WellFormed(p) && p.ts == stamps[i]
  {
    PartsAreWellFormed(lines, stamps, channel, i, |lines|);
    FoldConserves(Parts(lines, channel, i, |lines|), stamps[i], q);
    PartsSum(lines, stamps, channel, i, |lines|, q);
    assert lines[..|lines|] == lines;
  }

  /** Put together: a merged bucket with a success does not depend on the order of the map. */
  lemma {:induction false} BucketIgnoresOrder(lines: seq<Line>, others: seq<Line>, stamps: seq<int>, channel: int, i: nat)
    requires WellFormedLines(lines, stamps) && WellFormedLines(others, stamps) && i < |stamps|
    requires multiset(lines) == multiset(others)
    ensures var a, b := Fold(Parts(lines, channel, i, |lines|), stamps[i]), Fold(Parts(others, channel, i, |others|), stamps[i]);
            a.success > 0 ==> a == b
  {
    var a, b := Fold(Parts(lines, channel, i, |lines|), stamps[i]), Fold(Parts(others, channel, i, |others|), stamps[i]);
    forall q
      ensures Amount(a, q) == Amount(b, q)
    {
      BucketConserves(lines, stamps, channel, i, q);
      BucketConserves(others, stamps, channel, i, q);
      SumPermutes(lines, others, LineAmount(channel, i, q));
    }
    BucketConserves(lines, stamps, channel, i, Success);
    BucketConserves(others, stamps, channel, i, Success);
    if a.success > 0 {
      assert Amount(b, Success) == Amount(a, Success) > 0.0;
      SameAmounts(a, b);
    }
  }
}
