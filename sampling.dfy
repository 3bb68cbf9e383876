/** Aggregation of raw run records into one histogram: the sequential
    strategy, which walks the records round-robin from a cursor kept per
    (algorithm, size, backend, circuit kind), and the random strategy, which
    draws records with replacement. Both stop as soon as the running shot
    total reaches the target. */
module Sampling {
  import opened Base
  import opened Histogram

  /** One run record as read from a history file. Either field may be
      missing from the JSON object. */
  datatype Record = Record(shots: Option<int>, data: Option<Hist>)

  /** int(rec.get("shots", 0)) */
  function Shots(r: Record): int { r.shots.GetOr(0) }

  /** rec.get("data", {}) */
  function Counts(r: Record): Hist { r.data.GetOr(map[]) }

  /** Only records with a positive shot count take part in aggregation. */
  predicate Contributes(r: Record) { Shots(r) > 0 }

  predicate HasPositive(data: seq<Record>)
  {
    exists i | 0 <= i < |data| :: Contributes(data[i])
  }

  // ---------------------------------------------------------------------
  // What a run of either strategy computes from the records it consumed

  /** The histogram built from the consumed records, in order: the counts
      of every contributing record merged additively. */
  function Agg(recs: seq<Record>): Hist
  {
    if recs == [] then map[]
    else
      var last := recs[|recs| - 1];
      var prev := Agg(recs[..|recs| - 1]);
      if Contributes(last) then Merge(prev, Counts(last)) else prev
  }

  /** The outcomes of the aggregate are exactly those of the contributing
      records. */
  lemma {:induction false} AggKeys(recs: seq<Record>)
    ensures forall i | 0 <= i < |recs| && Contributes(recs[i]) :: Counts(recs[i]).Keys <= Agg(recs).Keys
    ensures forall b | b in Agg(recs) :: exists i | 0 <= i < |recs| :: Contributes(recs[i]) && b in Counts(recs[i])
  {
    if recs != [] {
      var init := recs[..|recs| - 1];
      AggKeys(init);
      assert forall i | 0 <= i < |init| :: init[i] == recs[i];
    }
  }

  /** The running total: the shots of the contributing consumed records. */
  function ShotTotal(recs: seq<Record>): (t: int)
    ensures t >= 0
  {
    if recs == [] then 0
    else
      var last := recs[|recs| - 1];
      ShotTotal(recs[..|recs| - 1]) + (if Contributes(last) then Shots(last) else 0)
  }

  /** The contributing records among recs, in order. */
  function Contributing(recs: seq<Record>): (r: seq<Record>)
    ensures |r| <= |recs|
    ensures forall i | 0 <= i < |r| :: Contributes(r[i])
  {
    if recs == [] then []
    else
      var last := recs[|recs| - 1];
      Contributing(recs[..|recs| - 1]) + (if Contributes(last) then [last] else [])
  }

  /** Sum of one outcome's counts over the contributing records. */
  function CountFor(recs: seq<Record>, b: string): int
  {
    if recs == [] then 0
    else
      var last := recs[|recs| - 1];
      CountFor(recs[..|recs| - 1], b) + (if Contributes(last) then Get(Counts(last), b) else 0)
  }

  /** The reset at the top of the sequential loop: an index that is not
      below n goes back to 0, one below n is kept. */
  function Wrap(i: nat, n: nat): (j: nat)
    ensures n > 0 ==> j < n
    ensures i < n ==> j == i
    ensures i >= n ==> j == 0
  {
    if i >= n then 0 else i
  }

  /** For an index at most n, the reset and the remainder agree. */
  lemma WrapIsMod(i: nat, n: nat)
    requires 0 < n && i <= n
    ensures i % n == Wrap(i, n)
  {
  }

  /** Position of the record read in step t of a run that starts at s. */
  function Pos(s: nat, t: nat, n: nat): (p: nat)
    requires s < n
    ensures p < n
  {
    if t == 0 then s else Wrap(Pos(s, t - 1, n) + 1, n)
  }

  /** The k records the sequential strategy reads from position s onwards,
      wrapping at the end of the list. */
  function Cycle(data: seq<Record>, s: nat, k: nat): (c: seq<Record>)
    requires s < |data|
    ensures |c| == k
  {
    if k == 0 then [] else Cycle(data, s, k - 1) + [data[Pos(s, k - 1, |data|)]]
  }

  /** The records the random strategy draws, given the indices rng.choice
      picks. */
  function Pick(data: seq<Record>, draws: seq<nat>): (p: seq<Record>)
    requires forall i | 0 <= i < |draws| :: draws[i] < |data|
    ensures |p| == |draws|
  {
    if draws == [] then []
    else Pick(data, draws[..|draws| - 1]) + [data[draws[|draws| - 1]]]
  }

  // ---------------------------------------------------------------------
  // Cursors

  /** The key under which the sequential cursor is stored: the caller's
      own strings, not lower-cased, and no version. */
  datatype CursorKey = CursorKey(algorithm: string, size: int, backend: string, circuitKind: string)

  /** Where a sequential run over n records starts: the stored cursor, or 0
      when there is none or when it is not below n (a reset, not a
      reduction modulo n). */
  function StartOf(cursors: map<CursorKey, nat>, key: CursorKey, n: nat): (s: nat)
    ensures n > 0 ==> s < n
    ensures key in cursors && cursors[key] < n ==> s == cursors[key]
    ensures !(key in cursors && cursors[key] < n) ==> s == 0
  {
    if key in cursors && cursors[key] < n then cursors[key] else 0
  }

  // ---------------------------------------------------------------------
  // Termination of the round-robin walk

  /** The first contributing record at or after i, or |data| if none. */
  function FirstFrom(data: seq<Record>, i: nat): (j: nat)
    requires i <= |data|
    ensures i <= j <= |data|
    ensures j < |data| ==> Contributes(data[j])
    ensures forall t | i <= t < j :: !Contributes(data[t])
    decreases |data| - i
  {
    if i == |data| then i
    else if Contributes(data[i]) then i
    else FirstFrom(data, i + 1)
  }

  /** How many records the walk passes from position j, wrapping, before it
      reaches a contributing one. */
  function Gap(data: seq<Record>, j: nat): nat
    requires j < |data| && HasPositive(data)
  {
    var f := FirstFrom(data, j);
    if f < |data| then f - j else |data| - j + FirstFrom(data, 0)
  }

  lemma GapStep(data: seq<Record>, j: nat)
    requires j < |data| && HasPositive(data)
    ensures !Contributes(data[j]) ==> Gap(data, Wrap(j + 1, |data|)) < Gap(data, j)
  {
    assert FirstFrom(data, 0) < |data|;
  }

  /** One more record read: how the histogram and the total move. */
  lemma AggSnoc(recs: seq<Record>, x: Record)
    ensures Agg(recs + [x]) == if Contributes(x) then Merge(Agg(recs), Counts(x)) else Agg(recs)
    ensures ShotTotal(recs + [x]) == ShotTotal(recs) + if Contributes(x) then Shots(x) else 0
  {
    assert (recs + [x])[..|recs|] == recs;
  }

  // ---------------------------------------------------------------------
  // The stateful cursor map and the sequential strategy

  /** The body shared by both strategies: a record with a positive shot
      count has its counts merged into the aggregate and its shots added to
      the total; any other record changes nothing. */
  method Absorb(agg: Hist, total: int, rec: Record) returns (agg': Hist, total': int)
    ensures agg' == if Contributes(rec) then Merge(agg, Counts(rec)) else agg
    ensures total' == total + if Contributes(rec) then Shots(rec) else 0
  {
    agg', total' := agg, total;
    var sh := Shots(rec);
    if sh > 0 {
      agg' := MergeInto(agg, Counts(rec));
      total' := total + sh;
    }
  }

  /** The round-robin walk of the sequential branch, from the stored index
      `start`: an index not below n is reset to 0 before each read, only
      contributing records are merged, and the walk stops as soon as the
      total reaches the target. `next` is the index after the last record
      read, modulo n. */
  method RoundRobin(data: seq<Record>, start: nat, shots: int)
    returns (agg: Hist, total: int, consumed: nat, next: nat)
    requires |data| > 0 && shots > 0 && HasPositive(data)
    ensures consumed > 0
    ensures agg == Agg(Cycle(data, Wrap(start, |data|), consumed))
    ensures total == ShotTotal(Cycle(data, Wrap(start, |data|), consumed))
    ensures ShotTotal(Cycle(data, Wrap(start, |data|), consumed - 1)) < shots <= total
    ensures next == Pos(Wrap(start, |data|), consumed, |data|)
  {
    var n := |data|;
    ghost var s := Wrap(start, n);
    ghost var pos := s;
    ghost var read: seq<Record> := [];
    var idx: nat := start;
    agg, total, consumed := map[], 0, 0;
    while total < shots
      invariant pos == Pos(s, consumed, n) && Wrap(idx, n) == pos
      invariant consumed > 0 ==> idx <= n
      invariant Walked(data, s, shots, consumed, read, agg, total)
      decreases shots - total, Gap(data, pos)
    {
      if idx >= n {
        idx := 0;
      }
      var rec := data[idx];
      GapStep(data, idx);
      var agg', total' := Absorb(agg, total, rec);
      WalkedStep(data, s, shots, consumed, read, agg, total, agg', total');
      agg, total := agg', total';
      read := read + [rec];
      idx := idx + 1;
      consumed := consumed + 1;
      pos := Wrap(idx, n);
    }
    WalkedEnd(data, s, shots, consumed, read, agg, total);
    WrapIsMod(idx, n);
    next := idx % n;
  }

  /** The state of a walk after `consumed` reads from position s: the
      records read so far, the histogram and total built from them, and a
      target not yet reached before the last read. */
  ghost predicate Walked(data: seq<Record>, s: nat, shots: int, consumed: nat, read: seq<Record>, agg: Hist, total: int)
    requires s < |data|
  {
    && read == Cycle(data, s, consumed)
    && agg == Agg(read) && total == ShotTotal(read)
    && (consumed > 0 ==> ShotTotal(read[..consumed - 1]) < shots)
  }

  /** One read of the walk keeps its state. */
  lemma WalkedStep(data: seq<Record>, s: nat, shots: int, consumed: nat, read: seq<Record>, agg: Hist, total: int, agg': Hist, total': int)
    requires s < |data| && Walked(data, s, shots, consumed, read, agg, total) && total < shots
    requires var rec := data[Pos(s, consumed, |data|)];
      && agg' == (if Contributes(rec) then Merge(agg, Counts(rec)) else agg)
      && total' == total + (if Contributes(rec) then Shots(rec) else 0)
    ensures Pos(s, consumed + 1, |data|) == Wrap(Pos(s, consumed, |data|) + 1, |data|)
    ensures Walked(data, s, shots, consumed + 1, read + [data[Pos(s, consumed, |data|)]], agg', total')
  {
    var rec := data[Pos(s, consumed, |data|)];
    AggSnoc(read, rec);
    assert (read + [rec])[..consumed] == read;
  }

  /** What a finished walk has computed. */
  lemma WalkedEnd(data: seq<Record>, s: nat, shots: int, consumed: nat, read: seq<Record>, agg: Hist, total: int)
    requires s < |data| && Walked(data, s, shots, consumed, read, agg, total) && shots > 0 && total >= shots
    ensures consumed > 0
    ensures agg == Agg(Cycle(data, s, consumed))
    ensures total == ShotTotal(Cycle(data, s, consumed))
    ensures ShotTotal(Cycle(data, s, consumed - 1)) < shots
  {
    if consumed > 0 {
      assert read[..consumed - 1] == Cycle(data, s, consumed - 1);
    }
  }

  /** The record that ends a run contributes, and the run overshoots the
      target by less than that record's shots. */
  lemma LastRecordContributes(data: seq<Record>, s: nat, k: nat, shots: int)
    requires s < |data| && k > 0
    requires ShotTotal(Cycle(data, s, k - 1)) < shots <= ShotTotal(Cycle(data, s, k))
    ensures var last := data[Pos(s, k - 1, |data|)];
      Contributes(last) && ShotTotal(Cycle(data, s, k)) - shots < Shots(last)
  {
    AggSnoc(Cycle(data, s, k - 1), data[Pos(s, k - 1, |data|)]);
  }

  class CursorRegistry {
    /** _CURSORS: the next offset per key, written back after every
        sequential run. */
    var cursors: map<CursorKey, nat>

    constructor ()
      ensures cursors == map[]
    {
      cursors := map[];
    }

    /** The sequential branch of get_outcomes: a round-robin walk from the
        cursor stored under `key`, which is then overwritten with the index
        after the last record read. */
    method SampleSequential(key: CursorKey, data: seq<Record>, shots: int)
      returns (agg: Hist, total: int, consumed: nat)
      requires |data| > 0 && shots > 0 && HasPositive(data)
      modifies this
      ensures consumed > 0
      ensures var s := StartOf(old(cursors), key, |data|);
        var last := data[Pos(s, consumed - 1, |data|)];
        && agg == Agg(Cycle(data, s, consumed))
        && total == ShotTotal(Cycle(data, s, consumed))
        && ShotTotal(Cycle(data, s, consumed - 1)) < shots <= total
        && Contributes(last) && total - shots < Shots(last)
        && cursors == old(cursors)[key := Pos(s, consumed, |data|)]
    {
      var start := if key in cursors then cursors[key] else 0;
      var next;
      agg, total, consumed, next := RoundRobin(data, start, shots);
      LastRecordContributes(data, Wrap(start, |data|), consumed, shots);
      cursors := cursors[key := next];
    }
  }

  // ---------------------------------------------------------------------
  // The random strategy

  /** The random branch of get_outcomes. `draws` stands for the indices
      rng.choice picks, in order; it must be long enough for the run to
      reach its target. Draws of non-contributing records are skipped
      without effect; the loop ends at the first draw that brings the
      total to the target. */
  method SampleRandom(data: seq<Record>, shots: int, draws: seq<nat>)
    returns (agg: Hist, total: int, used: nat)
    requires shots > 0
    requires forall i | 0 <= i < |draws| :: draws[i] < |data|
    requires ShotTotal(Pick(data, draws)) >= shots
    ensures 0 < used <= |draws|
    ensures agg == Agg(Pick(data, draws[..used]))
    ensures total == ShotTotal(Pick(data, draws[..used]))
    ensures total >= shots
    ensures ShotTotal(Pick(data, draws[..used - 1])) < shots
  {
    agg, total, used := map[], 0, 0;
    while total < shots
      invariant used <= |draws|
      invariant used == |draws| ==> total >= shots
      invariant agg == Agg(Pick(data, draws[..used]))
      invariant total == ShotTotal(Pick(data, draws[..used]))
      invariant used > 0 ==> ShotTotal(Pick(data, draws[..used - 1])) < shots
      decreases |draws| - used
    {
      var rec := data[draws[used]];
      assert draws[..used + 1][..used] == draws[..used];
      AggSnoc(Pick(data, draws[..used]), rec);
      used := used + 1;
      agg, total := Absorb(agg, total, rec);
    }
  }

  // ---------------------------------------------------------------------
  // Properties

  lemma {:induction false} PosAdd(s: nat, k1: nat, k2: nat, n: nat)
    requires s < n
    ensures Pos(Pos(s, k1, n), k2, n) == Pos(s, k1 + k2, n)
  {
    if k2 > 0 {
      PosAdd(s, k1, k2 - 1, n);
    }
  }

  /** Two consecutive sequential runs over the same records read exactly
      what one longer run would: the second starts where the first one's
      cursor points, at the record right after its last record, and
      nothing is read twice or skipped. */
  lemma {:induction false} ConsecutiveRuns(data: seq<Record>, cursors: map<CursorKey, nat>, key: CursorKey, s: nat, k1: nat, k2: nat)
    requires s < |data|
    ensures var next := Pos(s, k1, |data|);
      && StartOf(cursors[key := next], key, |data|) == next
      && Cycle(data, s, k1) + Cycle(data, next, k2) == Cycle(data, s, k1 + k2)
  {
    var n := |data|;
    var next := Pos(s, k1, n);
    if k2 > 0 {
      ConsecutiveRuns(data, cursors, key, s, k1, k2 - 1);
      PosAdd(s, k1, k2 - 1, n);
    }
  }

  /** Non-contributing records change neither the histogram nor the total:
      aggregating the contributing records alone gives the same result. */
  lemma {:induction false} OnlyContributingCount(recs: seq<Record>)
    ensures Agg(Contributing(recs)) == Agg(recs)
    ensures ShotTotal(Contributing(recs)) == ShotTotal(recs)
  {
    if recs != [] {
      var init := recs[..|recs| - 1];
      var last := recs[|recs| - 1];
      OnlyContributingCount(init);
      if Contributes(last) {
        var c := Contributing(init) + [last];
        assert c[..|c| - 1] == Contributing(init);
      } else {
        assert Contributing(recs) == Contributing(init) + [];
        assert Contributing(init) + [] == Contributing(init);
      }
    }
  }

  /** Additive merge: every outcome's aggregate count is the sum of its
      counts over the contributing records. */
  lemma {:induction false} AggIsSum(recs: seq<Record>, b: string)
    ensures Get(Agg(recs), b) == CountFor(recs, b)
  {
    if recs != [] {
      AggIsSum(recs[..|recs| - 1], b);
    }
  }

  /** A record whose counts add up to its shot count. */
  ghost predicate Consistent(r: Record)
  {
    Total(Counts(r)) == Shots(r)
  }

  /** When every contributing record is consistent, the histogram sums to
      the running total. */
  lemma {:induction false} AggTotalMatches(recs: seq<Record>)
    requires forall i | 0 <= i < |recs| :: Contributes(recs[i]) ==> Consistent(recs[i])
    ensures Total(Agg(recs)) == ShotTotal(recs)
  {
    if recs != [] {
      var init := recs[..|recs| - 1];
      var last := recs[|recs| - 1];
      AggTotalMatches(init);
      if Contributes(last) {
        TotalMerge(Agg(init), Counts(last));
      }
    }
  }

  lemma {:induction false} CycleTotalMonotone(data: seq<Record>, s: nat, i: nat, j: nat)
    requires s < |data| && i <= j
    ensures ShotTotal(Cycle(data, s, i)) <= ShotTotal(Cycle(data, s, j))
    decreases j - i
  {
    if i < j {
      CycleTotalMonotone(data, s, i, j - 1);
      var prev := Cycle(data, s, j - 1);
      var last := data[Pos(s, j - 1, |data|)];
      assert Cycle(data, s, j) == prev + [last];
      AggSnoc(prev, last);
    }
  }

  /** The stopping point of a sequential run is determined by the records
      and the target: only one length k has a total below the target after
      k - 1 records and at or above it after k. */
  lemma StopIsUnique(data: seq<Record>, s: nat, shots: int, k: nat, k': nat)
    requires s < |data| && k > 0 && k' > 0
    requires ShotTotal(Cycle(data, s, k - 1)) < shots <= ShotTotal(Cycle(data, s, k))
    requires ShotTotal(Cycle(data, s, k' - 1)) < shots <= ShotTotal(Cycle(data, s, k'))
    ensures k == k'
  {
    if k < k' {
      CycleTotalMonotone(data, s, k, k' - 1);
    } else if k' < k {
      CycleTotalMonotone(data, s, k', k - 1);
    }
  }

  /** Three records of 50 shots over two outcomes a and b. */
  function ScenarioRecords(a: string, b: string): seq<Record>
  {
    [ Record(Some(50), Some(map[a := 50])),
      Record(Some(50), Some(map[a := 25, b := 25])),
      Record(Some(50), Some(map[b := 50])) ]
  }

  /** The first three reads from position 0 over the scenario records, and
      the totals after each. */
  lemma ScenarioCycles(a: string, b: string)
    ensures Cycle(ScenarioRecords(a, b), 0, 2) == ScenarioRecords(a, b)[..2]
    ensures Cycle(ScenarioRecords(a, b), 0, 3) == ScenarioRecords(a, b)
    ensures ShotTotal(ScenarioRecords(a, b)[..2]) == 100
    ensures ShotTotal(ScenarioRecords(a, b)) == 150
    ensures Pos(0, 3, 3) == 0
  {
    var d := ScenarioRecords(a, b);
    assert Pos(0, 1, 3) == 1 && Pos(0, 2, 3) == 2;
    assert Cycle(d, 0, 1) == [d[0]];
    assert Cycle(d, 0, 2) == [d[0]] + [d[1]] == d[..2];
    assert Cycle(d, 0, 3) == d[..2] + [d[2]] == d;
    AggSnoc([], d[0]);
    assert [] + [d[0]] == d[..1];
    AggSnoc(d[..1], d[1]);
    assert d[..1] + [d[1]] == d[..2];
    AggSnoc(d[..2], d[2]);
  }

  lemma MergeFirst(a: string, b: string)
    requires a != b
    ensures Merge(map[a := 50], map[a := 25, b := 25]) == map[a := 75, b := 25]
  {
    var m := Merge(map[a := 50], map[a := 25, b := 25]);
    assert m.Keys == {a, b};
    assert m[a] == 75 && m[b] == 25;
  }

  lemma MergeSecond(a: string, b: string)
    requires a != b
    ensures Merge(map[a := 75, b := 25], map[b := 50]) == map[a := 75, b := 75]
  {
    var m := Merge(map[a := 75, b := 25], map[b := 50]);
    assert m.Keys == {a, b};
    assert m[a] == 75 && m[b] == 75;
  }

  lemma MergeInitial(a: string)
    ensures Merge(map[], map[a := 50]) == map[a := 50]
  {
    var m := Merge(map[], map[a := 50]);
    assert m.Keys == {a};
  }

  /** The histogram of the three scenario records. */
  lemma ScenarioAgg(a: string, b: string)
    requires a != b
    ensures Agg(ScenarioRecords(a, b)) == map[a := 75, b := 75]
  {
    var d := ScenarioRecords(a, b);
    assert Agg(d[..1]) == map[a := 50] by {
      AggSnoc([], d[0]);
      assert [] + [d[0]] == d[..1];
      MergeInitial(a);
    }
    assert Agg(d[..2]) == map[a := 75, b := 25] by {
      AggSnoc(d[..1], d[1]);
      assert d[..1] + [d[1]] == d[..2];
      MergeFirst(a, b);
    }
    AggSnoc(d[..2], d[2]);
    assert d[..2] + [d[2]] == d;
    MergeSecond(a, b);
  }

  /** Three records of 50 shots, cursor at 0, target 120: the run reads all
      three, aggregates {a: 75, b: 75} with total 150, and writes the
      cursor back as 0. */
  lemma SequentialScenario(a: string, b: string, k: nat)
    requires a != b && k > 0
    requires ShotTotal(Cycle(ScenarioRecords(a, b), 0, k - 1)) < 120 <= ShotTotal(Cycle(ScenarioRecords(a, b), 0, k))
    ensures k == 3
    ensures Agg(Cycle(ScenarioRecords(a, b), 0, k)) == map[a := 75, b := 75]
    ensures ShotTotal(Cycle(ScenarioRecords(a, b), 0, k)) == 150
    ensures Pos(0, k, |ScenarioRecords(a, b)|) == 0
  {
    ScenarioCycles(a, b);
    StopIsUnique(ScenarioRecords(a, b), 0, 120, k, 3);
    ScenarioAgg(a, b);
  }
}
