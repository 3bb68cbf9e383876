/** Outcome histograms (bitstring -> count) and the two loops over them in
    the library: additive merging of one record's counts into an aggregate,
    and the exact multinomial trim. */
module Histogram {
  import opened Base

  type Hist = map<string, int>

  /** agg.get(b, 0) */
  function Get(h: Hist, b: string): int
  {
    if b in h then h[b] else 0
  }

  /** sum(h.values()): never negative when no count is. */
  ghost function Total(h: Hist): (t: int)
    ensures (forall k | k in h :: h[k] >= 0) ==> t >= 0
    decreases |h.Keys|
  {
    if h.Keys == {} then 0
    else
      var k :| k in h.Keys;
      assert |(h - {k}).Keys| < |h.Keys| by {
        assert (h - {k}).Keys == h.Keys - {k};
      }
      h[k] + Total(h - {k})
  }

  /** The sum does not depend on which key is taken out first. */
  lemma {:induction false} TotalRemove(h: Hist, k: string)
    requires k in h
    ensures Total(h) == h[k] + Total(h - {k})
    decreases |h.Keys|
  {
    var k' :| k' in h.Keys && Total(h) == h[k'] + Total(h - {k'});
    if k' != k {
      var a, b := h - {k'}, h - {k};
      assert a.Keys == h.Keys - {k'} && b.Keys == h.Keys - {k};
      TotalRemove(a, k);
      TotalRemove(b, k');
      assert a - {k} == b - {k'};
      assert a[k] == h[k] && b[k'] == h[k'];
    }
  }

  /** Overwriting one entry shifts the sum by the difference. */
  lemma TotalUpdate(h: Hist, k: string, v: int)
    ensures Total(h[k := v]) == Total(h) - Get(h, k) + v
  {
    var h' := h[k := v];
    TotalRemove(h', k);
    assert h' - {k} == h - {k};
    if k in h {
      TotalRemove(h, k);
    } else {
      assert h - {k} == h;
    }
  }

  /** The aggregate after adding every count of d into h. */
  function Merge(h: Hist, d: Hist): (r: Hist)
    ensures r.Keys == h.Keys + d.Keys
  {
    map b | b in h.Keys + d.Keys :: Get(h, b) + Get(d, b)
  }

  /** Merging adds the sums. */
  lemma {:induction false} TotalMerge(h: Hist, d: Hist)
    ensures Total(Merge(h, d)) == Total(h) + Total(d)
    decreases |d.Keys|
  {
    if d.Keys == {} {
      MergeEmpty(h, d);
    } else {
      var k :| k in d.Keys;
      var d' := d - {k};
      assert d'.Keys == d.Keys - {k};
      TotalMerge(h, d');
      MergeStep(h, d, k);
      TotalRemove(d, k);
    }
  }

  lemma MergeEmpty(h: Hist, d: Hist)
    requires d.Keys == {}
    ensures Merge(h, d) == h && Total(d) == 0
  {
    var m := Merge(h, d);
    assert m.Keys == h.Keys;
    assert forall b | b in m :: m[b] == h[b];
  }

  lemma MergeStep(h: Hist, d: Hist, k: string)
    requires k in d
    ensures Total(Merge(h, d)) == Total(Merge(h, d - {k})) + d[k]
  {
    var m := Merge(h, d);
    var m' := Merge(h, d - {k});
    var u := m'[k := Get(m', k) + d[k]];
    assert (d - {k}).Keys == d.Keys - {k};
    assert m.Keys == u.Keys;
    forall b | b in m ensures m[b] == u[b] {
      if b != k {
        assert Get(d, b) == Get(d - {k}, b);
      }
    }
    assert m == u;
    TotalUpdate(m', k, Get(m', k) + d[k]);
  }

  /** The loop `for bit, cnt in data.items(): agg[bit] = agg.get(bit, 0) + cnt`. */
  method MergeInto(agg: Hist, data: Hist) returns (r: Hist)
    ensures r == Merge(agg, data)
  {
    r := agg;
    var todo := data.Keys;
    while todo != {}
      invariant todo <= data.Keys
      invariant r.Keys == agg.Keys + (data.Keys - todo)
      invariant forall b | b in r :: r[b] == Get(agg, b) + (if b in data && b !in todo then data[b] else 0)
      decreases todo
    {
      var b :| b in todo;
      r := r[b := Get(r, b) + data[b]];
      todo := todo - {b};
    }
    assert r.Keys == Merge(agg, data).Keys;
  }

  /** sum(agg.values()), as the loop the built-in performs. */
  method SumCounts(h: Hist) returns (s: int)
    ensures s == Total(h)
  {
    s := 0;
    var rest := h;
    while rest.Keys != {}
      invariant s + Total(rest) == Total(h)
      decreases |rest.Keys|
    {
      var k :| k in rest.Keys;
      TotalRemove(rest, k);
      assert (rest - {k}).Keys == rest.Keys - {k};
      s := s + rest[k];
      rest := rest - {k};
    }
  }

  /** The set of outcomes drawn. */
  function Drawn(s: seq<string>): set<string>
  {
    set i | 0 <= i < |s| :: s[i]
  }

  /** How often each outcome was drawn. */
  function Tally(s: seq<string>): (t: Hist)
    ensures t.Keys == Drawn(s)
  {
    map b | b in Drawn(s) :: multiset(s)[b]
  }

  /** One more draw of b adds one to b's count. */
  lemma TallySnoc(s: seq<string>, b: string)
    ensures Tally(s + [b]) == Tally(s)[b := Get(Tally(s), b) + 1]
  {
    var t, u := Tally(s + [b]), Tally(s)[b := Get(Tally(s), b) + 1];
    assert Drawn(s + [b]) == Drawn(s) + {b} by {
      forall x | x in Drawn(s + [b]) ensures x in Drawn(s) + {b} {
        var i :| 0 <= i < |s + [b]| && (s + [b])[i] == x;
        if i < |s| { assert s[i] == x; }
      }
      forall x | x in Drawn(s) ensures x in Drawn(s + [b]) {
        var i :| 0 <= i < |s| && s[i] == x;
        assert (s + [b])[i] == x;
      }
      assert (s + [b])[|s|] == b;
    }
    assert multiset(s + [b]) == multiset(s) + multiset{b};
    forall x | x in t ensures t[x] == u[x] {
      if x == b && b !in Drawn(s) {
        assert b !in s by {
          forall i | 0 <= i < |s| ensures s[i] != b {
            assert s[i] in Drawn(s);
          }
        }
      }
    }
  }

  /** There are as many counts as draws. */
  lemma {:induction false} TallyTotal(s: seq<string>)
    ensures Total(Tally(s)) == |s|
  {
    if s == [] {
      assert Tally(s) == map[];
    } else {
      var init, b := s[..|s| - 1], s[|s| - 1];
      assert s == init + [b];
      TallyTotal(init);
      TallySnoc(init, b);
      TotalUpdate(Tally(init), b, Get(Tally(init), b) + 1);
    }
  }

  /** `_multinomial_sample`: fails when the aggregate sums to at most zero;
      otherwise tallies the `shots` draws of `rng.choices` over the keys of
      `agg`, here the oracle `sampled`, which only has to be a draw when
      there is something to draw from. The result sums to exactly `shots`,
      holds only keys of `agg`, and counts each outcome as often as it was
      drawn. */
  method MultinomialSample(agg: Hist, shots: nat, sampled: seq<string>) returns (r: Result<Hist>)
    requires Total(agg) > 0 ==> |sampled| == shots && forall i | 0 <= i < |sampled| :: sampled[i] in agg
    ensures r.Err? <==> Total(agg) <= 0
    ensures r.Err? ==> r.error == NoCounts
    ensures r.Ok? ==> r.value == Tally(sampled)
    ensures r.Ok? ==> Total(r.value) == shots
    ensures r.Ok? ==> r.value.Keys <= agg.Keys
  {
    var total := SumCounts(agg);
    if total <= 0 {
      return Err(NoCounts);
    }
    var result: Hist := map[];
    for i := 0 to |sampled|
      invariant result == Tally(sampled[..i])
    {
      var b := sampled[i];
      TallySnoc(sampled[..i], b);
      result := result[b := Get(result, b) + 1];
      assert sampled[..i + 1] == sampled[..i] + [b];
    }
    assert sampled[..|sampled|] == sampled;
    TallyTotal(sampled);
    return Ok(result);
  }
}
