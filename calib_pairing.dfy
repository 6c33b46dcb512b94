// The pairing step of python/publish_calibration.py: the forward
// (centre -> leaf) and reverse (leaf -> centre) measurements of one leaf,
// each sorted by time, joined by `pandas.merge_asof(direction='nearest',
// tolerance=3 s)` and stripped of unmatched rows by `dropna()`.
module CalibPairing {
  import opened Common

  /** One calibration payload, with its time in seconds. */
  datatype Calib = Calib(txDev: string, rxDev: string, txGain: real, rxGain: real, amplitude: real, time: real)

  /** A forward row and the reverse row merged onto it. */
  datatype Pair = Pair(fwd: Calib, rev: Calib)

  /** `pd.Timedelta(seconds=3)`; the tolerance is inclusive. */
  const Tolerance: real := 3.0

  predicate IsForward(c: Calib, cent: string, leaf: string)
  {
    c.txDev == cent && c.rxDev == leaf
  }

  predicate IsReverse(c: Calib, cent: string, leaf: string)
  {
    c.txDev == leaf && c.rxDev == cent
  }

  function Forward(data: seq<Calib>, cent: string, leaf: string): (r: seq<Calib>)
    ensures forall c :: c in r <==> c in data && IsForward(c, cent, leaf)
  {
    if data == [] then []
    else Forward(data[..|data| - 1], cent, leaf)
         + (if IsForward(data[|data| - 1], cent, leaf) then [data[|data| - 1]] else [])
  }

  function Reverse(data: seq<Calib>, cent: string, leaf: string): (r: seq<Calib>)
    ensures forall c :: c in r <==> c in data && IsReverse(c, cent, leaf)
  {
    if data == [] then []
    else Reverse(data[..|data| - 1], cent, leaf)
         + (if IsReverse(data[|data| - 1], cent, leaf) then [data[|data| - 1]] else [])
  }

  // ---------------------------------------------------------------- sort_values('time')

  predicate SortedByTime(s: seq<Calib>)
  {
    forall i, j :: 0 <= i < j < |s| ==> s[i].time <= s[j].time
  }

  /** Inserts after every row that is not later, so equal times keep their
      input order. */
  function InsertByTime(x: Calib, s: seq<Calib>): (r: seq<Calib>)
    ensures multiset(r) == multiset(s) + multiset{x}
    ensures |r| == |s| + 1
  {
    if s == [] then [x]
    else if x.time < s[0].time then [x] + s
    else
      assert s == [s[0]] + s[1..];
      [s[0]] + InsertByTime(x, s[1..])
  }

  lemma {:induction false} InsertSorted(x: Calib, s: seq<Calib>)
    requires SortedByTime(s)
    ensures SortedByTime(InsertByTime(x, s))
  {
    if s != [] && x.time >= s[0].time {
      InsertSorted(x, s[1..]);
      var r := InsertByTime(x, s[1..]);
      forall k | 0 <= k < |r| ensures s[0].time <= r[k].time {
        assert r[k] in multiset(r);
        assert r[k] in multiset(s[1..]) || r[k] == x;
        if r[k] != x {
          var j :| 0 <= j < |s[1..]| && s[1..][j] == r[k];
          assert s[j + 1] == r[k];
        }
      }
    }
  }

  function SortByTime(s: seq<Calib>): (r: seq<Calib>)
    ensures multiset(r) == multiset(s)
  {
    if s == [] then []
    else
      assert s == s[..|s| - 1] + [s[|s| - 1]];
      InsertByTime(s[|s| - 1], SortByTime(s[..|s| - 1]))
  }

  /** sort_values('time') sorts and keeps every row. */
  lemma {:induction false} SortByTimeSorted(s: seq<Calib>)
    ensures SortedByTime(SortByTime(s))
    ensures multiset(SortByTime(s)) == multiset(s)
  {
    if s != [] {
      SortByTimeSorted(s[..|s| - 1]);
      InsertSorted(s[|s| - 1], SortByTime(s[..|s| - 1]));
    }
  }

  // ---------------------------------------------------------------- the nearest match

  function Dist(a: real, b: real): real
  {
    if a <= b then b - a else a - b
  }

  /** The backward search: the last row not later than t. */
  function LastAtMost(rs: seq<Calib>, t: real): (r: Option<nat>)
    ensures r.Some? ==> r.value < |rs| && rs[r.value].time <= t
                        && forall j :: r.value < j < |rs| ==> rs[j].time > t
    ensures r.None? ==> forall j :: 0 <= j < |rs| ==> rs[j].time > t
  {
    if rs == [] then None
    else if rs[|rs| - 1].time <= t then Some(|rs| - 1)
    else LastAtMost(rs[..|rs| - 1], t)
  }

  /** The forward search: the first row not earlier than t. */
  function FirstAtLeast(rs: seq<Calib>, t: real): (r: Option<nat>)
    ensures r.Some? ==> r.value < |rs| && rs[r.value].time >= t
                        && forall j :: 0 <= j < r.value ==> rs[j].time < t
    ensures r.None? ==> forall j :: 0 <= j < |rs| ==> rs[j].time < t
  {
    if rs == [] then None
    else if rs[0].time >= t then Some(0)
    else match FirstAtLeast(rs[1..], t)
         case None => None
         case Some(k) => Some(k + 1)
  }

  /** direction='nearest': each search keeps its candidate only within the
      tolerance; when both remain, the backward one wins unless the forward
      one is strictly closer. */
  function Nearest(rs: seq<Calib>, t: real): (r: Option<nat>)
    ensures r.Some? ==> r.value < |rs|
  {
    var b := LastAtMost(rs, t);
    var f := FirstAtLeast(rs, t);
    var b' := if b.Some? && t - rs[b.value].time <= Tolerance then b else None;
    var f' := if f.Some? && rs[f.value].time - t <= Tolerance then f else None;
    if b'.Some? && f'.Some? then
      (if t - rs[b'.value].time <= rs[f'.value].time - t then b' else f')
    else if b'.Some? then b'
    else f'
  }

  /** On a sorted right side the match is a row at minimal distance, within
      the tolerance, and there is none exactly when every row is further
      away than the tolerance. */
  lemma NearestSpec(rs: seq<Calib>, t: real)
    requires SortedByTime(rs)
    ensures Nearest(rs, t).Some? ==>
              var k := Nearest(rs, t).value;
              Dist(rs[k].time, t) <= Tolerance
              && forall j :: 0 <= j < |rs| ==> Dist(rs[k].time, t) <= Dist(rs[j].time, t)
    ensures Nearest(rs, t).None? <==> forall j :: 0 <= j < |rs| ==> Dist(rs[j].time, t) > Tolerance
  {
    var b := LastAtMost(rs, t);
    var f := FirstAtLeast(rs, t);
    // Every row is at least as far as the backward or the forward candidate.
    forall j | 0 <= j < |rs|
      ensures (b.Some? && rs[j].time <= t && Dist(rs[b.value].time, t) <= Dist(rs[j].time, t))
              || (f.Some? && rs[j].time >= t && Dist(rs[f.value].time, t) <= Dist(rs[j].time, t))
    {
      if rs[j].time <= t {
        assert b.Some?;
        assert j <= b.value;
      } else {
        assert f.Some?;
        assert f.value <= j;
      }
    }
  }

  // ---------------------------------------------------------------- merge_asof + dropna

  /** For each left row in order, the pair with its nearest right row; left
      rows with no match within the tolerance are dropped. */
  function MergeAsof(ls: seq<Calib>, rs: seq<Calib>): seq<Pair>
  {
    if ls == [] then []
    else
      var l := ls[|ls| - 1];
      MergeAsof(ls[..|ls| - 1], rs)
      + match Nearest(rs, l.time)
        case None => []
        case Some(k) => [Pair(l, rs[k])]
  }

  predicate HasPartner(rs: seq<Calib>, t: real)
  {
    exists j :: 0 <= j < |rs| && Dist(rs[j].time, t) <= Tolerance
  }

  function Fwds(ps: seq<Pair>): (r: seq<Calib>)
    ensures |r| == |ps| && forall i :: 0 <= i < |ps| ==> r[i] == ps[i].fwd
  {
    seq(|ps|, i requires 0 <= i < |ps| => ps[i].fwd)
  }

  function WithPartner(ls: seq<Calib>, rs: seq<Calib>): seq<Calib>
  {
    if ls == [] then []
    else WithPartner(ls[..|ls| - 1], rs)
         + (if HasPartner(rs, ls[|ls| - 1].time) then [ls[|ls| - 1]] else [])
  }

  lemma FwdsAppend(a: seq<Pair>, b: seq<Pair>)
    ensures Fwds(a + b) == Fwds(a) + Fwds(b)
  {
  }

  /** The reverse row of p is in rs, within 3 s of the forward row, and
      no row of rs is closer. */
  predicate IsNearest(p: Pair, rs: seq<Calib>)
  {
    p.rev in rs && Dist(p.rev.time, p.fwd.time) <= Tolerance
    && forall j :: 0 <= j < |rs| ==> Dist(p.rev.time, p.fwd.time) <= Dist(rs[j].time, p.fwd.time)
  }

  /** The forward rows that survive are exactly, in order, those with a
      reverse row within 3 s. */
  lemma {:induction false} MergeAsofKeeps(ls: seq<Calib>, rs: seq<Calib>)
    requires SortedByTime(rs)
    ensures Fwds(MergeAsof(ls, rs)) == WithPartner(ls, rs)
  {
    if ls != [] {
      var init := ls[..|ls| - 1];
      var l := ls[|ls| - 1];
      MergeAsofKeeps(init, rs);
      NearestSpec(rs, l.time);
      var tail := match Nearest(rs, l.time) case None => [] case Some(k) => [Pair(l, rs[k])];
      assert MergeAsof(ls, rs) == MergeAsof(init, rs) + tail;
      FwdsAppend(MergeAsof(init, rs), tail);
    }
  }

  /** Each surviving forward row is paired with a nearest reverse row within
      3 s, which may be shared by several forward rows. */
  lemma {:induction false} MergeAsofNearest(ls: seq<Calib>, rs: seq<Calib>)
    requires SortedByTime(rs)
    ensures forall p :: p in MergeAsof(ls, rs) ==> p.fwd in ls && IsNearest(p, rs)
  {
    if ls != [] {
      var init := ls[..|ls| - 1];
      var l := ls[|ls| - 1];
      MergeAsofNearest(init, rs);
      NearestSpec(rs, l.time);
      var tail := match Nearest(rs, l.time) case None => [] case Some(k) => [Pair(l, rs[k])];
      assert MergeAsof(ls, rs) == MergeAsof(init, rs) + tail;
      forall p | p in MergeAsof(ls, rs)
        ensures p.fwd in ls && IsNearest(p, rs)
      {
        if p in MergeAsof(init, rs) {
          assert p.fwd in init;
        } else {
          assert p in tail;
        }
      }
    }
  }

  /** The pairs of one leaf, as `process_calibration_data` builds them. */
  function Pairs(data: seq<Calib>, cent: string, leaf: string): seq<Pair>
  {
    MergeAsof(SortByTime(Forward(data, cent, leaf)), SortByTime(Reverse(data, cent, leaf)))
  }

  /** Only forward rows of the leaf and reverse rows of the leaf reach its
      pairs, and each pair is a nearest match within 3 s. */
  lemma PairsSpec(data: seq<Calib>, cent: string, leaf: string)
    ensures forall p :: p in Pairs(data, cent, leaf) ==>
              p.fwd in data && IsForward(p.fwd, cent, leaf)
              && p.rev in data && IsReverse(p.rev, cent, leaf)
              && Dist(p.rev.time, p.fwd.time) <= Tolerance
  {
    var ls := SortByTime(Forward(data, cent, leaf));
    var rs := SortByTime(Reverse(data, cent, leaf));
    SortByTimeSorted(Forward(data, cent, leaf));
    SortByTimeSorted(Reverse(data, cent, leaf));
    MergeAsofNearest(ls, rs);
    forall p | p in Pairs(data, cent, leaf)
      ensures p.fwd in Forward(data, cent, leaf) && p.rev in Reverse(data, cent, leaf)
    {
      assert p.fwd in multiset(ls);
      assert p.rev in multiset(rs);
    }
  }

  /** The surviving forward rows are in time order, so the first pair has
      the earliest time. */
  lemma PairsInTimeOrder(data: seq<Calib>, cent: string, leaf: string)
    ensures SortedByTime(Fwds(Pairs(data, cent, leaf)))
  {
    var ls := SortByTime(Forward(data, cent, leaf));
    var rs := SortByTime(Reverse(data, cent, leaf));
    SortByTimeSorted(Forward(data, cent, leaf));
    SortByTimeSorted(Reverse(data, cent, leaf));
    MergeAsofKeeps(ls, rs);
    WithPartnerSorted(ls, rs);
  }

  lemma {:induction false} WithPartnerSorted(ls: seq<Calib>, rs: seq<Calib>)
    requires SortedByTime(ls)
    ensures SortedByTime(WithPartner(ls, rs))
    ensures forall c :: c in WithPartner(ls, rs) ==> c in ls
  {
    if ls != [] {
      var init := ls[..|ls| - 1];
      assert SortedByTime(init);
      WithPartnerSorted(init, rs);
      var w := WithPartner(init, rs);
      forall c | c in w ensures c.time <= ls[|ls| - 1].time {
        var j :| 0 <= j < |init| && init[j] == c;
      }
    }
  }
}
