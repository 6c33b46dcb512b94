// python/publish_calibration.py: select the recent unprocessed calibration
// messages, aggregate them per leaf into ratio statistics, store and mark
// them, and publish one retained result per leaf.
module PublishCalibration {
  import opened Common
  import opened Stats
  import opened Telemetry
  import opened CalibPairing

  const CalibTopic := "calibration/results"

  /** The selection window: `datetime.now() - timedelta(minutes=30)`. */
  const WindowSeconds: real := 1800.0

  /** `datetime.strptime(timestamp, '%Y-%m-%d %H:%M:%S')` in seconds; None
      is the ValueError of a malformed timestamp. */
  const ParseTime: string -> Option<real>

  /** `eval(payload)` followed by the one-row DataFrame and its time
      conversion; None is any exception they raise. */
  const EvalPayload: string -> Option<Calib>

  /** The device list of devices.json: the centre's serial and the leaves'
      serials in file order. */
  datatype DevList = DevList(cent: string, leafs: seq<string>)

  // ---------------------------------------------------------------- row selection

  datatype Selection = Selection(data: seq<Calib>, ids: seq<int>)

  predicate SelectedRow(m: Message, now: real)
  {
    ParseTime(m.timestamp).Some?
    && m.topic == CalibTopic && m.isProcessed == 0 && ParseTime(m.timestamp).value > now - WindowSeconds
  }

  /** The scan of `main` over all messages: every timestamp is parsed, and a
      selected row contributes its payload and an update of its id. */
  function Select(ms: seq<Message>, now: real): Outcome<Selection>
  {
    if ms == [] then Ok(Selection([], []))
    else
      match Select(ms[..|ms| - 1], now)
      case Ok(s) =>
        var m := ms[|ms| - 1];
        if ParseTime(m.timestamp).None? then Throw
        else if !SelectedRow(m, now) then Ok(s)
        else if EvalPayload(m.payload).None? then Throw
        else Ok(Selection(s.data + [EvalPayload(m.payload).value], s.ids + [m.id]))
      case _ => Throw
  }

  method SelectRows(ms: seq<Message>, now: real) returns (r: Outcome<Selection>)
    ensures r == Select(ms, now)
  {
    var data: seq<Calib> := [];
    var ids: seq<int> := [];
    var i := 0;
    while i < |ms|
      invariant 0 <= i <= |ms|
      invariant Select(ms[..i], now) == Ok(Selection(data, ids))
    {
      assert ms[..i + 1][..i] == ms[..i];
      var rowTime := ParseTime(ms[i].timestamp);
      if rowTime.None? {
        SelectFailurePersists(ms, now, i + 1);
        return Throw;
      }
      if ms[i].topic == CalibTopic && ms[i].isProcessed == 0 && rowTime.value > now - WindowSeconds {
        var payload := EvalPayload(ms[i].payload);
        if payload.None? {
          SelectFailurePersists(ms, now, i + 1);
          return Throw;
        }
        data := data + [payload.value];
        ids := ids + [ms[i].id];
      }
      i := i + 1;
    }
    assert ms[..|ms|] == ms;
    return Ok(Selection(data, ids));
  }

  lemma SelectFailurePersists(ms: seq<Message>, now: real, n: nat)
    requires 0 < n <= |ms| && Select(ms[..n], now) == Throw
    ensures Select(ms, now) == Throw
    decreases |ms| - n
  {
    if n < |ms| {
      assert ms[..n + 1][..n] == ms[..n];
      SelectFailurePersists(ms, now, n + 1);
    } else {
      assert ms[..n] == ms;
    }
  }

  predicate SelectedAt(ms: seq<Message>, s: Selection, now: real, k: nat)
    requires k < |s.data| && k < |s.ids|
  {
    exists i :: 0 <= i < |ms| && SelectedRow(ms[i], now) && ms[i].id == s.ids[k]
                && EvalPayload(ms[i].payload) == Some(s.data[k])
  }

  /** Only recent unprocessed `calibration/results` rows are selected; each
      selected payload comes with an update of its own row, and every such
      row is selected. */
  lemma {:induction false} SelectSpec(ms: seq<Message>, now: real)
    requires Select(ms, now).Ok?
    ensures var s := Select(ms, now).value;
            && |s.data| == |s.ids|
            && (forall k :: 0 <= k < |s.ids| ==> SelectedAt(ms, s, now, k))
            && (forall m :: m in ms && SelectedRow(m, now) ==> m.id in s.ids)
  {
    if ms != [] {
      var init := ms[..|ms| - 1];
      SelectSpec(init, now);
      var s := Select(ms, now).value;
      var s0 := Select(init, now).value;
      forall k | 0 <= k < |s.ids| ensures SelectedAt(ms, s, now, k) {
        if k < |s0.ids| {
          assert SelectedAt(init, s0, now, k);
          var i :| 0 <= i < |init| && SelectedRow(init[i], now) && init[i].id == s0.ids[k]
                   && EvalPayload(init[i].payload) == Some(s0.data[k]);
          assert ms[i] == init[i];
        } else {
          assert ms[|ms| - 1].id == s.ids[k];
        }
      }
      assert forall m :: m in ms ==> m in init || m == ms[|ms| - 1];
    }
  }

  // ---------------------------------------------------------------- per-leaf aggregation

  /** One row of `store_df`. */
  datatype StoreRow = StoreRow(runCount: nat, cent: string, leaf: string, centTxGain: real, leafRxGain: real,
                               ampCToL: real, ampLToC: real, ampRatio: Float64, time: real)

  /** One row of `calib_results`. */
  datatype ResultRow = ResultRow(totalRuns: nat, cent: string, leaf: string, centTxGain: real, leafRxGain: real,
                                 ampCToLMean: Float64, ampCToLVar: Float64, ampLToCMean: Float64, ampLToCVar: Float64,
                                 ratioAmpMean: Float64, ampRatioMean: Float64, ampRatioVar: Float64, time: real)

  function CToL(ps: seq<Pair>): (r: seq<real>)
    ensures |r| == |ps| && forall i :: 0 <= i < |ps| ==> r[i] == ps[i].fwd.amplitude
  {
    seq(|ps|, i requires 0 <= i < |ps| => ps[i].fwd.amplitude)
  }

  function LToC(ps: seq<Pair>): (r: seq<real>)
    ensures |r| == |ps| && forall i :: 0 <= i < |ps| ==> r[i] == ps[i].rev.amplitude
  {
    seq(|ps|, i requires 0 <= i < |ps| => ps[i].rev.amplitude)
  }

  /** The `amp_ratio` column: NumPy division, so a zero reverse amplitude
      gives inf (or NaN for 0/0) rather than an error. */
  function Ratios(ps: seq<Pair>): (r: seq<Float64>)
    ensures |r| == |ps| && forall i :: 0 <= i < |ps| ==> r[i] == NpDiv(ps[i].fwd.amplitude, ps[i].rev.amplitude)
  {
    seq(|ps|, i requires 0 <= i < |ps| => NpDiv(ps[i].fwd.amplitude, ps[i].rev.amplitude))
  }

  /** `amp_mean` and `amp_var`: the mean ratio, and the ratio variance over
      the squared mean ratio. */
  function RatioStats(ps: seq<Pair>): (Float64, Float64)
  {
    var ampMean := PdMean(Ratios(ps));
    (ampMean, F64Div(PdVar(Ratios(ps)), F64Square(ampMean)))
  }

  function MinTime(ps: seq<Pair>): real
    requires ps != []
  {
    if |ps| == 1 then ps[0].fwd.time else MinReal(MinTime(ps[..|ps| - 1]), ps[|ps| - 1].fwd.time)
  }

  /** The result of one leaf; None when it has no pairs. */
  function LeafResult(data: seq<Calib>, cent: string, leaf: string): Option<ResultRow>
  {
    var ps := Pairs(data, cent, leaf);
    if ps == [] then None
    else
      var fwdMean := PdMean(Nums(CToL(ps)));
      var revMean := PdMean(Nums(LToC(ps)));
      Some(ResultRow(|ps|, cent, leaf, ps[0].fwd.txGain, ps[0].fwd.rxGain,
                     fwdMean, PdVar(Nums(CToL(ps))), revMean, PdVar(Nums(LToC(ps))),
                     F64Div(fwdMean, revMean), RatioStats(ps).0, RatioStats(ps).1,
                     MinTime(ps)))
  }

  /** The results of the leaves in device-list order. */
  function CalibResults(data: seq<Calib>, cent: string, leafs: seq<string>): seq<ResultRow>
  {
    if leafs == [] then []
    else CalibResults(data, cent, leafs[..|leafs| - 1])
         + match LeafResult(data, cent, leafs[|leafs| - 1])
           case None => []
           case Some(r) => [r]
  }

  /** One more leaf appends its result, if it has one. */
  lemma CalibResultsStep(data: seq<Calib>, cent: string, leafs: seq<string>, i: nat)
    requires i < |leafs|
    ensures CalibResults(data, cent, leafs[..i + 1])
            == CalibResults(data, cent, leafs[..i])
               + match LeafResult(data, cent, leafs[i]) case None => [] case Some(r) => [r]
  {
    assert leafs[..i + 1][..i] == leafs[..i];
  }

  /** The `for c in range(result.shape[0])` loop building `store_df`. */
  method BuildStore(ps: seq<Pair>, cent: string, leaf: string) returns (store: seq<StoreRow>)
    ensures |store| == |ps|
    ensures forall c :: 0 <= c < |ps| ==>
              store[c] == StoreRow(c, cent, leaf, ps[c].fwd.txGain, ps[c].fwd.rxGain,
                                   ps[c].fwd.amplitude, ps[c].rev.amplitude,
                                   NpDiv(ps[c].fwd.amplitude, ps[c].rev.amplitude), ps[c].fwd.time)
  {
    store := [];
    var c := 0;
    while c < |ps|
      invariant 0 <= c <= |ps| && |store| == c
      invariant forall k :: 0 <= k < c ==>
                  store[k] == StoreRow(k, cent, leaf, ps[k].fwd.txGain, ps[k].fwd.rxGain,
                                       ps[k].fwd.amplitude, ps[k].rev.amplitude,
                                       NpDiv(ps[k].fwd.amplitude, ps[k].rev.amplitude), ps[k].fwd.time)
    {
      var p := ps[c];
      store := store + [StoreRow(c, cent, leaf, p.fwd.txGain, p.fwd.rxGain, p.fwd.amplitude, p.rev.amplitude,
                                 NpDiv(p.fwd.amplitude, p.rev.amplitude), p.fwd.time)];
      c := c + 1;
    }
  }

  /** process_calibration_data: the loop over leaves, skipping a leaf with
      no pairs. `None` for the device list is a failure to read
      devices.json, which raises. */
  method ProcessCalibrationData(data: seq<Calib>, devs: Option<DevList>) returns (r: Outcome<seq<ResultRow>>)
    ensures devs.None? <==> r == Throw
    ensures devs.Some? ==> r == Ok(CalibResults(data, devs.value.cent, devs.value.leafs))
  {
    if devs.None? {
      return Throw;
    }
    var cent := devs.value.cent;
    var leafs := devs.value.leafs;
    var calibResults: seq<ResultRow> := [];
    var i := 0;
    while i < |leafs|
      invariant 0 <= i <= |leafs|
      invariant calibResults == CalibResults(data, cent, leafs[..i])
    {
      CalibResultsStep(data, cent, leafs, i);
      var leaf := leafs[i];
      var ps := Pairs(data, cent, leaf);
      var store := BuildStore(ps, cent, leaf);
      var totalRuns := |store|;
      if totalRuns == 0 {
        i := i + 1;
        continue;
      }
      var fwdMean := PdMean(Nums(CToL(ps)));
      var revMean := PdMean(Nums(LToC(ps)));
      var ampMean := PdMean(Ratios(ps));
      var ampVar := F64Div(PdVar(Ratios(ps)), F64Square(ampMean));
      var row := ResultRow(totalRuns, cent, leaf, store[0].centTxGain, store[0].leafRxGain,
                           fwdMean, PdVar(Nums(CToL(ps))), revMean, PdVar(Nums(LToC(ps))),
                           F64Div(fwdMean, revMean), ampMean, ampVar,
                           MinTime(ps));
      assert LeafResult(data, cent, leaf) == Some(row);
      calibResults := calibResults + [row];
      i := i + 1;
    }
    assert leafs[..|leafs|] == leafs;
    return Ok(calibResults);
  }

  // ---------------------------------------------------------------- properties of the aggregation

  lemma {:induction false} MinTimeSpec(ps: seq<Pair>)
    requires ps != []
    ensures forall i :: 0 <= i < |ps| ==> MinTime(ps) <= ps[i].fwd.time
    ensures exists i :: 0 <= i < |ps| && MinTime(ps) == ps[i].fwd.time
  {
    if |ps| > 1 {
      var init := ps[..|ps| - 1];
      MinTimeSpec(init);
      var i :| 0 <= i < |init| && MinTime(init) == init[i].fwd.time;
      if MinTime(ps) == ps[|ps| - 1].fwd.time {
        assert MinTime(ps) == ps[|ps| - 1].fwd.time;
      } else {
        assert MinTime(ps) == ps[i].fwd.time;
      }
    } else {
      assert MinTime(ps) == ps[0].fwd.time;
    }
  }

  /** One leaf's result: the run count is the number of pairs, the gains
      come from the first pair, and the time is the earliest pair's (the
      first one's, as the pairs are in time order). */
  lemma LeafResultSpec(data: seq<Calib>, cent: string, leaf: string)
    ensures LeafResult(data, cent, leaf).None? <==> Pairs(data, cent, leaf) == []
    ensures LeafResult(data, cent, leaf).Some? ==>
              var r := LeafResult(data, cent, leaf).value;
              var ps := Pairs(data, cent, leaf);
              && r.totalRuns == |ps| >= 1 && r.cent == cent && r.leaf == leaf
              && r.centTxGain == ps[0].fwd.txGain && r.leafRxGain == ps[0].fwd.rxGain
              && r.time == ps[0].fwd.time
              && (forall i :: 0 <= i < |ps| ==> r.time <= ps[i].fwd.time)
  {
    var ps := Pairs(data, cent, leaf);
    if ps != [] {
      MinTimeSpec(ps);
      PairsInTimeOrder(data, cent, leaf);
      assert Fwds(ps)[0] == ps[0].fwd;
    }
  }

  /** The statistics of a leaf's row: the amplitude columns hold no NaN, so
      their means are the plain means, their variances are finite exactly
      from two pairs on, `ratio_amp_mean` is the NumPy quotient of the two
      means, and the ratio statistics are those of `RatioStats`. */
  lemma LeafResultStats(data: seq<Calib>, cent: string, leaf: string)
    ensures LeafResult(data, cent, leaf).Some? ==>
              var r := LeafResult(data, cent, leaf).value;
              var ps := Pairs(data, cent, leaf);
              && r.ampCToLMean == Num(Mean(CToL(ps)).v) && r.ampLToCMean == Num(Mean(LToC(ps)).v)
              && (r.ampCToLVar.Num? <==> |ps| >= 2) && (r.ampLToCVar.Num? <==> |ps| >= 2)
              && (|ps| >= 2 ==> r.ampCToLVar.v == SampleVar(CToL(ps)).v && r.ampLToCVar.v == SampleVar(LToC(ps)).v)
              && r.ratioAmpMean == NpDiv(Mean(CToL(ps)).v, Mean(LToC(ps)).v)
              && (r.ampRatioMean, r.ampRatioVar) == RatioStats(ps)
  {
    var ps := Pairs(data, cent, leaf);
    if ps != [] {
      FiniteColumn(CToL(ps));
      FiniteColumn(LToC(ps));
    }
  }

  /** The mean ratio is finite exactly when some reverse amplitude is not
      zero and no zero reverse amplitude meets a non-zero forward one (0/0
      is NaN and skipped). The normalised variance is finite exactly when
      the mean ratio is finite and not zero and at least two ratios are
      kept, and then it is not negative. */
  lemma RatioStatsSpec(ps: seq<Pair>)
    ensures RatioStats(ps).0.Num? <==>
              (exists i :: 0 <= i < |ps| && ps[i].rev.amplitude != 0.0)
              && (forall i :: 0 <= i < |ps| && ps[i].rev.amplitude == 0.0 ==> ps[i].fwd.amplitude == 0.0)
    ensures RatioStats(ps).1.Num? <==>
              RatioStats(ps).0.Num? && RatioStats(ps).0.v != 0.0 && |Kept(Ratios(ps))| >= 2
    ensures RatioStats(ps).1.Num? ==> RatioStats(ps).1.v >= 0.0
  {
    RatioKinds(ps);
    NormalisedVar(Ratios(ps));
  }

  lemma RatioKinds(ps: seq<Pair>)
    ensures (exists i :: 0 <= i < |ps| && Ratios(ps)[i].Num?) <==> (exists i :: 0 <= i < |ps| && ps[i].rev.amplitude != 0.0)
    ensures (Inf(true) !in Ratios(ps) && Inf(false) !in Ratios(ps)) <==>
            (forall i :: 0 <= i < |ps| && ps[i].rev.amplitude == 0.0 ==> ps[i].fwd.amplitude == 0.0)
  {
    var rs := Ratios(ps);
    assert forall i :: 0 <= i < |rs| ==> (rs[i].Inf? <==> rs[i] == Inf(true) || rs[i] == Inf(false));
    if Inf(true) in rs {
      var i :| 0 <= i < |rs| && rs[i] == Inf(true);
      assert ps[i].rev.amplitude == 0.0 && ps[i].fwd.amplitude != 0.0;
    }
    if Inf(false) in rs {
      var i :| 0 <= i < |rs| && rs[i] == Inf(false);
      assert ps[i].rev.amplitude == 0.0 && ps[i].fwd.amplitude != 0.0;
    }
  }

  /** A zero reverse amplitude under a non-zero forward one is not guarded
      against: its ratio is an infinity, the mean ratio is not finite and
      the normalised variance is NaN. */
  lemma ZeroReverseAmplitude(ps: seq<Pair>, i: nat)
    requires i < |ps| && ps[i].rev.amplitude == 0.0 && ps[i].fwd.amplitude != 0.0
    ensures !RatioStats(ps).0.Num?
    ensures RatioStats(ps).1 == NaN
  {
    RatioStatsSpec(ps);
    assert Ratios(ps)[i].Inf?;
    assert Ratios(ps)[i] in Ratios(ps);
  }

  /** A pair whose two amplitudes are both zero gives the NaN ratio 0/0,
      which pandas skips: the ratio statistics are those of the other
      pairs. */
  lemma ZeroPairSkipped(ps: seq<Pair>, i: nat)
    requires i < |ps| && ps[i].rev.amplitude == 0.0 && ps[i].fwd.amplitude == 0.0
    ensures RatioStats(ps) == RatioStats(ps[..i] + ps[i + 1..])
  {
    var rest := ps[..i] + ps[i + 1..];
    assert Ratios(ps) == Ratios(ps[..i]) + [NaN] + Ratios(ps[i + 1..]);
    assert Ratios(rest) == Ratios(ps[..i]) + Ratios(ps[i + 1..]);
    NaNDropped(Ratios(ps[..i]), Ratios(ps[i + 1..]));
  }

  /** A leaf with a single pair has a NaN normalised variance. */
  lemma SinglePair(ps: seq<Pair>)
    requires |ps| == 1
    ensures RatioStats(ps).1 == NaN
  {
    RatioStatsSpec(ps);
  }

  /** The results hold exactly the leaves with pairs, each with its own
      aggregate and the centre's serial, and no leaf without pairs. */
  lemma {:induction false} CalibResultsSpec(data: seq<Calib>, cent: string, leafs: seq<string>)
    ensures forall r :: r in CalibResults(data, cent, leafs) ==>
              r.leaf in leafs && r.cent == cent && LeafResult(data, cent, r.leaf) == Some(r)
    ensures forall l :: l in leafs && Pairs(data, cent, l) != [] ==>
              LeafResult(data, cent, l).value in CalibResults(data, cent, leafs)
    ensures forall r :: r in CalibResults(data, cent, leafs) ==> Pairs(data, cent, r.leaf) != []
    ensures |CalibResults(data, cent, leafs)| <= |leafs|
  {
    if leafs != [] {
      var init := leafs[..|leafs| - 1];
      CalibResultsSpec(data, cent, init);
      LeafResultSpec(data, cent, leafs[|leafs| - 1]);
      assert forall l :: l in leafs ==> l in init || l == leafs[|leafs| - 1];
      assert forall l :: l in init ==> l in leafs;
      forall r | r in CalibResults(data, cent, leafs) ensures Pairs(data, cent, r.leaf) != [] {
        if r !in CalibResults(data, cent, init) {
          LeafResultSpec(data, cent, r.leaf);
        }
      }
    }
  }

  // ---------------------------------------------------------------- storing and publishing

  /** The column list and the placeholders of the results INSERT. */
  const InsertColumns: seq<string> :=
    ["cent", "leaf", "cent_tx_gain", "leaf_rx_gain", "amp_c_to_l_mean", "amp_c_to_l_var",
     "amp_l_to_c_mean", "amp_l_to_c_var", "amp_ratio_mean", "amp_ratio_var", "total_runs", "timestamp"]
  const InsertPlaceholders: seq<string> :=
    ["cent", "leaf", "cent_tx_gain", "leaf_rx_gain", "amp_c_to_l_mean", "amp_c_to_l_var",
     "amp_l_to_c_mean", "amp_l_to_c_var", "ratio_amp_mean", "amp_ratio_mean", "amp_ratio_var", "total_runs", "time"]
  /** The column list the placeholders call for: `ratio_amp_mean` included. */
  const FixedInsertColumns: seq<string> :=
    ["cent", "leaf", "cent_tx_gain", "leaf_rx_gain", "amp_c_to_l_mean", "amp_c_to_l_var",
     "amp_l_to_c_mean", "amp_l_to_c_var", "ratio_amp_mean", "amp_ratio_mean", "amp_ratio_var", "total_runs", "timestamp"]

  /** SQLite prepares the INSERT only when it binds one value per column;
      otherwise every execute raises OperationalError, a `sqlite3.Error`. */
  predicate Prepared(columns: seq<string>)
  {
    |columns| == |InsertPlaceholders|
  }

  /** The NOT NULL columns a result can leave empty: SQLite stores a bound
      NaN as NULL, so a NaN `amp_ratio_mean` or `amp_ratio_var` makes the
      INSERT raise IntegrityError, a `sqlite3.Error`; an infinity is stored.
      `cent`, `leaf` and the timestamp string are never NULL. */
  predicate NotNullHeld(r: ResultRow)
  {
    !r.ampRatioMean.NaN? && !r.ampRatioVar.NaN?
  }

  predicate InsertAccepted(columns: seq<string>, r: ResultRow)
  {
    Prepared(columns) && NotNullHeld(r)
  }

  /** How many results are inserted before the first INSERT that raises. */
  function InsertedCount(res: seq<ResultRow>, columns: seq<string>): (n: nat)
    ensures n <= |res|
    ensures forall k :: 0 <= k < n ==> InsertAccepted(columns, res[k])
    ensures n < |res| ==> !InsertAccepted(columns, res[n])
  {
    if res == [] then 0
    else
      var m := InsertedCount(res[..|res| - 1], columns);
      if m < |res| - 1 || !InsertAccepted(columns, res[|res| - 1]) then m else |res|
  }

  function ResultTopic(r: ResultRow): string
  {
    "calibration/ratio/" + r.cent + "/" + r.leaf
  }

  /** One entry of `mqtt_publish_list`, as handed to `publish(retain=True)`. */
  datatype Publication = Publication(topic: string, payload: ResultRow, retain: bool, delivered: bool)

  class ResultsTable {
    var rows: seq<ResultRow>

    constructor ()
      ensures rows == []
    {
      rows := [];
    }
  }

  /** `published` is `mqtt_publish_list` sent in order, each message
      retained, with the broker's return code for it. */
  predicate PublishedAll(published: seq<Publication>, res: seq<ResultRow>, delivered: nat -> bool)
  {
    |published| == |res|
    && forall k :: 0 <= k < |res| ==> published[k] == Publication(ResultTopic(res[k]), res[k], true, delivered(k))
  }

  /** main, for a given INSERT column list. The broker's return codes are
      `delivered`. Uncommitted work is rolled back when the connection
      closes, but the results queued before a failing INSERT are still
      published. */
  method RunPublish(messages: MessageTable, results: ResultsTable, now: real, devs: Option<DevList>,
                 columns: seq<string>, delivered: nat -> bool)
    returns (s: Status, published: seq<Publication>)
    modifies messages, results
    ensures s != Exited
    ensures s == Threw <==> Select(old(messages.messages), now).Throw?
                            || Select(old(messages.messages), now).value.data == [] || devs.None?
    ensures s == Threw ==> published == [] && messages.messages == old(messages.messages)
                           && results.rows == old(results.rows)
    ensures s == Returned ==>
              var sel := Select(old(messages.messages), now).value;
              var res := CalibResults(sel.data, devs.value.cent, devs.value.leafs);
              var n := InsertedCount(res, columns);
              && (n == |res| ==> results.rows == old(results.rows) + res
                                 && messages.messages == Marked(old(messages.messages), sel.ids))
              && (n < |res| ==> results.rows == old(results.rows) && messages.messages == old(messages.messages))
              && PublishedAll(published, res[..n], delivered)
  {
    var sel := SelectRows(messages.messages, now);
    if !sel.Ok? {
      return Threw, [];
    }
    var data := sel.value.data;
    var ids := sel.value.ids;
    if data == [] {
      // raise Exception("No calibration data available at the moment.")
      return Threw, [];
    }
    var calibRes := ProcessCalibrationData(data, devs);
    if !calibRes.Ok? {
      return Threw, [];
    }
    var res := calibRes.value;
    var ok, publishList := InsertResults(res, columns);
    if ok {
      results.rows := results.rows + res;
      messages.MarkProcessed(ids);
    }
    // sqlite3.Error is caught: what was queued is published all the same
    published := PublishAll(publishList, delivered);
    QueuedPublished(res, InsertedCount(res, columns), publishList, published, delivered);
    return Returned, published;
  }

  /** Sending the queue of the first n results publishes those n results. */
  lemma QueuedPublished(res: seq<ResultRow>, n: nat, publishList: seq<(string, ResultRow)>,
                        published: seq<Publication>, delivered: nat -> bool)
    requires n <= |res| && |publishList| == n
    requires forall k :: 0 <= k < n ==> publishList[k] == (ResultTopic(res[k]), res[k])
    requires |published| == n
    requires forall k :: 0 <= k < n ==>
               published[k] == Publication(publishList[k].0, publishList[k].1, true, delivered(k))
    ensures PublishedAll(published, res[..n], delivered)
  {
    forall k | 0 <= k < n
      ensures published[k] == Publication(ResultTopic(res[..n][k]), res[..n][k], true, delivered(k))
    {
      assert res[..n][k] == res[k];
    }
  }

  /** The INSERT loop: each result is inserted and then queued for
      publication; the first INSERT that raises ends the loop. */
  method InsertResults(res: seq<ResultRow>, columns: seq<string>) returns (ok: bool, publishList: seq<(string, ResultRow)>)
    ensures ok <==> forall k :: 0 <= k < |res| ==> InsertAccepted(columns, res[k])
    ensures ok <==> InsertedCount(res, columns) == |res|
    ensures |publishList| == InsertedCount(res, columns)
    ensures forall k :: 0 <= k < |publishList| ==> publishList[k] == (ResultTopic(res[k]), res[k])
  {
    publishList := [];
    var i := 0;
    while i < |res|
      invariant 0 <= i <= |res|
      invariant forall k :: 0 <= k < i ==> InsertAccepted(columns, res[k])
      invariant |publishList| == i && forall k :: 0 <= k < i ==> publishList[k] == (ResultTopic(res[k]), res[k])
    {
      if !InsertAccepted(columns, res[i]) {
        return false, publishList;
      }
      publishList := publishList + [(ResultTopic(res[i]), res[i])];
      i := i + 1;
    }
    return true, publishList;
  }

  /** The publish loop: a failed publish is reported and the loop goes on. */
  method PublishAll(publishList: seq<(string, ResultRow)>, delivered: nat -> bool) returns (published: seq<Publication>)
    ensures |published| == |publishList|
    ensures forall k :: 0 <= k < |publishList| ==>
              published[k] == Publication(publishList[k].0, publishList[k].1, true, delivered(k))
  {
    published := [];
    var k := 0;
    while k < |publishList|
      invariant 0 <= k <= |publishList|
      invariant |published| == k
      invariant forall j :: 0 <= j < k ==> published[j] == Publication(publishList[j].0, publishList[j].1, true, delivered(j))
    {
      published := published + [Publication(publishList[k].0, publishList[k].1, true, delivered(k))];
      k := k + 1;
    }
  }

  /** The script as written: with at least one result the INSERT names 12
      columns for 13 values and fails at once, so nothing is stored, no row
      is marked and nothing is published. */
  method PublishAsWritten(messages: MessageTable, results: ResultsTable, now: real, devs: Option<DevList>,
                       delivered: nat -> bool)
    returns (s: Status, published: seq<Publication>)
    modifies messages, results
    ensures s == Returned ==> Select(old(messages.messages), now).Ok? && devs.Some?
    ensures var sel := Select(old(messages.messages), now);
            s == Returned && CalibResults(sel.value.data, devs.value.cent, devs.value.leafs) != [] ==>
              published == [] && messages.messages == old(messages.messages) && results.rows == old(results.rows)
  {
    s, published := RunPublish(messages, results, now, devs, InsertColumns, delivered);
    if s == Returned {
      AsWrittenCount(CalibResults(Select(old(messages.messages), now).value.data, devs.value.cent, devs.value.leafs));
    }
  }

  /** The script with the column list completed. When every result has a
      mean ratio and a normalised variance that are not NaN, every result
      is stored, every selected row is marked and every result is
      published, retained, on its own topic. Otherwise nothing is stored
      or marked, and exactly the results before the first such one are
      published. */
  method Publish(messages: MessageTable, results: ResultsTable, now: real, devs: Option<DevList>,
              delivered: nat -> bool)
    returns (s: Status, published: seq<Publication>)
    modifies messages, results
    ensures s == Returned ==> Select(old(messages.messages), now).Ok? && devs.Some?
    ensures var sel := Select(old(messages.messages), now);
            s == Returned ==>
              var res := CalibResults(sel.value.data, devs.value.cent, devs.value.leafs);
              && ((forall k :: 0 <= k < |res| ==> NotNullHeld(res[k])) ==>
                    && results.rows == old(results.rows) + res
                    && messages.messages == Marked(old(messages.messages), sel.value.ids)
                    && PublishedAll(published, res, delivered))
              && ((exists k :: 0 <= k < |res| && !NotNullHeld(res[k])) ==>
                    && results.rows == old(results.rows)
                    && messages.messages == old(messages.messages)
                    && |published| < |res|
                    && (forall k :: 0 <= k < |published| ==> NotNullHeld(res[k]))
                    && !NotNullHeld(res[|published|])
                    && PublishedAll(published, res[..|published|], delivered))
  {
    s, published := RunPublish(messages, results, now, devs, FixedInsertColumns, delivered);
    if s == Returned {
      var res := CalibResults(Select(old(messages.messages), now).value.data, devs.value.cent, devs.value.leafs);
      FixedColumnsOutcome(res, published, delivered);
    }
  }

  /** With the completed column list an INSERT raises exactly on a NaN in a
      NOT NULL column. */
  lemma FixedColumnsCount(res: seq<ResultRow>)
    ensures InsertedCount(res, FixedInsertColumns) == |res| <==> forall k :: 0 <= k < |res| ==> NotNullHeld(res[k])
    ensures forall k :: 0 <= k < InsertedCount(res, FixedInsertColumns) ==> NotNullHeld(res[k])
    ensures InsertedCount(res, FixedInsertColumns) < |res| ==> !NotNullHeld(res[InsertedCount(res, FixedInsertColumns)])
  {
    InsertColumnCount();
  }

  /** What is published when the first `n` results are inserted and the
      next one, if any, violates NOT NULL: every result when none does, and
      otherwise exactly the results before the first that does. */
  lemma PrefixOutcome(res: seq<ResultRow>, n: nat, published: seq<Publication>, delivered: nat -> bool)
    requires n <= |res|
    requires forall k :: 0 <= k < n ==> NotNullHeld(res[k])
    requires n < |res| ==> !NotNullHeld(res[n])
    requires PublishedAll(published, res[..n], delivered)
    ensures (forall k :: 0 <= k < |res| ==> NotNullHeld(res[k])) <==> n == |res|
    ensures n == |res| ==> PublishedAll(published, res, delivered)
    ensures n < |res| ==>
              && |published| < |res|
              && (forall k :: 0 <= k < |published| ==> NotNullHeld(res[k]))
              && !NotNullHeld(res[|published|])
              && PublishedAll(published, res[..|published|], delivered)
  {
    assert |published| == n;
    if n == |res| {
      assert res[..n] == res;
    }
  }

  /** The same for the completed column list, where the first `n` results
      are those InsertedCount counts. */
  lemma FixedColumnsOutcome(res: seq<ResultRow>, published: seq<Publication>, delivered: nat -> bool)
    requires PublishedAll(published, res[..InsertedCount(res, FixedInsertColumns)], delivered)
    ensures (forall k :: 0 <= k < |res| ==> NotNullHeld(res[k])) <==> InsertedCount(res, FixedInsertColumns) == |res|
    ensures (forall k :: 0 <= k < |res| ==> NotNullHeld(res[k])) ==> PublishedAll(published, res, delivered)
    ensures (exists k :: 0 <= k < |res| && !NotNullHeld(res[k])) ==>
              && |published| < |res|
              && (forall k :: 0 <= k < |published| ==> NotNullHeld(res[k]))
              && !NotNullHeld(res[|published|])
              && PublishedAll(published, res[..|published|], delivered)
  {
    FixedColumnsCount(res);
    PrefixOutcome(res, InsertedCount(res, FixedInsertColumns), published, delivered);
  }

  /** With the script's column list no INSERT is accepted. */
  lemma AsWrittenCount(res: seq<ResultRow>)
    ensures InsertedCount(res, InsertColumns) == 0
  {
    InsertColumnCount();
  }

  /** A leaf with a single pair, or a zero reverse amplitude under a
      non-zero forward one, leaves `amp_ratio_var` NaN, and its INSERT
      raises. */
  lemma UnstorableResults(data: seq<Calib>, cent: string, leaf: string)
    requires LeafResult(data, cent, leaf).Some?
    requires var ps := Pairs(data, cent, leaf);
             |ps| == 1 || exists i :: 0 <= i < |ps| && ps[i].rev.amplitude == 0.0 && ps[i].fwd.amplitude != 0.0
    ensures !NotNullHeld(LeafResult(data, cent, leaf).value)
  {
    var ps := Pairs(data, cent, leaf);
    LeafResultSpec(data, cent, leaf);
    if |ps| == 1 {
      SinglePair(ps);
    } else {
      var i :| 0 <= i < |ps| && ps[i].rev.amplitude == 0.0 && ps[i].fwd.amplitude != 0.0;
      ZeroReverseAmplitude(ps, i);
    }
  }

  /** The INSERT as written names 12 columns and binds 13 values; the fixed
      column list adds `ratio_amp_mean` and names 13. */
  lemma InsertColumnCount()
    ensures |InsertColumns| == 12 && |InsertPlaceholders| == 13 && !Prepared(InsertColumns)
    ensures Prepared(FixedInsertColumns)
    ensures forall c :: c in InsertColumns ==> c in FixedInsertColumns
    ensures "ratio_amp_mean" in FixedInsertColumns && "ratio_amp_mean" !in InsertColumns
  {
  }

  /** With no selected row `main` raises before any insert or update. */
  lemma NoDataRaises(ms: seq<Message>, now: real)
    requires Select(ms, now) == Ok(Selection([], []))
    ensures forall m :: m in ms ==> !SelectedRow(m, now)
  {
    SelectSpec(ms, now);
  }
}
