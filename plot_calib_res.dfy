// The power-calibration plot script (python/plot_calib_res.py): fetch the
// unprocessed `telemetry/powcalib/<serial>` rows, keep the payloads that
// carry both `rx_pow` and `tx_scale`, and mark those rows processed once
// there is something to plot.
module PlotCalibRes {
  import opened Common
  import opened Telemetry

  /** A JSON member value; `null` is Python's None. */
  datatype Value = Null | Number(x: real) | NonNumber

  /** What `json.loads` gives: a decoding error, an object (a dict), or some
      other JSON value, on which `data.get` raises AttributeError. */
  datatype Decoded = DecodeError | Object(members: map<string, Value>) | NotObject

  /** json.loads, left uninterpreted. */
  const JsonLoads: string -> Decoded

  const PowCalibPrefix := "telemetry/powcalib/"

  predicate Fetched(m: Message, serial: string)
  {
    m.topic == PowCalibPrefix + serial && m.isProcessed == 0
  }

  /** get_data_from_db: the (id, payload) pairs of the matching rows. */
  function Fetch(ms: seq<Message>, serial: string): seq<(int, string)>
  {
    if ms == [] then []
    else Fetch(ms[..|ms| - 1], serial)
         + (if Fetched(ms[|ms| - 1], serial) then [(ms[|ms| - 1].id, ms[|ms| - 1].payload)] else [])
  }

  /** Exactly the rows with topic `telemetry/powcalib/<serial>` that are not
      processed are fetched. */
  lemma {:induction false} FetchSpec(ms: seq<Message>, serial: string)
    ensures forall row :: row in Fetch(ms, serial) ==>
              exists m :: m in ms && Fetched(m, serial) && row == (m.id, m.payload)
    ensures forall m :: m in ms && Fetched(m, serial) ==> (m.id, m.payload) in Fetch(ms, serial)
  {
    if ms != [] {
      var init := ms[..|ms| - 1];
      FetchSpec(init, serial);
      assert forall m :: m in init ==> m in ms;
      assert forall m :: m in ms ==> m in init || m == ms[|ms| - 1];
    }
  }

  /** The three lists `parse_json_payloads` returns. */
  datatype Lists = Lists(txScales: seq<Value>, rxPows: seq<Value>, ids: seq<int>)

  /** The member `data.get(key)` reads: None when absent. */
  function Get(members: map<string, Value>, key: string): Value
  {
    if key in members then members[key] else Null
  }

  predicate Kept(d: Decoded)
  {
    d.Object? && Get(d.members, "rx_pow") != Null && Get(d.members, "tx_scale") != Null
  }

  /** parse_json_payloads over a fetched prefix; Throw is the AttributeError
      of a payload that decodes to something other than an object. */
  function ParsePayloads(rows: seq<(int, string)>): Outcome<Lists>
  {
    if rows == [] then Ok(Lists([], [], []))
    else
      match ParsePayloads(rows[..|rows| - 1])
      case Ok(l) =>
        var row := rows[|rows| - 1];
        var d := JsonLoads(row.1);
        if d.NotObject? then Throw
        else if Kept(d) then
          Ok(Lists(l.txScales + [Get(d.members, "tx_scale")], l.rxPows + [Get(d.members, "rx_pow")], l.ids + [row.0]))
        else Ok(l)
      case _ => Throw
  }

  /** parse_json_payloads: the loop appending to the three lists. */
  method ParseJsonPayloads(rows: seq<(int, string)>) returns (r: Outcome<Lists>)
    ensures r == ParsePayloads(rows)
  {
    var txScales: seq<Value> := [];
    var rxPows: seq<Value> := [];
    var ids: seq<int> := [];
    var i := 0;
    while i < |rows|
      invariant 0 <= i <= |rows|
      invariant ParsePayloads(rows[..i]) == Ok(Lists(txScales, rxPows, ids))
    {
      assert rows[..i + 1][..i] == rows[..i];
      var data := JsonLoads(rows[i].1);
      if data.DecodeError? {
        i := i + 1;
        continue;
      }
      if data.NotObject? {
        ParseFailurePersists(rows, i + 1);
        return Throw;
      }
      var rxPow := Get(data.members, "rx_pow");
      var txScale := Get(data.members, "tx_scale");
      if rxPow != Null && txScale != Null {
        rxPows := rxPows + [rxPow];
        txScales := txScales + [txScale];
        ids := ids + [rows[i].0];
      }
      i := i + 1;
    }
    assert rows[..|rows|] == rows;
    return Ok(Lists(txScales, rxPows, ids));
  }

  lemma ParseFailurePersists(rows: seq<(int, string)>, n: nat)
    requires 0 < n <= |rows| && ParsePayloads(rows[..n]) == Throw
    ensures ParsePayloads(rows) == Throw
    decreases |rows| - n
  {
    if n < |rows| {
      assert rows[..n + 1][..n] == rows[..n];
      ParseFailurePersists(rows, n + 1);
    } else {
      assert rows[..n] == rows;
    }
  }

  /** Entry k of the three lists comes from `row`. */
  predicate ListedFrom(l: Lists, k: nat, row: (int, string))
    requires k < |l.ids| && k < |l.txScales| && k < |l.rxPows|
  {
    var d := JsonLoads(row.1);
    row.0 == l.ids[k] && Kept(d)
    && l.txScales[k] == Get(d.members, "tx_scale") && l.rxPows[k] == Get(d.members, "rx_pow")
  }

  predicate HasSource(l: Lists, k: nat, rows: seq<(int, string)>)
    requires k < |l.ids| && k < |l.txScales| && k < |l.rxPows|
  {
    exists i :: 0 <= i < |rows| && ListedFrom(l, k, rows[i])
  }

  /** The three lists stay equal in length and in row order: entry k of each
      comes from the same kept row. */
  lemma {:induction false} ParsePayloadsSpec(rows: seq<(int, string)>)
    requires ParsePayloads(rows).Ok?
    ensures var l := ParsePayloads(rows).value;
            && |l.txScales| == |l.rxPows| == |l.ids| <= |rows|
            && (forall k :: 0 <= k < |l.ids| ==> l.txScales[k] != Null && l.rxPows[k] != Null)
            && (forall k :: 0 <= k < |l.ids| ==> HasSource(l, k, rows))
  {
    if rows != [] {
      var init := rows[..|rows| - 1];
      ParsePayloadsSpec(init);
      var l := ParsePayloads(rows).value;
      var l0 := ParsePayloads(init).value;
      forall k | 0 <= k < |l.ids|
        ensures HasSource(l, k, rows)
      {
        if k < |l0.ids| {
          assert HasSource(l0, k, init);
          var i :| 0 <= i < |init| && ListedFrom(l0, k, init[i]);
          assert rows[i] == init[i];
          assert ListedFrom(l, k, rows[i]);
        } else {
          assert ListedFrom(l, k, rows[|rows| - 1]);
        }
      }
    }
  }

  /** A payload that fails to decode is skipped without aborting the scan. */
  lemma DecodeErrorSkipped(rows: seq<(int, string)>, row: (int, string))
    requires JsonLoads(row.1) == DecodeError
    ensures ParsePayloads(rows + [row]) == ParsePayloads(rows)
  {
    assert (rows + [row])[..|rows|] == rows;
  }

  /** main: fit, plot and mark only when there is data; a payload that is
      not an object aborts before anything is marked. The curve fit and the
      plot are not part of this model: `fitted` says whether polynomial_fit
      and plot_data return (NumPy raises, for instance, on lists of
      different lengths or on a fit that does not converge), and when they
      raise nothing is marked. */
  method PlotCalibration(table: MessageTable, serial: string, fitted: bool) returns (s: Status)
    modifies table
    ensures s != Exited
    ensures var p := ParsePayloads(Fetch(old(table.messages), serial));
            var hasData := p.Ok? && p.value.txScales != [] && p.value.rxPows != [];
            && (s == Threw <==> p.Throw? || (hasData && !fitted))
            && (hasData && fitted ==> table.messages == Marked(old(table.messages), p.value.ids))
            && (!(hasData && fitted) ==> table.messages == old(table.messages))
  {
    var rows := Fetch(table.messages, serial);
    var parsed := ParseJsonPayloads(rows);
    if parsed.Throw? {
      return Threw;
    }
    var l := parsed.value;
    if l.txScales != [] && l.rxPows != [] {
      if !fitted {
        return Threw;
      }
      MarkRowsAsProcessed(table, l.ids);
    }
    return Returned;
  }

  /** mark_rows_as_processed: no ids means no connection and no change. */
  method MarkRowsAsProcessed(table: MessageTable, ids: seq<int>)
    modifies table
    ensures ids == [] ==> table.messages == old(table.messages)
    ensures table.messages == Marked(old(table.messages), ids)
  {
    if ids == [] {
      assert table.messages == Marked(table.messages, ids);
      return;
    }
    table.MarkProcessed(ids);
  }

  /** Since the lists have equal lengths, the gating in `main` marks rows
      exactly when some payload was kept. */
  lemma GateIffKept(rows: seq<(int, string)>)
    requires ParsePayloads(rows).Ok?
    ensures var l := ParsePayloads(rows).value;
            (l.txScales != [] && l.rxPows != []) <==> l.ids != []
  {
    ParsePayloadsSpec(rows);
  }
}
