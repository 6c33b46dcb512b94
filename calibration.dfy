// lib_cal/calibration.cpp: pairwise calibration of a leaf against the
// central node ("cent"). The cent sends its REF burst; the leaf measures its
// power (CTOL) and answers with its own burst; the cent measures that (LTOC)
// and publishes it. The leaf retunes its TX gain until the two powers agree
// on three consecutive exchanges.
module Calibration {
  import opened Common
  import Otac
  import W = Waveforms

  /** max_tx_gain (dB). */
  const MaxTxGain: real := 86.0

  /** total_reps_cal: close exchanges counted before the check passes. */
  const TotalRepsCal: nat := 2

  /** The tolerance of proximity_check on the squared relative distance. */
  const Tolerance: real := 0.005

  /** The lead of the first burst over the device clock: 5 ms. */
  const TxLead: real := 0.005

  // ---------------------------------------------------------------- roles

  datatype Roles = Roles(cent: string, leaf: string)

  /** The constructor's role assignment: "cent" keeps the device as the
      centre, "leaf" makes the counterpart the centre; any other type leaves
      both identifiers empty. */
  function AssignRoles(deviceType: string, deviceId: string, counterpartId: string): (r: Roles)
    ensures deviceType == "cent" ==> r.cent == deviceId && r.leaf == counterpartId
    ensures deviceType == "leaf" ==> r.cent == counterpartId && r.leaf == deviceId
    ensures deviceType != "cent" && deviceType != "leaf" ==> r == Roles("", "")
  {
    if deviceType == "cent" then Roles(deviceId, counterpartId)
    else if deviceType == "leaf" then Roles(counterpartId, deviceId)
    else Roles("", "")
  }

  /** The base names of the MQTT topics, read from the topic configuration. */
  datatype TopicBases = TopicBases(cfo: string, flags: string, ltoc: string, ctol: string,
                                   scale: string, txGain: string, rxGain: string, fullScale: string)

  datatype Topics = Topics(client: string, cfo: string, flags: string, ltoc: string, ctol: string,
                           scale: string, txGain: string, rxGain: string, fullScale: string)

  /** get_mqtt_topics: the client is the device under its role; the flag,
      CTOL, scale and full-scale topics carry the leaf's identifier, the
      LTOC topic the centre's, the CFO topic the client's and the gain
      topics the device's. */
  function MqttTopics(b: TopicBases, deviceType: string, deviceId: string, roles: Roles): (t: Topics)
    ensures deviceType == "leaf" ==> t.client == roles.leaf
    ensures deviceType == "cent" ==> t.client == roles.cent
    ensures deviceType != "cent" && deviceType != "leaf" ==> t.client == ""
  {
    var client := if deviceType == "leaf" then roles.leaf else if deviceType == "cent" then roles.cent else "";
    Topics(client, b.cfo + client, b.flags + roles.leaf, b.ltoc + roles.cent, b.ctol + roles.leaf,
           b.scale + roles.leaf, b.txGain + deviceId, b.rxGain + deviceId, b.fullScale + roles.leaf)
  }

  /** The two ends of a pair, each constructed with its own identifier
      first, agree on the roles and on every shared topic, and each is its
      own MQTT client. */
  lemma PairSharesTopics(b: TopicBases, centDev: string, leafDev: string)
    ensures AssignRoles("cent", centDev, leafDev) == AssignRoles("leaf", leafDev, centDev)
    ensures var c := MqttTopics(b, "cent", centDev, AssignRoles("cent", centDev, leafDev));
            var l := MqttTopics(b, "leaf", leafDev, AssignRoles("leaf", leafDev, centDev));
            c.client == centDev && l.client == leafDev &&
            c.flags == l.flags && c.ltoc == l.ltoc && c.ctol == l.ctol &&
            c.scale == l.scale && c.fullScale == l.fullScale
  {
  }

  // ---------------------------------------------------------------- proximity_check

  /** The test of proximity_check: the squared distance relative to val1²
      is below the tolerance. For val1 = 0 the float quotient is infinite or
      NaN, and neither compares below the tolerance. */
  predicate Close(v1: real, v2: real)
  {
    v1 != 0.0 && Otac.SqRatio(v1, v2) < Tolerance
  }

  /** Close means (v1 − v2)² < 0.005·v1², with v1 ≠ 0. */
  lemma CloseIsRelative(v1: real, v2: real)
    ensures Close(v1, v2) <==> v1 != 0.0 && Square(v1 - v2) < Tolerance * Square(v1)
  {
    if v1 != 0.0 {
      var q := Otac.SqRatio(v1, v2);
      var s := Square(v1);
      SquareNonZero(v1);
      if q < Tolerance {
        Otac.MulLt(q, Tolerance, s);
      } else {
        Otac.MulLe(Tolerance, q, s);
      }
    }
  }

  /** A value is close to itself, unless it is zero. */
  lemma CloseSelf(v: real)
    ensures Close(v, v) <==> v != 0.0
  {
    CloseIsRelative(v, v);
    if v != 0.0 {
      SquareNonZero(v);
    }
  }

  /** The counter current_reps_cal after one call. */
  function RepsAfter(reps: nat, close: bool): nat
  {
    if !close then 0 else if reps < TotalRepsCal then reps + 1 else reps
  }

  /** The result of one call. */
  predicate Passes(reps: nat, close: bool)
  {
    close && reps >= TotalRepsCal
  }

  /** The counter after a run of calls with the given closeness results. */
  function RepsAfterRun(reps: nat, closes: seq<bool>): nat
  {
    if closes == [] then reps
    else RepsAfter(RepsAfterRun(reps, closes[..|closes| - 1]), closes[|closes| - 1])
  }

  /** The number of close results at the end of a run. */
  function Trailing(closes: seq<bool>): (n: nat)
    ensures n <= |closes|
  {
    if closes == [] || !closes[|closes| - 1] then 0 else Trailing(closes[..|closes| - 1]) + 1
  }

  function MinNat(a: nat, b: nat): nat
  {
    if a <= b then a else b
  }

  /** The counter counts the trailing close results, capped at total_reps_cal;
      if every result of the run was close it started from its initial value. */
  lemma {:induction false} RunCounter(reps: nat, closes: seq<bool>)
    requires reps <= TotalRepsCal
    ensures RepsAfterRun(reps, closes) ==
            if Trailing(closes) == |closes| then MinNat(TotalRepsCal, reps + |closes|)
            else MinNat(TotalRepsCal, Trailing(closes))
  {
    if closes != [] {
      RunCounter(reps, closes[..|closes| - 1]);
    }
  }

  /** From a cleared counter, a call passes exactly when it and the
      total_reps_cal calls before it were all close: the third consecutive
      close call is the first to pass. */
  lemma ProximityPassesIffRun(closes: seq<bool>, close: bool)
    ensures Passes(RepsAfterRun(0, closes), close) <==> Trailing(closes + [close]) > TotalRepsCal
  {
    RunCounter(0, closes);
    assert (closes + [close])[..|closes|] == closes;
  }

  // ---------------------------------------------------------------- MQTT payloads

  /** What the JSON library makes of an LTOC payload: unparsable, without a
      "value" key, a value that std::stof or the string conversion rejects,
      or a number. */
  datatype LtocPayload = LtocUnparsable | LtocWithoutValue | LtocNotNumber | LtocValue(v: real)

  /** The same for a flag payload: the value must be a string. */
  datatype FlagPayload = FlagUnparsable | FlagWithoutValue | FlagNotString | FlagValue(s: string)

  /** What the node may have kept under its full-scale topic. */
  datatype StoredScale = NothingStored | StoredNotNumber | StoredValue(v: real)

  // ---------------------------------------------------------------- waveforms

  /** Ref-N-zfc, Ref-m-zfc, Ref-R-zfc and Ref-padding-mul. */
  datatype RefConfig = RefConfig(nZfc: Size, qZfc: Size, repsZfc: Size, paddingMul: int)

  /** `size_t(Ref-padding-mul * N_zfc)`: the int converts to size_t. */
  function RefPadding(cfg: RefConfig): Size
  {
    (cfg.paddingMul * cfg.nZfc) % SizeModulus
  }

  /** The REF burst: the repeated Zadoff-Chu sequence between two paddings. */
  function RefWaveform(cfg: RefConfig, fullScale: real): (r: seq<Complex>)
    ensures cfg.repsZfc > 0 ==> |r| == 2 * RefPadding(cfg) + cfg.repsZfc * cfg.nZfc
    ensures cfg.repsZfc == 0 ==> |r| == 2 * RefPadding(cfg)
  {
    W.LayoutLength(W.Base(W.Zfc, cfg.nZfc, cfg.qZfc, fullScale, 0), cfg.repsZfc, 0, RefPadding(cfg));
    W.Layout(W.Base(W.Zfc, cfg.nZfc, cfg.qZfc, fullScale, 0), cfg.repsZfc, 0, RefPadding(cfg))
  }

  /** The burst after the REF: one unit-circle random sequence of seed 123
      at half scale, as long as the capture; a single copy without gap or
      padding is the sequence itself. */
  function RandWaveform(numSampsSync: Size, halfScale: real): (r: seq<Complex>)
    ensures r == W.UnitCircleRandom(123, numSampsSync, halfScale)
    ensures |r| == numSampsSync
  {
    var base := W.Base(W.UnitRand, numSampsSync, 1, halfScale, 123);
    assert W.Body(base, 1, 0, 1) == base;
    assert W.Layout(base, 1, 0, 0) == base;
    W.Layout(base, 1, 0, 0)
  }

  /** Scaling by 1.0 changes no sample, so the `scale != 1.0` test of
      transmit_waveform only saves work. */
  lemma ScaleByOne(s: seq<Complex>)
    ensures ScaleAll(s, 1.0) == s
  {
    assert forall i :: 0 <= i < |s| ==> ScaleAll(s, 1.0)[i] == s[i];
  }

  /** `for (auto &elem : v) elem *= scale`. */
  method ScaleInPlace(a: array<Complex>, k: real)
    modifies a
    ensures a[..] == ScaleAll(old(a[..]), k)
  {
    var i := 0;
    while i < a.Length
      invariant 0 <= i <= a.Length
      invariant forall j :: 0 <= j < i ==> a[j] == Scale(old(a[j]), k)
      invariant forall j :: i <= j < a.Length ==> a[j] == old(a[j])
    {
      a[i] := Scale(a[i], k);
      i := i + 1;
    }
  }

  /** A copy of a waveform, scaled in place. */
  method ScaledCopy(s: seq<Complex>, k: real) returns (r: seq<Complex>)
    ensures r == ScaleAll(s, k)
  {
    var a := new Complex[|s|](i requires 0 <= i < |s| => s[i]);
    assert a[..] == s;
    ScaleInPlace(a, k);
    r := a[..];
  }

  // ---------------------------------------------------------------- leaf gain step

  /** `std::ceil(g * 2) / 2`: g rounded up to the half-decibel grid. */
  function HalfDbCeil(g: real): (r: real)
    ensures g <= r < g + 0.5
    ensures (2.0 * r).Floor as real == 2.0 * r
  {
    var c := Ceil(2.0 * g);
    assert 2.0 * (c as real / 2.0) == c as real;
    c as real / 2.0
  }

  /** The TX gain that would make the centre receive the leaf as strongly
      as the leaf receives the centre: the current gain plus the dB gap
      between the two measured powers, each normalised by half_scale². */
  function NewTxGain(ctol: real, ltoc: real, halfScale: real, txGain: real): real
    requires halfScale != 0.0
  {
    SquareNonZero(halfScale);
    ToDecibel(ctol / Square(halfScale), true) - ToDecibel(ltoc / Square(halfScale), true) + txGain
  }

  /** `if (full_scale > 2.0) full_scale = 1.0`. */
  function CapScale(s: real): real
  {
    if s > 2.0 then 1.0 else s
  }

  /** One step of the leaf: past the TX limit it pins TX at the limit and
      moves the RX gain by the deficit, rounded up; otherwise it sets the
      rounded TX gain and makes up the remainder with the amplitude scale. */
  datatype GainStep = Retransmit(tx: real, rx: real) | Retuned(tx: real, scale: real)

  /** The step from the requested TX gain `newTx` and the gains `tx`,
      `rx` held in `usrp_obj`. The remainder is `newTx` minus
      `usrp_obj->tx_gain` read after set_tx_gain. As written (`fixed`
      false) set_tx_gain stores the gain it sets in a local and leaves the
      member alone, so the remainder is taken from the old gain `tx`; with
      `fixed` the member holds the rounded gain just set. */
  function LeafGainStep(newTx: real, tx: real, rx: real, fixed: bool): (r: GainStep)
    ensures r.Retransmit? <==> newTx > MaxTxGain
    ensures r.Retransmit? ==> r.tx == MaxTxGain && r.rx.Floor as real == r.rx &&
                              rx + (MaxTxGain - newTx) <= r.rx < rx + (MaxTxGain - newTx) + 1.0
    ensures r.Retuned? ==> newTx <= r.tx < newTx + 0.5 && r.tx <= MaxTxGain && (2.0 * r.tx).Floor as real == 2.0 * r.tx
    ensures r.Retuned? ==> r.scale == CapScale(FromDecibel(newTx - (if fixed then r.tx else tx), false))
  {
    var impl := HalfDbCeil(newTx);
    if impl > MaxTxGain then
      assert 2.0 * impl > 172.0;
      Retransmit(MaxTxGain, Ceil(rx + (MaxTxGain - newTx)) as real)
    else
      var member := if fixed then impl else tx;
      Retuned(impl, CapScale(FromDecibel(newTx - member, false)))
  }

  /** Past the limit the RX gain goes down, never up: the deficit is
      positive, so the rounded-up RX gain stays below the old one plus one,
      and at or below it when the old gain is a whole number of decibels. */
  lemma RetransmitLowersRx(newTx: real, tx: real, rx: real, fixed: bool)
    requires newTx > MaxTxGain
    ensures LeafGainStep(newTx, tx, rx, fixed).rx < rx + 1.0
    ensures rx.Floor as real == rx ==> LeafGainStep(newTx, tx, rx, fixed).rx <= rx
  {
    var r := LeafGainStep(newTx, tx, rx, fixed).rx;
    if rx.Floor as real == rx {
      assert r.Floor < rx.Floor + 1;
    }
  }

  /** With set_tx_gain storing the gain: below the limit, for a decibel map
      that inverts 10^x and a 10^x that stays at or below one for
      non-positive exponents, the amplitude scale is at most one (the cap
      at 2.0 never fires) and the rounded TX gain plus the scale in
      decibels is exactly the requested gain. */
  lemma RetunedMatchesRequest(newTx: real, tx: real, rx: real)
    requires forall x :: Log10(Pow10(x)) == x
    requires forall x :: x <= 0.0 ==> Pow10(x) <= 1.0
    requires newTx <= MaxTxGain
    ensures LeafGainStep(newTx, tx, rx, true).scale <= 1.0
    ensures LeafGainStep(newTx, tx, rx, true).tx + ToDecibel(LeafGainStep(newTx, tx, rx, true).scale, false) == newTx
  {
    var r := LeafGainStep(newTx, tx, rx, true);
    var d := newTx - r.tx;
    assert d / 20.0 <= 0.0;
    assert Pow10(d / 20.0) <= 1.0;
    assert r.scale == Pow10(d / 20.0);
    assert Log10(Pow10(d / 20.0)) == d / 20.0;
  }

  /** As written, when the cap does not fire, the scale makes up the whole
      gap `newTx − tx` although the TX gain has also moved from `tx` to the
      rounded gain: the gain actually sent overshoots the request by that
      move. */
  lemma StaleTxGainDoubleCounts(newTx: real, tx: real, rx: real)
    requires forall x :: Log10(Pow10(x)) == x
    requires newTx <= MaxTxGain && FromDecibel(newTx - tx, false) <= 2.0
    ensures var r := LeafGainStep(newTx, tx, rx, false);
            r.tx + ToDecibel(r.scale, false) == newTx + (r.tx - tx)
  {
    var r := LeafGainStep(newTx, tx, rx, false);
    var d := newTx - tx;
    assert r.scale == Pow10(d / 20.0);
    assert Log10(Pow10(d / 20.0)) == d / 20.0;
  }

  /** A member gain of 50 dB and a requested 56.3 dB: the TX gain goes to
      56.5 dB either way, but as written the scale is 10^(6.3/20), above 2,
      and is reset to 1, while with the member stored it is 10^(−0.2/20). */
  lemma StaleTxGainExample(rx: real)
    requires Pow10(0.315) > 2.0
    requires forall x :: x <= 0.0 ==> Pow10(x) <= 1.0
    ensures LeafGainStep(56.3, 50.0, rx, false) == Retuned(56.5, 1.0)
    ensures LeafGainStep(56.3, 50.0, rx, true) == Retuned(56.5, Pow10(-0.01))
  {
    var impl := HalfDbCeil(56.3);
    assert 112.6 < 2.0 * impl < 113.6;
    assert (2.0 * impl).Floor == 113;
    assert impl == 56.5;
    assert (56.3 - 50.0) / 20.0 == 0.315;
    assert (56.3 - 56.5) / 20.0 == -0.01;
  }

  // ---------------------------------------------------------------- the node

  class Calibration {
    var deviceId: string
    var counterpartId: string
    var deviceType: string
    var centId: string
    var leafId: string
    /** max_rx_packet_size · 50: the length of the capture after the REF. */
    var numSampsSync: Size
    /** start-tx-wait-microsec: the gap between the two bursts. */
    var txRandWaitMicrosec: Size
    var refWaveform: seq<Complex>
    var randWaveform: seq<Complex>
    var fullScale: real
    var csdSuccessFlag: bool
    var calibrationSuccessful: bool
    var calibrationEnds: bool
    var recvSuccess: bool
    var recvFlag: bool
    var retxFlag: bool
    var endFlag: bool
    var currentRepsCal: nat
    var ltoc: real
    var ctol: real
    /** usrp_obj->tx_gain and rx_gain: the gains read back when the USRP
        was set up. As written set_tx_gain and set_rx_gain leave them
        alone. */
    var txGain: real
    var rxGain: real
    /** The gains the radio is set to. */
    var radioTxGain: real
    var radioRxGain: real
    var txRate: real

    /** Calibration(...): the roles, the capture length (a size_t product)
        and the burst gap (a float truncated to size_t); the other fields
        take their declared defaults. */
    constructor(deviceId: string, counterpartId: string, deviceType: string, maxRxPacketSize: Size,
                startTxWaitMicrosec: real, txGain: real, rxGain: real, txRate: real)
      requires 0.0 <= startTxWaitMicrosec < SizeModulus as real
      ensures this.deviceId == deviceId && this.counterpartId == counterpartId && this.deviceType == deviceType
      ensures Roles(centId, leafId) == AssignRoles(deviceType, deviceId, counterpartId)
      ensures numSampsSync == (maxRxPacketSize * 50) % SizeModulus
      ensures txRandWaitMicrosec == startTxWaitMicrosec.Floor
      ensures refWaveform == [] && randWaveform == []
      ensures fullScale == 1.0 && !recvSuccess && !recvFlag && !retxFlag && !endFlag && currentRepsCal == 0
      ensures this.txGain == txGain && this.rxGain == rxGain && this.txRate == txRate
      ensures radioTxGain == txGain && radioRxGain == rxGain
    {
      this.deviceId := deviceId;
      this.counterpartId := counterpartId;
      this.deviceType := deviceType;
      var roles := AssignRoles(deviceType, deviceId, counterpartId);
      centId := roles.cent;
      leafId := roles.leaf;
      numSampsSync := (maxRxPacketSize * 50) % SizeModulus;
      txRandWaitMicrosec := startTxWaitMicrosec.Floor;
      refWaveform := [];
      randWaveform := [];
      fullScale := 1.0;
      recvSuccess := false;
      recvFlag := false;
      retxFlag := false;
      endFlag := false;
      currentRepsCal := 0;
      this.txGain := txGain;
      this.rxGain := rxGain;
      radioTxGain := txGain;
      radioRxGain := rxGain;
      this.txRate := txRate;
    }

    /** generate_waveform: the REF burst at the current full scale and the
        random burst at half scale, both from the waveform generator. */
    method GenerateWaveform(cfg: RefConfig, halfScale: real)
      modifies this`refWaveform, this`randWaveform
      ensures refWaveform == RefWaveform(cfg, fullScale)
      ensures randWaveform == RandWaveform(numSampsSync, halfScale)
    {
      var gen := new W.WaveformGenerator();
      gen.Initialize(W.Zfc, cfg.nZfc, cfg.repsZfc, 0, RefPadding(cfg), cfg.qZfc, fullScale, 0);
      refWaveform := gen.GenerateWaveform();
      gen.Initialize(W.UnitRand, numSampsSync, 1, 0, 0, 1, halfScale, 123);
      randWaveform := gen.GenerateWaveform();
    }

    /** initialize: clears the success and end flags, marks both powers as
        not yet measured (−1), builds the waveforms and, on a leaf, takes the
        full scale kept under its topic. A kept value std::stof rejects
        throws, which initialize reports as failure. */
    method Initialize(cfg: RefConfig, halfScale: real, stored: StoredScale) returns (ok: bool)
      modifies this`csdSuccessFlag, this`calibrationSuccessful, this`calibrationEnds, this`ltoc, this`ctol
      modifies this`refWaveform, this`randWaveform, this`fullScale
      ensures !csdSuccessFlag && !calibrationSuccessful && !calibrationEnds
      ensures ltoc == -1.0 && ctol == -1.0
      ensures refWaveform == RefWaveform(cfg, old(fullScale))
      ensures randWaveform == RandWaveform(numSampsSync, halfScale)
      ensures ok <==> !(deviceType == "leaf" && stored.StoredNotNumber?)
      ensures fullScale == if deviceType == "leaf" && stored.StoredValue? then stored.v else old(fullScale)
    {
      csdSuccessFlag := false;
      calibrationSuccessful := false;
      calibrationEnds := false;
      ltoc, ctol := -1.0, -1.0;
      GenerateWaveform(cfg, halfScale);
      if deviceType == "leaf" {
        match stored {
          case NothingStored =>
          case StoredNotNumber =>
            return false;
          case StoredValue(v) =>
            fullScale := v;
        }
      }
      ok := true;
    }

    /** proximity_check: a close pair advances the counter until it reaches
        total_reps_cal, and only then passes; any other pair clears it. */
    method ProximityCheck(val1: real, val2: real) returns (passed: bool)
      modifies this`currentRepsCal
      ensures passed == Passes(old(currentRepsCal), Close(val1, val2))
      ensures currentRepsCal == RepsAfter(old(currentRepsCal), Close(val1, val2))
    {
      if val1 != 0.0 && Otac.SqRatio(val1, val2) < Tolerance {
        if currentRepsCal < TotalRepsCal {
          currentRepsCal := currentRepsCal + 1;
          return false;
        } else {
          return true;
        }
      } else {
        currentRepsCal := 0;
        return false;
      }
    }

    /** callback_update_ltoc: a numeric value becomes the LTOC and marks a
        reception; once the CTOL is measured the pair goes through the
        proximity check, whose pass marks the calibration successful. The
        flag is never cleared here. A value the conversion rejects throws
        out of the callback; a parse error or a payload without a value
        changes nothing. */
    method CallbackUpdateLtoc(payload: LtocPayload) returns (st: Status)
      modifies this`ltoc, this`recvSuccess, this`calibrationSuccessful, this`currentRepsCal
      ensures st == Threw <==> payload.LtocNotNumber?
      ensures st != Exited
      ensures !payload.LtocValue? ==>
                ltoc == old(ltoc) && recvSuccess == old(recvSuccess) &&
                calibrationSuccessful == old(calibrationSuccessful) && currentRepsCal == old(currentRepsCal)
      ensures payload.LtocValue? ==> ltoc == payload.v && recvSuccess
      ensures payload.LtocValue? && ctol < 0.0 ==>
                calibrationSuccessful == old(calibrationSuccessful) && currentRepsCal == old(currentRepsCal)
      ensures payload.LtocValue? && ctol >= 0.0 ==>
                currentRepsCal == RepsAfter(old(currentRepsCal), Close(ctol, payload.v)) &&
                calibrationSuccessful == (old(calibrationSuccessful) || Passes(old(currentRepsCal), Close(ctol, payload.v)))
      ensures old(calibrationSuccessful) ==> calibrationSuccessful
    {
      match payload {
        case LtocUnparsable =>
          return Returned;
        case LtocWithoutValue =>
          return Returned;
        case LtocNotNumber =>
          return Threw;
        case LtocValue(v) =>
          ltoc := v;
          recvSuccess := true;
          if ctol >= 0.0 {
            var passed := ProximityCheck(ctol, ltoc);
            if passed {
              calibrationSuccessful := true;
            }
          }
          return Returned;
      }
    }

    /** callback_detect_flags: "recv", "retx" and "end" raise their flag and
        nothing else; no flag is ever lowered here. A value that is not a
        string throws out of the callback. */
    method CallbackDetectFlags(payload: FlagPayload) returns (st: Status)
      modifies this`recvFlag, this`retxFlag, this`endFlag
      ensures st == Threw <==> payload.FlagNotString?
      ensures st != Exited
      ensures recvFlag == (old(recvFlag) || payload == FlagValue("recv"))
      ensures retxFlag == (old(retxFlag) || payload == FlagValue("retx"))
      ensures endFlag == (old(endFlag) || payload == FlagValue("end"))
    {
      match payload {
        case FlagUnparsable =>
          return Returned;
        case FlagWithoutValue =>
          return Returned;
        case FlagNotString =>
          return Threw;
        case FlagValue(s) =>
          if s == "recv" {
            recvFlag := true;
          } else if s == "retx" {
            retxFlag := true;
          } else if s == "end" {
            endFlag := true;
          }
          return Returned;
      }
    }

    /** The members mirror the radio's gains. */
    predicate GainsInSync()
      reads this`txGain, this`rxGain, this`radioTxGain, this`radioRxGain
    {
      txGain == radioTxGain && rxGain == radioRxGain
    }

    /** USRP_class::set_tx_gain: the radio takes the gain; as written the
        gain read back goes to a local, and with `fixed` to the member. */
    method SetTxGain(g: real, fixed: bool)
      modifies this`radioTxGain, this`txGain
      ensures radioTxGain == g
      ensures txGain == if fixed then g else old(txGain)
    {
      radioTxGain := g;
      if fixed {
        txGain := g;
      }
    }

    /** USRP_class::set_rx_gain, in the same way. */
    method SetRxGain(g: real, fixed: bool)
      modifies this`radioRxGain, this`rxGain
      ensures radioRxGain == g
      ensures rxGain == if fixed then g else old(rxGain)
    {
      radioRxGain := g;
      if fixed {
        rxGain := g;
      }
    }

    /** The gain block of producer_leaf, run when an LTOC has arrived since
        the last step. `retx` stands for publishing "retx" and leaving the
        transmit loop. The requested gain and the remainder are computed
        from the member gains, which as written stay at their initial
        values; with `fixed` the members follow the radio. */
    method LeafGainUpdate(halfScale: real, fixed: bool) returns (retx: bool)
      requires halfScale != 0.0
      modifies this`txGain, this`rxGain, this`radioTxGain, this`radioRxGain, this`fullScale, this`recvSuccess
      ensures !(ltoc > 0.0 && old(recvSuccess)) ==>
                !retx && txGain == old(txGain) && rxGain == old(rxGain) &&
                radioTxGain == old(radioTxGain) && radioRxGain == old(radioRxGain) &&
                fullScale == old(fullScale) && recvSuccess == old(recvSuccess)
      ensures ltoc > 0.0 && old(recvSuccess) ==>
                var step := LeafGainStep(NewTxGain(ctol, ltoc, halfScale, old(txGain)), old(txGain), old(rxGain), fixed);
                !recvSuccess && retx == step.Retransmit? && radioTxGain == step.tx &&
                (step.Retransmit? ==> radioRxGain == step.rx && fullScale == old(fullScale)) &&
                (step.Retuned? ==> radioRxGain == old(radioRxGain) && fullScale == step.scale)
      ensures !fixed ==> txGain == old(txGain) && rxGain == old(rxGain)
      ensures fixed && old(GainsInSync()) ==> GainsInSync()
    {
      retx := false;
      if ltoc > 0.0 && recvSuccess {
        var remainderGain := 0.0;
        var newTxGain := NewTxGain(ctol, ltoc, halfScale, txGain);
        var implTxGain := HalfDbCeil(newTxGain);
        if implTxGain > MaxTxGain {
          var newRxGain := rxGain + (MaxTxGain - newTxGain);
          var implRxGain := Ceil(newRxGain) as real;
          SetRxGain(implRxGain, fixed);
          newTxGain := MaxTxGain;
          SetTxGain(newTxGain, fixed);
          recvSuccess := false;
          return true;
        } else {
          SetTxGain(implTxGain, fixed);
          recvSuccess := false;
          remainderGain := newTxGain - txGain;
        }
        fullScale := FromDecibel(remainderGain, false);
        if fullScale > 2.0 {
          fullScale := 1.0;
        }
      }
    }

    /** transmit_waveform: scaled copies of both bursts (the stored ones
        stay as they are), the REF 5 ms after `now` and the random burst the
        configured gap after the REF has ended. */
    method TransmitWaveform(scale: real, now: real)
      returns (txRef: seq<Complex>, txRand: seq<Complex>, txTime: real, txTimeNext: real)
      requires txRate != 0.0
      ensures txRef == ScaleAll(refWaveform, scale) && txRand == ScaleAll(randWaveform, scale)
      ensures txTime == now + TxLead
      ensures txTimeNext - (txTime + |refWaveform| as real / txRate) == txRandWaitMicrosec as real / 1000000.0
    {
      txRef := refWaveform;
      txRand := randWaveform;
      if scale != 1.0 {
        txRef := ScaledCopy(txRef, scale);
        txRand := ScaledCopy(txRand, scale);
      } else {
        ScaleByOne(refWaveform);
        ScaleByOne(randWaveform);
      }
      txTime := now + TxLead;
      txTimeNext := txTime + (txRandWaitMicrosec as real / 1000000.0 + |refWaveform| as real / txRate);
    }
  }
}
