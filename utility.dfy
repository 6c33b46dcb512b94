// Helpers of lib_utils/utility.cpp: magnitude and power statistics, the
// closest-gain lookup in a power-calibration table, the devices.json
// read-modify-write, the active-leaf listing, CFO pre-rotation and phase
// unwrapping.
module Utility {
  import opened Common
  import Text

  // ---------------------------------------------------------------- findMaxAbsValue

  /** findMaxAbsValue: the largest magnitude, starting from 0. */
  method FindMaxAbsValue(vec: seq<Complex>) returns (m: real)
    ensures m >= 0.0
    ensures forall i :: 0 <= i < |vec| ==> Mag(vec[i]) <= m
    ensures m == 0.0 || exists i :: 0 <= i < |vec| && m == Mag(vec[i])
    ensures vec == [] ==> m == 0.0
  {
    m := 0.0;
    var i := 0;
    while i < |vec|
      invariant 0 <= i <= |vec|
      invariant m >= 0.0
      invariant forall k :: 0 <= k < i ==> Mag(vec[k]) <= m
      invariant m == 0.0 || exists k :: 0 <= k < i && m == Mag(vec[k])
    {
      var a := Mag(vec[i]);
      if a > m {
        m := a;
      }
      i := i + 1;
    }
  }

  // ---------------------------------------------------------------- meanAbsoluteValue

  /** A magnitude meanAbsoluteValue keeps: all of them when the bound is not
      positive, else those not below the bound. */
  predicate KeptAbs(a: real, lowerBound: real)
  {
    !(lowerBound > 0.0 && a < lowerBound)
  }

  function KeptAbsSum(vec: seq<Complex>, lowerBound: real): real
  {
    if vec == [] then 0.0
    else KeptAbsSum(vec[..|vec| - 1], lowerBound)
         + (if KeptAbs(Mag(vec[|vec| - 1]), lowerBound) then Mag(vec[|vec| - 1]) else 0.0)
  }

  function KeptAbsCount(vec: seq<Complex>, lowerBound: real): nat
  {
    if vec == [] then 0
    else KeptAbsCount(vec[..|vec| - 1], lowerBound) + (if KeptAbs(Mag(vec[|vec| - 1]), lowerBound) then 1 else 0)
  }

  /** meanAbsoluteValue: the mean of the kept magnitudes, 0 when none is kept. */
  method MeanAbsoluteValue(vec: seq<Complex>, lowerBound: real) returns (r: real)
    ensures KeptAbsCount(vec, lowerBound) == 0 ==> r == 0.0
    ensures KeptAbsCount(vec, lowerBound) > 0 ==>
              r == KeptAbsSum(vec, lowerBound) / KeptAbsCount(vec, lowerBound) as real
  {
    var sum := 0.0;
    var counter := 0;
    var i := 0;
    while i < |vec|
      invariant 0 <= i <= |vec|
      invariant sum == KeptAbsSum(vec[..i], lowerBound)
      invariant counter == KeptAbsCount(vec[..i], lowerBound)
    {
      assert vec[..i + 1][..i] == vec[..i];
      var a := Mag(vec[i]);
      if lowerBound > 0.0 && a < lowerBound {
        i := i + 1;
        continue;
      }
      sum := sum + a;
      counter := counter + 1;
      i := i + 1;
    }
    assert vec[..|vec|] == vec;
    r := if counter == 0 then 0.0 else sum / counter as real;
  }

  /** With a positive bound, every kept magnitude is at least the bound, so
      their sum is at least `bound` times their number: the mean returned is
      at least the bound whenever something was kept. */
  lemma {:induction false} KeptAbsSumAtLeast(vec: seq<Complex>, lowerBound: real)
    requires lowerBound > 0.0
    ensures KeptAbsSum(vec, lowerBound) >= lowerBound * KeptAbsCount(vec, lowerBound) as real
  {
    if vec != [] {
      KeptAbsSumAtLeast(vec[..|vec| - 1], lowerBound);
    }
  }

  lemma MeanAbsoluteAtLeastBound(vec: seq<Complex>, lowerBound: real)
    requires lowerBound > 0.0 && KeptAbsCount(vec, lowerBound) > 0
    ensures KeptAbsSum(vec, lowerBound) / KeptAbsCount(vec, lowerBound) as real >= lowerBound
  {
    KeptAbsSumAtLeast(vec, lowerBound);
    var n := KeptAbsCount(vec, lowerBound) as real;
    var s := KeptAbsSum(vec, lowerBound);
    assert s / n * n == s;
  }

  // ---------------------------------------------------------------- meanSquareValue

  /** The norms meanSquareValue adds up over [start, i): those not below a
      positive bound. */
  function KeptNormSum(vec: seq<Complex>, start: nat, i: nat, lowerBound: real): real
    requires start <= i <= |vec|
    decreases i - start
  {
    if i == start then 0.0
    else KeptNormSum(vec, start, i - 1, lowerBound)
         + (if lowerBound > 0.0 && Norm(vec[i - 1]) < lowerBound then 0.0 else Norm(vec[i - 1]))
  }

  /** meanSquareValue: the kept norms of [start, end) divided by the whole
      range length `end - start` in size_t (which wraps when end < start; an
      empty range divides by zero). */
  method MeanSquareValue(vec: seq<Complex>, start: Size, end: Size, lowerBound: real) returns (r: Ext)
    requires end <= |vec|
    ensures start < end ==> r == Fin(KeptNormSum(vec, start, end, lowerBound) / (end - start) as real)
    ensures start == end ==> r == NonFinite
    ensures start > end ==> r == Fin(0.0)
  {
    var sum := 0.0;
    var i := start;
    while i < end
      invariant start <= end ==> start <= i <= end
      invariant start > end ==> i == start
      invariant start <= end ==> sum == KeptNormSum(vec, start, i, lowerBound)
      invariant start > end ==> sum == 0.0
      decreases end - i
    {
      var sq := Norm(vec[i]);
      if lowerBound > 0.0 && sq < lowerBound {
        i := i + 1;
        continue;
      }
      sum := sum + sq;
      i := i + 1;
    }
    r := Div(sum, SizeSub(end, start) as real);
  }

  /** Skipping a norm still counts it in the divisor, so the bound can only
      lower the result below the plain mean square. */
  lemma {:induction false} KeptNormSumAtMost(vec: seq<Complex>, start: nat, i: nat, lowerBound: real)
    requires start <= i <= |vec|
    ensures KeptNormSum(vec, start, i, lowerBound) <= KeptNormSum(vec, start, i, 0.0)
    ensures KeptNormSum(vec, start, i, lowerBound) >= 0.0
    decreases i - start
  {
    if i > start {
      KeptNormSumAtMost(vec, start, i - 1, lowerBound);
    }
  }

  /** calc_signal_power: a zero length means "to the end", computed in
      size_t so that `start + (size - start)` is always the size. */
  method CalcSignalPower(signal: seq<Complex>, start: Size, length: Size, minPower: real) returns (r: Ext)
    requires |signal| < SizeModulus
    requires length != 0 ==> start + length <= |signal|
    ensures length == 0 && start < |signal| ==>
              r == Fin(KeptNormSum(signal, start, |signal|, minPower) / (|signal| - start) as real)
    ensures length != 0 ==> r == Fin(KeptNormSum(signal, start, start + length, minPower) / length as real)
    ensures length == 0 && start > |signal| ==> r == Fin(0.0)
    ensures length == 0 && start == |signal| ==> r == NonFinite
  {
    var L: Size := if length == 0 then SizeSub(|signal|, start) else length;
    var end: Size := SizeAdd(start, L);
    if length != 0 {
      assert end == start + length;
    } else if start <= |signal| {
      assert end == |signal| && end - start == |signal| - start;
    } else {
      assert L == |signal| - start + SizeModulus;
      assert end == |signal|;
    }
    r := MeanSquareValue(signal, start, end, minPower);
  }

  // ---------------------------------------------------------------- find_closest_gain

  /** One entry of a frequency's "powers" array. */
  datatype PowerEntry = PowerEntry(gain: real, powerDbm: real)

  /** One entry of `temp_freq_map[0].freqs`. */
  datatype FreqEntry = FreqEntry(freq: real, powers: seq<PowerEntry>)

  const FltMax: real := 340282346638528859811704183484516925440.0

  function AbsReal(x: real): real
  {
    if x < 0.0 then -x else x
  }

  /** The index of the first frequency entry within 1 kHz of the input. */
  function FirstFreq(freqs: seq<FreqEntry>, f: real): (r: Option<nat>)
    ensures r.Some? ==> r.value < |freqs| && AbsReal(freqs[r.value].freq - f) < 1000.0
                        && forall j :: 0 <= j < r.value ==> AbsReal(freqs[j].freq - f) >= 1000.0
    ensures r.None? ==> forall j :: 0 <= j < |freqs| ==> AbsReal(freqs[j].freq - f) >= 1000.0
  {
    if freqs == [] then None
    else if AbsReal(freqs[0].freq - f) < 1000.0 then Some(0)
    else match FirstFreq(freqs[1..], f)
         case None => None
         case Some(k) => Some(k + 1)
  }

  /** The first power entry with the smallest distance to the input power. */
  predicate FirstClosest(ps: seq<PowerEntry>, p: real, k: nat)
  {
    k < |ps|
    && (forall j :: 0 <= j < |ps| ==> AbsReal(p - ps[k].powerDbm) <= AbsReal(p - ps[j].powerDbm))
    && (forall j :: 0 <= j < k ==> AbsReal(p - ps[k].powerDbm) < AbsReal(p - ps[j].powerDbm))
  }

  /** find_closest_gain: (-100, -100) when the file cannot be opened, when no
      frequency entry is within 1 kHz, or when that entry lists no powers;
      otherwise the gain and power of the first closest entry of the first
      matching frequency. */
  method FindClosestGain(file: Option<seq<FreqEntry>>, inputPowerDbm: real, inputFreq: real)
    returns (gain: real, powerDbm: real)
    requires file.Some? ==> forall e, q :: e in file.value && q in e.powers ==> AbsReal(inputPowerDbm - q.powerDbm) < FltMax
    ensures file.None? ==> gain == -100.0 && powerDbm == -100.0
    ensures file.Some? && FirstFreq(file.value, inputFreq).None? ==> gain == -100.0 && powerDbm == -100.0
    ensures file.Some? && FirstFreq(file.value, inputFreq).Some? ==>
              var ps := file.value[FirstFreq(file.value, inputFreq).value].powers;
              (ps == [] ==> gain == -100.0 && powerDbm == -100.0)
              && (ps != [] ==> exists k: nat :: FirstClosest(ps, inputPowerDbm, k) && gain == ps[k].gain && powerDbm == ps[k].powerDbm)
  {
    if file.None? {
      return -100.0, -100.0;
    }
    var freqs := file.value;
    gain, powerDbm := -100.0, -100.0;
    var minDiff := FltMax;
    var i := 0;
    while i < |freqs|
      invariant 0 <= i <= |freqs|
      invariant forall j :: 0 <= j < i ==> AbsReal(freqs[j].freq - inputFreq) >= 1000.0
      invariant gain == -100.0 && powerDbm == -100.0
    {
      if AbsReal(freqs[i].freq - inputFreq) < 1000.0 {
        assert FirstFreq(freqs, inputFreq) == Some(i) by { FirstFreqIs(freqs, inputFreq, i); }
        var ps := freqs[i].powers;
        var k := 0;
        ghost var best := 0;
        while k < |ps|
          invariant 0 <= k <= |ps|
          invariant k == 0 ==> gain == -100.0 && powerDbm == -100.0 && minDiff == FltMax
          invariant k > 0 ==> best < k && gain == ps[best].gain && powerDbm == ps[best].powerDbm
                              && minDiff == AbsReal(inputPowerDbm - ps[best].powerDbm)
                              && (forall j :: 0 <= j < k ==> minDiff <= AbsReal(inputPowerDbm - ps[j].powerDbm))
                              && (forall j :: 0 <= j < best ==> minDiff < AbsReal(inputPowerDbm - ps[j].powerDbm))
        {
          var diff := AbsReal(inputPowerDbm - ps[k].powerDbm);
          assert ps[k] in freqs[i].powers;
          if diff < minDiff {
            minDiff := diff;
            gain := ps[k].gain;
            powerDbm := ps[k].powerDbm;
            best := k;
          }
          k := k + 1;
        }
        if ps != [] {
          assert FirstClosest(ps, inputPowerDbm, best);
        }
        return;
      }
      i := i + 1;
    }
  }

  lemma FirstFreqIs(freqs: seq<FreqEntry>, f: real, i: nat)
    requires i < |freqs| && AbsReal(freqs[i].freq - f) < 1000.0
    requires forall j :: 0 <= j < i ==> AbsReal(freqs[j].freq - f) >= 1000.0
    ensures FirstFreq(freqs, f) == Some(i)
  {
  }

  // ---------------------------------------------------------------- devices.json

  datatype Json = JNull | JNumber(x: real) | JString(s: string) | JBool(b: bool) | JCompound

  /** One device entry of devices.json: its "type" and its "config" object
      (the other members are not read or changed here). */
  datatype Device = Device(dtype: Json, config: map<string, Json>)

  type Devices = map<string, Device>

  /** saveDeviceConfig on the parsed file (`None`: reading or parsing
      failed). The result is whether it succeeded and what the file holds
      afterwards; `writable` says whether opening the file for writing works. */
  function SaveDeviceConfig(file: Option<Devices>, writable: bool, id: string, key: string, value: Json)
    : (r: (bool, Option<Devices>))
    ensures !r.0 ==> r.1 == file
    ensures r.0 <==> file.Some? && id in file.value && key in file.value[id].config && writable
    ensures r.0 ==> r.1.Some? && r.1.value.Keys == file.value.Keys
                    && (forall d :: d in file.value && d != id ==> r.1.value[d] == file.value[d])
                    && r.1.value[id].dtype == file.value[id].dtype
                    && r.1.value[id].config == file.value[id].config[key := value]
  {
    if file.None? then (false, file)
    else if id !in file.value then (false, file)
    else if key !in file.value[id].config then (false, file)
    else if !writable then (false, file)
    else
      var dev := file.value[id];
      (true, Some(file.value[id := dev.(config := dev.config[key := value])]))
  }

  /** readDeviceConfig, float overload: fails on the same three guards as
      saveDeviceConfig and also when the stored value is neither a number nor
      a boolean (a JSON library converts a boolean to 1 or 0 as a float). */
  function ReadDeviceConfigFloat(file: Option<Devices>, id: string, key: string): (r: Option<real>)
    ensures r.Some? <==> file.Some? && id in file.value && key in file.value[id].config
                         && (file.value[id].config[key].JNumber? || file.value[id].config[key].JBool?)
    ensures r.Some? && file.value[id].config[key].JNumber? ==> r.value == file.value[id].config[key].x
    ensures r.Some? && file.value[id].config[key].JBool?
            ==> r.value == (if file.value[id].config[key].b then 1.0 else 0.0)
  {
    if file.None? || id !in file.value || key !in file.value[id].config then None
    else match file.value[id].config[key]
         case JNumber(x) => Some(x)
         case JBool(b) => Some(if b then 1.0 else 0.0)
         case _ => None
  }

  /** readDeviceConfig, JSON overload: any stored value. */
  function ReadDeviceConfigJson(file: Option<Devices>, id: string, key: string): (r: Option<Json>)
    ensures r.Some? <==> file.Some? && id in file.value && key in file.value[id].config
    ensures r.Some? ==> r.value == file.value[id].config[key]
  {
    if file.None? || id !in file.value || key !in file.value[id].config then None
    else Some(file.value[id].config[key])
  }

  /** What is saved is what is read back, and no other entry changes. */
  lemma SaveThenRead(file: Option<Devices>, id: string, key: string, value: Json, id2: string, key2: string)
    requires SaveDeviceConfig(file, true, id, key, value).0
    ensures ReadDeviceConfigJson(SaveDeviceConfig(file, true, id, key, value).1, id, key) == Some(value)
    ensures (id2, key2) != (id, key) ==>
              ReadDeviceConfigJson(SaveDeviceConfig(file, true, id, key, value).1, id2, key2)
              == ReadDeviceConfigJson(file, id2, key2)
  {
  }

  /** `device_id.compare(0, 2, "32") == 0`. */
  predicate IsLeafId(id: string)
  {
    |id| >= 2 && id[..2] == "32"
  }

  predicate IsActiveLeaf(id: string, d: Device)
  {
    IsLeafId(id) && d.dtype == JString("leaf")
  }

  /** listActiveDevices: appends (without clearing) the ids starting with
      "32" whose type is "leaf", in key order; an unreadable file gives
      false and appends nothing. `get<std::string>()` on a type that is not
      a string (a missing one reads as null) throws. */
  method ListActiveDevices(file: Option<Devices>, deviceIds: seq<string>) returns (r: Outcome<bool>, out: seq<string>)
    ensures file.None? ==> r == Ok(false) && out == deviceIds
    ensures r == Throw <==> file.Some? && exists id :: id in file.value && IsLeafId(id) && !file.value[id].dtype.JString?
    ensures r.Ok? && file.Some? ==>
              r.value && |deviceIds| <= |out| && out[..|deviceIds|] == deviceIds
              && ListedSoFar(file.value, {}, out[|deviceIds|..])
  {
    if file.None? {
      return Ok(false), deviceIds;
    }
    var devs := file.value;
    var rest := devs.Keys;
    var listed: seq<string> := [];
    while rest != {}
      invariant ListedSoFar(devs, rest, listed)
      decreases |rest|
    {
      Text.LeastExists(rest);
      var id :| Text.IsLeast(id, rest);
      if IsLeafId(id) {
        if !devs[id].dtype.JString? {
          return Throw, deviceIds + listed;
        }
      }
      ListStep(devs, rest, listed, id);
      if IsLeafId(id) && devs[id].dtype.s == "leaf" {
        listed := listed + [id];
      }
      rest := rest - {id};
    }
    out := deviceIds + listed;
    assert out[..|deviceIds|] == deviceIds && out[|deviceIds|..] == listed;
    return Ok(true), out;
  }

  /** The loop invariant of `ListActiveDevices`, and with `rest` empty its
      result: `listed` holds, in strictly increasing order, exactly the
      active leaves among the visited ids, and every id with the "32"
      prefix visited so far has a string type. */
  predicate ListedSoFar(devs: Devices, rest: set<string>, listed: seq<string>)
  {
    && (forall k :: k in rest ==> k in devs)
    && (forall id :: id in devs && id !in rest && IsLeafId(id) ==> devs[id].dtype.JString?)
    && (forall i, k :: 0 <= i < |listed| && k in rest ==> Text.StrLess(listed[i], k))
    && Text.StrictlySorted(listed)
    && (forall i :: 0 <= i < |listed| ==> listed[i] in devs && listed[i] !in rest && IsActiveLeaf(listed[i], devs[listed[i]]))
    && (forall id :: id in devs && id !in rest && IsActiveLeaf(id, devs[id]) ==> id in listed)
  }

  lemma ListStep(devs: Devices, rest: set<string>, listed: seq<string>, id: string)
    requires ListedSoFar(devs, rest, listed) && Text.IsLeast(id, rest)
    requires IsLeafId(id) ==> devs[id].dtype.JString?
    ensures ListedSoFar(devs, rest - {id}, if IsActiveLeaf(id, devs[id]) then listed + [id] else listed)
  {
  }

  // ---------------------------------------------------------------- correct_cfo_tx

  /** The sample `correct_cfo_tx` produces at position `n` of the
      transmission, counted by the CFO counter. */
  function CfoCorrected(s: Complex, scale: real, cfo: real, n: nat): Complex
  {
    if cfo != 0.0 then Mul(s, Polar(scale, cfo * n as real)) else Scale(s, scale)
  }

  /** correct_cfo_tx: rotates the signal in place by the CFO phase ramp that
      continues from `counter`, and advances `counter` (size_t) by the
      number of samples. */
  method CorrectCfoTx(signal: array<Complex>, scale: real, cfo: real, counter: Size) returns (counter': Size)
    modifies signal
    ensures counter' == (counter + signal.Length) % SizeModulus
    ensures forall i :: 0 <= i < signal.Length ==>
              signal[i] == CfoCorrected(old(signal[i]), scale, cfo, (counter + i) % SizeModulus)
  {
    counter' := counter;
    var i := 0;
    while i < signal.Length
      invariant 0 <= i <= signal.Length
      invariant counter' == (counter + i) % SizeModulus
      invariant forall k :: 0 <= k < i ==> signal[k] == CfoCorrected(old(signal[k]), scale, cfo, (counter + k) % SizeModulus)
      invariant forall k :: i <= k < signal.Length ==> signal[k] == old(signal[k])
    {
      signal[i] := CfoCorrected(signal[i], scale, cfo, counter');
      SizeSucc(counter + i);
      counter' := (counter' + 1) % SizeModulus;
      i := i + 1;
    }
  }

  /** With no CFO, the correction is a plain scaling of every sample. */
  lemma NoCfoIsScaling(s: Complex, scale: real, n: nat)
    ensures CfoCorrected(s, scale, 0.0, n) == Scale(s, scale)
  {
  }

  // ---------------------------------------------------------------- unwrap

  /** One adjustment of `unwrap`: a phase jumping by more than pi from the
      previous (adjusted) one is moved back by 2·pi. */
  function Adjust(x: real, prev: real): real
  {
    var delta := x - prev;
    if delta > Pi then x - 2.0 * Pi else if delta < -Pi then x + 2.0 * Pi else x
  }

  /** The phases `unwrap` produces: each one after the first is adjusted
      against the already adjusted previous one. */
  function Unwrapped(ph: seq<real>): (r: seq<real>)
    ensures |r| == |ph|
  {
    if |ph| <= 1 then ph
    else
      var prev := Unwrapped(ph[..|ph| - 1]);
      prev + [Adjust(ph[|ph| - 1], prev[|prev| - 1])]
  }

  /** Unwrapping one more phase appends its adjustment. */
  lemma UnwrappedStep(ph: seq<real>, i: nat)
    requires 1 <= i < |ph|
    ensures Unwrapped(ph[..i + 1]) == Unwrapped(ph[..i]) + [Adjust(ph[i], Unwrapped(ph[..i])[i - 1])]
  {
    assert ph[..i + 1][..i] == ph[..i];
  }

  /** unwrap: the phase of every sample, then one pass of adjustments. */
  method Unwrap(vec: seq<Complex>) returns (phase: seq<real>)
    ensures phase == Unwrapped(seq(|vec|, i requires 0 <= i < |vec| => Arg(vec[i])))
  {
    var args := seq(|vec|, i requires 0 <= i < |vec| => Arg(vec[i]));
    phase := args;
    if |phase| <= 1 {
      return;
    }
    var i := 1;
    while i < |phase|
      invariant 1 <= i <= |phase| == |args|
      invariant phase[..i] == Unwrapped(args[..i])
      invariant phase[i..] == args[i..]
    {
      var delta := phase[i] - phase[i - 1];
      var x := phase[i];
      if delta > Pi {
        x := phase[i] - 2.0 * Pi;
      } else if delta < -Pi {
        x := phase[i] + 2.0 * Pi;
      }
      assert phase[i] == args[i] && phase[i - 1] == phase[..i][i - 1];
      assert x == Adjust(args[i], Unwrapped(args[..i])[i - 1]);
      UnwrappedStep(args, i);
      phase := phase[i := x];
      assert phase[..i + 1] == phase[..i] + [x];
      i := i + 1;
    }
    assert phase == phase[..|phase|] && args[..|args|] == args;
  }

  /** Each unwrapped phase differs from the raw phase by -2·pi, 0 or +2·pi,
      and the first is left alone. */
  lemma {:induction false} UnwrappedShift(ph: seq<real>, i: nat)
    requires i < |ph|
    ensures var d := Unwrapped(ph)[i] - ph[i]; d == 0.0 || d == 2.0 * Pi || d == -2.0 * Pi
    ensures i == 0 ==> Unwrapped(ph)[0] == ph[0]
  {
    if |ph| > 1 && i < |ph| - 1 {
      UnwrappedShift(ph[..|ph| - 1], i);
    }
  }
}
