# OTA-C testbed core, modelled in Dafny

This project models the sequential logic of the OTA-C testbed: a set of
USRP software-radio nodes that calibrate their gains against a central node
and then compute a sum over the air (over-the-air computation, OTA-C). Radio
control, threads, MQTT, sqlite and floating-point numerics stay outside the
model. What remains is the index, counter and decision logic around them.
Each core source file becomes one Dafny module. Code that the source runs
step by step becomes classes and methods with loops and invariants. Each
method is proved against a specification function, and lemmas state what
the source promises about that function.

Modules, leaves first:

- `Common`: optional values, non-finite float results (`Ext`), complex
  samples, C++ `size_t` arithmetic with its wrap-around, and the
  transcendental functions (square root, log10, powers of ten, cosine, sine
  and the argument of a complex number), which are uninterpreted constants.
- `Text`, `Stats`: whitespace trimming, token extraction and `std::stoi`
  for the three configuration parsers; pandas `mean()` and `var()` (ddof 1)
  over float64 columns whose infinities and NaN are kept apart, NaN skipped.
- `ConfigParser`, `CppConfigParser`, `CppUtilityFuncs`: the three readers of
  `name value type [description]` configuration files. They differ in
  trimming, comment lines, unknown types, missing keys and failed
  conversions.
- `Utility`, `UtilityAverage`: magnitude and power statistics, the
  closest-gain lookup in a power-calibration table, the `devices.json`
  read-modify-write, the active-leaf listing, CFO pre-rotation and phase
  unwrapping.
- `Telemetry`, `CalibPairing`, `PublishCalibration`, `PlotCalibRes`: the
  Python calibration aggregation.
  - The `mqtt_messages` table is a sequence of records with their payloads
    already parsed.
  - The pandas as-of merge is an explicit nearest-match function.
  - The ratio statistics are computed per leaf, the results stored, the rows
    marked processed, and one retained result published per leaf.
  - The power-calibration plot keeps only complete payloads.
- `CircularBuffers`, `CircularPackets`: the single-producer/single-consumer
  rings of the cycle-start detector (CSD). `CircularPacket` advances its
  indices with a bit mask.
- `PeakDetector`, `CppPeakDetection`: the newer and the older peak-detector
  state machines, over `peaks_count`, `samples_from_first_peak`,
  `prev_peak_*`, `detection_flag` and the peak arrays.
- `CycleStartDetection`: the newer cycle-start detector. It covers the
  carry-over sample buffer, CFO correction, the fixed-length `saved_ref`
  window, the correlation scan and the wait time.
- `CppCycleStartDetection`, `CppCsdTest`: the older cycle-start detector and
  the templated test detector. Both keep sample and time rings with `front`,
  `rear` and `num_produced`. The test detector also decides from the peaks
  it finds in a correlation block.
- `Otac`: OTA-C pre- and post-processing, the CTOL gain check, the
  sliding-window power detector, burst assembly and the NMSE.
- `Calibration`: role assignment, MQTT topics, the proximity counter, the
  flag and LTOC callbacks, the leaf's gain step with the USRP gain setters,
  and waveform scaling.
- `Waveforms`, `CppWaveforms`, `Ofdm`, `FftWrapper`: the sequence
  construction code.
  - Zadoff-Chu, random-phase, impulse and DFT bases.
  - Repetition, gap, padding and cyclic-padding layouts.
  - The radix-2 FFT, cyclic prefix, segmentation and subcarrier mapping.
  - FFTW size checks and zero-padding.

`LOG_ERROR` ends the process, so the operations that may reach it return a
status that tells an exit apart from a normal return. A condition-variable
wait becomes a precondition, and an atomic becomes a plain field.

## Model

| member | source | states |
|---|---|---|
| CircularBuffers.CircularBuffer.Count | ProjectRoot/src/lib_csd/circular_buffer.cpp:5-12 | the ring holds fewer than `capacity` packets, since push leaves one slot free |
| CircularBuffers.CircularBuffer.constructor | ProjectRoot/src/lib_csd/circular_buffer.cpp:3 | a valid ring of `capacity` slots that holds nothing |
| CircularBuffers.CircularBuffer.Push | ProjectRoot/src/lib_csd/circular_buffer.cpp:5-18 | refused, with nothing changed, exactly when the ring is full (`(head + 1) % capacity == tail`); otherwise the contents grow by the packet and its time at the back and head advances modulo capacity |
| CircularBuffers.CircularBuffer.Pop | ProjectRoot/src/lib_csd/circular_buffer.cpp:20-31 | refused exactly when the ring is empty; otherwise yields the oldest packet with its time, and the contents lose exactly that entry |
| CircularBuffers.CircularBuffer.Reset | ProjectRoot/src/lib_csd/circular_buffer.cpp:33-37 | head and tail return to 0 and the ring holds nothing |
| CircularBuffers.CircularBuffer.ClearAsWritten | ProjectRoot/src/lib_csd/circular_buffer.cpp:39-45 | as written: both vectors end up empty while `capacity` stays, so the ring invariant breaks and the slot of the next push lies outside the storage |
| CircularBuffers.CircularBuffer.Clear | ProjectRoot/src/lib_csd/circular_buffer.cpp:39-45 | corrected: `capacity` empty slots are kept, head and tail are 0 and the ring holds nothing |
| CircularBuffers.CrossCorrBuffer.constructor | ProjectRoot/src/lib_csd/circular_buffer.cpp:47 | an empty ring of `capacity` samples and a time queue of `storage_size` default entries |
| CircularBuffers.CrossCorrBuffer.NotEnoughData | ProjectRoot/src/lib_csd/circular_buffer.cpp:111-116 | true exactly when the ring holds fewer than `size` samples |
| CircularBuffers.CrossCorrBuffer.NotEnoughSpaceFixed | ProjectRoot/src/lib_csd/circular_buffer.cpp:104-109 | corrected space test: true exactly when `size` more samples do not fit in the `capacity − 1 − used` free slots |
| CircularBuffers.CrossCorrBuffer.WriteSamples | ProjectRoot/src/lib_csd/circular_buffer.cpp:55-71 | every sample is written from the old head on, going round; only the first is flagged as carrying a time; all other slots keep their contents; head moves by the vector's length modulo capacity |
| CircularBuffers.CrossCorrBuffer.PushAsWritten | ProjectRoot/src/lib_csd/circular_buffer.cpp:49-74 | as written: accepted exactly when `not_enough_space` says no; then the time is queued and head moves by the vector's length; when refused, nothing changes |
| CircularBuffers.CrossCorrBuffer.Push | ProjectRoot/src/lib_csd/circular_buffer.cpp:49-74 | corrected: accepted exactly when the samples fit; then the held data is the old data followed by the vector, the time is queued and the first written slot is flagged |
| CircularBuffers.EmptyRingRefusesPush | ProjectRoot/src/lib_csd/circular_buffer.cpp:104-109 | as written, an empty ring (head == tail) refuses every non-empty vector, while the corrected test accepts any vector of up to `capacity − 1` samples |
| CircularPackets.BitAndAtMost | ProjectRoot/src/lib_csd/circular_packet.cpp:12 | a masked index never exceeds the mask `capacity − 1` |
| CircularPackets.MaskBelow | ProjectRoot/src/lib_csd/circular_packet.cpp:12 | masking with `2^k − 1` keeps an index below `2^k` unchanged and sends `2^k` to 0 |
| CircularPackets.MaskedSuccessor | ProjectRoot/src/lib_csd/circular_packet.cpp:12 | the masked successor `(i + 1) & (capacity − 1)` stays below capacity, and equals the successor modulo capacity when capacity is a power of two |
| CircularPackets.MaskOfThree | ProjectRoot/src/lib_csd/circular_packet.cpp:12 | with capacity 3 the successor of slot 0 is 0 under the mask but 1 modulo 3 |
| CircularPackets.SampleTime | ProjectRoot/src/lib_csd/circular_packet.cpp:37-40 | the time of sample `index` is the first sample's time plus `index` sample durations; index 0 is the first sample's time |
| CircularPackets.SampleTimeStep | ProjectRoot/src/lib_csd/circular_packet.cpp:37-40 | successive samples lie one duration apart, and their times increase for a positive duration |
| CircularPackets.CircularPacket.Next | ProjectRoot/src/lib_csd/circular_packet.cpp:12 | the masked next index is a slot of the ring, and is the increment modulo capacity for a power-of-two capacity |
| CircularPackets.CircularPacket.IsEmpty | ProjectRoot/src/lib_csd/circular_packet.cpp:56-59 | true exactly when head == tail, that is when the ring holds nothing |
| CircularPackets.CircularPacket.constructor | ProjectRoot/src/lib_csd/circular_packet.cpp:3-7 | a valid ring of `capacity` slots with head and tail 0, holding nothing |
| CircularPackets.CircularPacket.Push | ProjectRoot/src/lib_csd/circular_packet.cpp:9-21 | refused, with nothing written, exactly when the masked next head is tail; otherwise the packet and time go to the old head, which moves to the masked next slot; for a power-of-two capacity this appends to the contents and is refused exactly when the ring is full |
| CircularPackets.CircularPacket.Pop | ProjectRoot/src/lib_csd/circular_packet.cpp:23-34 | refused exactly when head == tail; otherwise yields the slot at tail and moves tail to the masked next slot; for a power-of-two capacity that is the oldest entry and it leaves the contents |
| CircularPackets.CircularPacket.Reset | ProjectRoot/src/lib_csd/circular_packet.cpp:42-46 | head and tail return to 0 and the ring is empty |
| CircularPackets.CircularPacket.Clear | ProjectRoot/src/lib_csd/circular_packet.cpp:48-54 | both storage vectors are emptied while capacity stays, so the ring is no longer valid |
| CircularPackets.FreshRingOfThreeIsFull | ProjectRoot/src/lib_csd/circular_packet.cpp:9-16 | a fresh ring of capacity 3 already looks full to push |
| ConfigParser.IgnoredLines | ProjectRoot/src/lib_config/config_parser.cpp:14-20 | a line that is blank after trimming, starts with `#` or has fewer than three tokens leaves every map unchanged |
| ConfigParser.StoreEffect | ProjectRoot/src/lib_config/config_parser.cpp:25-41 | an accepted line fails exactly when its int or float conversion throws; otherwise it records the trimmed rest of the line as the name's description and keeps every key already stored |
| ConfigParser.UnknownTypeIsString | ProjectRoot/src/lib_config/config_parser.cpp:33-37 | a line of an unknown type is stored as a string, exactly like a "str" line, and the int and float maps stay as they were |
| ConfigParser.ParseLinesKeepsKeys | ProjectRoot/src/lib_config/config_parser.cpp:11-46 | parsing a file never loses a key: every map's key set only grows, line by line |
| ConfigParser.LastLineWins | ProjectRoot/src/lib_config/config_parser.cpp:11-46 | when a name appears again, the description kept is that of its last line |
| ConfigParser.Parser.constructor | ProjectRoot/src/lib_config/config_parser.cpp:3-4 | a parser starts with four empty maps |
| ConfigParser.Parser.Load | ProjectRoot/src/lib_config/config_parser.cpp:3-49 | a file that cannot be opened is fatal; otherwise the construction returns exactly when no conversion throws, and the maps are then those the line-by-line parse of the file gives |
| ConfigParser.Parser.LoadLine | ProjectRoot/src/lib_config/config_parser.cpp:12-45 | one line: ignored when blank, a comment or short; stored otherwise; false exactly when its conversion throws |
| ConfigParser.Parser.StoreFields | ProjectRoot/src/lib_config/config_parser.cpp:27-40 | the typed store of an accepted line and its description, exactly as the line specification says; false exactly when the conversion throws |
| ConfigParser.Parser.GetValueStr | ProjectRoot/src/lib_config/config_parser.cpp:59-71 | the stored string when the name is present; a fatal error exactly when it is missing |
| ConfigParser.Parser.GetValueInt | ProjectRoot/src/lib_config/config_parser.cpp:73-85 | the stored size_t when the name is present; a fatal error exactly when it is missing |
| ConfigParser.Parser.GetValueFloat | ProjectRoot/src/lib_config/config_parser.cpp:87-99 | the stored float when the name is present; a fatal error exactly when it is missing |
| ConfigParser.Parser.SetValue | ProjectRoot/src/lib_config/config_parser.cpp:101-133 | fatal exactly when the type is invalid or the conversion fails; otherwise only the map of that type and the description change |
| ConfigParser.Parser.PrintJson | ProjectRoot/src/lib_config/config_parser.cpp:148-172 | the string entries, then the int entries, then the float entries; each group lists every stored key once, in an order left open, with its value and its description ("" when it has none); every key without a description gains "" in the description table |
| ConfigParser.SetValueSpec | ProjectRoot/src/lib_config/config_parser.cpp:101-133 | on success the description is recorded and only the map of the given type changes |
| ConfigParser.SetThenGet | ProjectRoot/src/lib_config/config_parser.cpp:101-133 | a string that set_value stores is the one a lookup returns afterwards, and so is a converted int; set_value with the type "double" is fatal |
| ConfigParser.Segment | ProjectRoot/src/lib_config/config_parser.cpp:152-165 | one group of print_json lists each key of the map once, with its value and description, and fills in "" for the keys the description table lacked |
| CppConfigParser.UnknownTypeDropped | cpp/ConfigParser.cpp:28-38 | on an unknown type this parser records only the description, while the main program's parser also stores the value as a string |
| CppConfigParser.KnownTypesAgree | cpp/ConfigParser.cpp:28-38 | for the types int, float, str and string both parsers store the same thing |
| CppConfigParser.Parser.constructor | cpp/ConfigParser.cpp:3-4 | a parser starts with four empty maps |
| CppConfigParser.Parser.Load | cpp/ConfigParser.cpp:3-47 | a file that cannot be opened leaves every map as it was and returns (not fatal); otherwise the construction returns exactly when no conversion throws, and the maps are then those the line-by-line parse gives |
| CppConfigParser.Parser.LoadLine | cpp/ConfigParser.cpp:13-43 | one line: ignored when blank, a comment or short; stored otherwise; false exactly when its conversion throws |
| CppConfigParser.Parser.StoreFields | cpp/ConfigParser.cpp:28-38 | the typed store of an accepted line and its description; false exactly when the conversion throws; the save-buffer file name is untouched |
| CppConfigParser.Parser.GetValueStr | cpp/ConfigParser.cpp:80-92 | the stored string, or "" when the name is missing |
| CppConfigParser.Parser.GetValueInt | cpp/ConfigParser.cpp:94-106 | the stored size_t, or 0 when the name is missing |
| CppConfigParser.Parser.GetValueFloat | cpp/ConfigParser.cpp:108-120 | the stored float, or 0.0 when the name is missing |
| CppConfigParser.Parser.IsSaveBuffer | cpp/ConfigParser.cpp:57-78 | saving is on exactly when "save-ref-rx" is not "NO"; then the file name is the storage prefix followed by `args` with every '=' replaced by '_'; otherwise the file name is unchanged |
| CppConfigParser.Parser.SetValue | cpp/ConfigParser.cpp:122-157 | returns exactly when the type is known and the conversion succeeds, and then stores what the specification says; an invalid type or a failed conversion throws and changes nothing |
| CppConfigParser.SetValueAgrees | cpp/ConfigParser.cpp:122-157 | this set_value throws exactly where the main program's is fatal, and stores the same thing otherwise |
| CppConfigParser.UnderscoreEqualsSpec | cpp/ConfigParser.cpp:66-75 | the device id keeps its length, holds no '=' afterwards, and every other character is kept |
| CppUtilityFuncs.CommentLineIsParsed | cpp/utility_funcs.cpp:184-200 | a `#` line with three tokens is stored by this `parse`, while the main program's parser ignores it |
| CppUtilityFuncs.Parser.constructor | cpp/utility_funcs.cpp:175-176 | a parser starts with three empty maps |
| CppUtilityFuncs.Parser.Parse | cpp/utility_funcs.cpp:175-204 | an unopenable file changes nothing and returns; otherwise the call returns exactly when no `stoi`/`stof` throws, and the maps are those of the line-by-line parse |
| CppUtilityFuncs.Parser.GetValueStr | cpp/utility_funcs.cpp:206-218 | the stored string, or "" when the name is missing |
| CppUtilityFuncs.Parser.GetValueInt | cpp/utility_funcs.cpp:220-232 | the stored integer, or 0 when the name is missing |
| CppUtilityFuncs.Parser.GetValueFloat | cpp/utility_funcs.cpp:234-246 | the stored float, or 0.0 when the name is missing |
| CppUtilityFuncs.ParseConfigFromFile | cpp/utility_funcs.cpp:107-163 | throws exactly when the file cannot be opened; otherwise returns the string map built line by line, skipping lines with fewer than three tokens |
| CppUtilityFuncs.FirstOccurrenceWins | cpp/utility_funcs.cpp:135 | `emplace` keeps the first value: the first line naming a variable decides its value in the result |
| CppUtilityFuncs.NameAbsent | cpp/utility_funcs.cpp:124-156 | a name no line gives never enters the map |
| CppUtilityFuncs.KeepsEntries | cpp/utility_funcs.cpp:135 | a further line never removes or changes an entry already in the map |
| Text.TrimRightSpec | ProjectRoot/src/lib_config/config_parser.cpp:55 | the right trim is a prefix of the input, ends in a non-whitespace character (or is empty), and only whitespace was dropped |
| Text.TrimLeftSpec | ProjectRoot/src/lib_config/config_parser.cpp:56 | the left trim is a suffix of the input, starts with a non-whitespace character (or is empty), and only whitespace was dropped |
| Text.TrimIsSlice | ProjectRoot/src/lib_config/config_parser.cpp:51-57 | `trim` leaves one contiguous slice of the line whose ends are not whitespace |
| Text.TrimEmptyIff | ProjectRoot/src/lib_config/config_parser.cpp:51-57 | a line trims to the empty string exactly when it is all whitespace |
| Text.TrimIdempotent | ProjectRoot/src/lib_config/config_parser.cpp:51-57 | trimming twice is trimming once |
| Text.SplitTokenSpec | ProjectRoot/src/lib_config/config_parser.cpp:25 | a token and the remainder rebuild the input; the token holds no whitespace and the remainder starts with whitespace or is empty |
| Text.ReadTokenSpec | ProjectRoot/src/lib_config/config_parser.cpp:25 | `iss >> tok` fails exactly on an all-whitespace input, and otherwise yields a non-empty token without whitespace after a whitespace run |
| Text.ReadThreeSpec | ProjectRoot/src/lib_config/config_parser.cpp:25 | the three fields read from a line are non-empty and free of whitespace, and an all-whitespace line yields none |
| Text.DigitPrefix | ProjectRoot/src/lib_config/config_parser.cpp:28 | the leading run of decimal digits: a prefix, all digits, followed by a non-digit or the end |
| Text.Stoi | ProjectRoot/src/lib_config/config_parser.cpp:28 | `std::stoi` either throws or yields a value within the 32-bit int range |
| Text.IntToSize | ProjectRoot/src/lib_config/config_parser.cpp:28 | the cast to size_t agrees with the int modulo 2^64 |
| Text.StrLessIrreflexive | ProjectRoot/src/lib_utils/utility.cpp:632-643 | no key precedes itself in the order nlohmann::json keeps an object's keys in |
| Text.StrLessTransitive | ProjectRoot/src/lib_utils/utility.cpp:632-643 | that key order is transitive |
| Text.StrLessTotal | ProjectRoot/src/lib_utils/utility.cpp:632-643 | any two distinct keys are ordered one way or the other |
| Text.LeastExists | ProjectRoot/src/lib_utils/utility.cpp:632-643 | every non-empty set of keys has a least key, the one the iteration over `items()` visits first |
| Stats.Mean | ProjectRoot/python/publish_calibration.py:62 | a column's mean is finite exactly when the column is not empty |
| Stats.SampleVar | ProjectRoot/python/publish_calibration.py:63 | the sample variance (divisor n − 1) is finite exactly when the column has at least two values |
| Stats.NpDiv | ProjectRoot/python/publish_calibration.py:57 | a float64 quotient of finite values is finite exactly when the divisor is not zero, and then times the divisor gives the dividend; it is an infinity exactly when a non-zero value is divided by zero, with the dividend's sign; 0/0 is NaN |
| Stats.F64Div | ProjectRoot/python/publish_calibration.py:66-68 | an IEEE quotient is finite exactly when the dividend is finite and the divisor is an infinity or a non-zero finite value; NaN operands and inf/inf give NaN |
| Stats.F64Square | ProjectRoot/python/publish_calibration.py:68 | `x ** 2` is finite exactly when x is, is then x² and is zero exactly when x is; an infinity squares to +inf |
| Stats.Kept | ProjectRoot/python/publish_calibration.py:62-68 | the entries `skipna` keeps are exactly the non-NaN ones, and are no more than the column |
| Stats.PdMean | ProjectRoot/python/publish_calibration.py:62 | `Series.mean()` is finite exactly when some entry is finite and no infinity occurs; it is +inf (−inf) exactly when only infinities of that sign occur |
| Stats.PdVar | ProjectRoot/python/publish_calibration.py:63 | `Series.var()` is finite exactly when at least two entries are kept and no infinity occurs, and it is never an infinity |
| Stats.KeptNoNaN | ProjectRoot/python/publish_calibration.py:62-68 | a column without NaN is kept whole |
| Stats.KeptConcat | ProjectRoot/python/publish_calibration.py:62-68 | the kept entries of two columns joined are the kept entries of each, joined |
| Stats.PdSkipsNaN | ProjectRoot/python/publish_calibration.py:62-68 | the mean and variance of a column equal those of its kept entries |
| Stats.NaNDropped | ProjectRoot/python/publish_calibration.py:62-68 | inserting a NaN anywhere in a column changes neither its mean nor its variance |
| Stats.KeptDropsNaN | ProjectRoot/python/publish_calibration.py:62-68 | inserting a NaN anywhere in a column leaves its kept entries unchanged |
| Stats.SameKept | ProjectRoot/python/publish_calibration.py:62-68 | two columns with the same kept entries have the same mean and variance |
| Stats.PdMeanBetween | ProjectRoot/python/publish_calibration.py:62 | a finite mean lies within any bounds of the column's finite entries |
| Stats.PdVarNonNeg | ProjectRoot/python/publish_calibration.py:63 | a finite variance is never negative |
| Stats.NormalisedVar | ProjectRoot/python/publish_calibration.py:67-68 | the variance over the squared mean is finite exactly when the mean is finite and not zero and at least two entries are kept, and is then not negative |
| Stats.VarNumMeanNum | ProjectRoot/python/publish_calibration.py:62-63 | a finite variance comes with a finite mean |
| Stats.NormalisedQuotient | ProjectRoot/python/publish_calibration.py:68 | a non-negative finite or NaN variance over a squared mean is finite exactly when the variance is finite and the mean not zero, and is then not negative |
| Stats.FiniteColumn | ProjectRoot/python/publish_calibration.py:62-65 | on a column of finite values, the mean is NaN only when the column is empty and the variance NaN only below two values, and otherwise they are the plain mean and sample variance |
| Stats.NaNSkipped | ProjectRoot/python/publish_calibration.py:62-68 | a column [NaN, c, c], as the ratios of the pairs (0, 0), (2c, 2) and (c, 1) give it, has mean c and variance 0 |
| Stats.SumBounds | ProjectRoot/python/publish_calibration.py:62 | the sum of n values within [lo, hi] lies within [n·lo, n·hi] |
| Stats.MeanBetween | ProjectRoot/python/publish_calibration.py:62 | the mean of a non-empty column lies within any bounds of its values |
| Stats.SqDevNonNeg | ProjectRoot/python/publish_calibration.py:63 | the summed squared deviations are never negative |
| Stats.SampleVarNonNeg | ProjectRoot/python/publish_calibration.py:63 | the sample variance is never negative |
| Stats.SqDevConstant | ProjectRoot/python/publish_calibration.py:63 | a constant column has no squared deviation from its constant |
| Stats.ConstantColumn | ProjectRoot/python/publish_calibration.py:62-63 | a constant column has that constant as its mean and zero sample variance |
| Utility.FindMaxAbsValue | ProjectRoot/src/lib_utils/utility.cpp:214-228 | the result is at least 0 and at least every magnitude, and is 0 or one of the magnitudes; an empty vector gives 0 |
| Utility.MeanAbsoluteValue | ProjectRoot/src/lib_utils/utility.cpp:263-278 | 0 when no magnitude is kept, otherwise the sum of the kept magnitudes divided by their count (a positive bound drops the smaller ones) |
| Utility.KeptAbsSumAtLeast | ProjectRoot/src/lib_utils/utility.cpp:263-278 | with a positive bound the kept sum is at least bound × kept count |
| Utility.MeanAbsoluteAtLeastBound | ProjectRoot/src/lib_utils/utility.cpp:263-278 | with a positive bound and something kept, the mean is at least the bound |
| Utility.MeanSquareValue | ProjectRoot/src/lib_utils/utility.cpp:249-261 | for start < end the kept norms of [start, end) divided by end − start; NaN for an empty range; and 0 for start > end, where the loop does nothing and the unsigned divisor wraps |
| Utility.KeptNormSumAtMost | ProjectRoot/src/lib_utils/utility.cpp:249-261 | dropping norms below the bound can only lower the sum, which stays non-negative |
| Utility.CalcSignalPower | ProjectRoot/src/lib_utils/utility.cpp:230-241 | a zero length means "from start to the end" (with size_t wrap-around when start is past the end, giving 0), any other length the range [start, start + length); a zero length with start at the end is the float division 0/0, NonFinite |
| Utility.FirstFreq | ProjectRoot/src/lib_utils/utility.cpp:386-411 | the first frequency entry within 1 kHz of the input, or none when no entry is |
| Utility.FindClosestGain | ProjectRoot/src/lib_utils/utility.cpp:364-420 | (−100, −100) for an unopenable file, an unmatched frequency or an empty power list; otherwise the gain and power of the first entry closest to the input power |
| Utility.FirstFreqIs | ProjectRoot/src/lib_utils/utility.cpp:386-411 | an entry within 1 kHz with none before it is the one chosen |
| Utility.SaveDeviceConfig | ProjectRoot/src/lib_utils/utility.cpp:518-549 | succeeds exactly when the file was read, the device and its key exist and the write succeeds; a failure changes nothing; success keeps the set of devices |
| Utility.ReadDeviceConfigFloat | ProjectRoot/src/lib_utils/utility.cpp:552-585 | succeeds exactly when the file was read, the device and key exist and the value is a number or a boolean, and then yields that number, or 1 or 0 for true or false |
| Utility.ReadDeviceConfigJson | ProjectRoot/src/lib_utils/utility.cpp:587-620 | succeeds exactly when the file was read and the device and key exist, and then yields the stored value |
| Utility.SaveThenRead | ProjectRoot/src/lib_utils/utility.cpp:518-620 | reading back a saved key gives the saved value, and every other key reads as before |
| Utility.ListActiveDevices | ProjectRoot/src/lib_utils/utility.cpp:622-644 | an unreadable file gives false and appends nothing; a "32…" device whose type is not a string throws; otherwise true, the old ids kept in front and exactly the active leaf ids appended in key order |
| Utility.CorrectCfoTx | ProjectRoot/src/lib_utils/utility.cpp:646-655 | every sample is scaled and rotated by the CFO phase at its position counted from `counter`, and `counter` advances by the signal length modulo 2^64 |
| Utility.NoCfoIsScaling | ProjectRoot/src/lib_utils/utility.cpp:650-653 | with no CFO the correction is a plain scaling |
| Utility.Unwrapped | ProjectRoot/src/lib_utils/utility.cpp:163-174 | unwrapping keeps the number of phases |
| Utility.UnwrappedStep | ProjectRoot/src/lib_utils/utility.cpp:163-174 | one more loop step appends the adjustment of the next phase against the previous unwrapped one |
| Utility.Unwrap | ProjectRoot/src/lib_utils/utility.cpp:152-177 | the result is the unwrapping of the phases of the samples |
| Utility.UnwrappedShift | ProjectRoot/src/lib_utils/utility.cpp:163-174 | each unwrapped phase differs from the raw one by −2π, 0 or +2π, and the first is unchanged |
| UtilityAverage.AverageAbsoluteValue | ProjectRoot/src/lib_utils/Utility.cpp:47-60 | 0 for an empty vector, otherwise the sum of the magnitudes not above a positive threshold divided by the full length |
| UtilityAverage.NoThresholdIsPlainSum | ProjectRoot/src/lib_utils/Utility.cpp:54-57 | a threshold that is not positive skips nothing |
| UtilityAverage.ClippedSumBounds | ProjectRoot/src/lib_utils/Utility.cpp:51-58 | with a positive threshold the kept sum lies in [0, n × threshold] |
| UtilityAverage.AverageWithinThreshold | ProjectRoot/src/lib_utils/Utility.cpp:47-60 | with a positive threshold the average of a non-empty vector lies in [0, threshold] |
| Telemetry.MarkedSpec | ProjectRoot/python/publish_calibration.py:172-177 | the update sets exactly the rows whose id was queued to processed and changes nothing else in any row |
| Telemetry.MarkedTwice | ProjectRoot/python/publish_calibration.py:174-175 | one UPDATE per id: marking one list of ids and then another marks their concatenation |
| Telemetry.MessageTable.MarkProcessed | ProjectRoot/python/publish_calibration.py:173-177 | the table after the UPDATE statements is the old table with the given ids marked |
| CalibPairing.Forward | ProjectRoot/python/publish_calibration.py:36 | the forward rows are exactly the data rows sent by the centre to the leaf |
| CalibPairing.Reverse | ProjectRoot/python/publish_calibration.py:37 | the reverse rows are exactly the data rows sent by the leaf to the centre |
| CalibPairing.InsertByTime | ProjectRoot/python/publish_calibration.py:39-40 | inserting keeps every row and adds the new one |
| CalibPairing.InsertSorted | ProjectRoot/python/publish_calibration.py:39-40 | inserting into a time-sorted list keeps it sorted |
| CalibPairing.SortByTimeSorted | ProjectRoot/python/publish_calibration.py:39-40 | `sort_values('time')` yields a time-sorted permutation of its rows |
| CalibPairing.LastAtMost | ProjectRoot/python/publish_calibration.py:38-44 | the backward search finds a row not later than t, or there is none |
| CalibPairing.FirstAtLeast | ProjectRoot/python/publish_calibration.py:38-44 | the forward search finds a row not earlier than t, or there is none |
| CalibPairing.NearestSpec | ProjectRoot/python/publish_calibration.py:38-44 | on a sorted right side, `direction='nearest'` with a 3 s tolerance matches a row at minimal distance within 3 s, and matches nothing exactly when every row is more than 3 s away |
| CalibPairing.MergeAsofKeeps | ProjectRoot/python/publish_calibration.py:38-44 | after `dropna()` the surviving forward rows are, in order, exactly those with a reverse row within 3 s |
| CalibPairing.MergeAsofNearest | ProjectRoot/python/publish_calibration.py:38-44 | every surviving forward row is paired with a nearest reverse row within 3 s |
| CalibPairing.PairsSpec | ProjectRoot/python/publish_calibration.py:36-44 | a leaf's pairs join only its own forward rows with its own reverse rows |
| CalibPairing.PairsInTimeOrder | ProjectRoot/python/publish_calibration.py:38-44 | the pairs come in time order of their forward rows |
| CalibPairing.WithPartnerSorted | ProjectRoot/python/publish_calibration.py:38-44 | filtering a sorted list keeps it sorted and adds no row |
| PublishCalibration.SelectRows | ProjectRoot/python/publish_calibration.py:114-128 | the scan of the stored messages yields exactly the selection of the reference definition, including its exceptions |
| PublishCalibration.SelectFailurePersists | ProjectRoot/python/publish_calibration.py:118-126 | an exception on an earlier message ends the whole scan in an exception |
| PublishCalibration.SelectSpec | ProjectRoot/python/publish_calibration.py:118-128 | only recent unprocessed `calibration/results` rows are selected; each selected payload comes with an update of its own row, and every such row is selected |
| PublishCalibration.CToL | ProjectRoot/python/publish_calibration.py:55 | the forward amplitude column holds the forward amplitude of every pair |
| PublishCalibration.LToC | ProjectRoot/python/publish_calibration.py:56 | the reverse amplitude column holds the reverse amplitude of every pair |
| PublishCalibration.Ratios | ProjectRoot/python/publish_calibration.py:57 | the ratio column holds forward over reverse amplitude for every pair, as NumPy divides |
| PublishCalibration.CalibResultsStep | ProjectRoot/python/publish_calibration.py:34-88 | one more leaf appends its result, if it has one |
| PublishCalibration.BuildStore | ProjectRoot/python/publish_calibration.py:46-59 | `store_df` has one row per pair, numbered from 0, with the pair's gains, amplitudes, ratio and time |
| PublishCalibration.ProcessCalibrationData | ProjectRoot/python/publish_calibration.py:30-90 | an unreadable device list raises; otherwise the results are those of the leaves in device-list order, each built from its own pairs |
| PublishCalibration.MinTimeSpec | ProjectRoot/python/publish_calibration.py:86 | the earliest time is at most every pair's time and is one of them |
| PublishCalibration.LeafResultSpec | ProjectRoot/python/publish_calibration.py:61-88 | a leaf has a result exactly when it has pairs; the run count, the gains of the first pair and the earliest time |
| PublishCalibration.LeafResultStats | ProjectRoot/python/publish_calibration.py:61-88 | finite amplitude means equal to the plain means; amplitude variances finite exactly from two pairs on, and then the sample variances; `ratio_amp_mean` the float64 quotient of the two means; `amp_ratio_mean` and `amp_ratio_var` the ratio statistics |
| PublishCalibration.RatioStatsSpec | ProjectRoot/python/publish_calibration.py:57-68 | the mean ratio is finite exactly when some reverse amplitude is not zero and every zero reverse amplitude meets a zero forward one; the normalised variance is finite exactly when the mean ratio is finite and not zero and at least two ratios are not NaN, and is then not negative |
| PublishCalibration.RatioKinds | ProjectRoot/python/publish_calibration.py:57 | some ratio is finite exactly when some reverse amplitude is not zero, and no ratio is an infinity exactly when every zero reverse amplitude meets a zero forward one |
| PublishCalibration.CalibResultsSpec | ProjectRoot/python/publish_calibration.py:34-90 | the results hold exactly the leaves with pairs, each with its own aggregate and the centre's serial, and at most one per leaf |
| PublishCalibration.ZeroReverseAmplitude | ProjectRoot/python/publish_calibration.py:57-68 | a zero reverse amplitude under a non-zero forward one makes the mean ratio an infinity or NaN and the normalised variance NaN |
| PublishCalibration.ZeroPairSkipped | ProjectRoot/python/publish_calibration.py:57-68 | a pair with both amplitudes zero gives the NaN ratio 0/0, which is skipped: the ratio statistics are those of the other pairs |
| PublishCalibration.SinglePair | ProjectRoot/python/publish_calibration.py:67-68 | a leaf with a single pair has a NaN normalised variance |
| PublishCalibration.InsertResults | ProjectRoot/python/publish_calibration.py:140-168 | the loop completes exactly when every INSERT is accepted (one value per column and no NaN in `amp_ratio_mean` or `amp_ratio_var`), and it queues, in order on its own topic, exactly the results inserted before the first rejected one |
| PublishCalibration.InsertedCount | ProjectRoot/python/publish_calibration.py:152-165 | the count of results inserted is at most the number of results, every result before it is accepted and the result at it is rejected |
| PublishCalibration.PublishAll | ProjectRoot/python/publish_calibration.py:188-198 | every queued message is published, retained, on its topic, and a failed publish does not stop the loop |
| PublishCalibration.RunPublish | ProjectRoot/python/publish_calibration.py:102-198 | an exception exactly on a failed scan, no selected row or an unreadable device list, and then nothing changes; when every INSERT is accepted the results are stored and the selected rows marked, and when one is rejected neither happens; either way the results queued before the rejection are published, retained, in order |
| PublishCalibration.PublishAsWritten | ProjectRoot/python/publish_calibration.py:159-170 | with the script's column list and at least one result, nothing is stored, marked or published |
| PublishCalibration.Publish | ProjectRoot/python/publish_calibration.py:102-198 | with the completed column list: when no result has a NaN mean ratio or normalised variance, every result is stored, every selected row marked and every result published, retained, on its own topic; otherwise nothing is stored or marked and exactly the results before the first NaN one are published |
| PublishCalibration.FixedColumnsCount | ProjectRoot/python/publish_calibration.py:152-165 | with the completed column list every result is inserted exactly when none has a NaN in a NOT NULL column, and the first rejected one has such a NaN |
| PublishCalibration.AsWrittenCount | ProjectRoot/python/publish_calibration.py:159-165 | with the script's column list no result is inserted |
| PublishCalibration.UnstorableResults | ProjectRoot/python/publish_calibration.py:57-68 | a leaf with a single pair, or with a zero reverse amplitude under a non-zero forward one, has a result that violates NOT NULL |
| PublishCalibration.InsertColumnCount | ProjectRoot/python/publish_calibration.py:159-162 | the INSERT names 12 columns for 13 placeholders and is refused; the completed list adds `ratio_amp_mean` and is accepted |
| PublishCalibration.NoDataRaises | ProjectRoot/python/publish_calibration.py:130-131 | an empty selection means no message was a recent unprocessed calibration result |
| PlotCalibRes.FetchSpec | ProjectRoot/python/plot_calib_res.py:12-29 | the query returns exactly the (id, payload) of the rows with topic `telemetry/powcalib/<serial>` that are not processed |
| PlotCalibRes.ParseJsonPayloads | ProjectRoot/python/plot_calib_res.py:31-53 | the loop yields exactly the lists of the reference definition, including the AttributeError of a payload that is not an object |
| PlotCalibRes.ParseFailurePersists | ProjectRoot/python/plot_calib_res.py:37-51 | an exception on an earlier row ends the whole scan in that exception |
| PlotCalibRes.ParsePayloadsSpec | ProjectRoot/python/plot_calib_res.py:31-53 | the three lists have equal length, and entry k of each comes from one fetched row, in row order, whose payload holds both `rx_pow` and `tx_scale` |
| PlotCalibRes.DecodeErrorSkipped | ProjectRoot/python/plot_calib_res.py:49-51 | a payload that fails to decode is skipped without aborting the scan |
| PlotCalibRes.PlotCalibration | ProjectRoot/python/plot_calib_res.py:118-133 | an exception exactly when parsing raises or the fit on the kept rows raises; the kept rows are marked exactly when both lists are non-empty and the fit succeeds; otherwise the table is unchanged |
| PlotCalibRes.MarkRowsAsProcessed | ProjectRoot/python/plot_calib_res.py:55-72 | no ids leave the table unchanged; otherwise the rows with the given ids are marked processed |
| PlotCalibRes.GateIffKept | ProjectRoot/python/plot_calib_res.py:126 | the gate on both lists being non-empty holds exactly when some row was kept |
| PeakDetector.ResetState | ProjectRoot/src/lib_csd/peakdetector.cpp:86-106 | after reset the arrays have one slot per peak, no peak is registered, no detection is flagged and the max PNR is kept |
| PeakDetector.Prepare | ProjectRoot/src/lib_csd/peakdetector.cpp:115-147 | the checks before the write keep the slot invariant and leave the peak count as it was or collapse it to 1 |
| PeakDetector.MaxValSpec | ProjectRoot/src/lib_csd/peakdetector.cpp:64-73 | the largest peak value is at least 0 and at least every value, and is 0 or one of them |
| PeakDetector.MaxPnrOf | ProjectRoot/src/lib_csd/peakdetector.cpp:262 | the recorded max PNR is at least the PNR threshold and at least the scaled largest peak, and is one of the two |
| PeakDetector.InsertFirstPeak | ProjectRoot/src/lib_csd/peakdetector.cpp:115-154 | the first peak restarts the sample count at 0 and is recorded at slot 0; without a detection it becomes the previous peak |
| PeakDetector.InsertCollapses | ProjectRoot/src/lib_csd/peakdetector.cpp:118-136 | with 1 < count < total − 1 and the last two registered peaks badly spaced, only the last one is kept, moved to slot 0 with index 0 and the count shifted back; the new peak follows at slot 1 |
| PeakDetector.InsertAppends | ProjectRoot/src/lib_csd/peakdetector.cpp:113-166 | with well-spaced registered peaks the earlier slots are kept and the new peak is written at slot `peaks_count` with the current sample count |
| PeakDetector.DetectionOnlyAtLast | ProjectRoot/src/lib_csd/peakdetector.cpp:138-161 | a detection is flagged exactly by an insert at slot total − 1 whose spacing from the last peak fits, and then the previous peak and the threshold are left alone |
| PeakDetector.OutOfRangeIffFull | ProjectRoot/src/lib_csd/peakdetector.cpp:145-154 | an insert writes past the arrays exactly when every slot is already in use |
| PeakDetector.LastPeakOnBoundary | ProjectRoot/src/lib_csd/peakdetector.cpp:138-143 | as written, a last peak exactly `peak_det_tol` off the reference spacing passes `process_corr`'s inclusive test but not the strict last-peak test, so all slots fill without a detection |
| PeakDetector.FullArrayOverflows | ProjectRoot/src/lib_csd/peakdetector.cpp:226-237 | as written, from that full state the next well-spaced peak is written at slot `total_num_peaks`, past the arrays |
| PeakDetector.InsertKeepsPrev | ProjectRoot/src/lib_csd/peakdetector.cpp:150-165 | an insert keeps the slot invariant and, without a detection, makes the new peak the previous one |
| PeakDetector.InsertReachable | ProjectRoot/src/lib_csd/peakdetector.cpp:113-166 | an insert whose last-slot spacing passes the test leads to a state where a full array means a detection |
| PeakDetector.ProcessStaysInRange | ProjectRoot/src/lib_csd/peakdetector.cpp:182-240 | corrected: while no detection is flagged, `process_corr` never writes past the arrays and keeps that invariant |
| PeakDetector.InsertOrdered | ProjectRoot/src/lib_csd/peakdetector.cpp:113-166 | an insert keeps every registered index and the previous peak at or before the current sample count |
| PeakDetector.ProcessOrdered | ProjectRoot/src/lib_csd/peakdetector.cpp:182-240 | corrected `process_corr` keeps the indices at or before the sample count, so `samples_from_last_peak` never underflows |
| PeakDetector.IncreaseOrdered | ProjectRoot/src/lib_csd/peakdetector.cpp:242-248 | counting a sample keeps that order, and with no peak registered changes nothing |
| PeakDetector.ProcessTooFar | ProjectRoot/src/lib_csd/peakdetector.cpp:201-208 | a peak too far from the last one resets the detector and becomes its first peak |
| PeakDetector.ProcessTooClose | ProjectRoot/src/lib_csd/peakdetector.cpp:211-223 | a peak too close to the last one replaces it only when higher, and otherwise changes nothing |
| PeakDetector.ProcessInWindow | ProjectRoot/src/lib_csd/peakdetector.cpp:226-238 | a well-spaced peak is appended, after dropping the last peak when that one is below 80% of the new value |
| PeakDetector.UpdatePnrSpec | ProjectRoot/src/lib_csd/peakdetector.cpp:75-84 | only the threshold changes; never when updates are off; without a max PNR it never decreases; with one it lies between the PNR threshold and max_pnr × max_peak_mul |
| PeakDetector.UpdateNoiseSpec | ProjectRoot/src/lib_csd/peakdetector.cpp:324-336 | nothing changes unless the deviation from the noise level is below 10%; then the level becomes the count-weighted mean and the counter grows by the sample count |
| PeakDetector.NoiseMeanBetween | ProjectRoot/src/lib_csd/peakdetector.cpp:329 | without wrap-around the new noise level lies between the old level and the new average |
| PeakDetector.SyncTime | ProjectRoot/src/lib_csd/peakdetector.cpp:266-269 | the sync time is the time of the peak `sync_with_peak_from_last` places from the end of the registered ones |
| PeakDetector.PeakDetection.constructor | ProjectRoot/src/lib_csd/peakdetector.cpp:3-34 | any configuration gives an empty detector with arrays of total_num_peaks slots, the configured parameters, the PNR threshold as current threshold and the initial noise level; it is valid exactly when the configuration has at least two peaks and a non-zero ref_seq_len |
| PeakDetector.PeakDetection.Reset | ProjectRoot/src/lib_csd/peakdetector.cpp:86-106 | the fields become the reset state and the four arrays are fresh |
| PeakDetector.PeakDetection.ResetPeaksCounter | ProjectRoot/src/lib_csd/peakdetector.cpp:108-111 | the peak count becomes 0 |
| PeakDetector.PeakDetection.UpdatePnrThreshold | ProjectRoot/src/lib_csd/peakdetector.cpp:75-84 | the fields follow the threshold update |
| PeakDetector.PeakDetection.CollapseToLast | ProjectRoot/src/lib_csd/peakdetector.cpp:127-133 | the fields follow the collapse onto the last peak, in the same arrays |
| PeakDetector.PeakDetection.PrepareInsert | ProjectRoot/src/lib_csd/peakdetector.cpp:115-147 | the fields follow the checks before the write, in the same arrays |
| PeakDetector.PeakDetection.InsertPeak | ProjectRoot/src/lib_csd/peakdetector.cpp:113-166 | the fields follow the corrected insert, in the same arrays |
| PeakDetector.PeakDetection.WriteSlot | ProjectRoot/src/lib_csd/peakdetector.cpp:150-154 | the new peak is written at slot `peaks_count`, which is then counted |
| PeakDetector.PeakDetection.UpdatePrevPeak | ProjectRoot/src/lib_csd/peakdetector.cpp:174-180 | the last peak is dropped, or nothing changes when there is none |
| PeakDetector.PeakDetection.ProcessCorr | ProjectRoot/src/lib_csd/peakdetector.cpp:182-240 | the fields follow the corrected `process_corr`, which stays within the arrays |
| PeakDetector.PeakDetection.IncreaseSamplesCounter | ProjectRoot/src/lib_csd/peakdetector.cpp:242-248 | the fields follow one counted sample |
| PeakDetector.PeakDetection.UpdateNoiseLevel | ProjectRoot/src/lib_csd/peakdetector.cpp:324-336 | the fields follow the noise-level update |
| PeakDetector.PeakDetection.CheckPeaks | ProjectRoot/src/lib_csd/peakdetector.cpp:338-356 | true exactly when every consecutive gap of the slots lies in [ref − tol, ref + tol] |
| PeakDetector.PeakDetection.GetMaxPeakVal | ProjectRoot/src/lib_csd/peakdetector.cpp:64-73 | the largest of the registered peak values and 0 |
| PeakDetector.PeakDetection.AvgOfPeakVals | ProjectRoot/src/lib_csd/peakdetector.cpp:250-264 | the mean magnitude of the inner correlation samples per reference length, and the max PNR recorded from the largest peak |
| PeakDetector.PeakDetection.GetSyncTime | ProjectRoot/src/lib_csd/peakdetector.cpp:266-269 | the time of the peak `sync_with_peak_from_last` places from the end |
| CppPeakDetection.SpacingTests | cpp/PeakDetection.cpp:138-160 | without wrap-around the last-peak test accepts exactly a spacing of `ref_seq_len`, and two registered peaks are kept exactly when within 1 of it |
| CppPeakDetection.PnrThresholdClamped | cpp/PeakDetection.cpp:85-92 | the new threshold never exceeds the cap (max_pnr once set, else 50), is at least `pnr_threshold` when that is below the cap, and equals the scaled previous peak when that lies between them |
| CppPeakDetection.Prepare | cpp/PeakDetection.cpp:132-154 | the collapse check keeps the slot invariant and leaves the count as it was or sets it to 1 |
| CppPeakDetection.Record | cpp/PeakDetection.cpp:186-204 | the write of a new peak keeps the slot invariant |
| CppPeakDetection.Process | cpp/PeakDetection.cpp:226-285 | a peak is reported exactly when the value over the noise level exceeds the current threshold, and otherwise nothing changes |
| CppPeakDetection.Advance | cpp/PeakDetection.cpp:373-408 | `next` returns false exactly when all peaks are registered and `check_peaks` passes, and then only flags the detection; with no peaks nothing changes; with too few or badly spaced ones one more sample is counted; with too many the counter is reset |
| CppPeakDetection.AvgOfEqualPeaks | cpp/PeakDetection.cpp:287-305 | the averaged amplitude of equal peak values is that value |
| CppPeakDetection.MaxPnrOf | cpp/PeakDetection.cpp:303 | the recorded max PNR is at least `pnr_threshold` and at least the scaled largest peak over the noise level |
| CppPeakDetection.SilentRefSignal | cpp/PeakDetection.cpp:307-323 | a reference signal with no non-zero sample gives 0/0, a NaN |
| CppPeakDetection.SyncTime | cpp/PeakDetection.cpp:325-328 | the time of the peak `sync_with_peak_from_last` places from the end |
| CppPeakDetection.InsertFirstPeak | cpp/PeakDetection.cpp:186-204 | the first peak restarts the sample count at 0, is recorded at slot 0 and becomes the previous peak |
| CppPeakDetection.InsertCollapses | cpp/PeakDetection.cpp:132-148 | badly spaced registered peaks collapse onto the last one, moved to slot 0 with the count rebased, and the new peak follows at slot 1 |
| CppPeakDetection.InsertDetection | cpp/PeakDetection.cpp:156-184 | a detection is flagged exactly when, after the collapse check, all slots are used and the new peak is at the right spacing, or one more peak than the total is registered; such an insert records nothing |
| CppPeakDetection.OutOfRangeAsWritten | cpp/PeakDetection.cpp:21-23 | with `total_num_peaks` slots, an insert writes past the arrays exactly when all slots are used and the new peak is not at the right spacing |
| CppPeakDetection.InsertOverflowsAsWritten | cpp/PeakDetection.cpp:193-195 | a concrete run: with ref 10 and two peaks at 0 and 10, a value 12 samples later is written to slot 2 of 2 |
| CppPeakDetection.InsertInRange | cpp/PeakDetection.cpp:129-205 | corrected (one more slot): an insert never writes past the arrays and leaves the noise state alone |
| CppPeakDetection.ProcessInRange | cpp/PeakDetection.cpp:226-285 | corrected: `process_corr` never writes past the arrays |
| CppPeakDetection.ProcessTooFar | cpp/PeakDetection.cpp:248-254 | a peak more than ref + 5 after the previous one becomes the only peak, at index 0 |
| CppPeakDetection.ProcessTooClose | cpp/PeakDetection.cpp:257-266 | a peak closer than ref − 5 replaces the previous one when higher and is otherwise ignored |
| CppPeakDetection.ProcessInWindow | cpp/PeakDetection.cpp:268-269 | a peak within 5 of the reference spacing is inserted without dropping the previous one |
| CppPeakDetection.InsertOrdered | cpp/PeakDetection.cpp:129-205 | an insert keeps the registered indices and the previous peak at or before the sample count |
| CppPeakDetection.ProcessOrdered | cpp/PeakDetection.cpp:226-285 | `process_corr` keeps that order, so `samples_from_last_peak` never underflows |
| CppPeakDetection.NextOrdered | cpp/PeakDetection.cpp:373-408 | `next` keeps that order and the slot invariant while the sample count does not wrap |
| CppPeakDetection.UpdateNoiseSpec | cpp/PeakDetection.cpp:330-353 | nothing changes unless the deviation is below 100% of the level; then the level becomes the count-weighted mean, between the old level and the average, and the counter grows by the sample count |
| CppPeakDetection.RefSignalLength | cpp/PeakDetection.cpp:25 | `ref_signal` is empty exactly when ref_seq_len is 0 |
| CppPeakDetection.SaveBufferLength | cpp/PeakDetection.cpp:40 | the complex save buffer is empty exactly when ref_seq_len or total_num_peaks is 0 |
| CppPeakDetection.PeakDetection.constructor | cpp/PeakDetection.cpp:4-44 | any configuration gives an empty detector with the configured threshold and noise level, zeroed arrays with one spare slot, a zeroed `ref_signal`, and the complex save buffer allocated only when saving is on; it is valid exactly when total_num_peaks and ref_seq_len are non-zero |
| CppPeakDetection.PeakDetection.Reset | cpp/PeakDetection.cpp:94-115 | counters, flag, threshold and noise level are restored and the three peak arrays are fresh |
| CppPeakDetection.PeakDetection.ResetPeaksCounter | cpp/PeakDetection.cpp:117-127 | the count, the sample count and the previous index become 0 and nothing else changes |
| CppPeakDetection.PeakDetection.UpdatePnrThreshold | cpp/PeakDetection.cpp:85-92 | the threshold becomes the clamped scaled previous peak |
| CppPeakDetection.PeakDetection.CollapseToLast | cpp/PeakDetection.cpp:142-147 | the fields follow the collapse onto the last peak |
| CppPeakDetection.PeakDetection.PrepareInsert | cpp/PeakDetection.cpp:132-154 | the fields follow the collapse check |
| CppPeakDetection.PeakDetection.RecordPeak | cpp/PeakDetection.cpp:186-204 | the fields follow the write of the new peak |
| CppPeakDetection.PeakDetection.InsertPeak | cpp/PeakDetection.cpp:129-205 | the fields follow `insertPeak` with one spare slot, which stays within the arrays |
| CppPeakDetection.PeakDetection.UpdatePrevPeak | cpp/PeakDetection.cpp:213-224 | the last peak is dropped, or nothing changes when there is none |
| CppPeakDetection.PeakDetection.ProcessCorr | cpp/PeakDetection.cpp:226-285 | the fields and the result follow `process_corr` |
| CppPeakDetection.PeakDetection.CheckPeaks | cpp/PeakDetection.cpp:355-371 | true exactly when every consecutive gap of the slots lies in [ref − tol, ref + tol] |
| CppPeakDetection.PeakDetection.Next | cpp/PeakDetection.cpp:373-408 | the fields and the result follow `next` |
| CppPeakDetection.PeakDetection.CountSample | cpp/CycleStartDetector.cpp:138 | one more sample is counted (size_t) and nothing else changes |
| CppPeakDetection.PeakDetection.UpdateNoiseLevel | cpp/PeakDetection.cpp:330-353 | the fields follow the noise-level update |
| CppPeakDetection.PeakDetection.GetMaxPeakVal | cpp/PeakDetection.cpp:74-83 | the largest of the registered peak values and 0 |
| CppPeakDetection.PeakDetection.AvgOfPeakVals | cpp/PeakDetection.cpp:287-305 | the mean of the peak values (the first one for a single peak), and the max PNR recorded from the largest peak |
| CppPeakDetection.PeakDetection.EstChPowFromCaptureRefSig | cpp/PeakDetection.cpp:307-323 | the mean magnitude of the non-zero samples of `ref_signal`, NaN when there is none |
| CppPeakDetection.PeakDetection.GetSyncTime | cpp/PeakDetection.cpp:325-328 | the time of the peak `sync_with_peak_from_last` places from the end |
| CppPeakDetection.PeakDetection.SaveFloatDataIntoBuffer | cpp/PeakDetection.cpp:410-417 | with saving on, the float buffer drops its oldest sample and appends the new one; otherwise nothing changes |
| CppPeakDetection.PeakDetection.SaveComplexDataIntoBuffer | cpp/PeakDetection.cpp:419-429 | `ref_signal` drops its oldest sample and appends the new one, and so does the complex save buffer when saving is on; the detector state is unchanged |
| CycleStartDetection.SaveRefLen | ProjectRoot/src/lib_csd/cyclestartdetector.cpp:23 | save_ref_len is N_zfc·(R_zfc + 2) when nothing wraps, and at least N_zfc |
| CycleStartDetection.BufferLen | ProjectRoot/src/lib_csd/cyclestartdetector.cpp:26-27 | the samples buffer holds corr_seq_len + N_zfc − 1 samples |
| CycleStartDetection.FftLength | ProjectRoot/src/lib_csd/cyclestartdetector.cpp:37-40 | the FFT length is the initial length times a power of two, reaches the target, and is below twice the target once it has doubled |
| CycleStartDetection.NextCfoCounter | ProjectRoot/src/lib_csd/cyclestartdetector.cpp:224-226 | the counter is incremented or restarted at 0, and stays below cfo_count_max once below it |
| CycleStartDetection.CfoCorrect | ProjectRoot/src/lib_csd/cyclestartdetector.cpp:219-227 | the correction keeps the packet's length, and a zero offset leaves samples and counter alone |
| CycleStartDetection.CfoCorrectStep | ProjectRoot/src/lib_csd/cyclestartdetector.cpp:219-227 | one more sample appends that sample turned by the rotation for the counter reached so far |
| CycleStartDetection.CfoCounterStaysBelow | ProjectRoot/src/lib_csd/cyclestartdetector.cpp:224-226 | a counter below cfo_count_max stays below it over any packet |
| CycleStartDetection.CfoCorrectSample | ProjectRoot/src/lib_csd/cyclestartdetector.cpp:221-224 | each corrected sample is the packet's sample times cos/−sin of cfo times the counter reached before it |
| CycleStartDetection.CarryOver | ProjectRoot/src/lib_csd/cyclestartdetector.cpp:209-229 | the new samples buffer is the carried-over samples followed by the CFO-corrected packet, with the counter it ends on |
| CycleStartDetection.FillAsWrittenPrefix | ProjectRoot/src/lib_csd/cyclestartdetector.cpp:213-216 | as written, the first slots take the carried-over samples |
| CycleStartDetection.UnloadReadsPastPacket | ProjectRoot/src/lib_csd/cyclestartdetector.cpp:213-219 | as written, with a carried-over sample and a non-empty packet the copy indexes the packet past its end |
| CycleStartDetection.FillAgreesUpTo | ProjectRoot/src/lib_csd/cyclestartdetector.cpp:213-219 | as written, slots below the packet's length are filled without failure |
| CycleStartDetection.AsWrittenAgreesWithoutCarry | ProjectRoot/src/lib_csd/cyclestartdetector.cpp:213-229 | with N_zfc = 1 the as-written copy is the CFO-corrected packet |
| CycleStartDetection.FftCrossCorrelate | ProjectRoot/src/lib_csd/cyclestartdetector.cpp:232-245 | the result has packet_size entries, each the correlation output at its index |
| CycleStartDetection.NextWithoutPeak | ProjectRoot/src/lib_csd/cyclestartdetector.cpp:290-292 | the run of samples without a peak grows by one, restarting at 1 after SIZE_MAX |
| CycleStartDetection.Observe | ProjectRoot/src/lib_csd/cyclestartdetector.cpp:279-293 | a peak zeroes the run and leaves the noise sum; any other sample extends the run and adds its amplitude when noise updates are on |
| CycleStartDetection.CopyCount | ProjectRoot/src/lib_csd/cyclestartdetector.cpp:300-308 | the copy after a detection takes at most N_zfc samples, stopping at the bound |
| CycleStartDetection.ScanWithinBuffers | ProjectRoot/src/lib_csd/cyclestartdetector.cpp:273-321 | a scan that completes saves a window that ends inside the samples and the timer |
| CycleStartDetection.SavedWindow | ProjectRoot/src/lib_csd/cyclestartdetector.cpp:303-318 | saved_ref keeps its length: each sample shifted in drops the oldest |
| CycleStartDetection.ScanInRange | ProjectRoot/src/lib_csd/cyclestartdetector.cpp:273-321 | with the copy bounded by the block, a scan never indexes past the samples or the timer |
| CycleStartDetection.ShortBlockReadsPast | ProjectRoot/src/lib_csd/cyclestartdetector.cpp:301-304 | as written, a detection within N_zfc − 1 samples of the end of a short block reads past the samples buffer |
| CycleStartDetection.ScanStopsAtFirstDetection | ProjectRoot/src/lib_csd/cyclestartdetector.cpp:295-320 | the scan stops at the first detection flag, reaches the block's end only without one, and counts each sample before the stop once |
| CycleStartDetection.ScanFoundPeak | ProjectRoot/src/lib_csd/cyclestartdetector.cpp:279-293 | found_peak after the scan is the verdict on the last sample processed, and a peak leaves the run at 0 |
| CycleStartDetection.ScanCountsMisses | ProjectRoot/src/lib_csd/cyclestartdetector.cpp:284-293 | a block without peaks and detections extends the run by its length |
| CycleStartDetection.NoiseCall | ProjectRoot/src/lib_csd/cyclestartdetector.cpp:324-325 | the noise level is updated, with sum_ampl / corr_seq_len, exactly when no detection fired, the last sample was no peak and updates are on |
| CycleStartDetection.NoiseCallOnLastSample | ProjectRoot/src/lib_csd/cyclestartdetector.cpp:273-325 | after a non-empty block the noise update happens exactly when detection never fired, updates are on and the last sample was no peak |
| CycleStartDetection.CopyAfterDetection | ProjectRoot/src/lib_csd/cyclestartdetector.cpp:300-308 | the copy shifts into saved_ref and its timer exactly the CopyCount samples after the detection |
| CycleStartDetection.ScanUntilFlag | ProjectRoot/src/lib_csd/cyclestartdetector.cpp:273-320 | the loop stops at the first flag or the block's end, with every earlier sample shifted into the saved windows |
| CycleStartDetection.SavedAfterDetection | ProjectRoot/src/lib_csd/cyclestartdetector.cpp:300-318 | the samples shifted in before a detection, followed by the copy after it, are the saved window |
| CycleStartDetection.EmptyTimerReadsPast | ProjectRoot/src/lib_csd/cyclestartdetector.cpp:305-306 | over the empty timer the constructor leaves, the scan of any non-empty block reads past the timer |
| CycleStartDetection.ScanBlock | ProjectRoot/src/lib_csd/cyclestartdetector.cpp:264-326 | peak_detector on a block yields the scan's counters, detection index, noise update and saved windows |
| CycleStartDetection.WaitTime | ProjectRoot/src/lib_csd/cyclestartdetector.cpp:334-338 | the transmission time is never before the sync time |
| CycleStartDetection.CycleStartDetector.constructor | ProjectRoot/src/lib_csd/cyclestartdetector.cpp:3-60 | the ring empty with the given capacity, saved_ref and the samples buffer zeroed at their lengths, counters and CFO at 0, both FFT lengths doubled to fit; saved_ref_timer and timer left empty as written, sized (the timer given) when corrected |
| CycleStartDetection.CycleStartDetector.Produce | ProjectRoot/src/lib_csd/cyclestartdetector.cpp:144-158 | the packet cut to its true size is pushed when the ring has room, and otherwise nothing changes and the stop flag is set |
| CycleStartDetection.CycleStartDetector.UnloadPacket | ProjectRoot/src/lib_csd/cyclestartdetector.cpp:191-230 | the oldest packet is popped and the samples buffer becomes the last N_zfc − 1 old samples then the CFO-corrected packet |
| CycleStartDetection.CycleStartDetector.ScanCorrelation | ProjectRoot/src/lib_csd/cyclestartdetector.cpp:264-326 | succeeds exactly when the scan stays within the samples and the timer and saved_ref_timer is non-empty (or the block is empty); then the detector's saved windows and run counter become the scan's, otherwise nothing changes |
| CycleStartDetection.CycleStartDetector.Reset | ProjectRoot/src/lib_csd/cyclestartdetector.cpp:62-73 | the ring empty, the buffers back to their zeroed lengths, counters and packet timers at 0, and the detector still valid |
| CycleStartDetection.CycleStartDetector.ResetAsWritten | ProjectRoot/src/lib_csd/cyclestartdetector.cpp:62-73 | as written, the ring's storage and the samples buffer are emptied and the detector is left invalid |
| CycleStartDetection.CycleStartDetector.ConsumePacket | ProjectRoot/src/lib_csd/cyclestartdetector.cpp:172-188 | a packet unloaded behind the carried samples, correlated and scanned; the effect is ReadPast exactly when that scan would index past the timer or shift into an empty saved_ref_timer, and never when the timer covers the samples buffer and saved_ref_timer is non-empty |
| CycleStartDetection.CycleStartDetector.Consume | ProjectRoot/src/lib_csd/cyclestartdetector.cpp:160-189 | after a detection the CFO is accumulated, the transmission time set and the detector reset; otherwise a packet is scanned and the CFO kept, the scan completing whenever the timer covers the samples buffer and saved_ref_timer is non-empty |
| CppCycleStartDetection.SizeMul | cpp/CycleStartDetector.cpp:25-26 | size_t multiplication is exact when the product fits |
| CppCycleStartDetection.Layout | cpp/CycleStartDetector.cpp:24-32 | the constructor throws exactly when capacity < corr_seq_len + N_zfc, and otherwise yields (capacity, corr_seq_len) |
| CppCycleStartDetection.LayoutWithoutWrap | cpp/CycleStartDetector.cpp:25-32 | without wrap-around the check passes exactly when a block and one ZFC length fit in the ring |
| CppCycleStartDetection.NextSlot | cpp/CycleStartDetector.cpp:67 | rear moves to (rear + 1) mod capacity |
| CppCycleStartDetection.AdvanceOneLap | cpp/CycleStartDetector.cpp:62-69 | n single steps move rear to (rear + n) mod capacity |
| CppCycleStartDetection.RingWriteSpec | cpp/CycleStartDetector.cpp:62-69 | a slot is overwritten exactly when it lies within n steps of rear, with the sample written at that step |
| CppCycleStartDetection.SampleTimes | cpp/CycleStartDetector.cpp:58-68 | sample k is stamped with the packet time plus k sample durations |
| CppCycleStartDetection.FillRing | cpp/CycleStartDetector.cpp:57-69 | the write loop fills the ring and the timer from rear and advances rear by the number written |
| CppCycleStartDetection.ProduceKeepsConsistency | cpp/CycleStartDetector.cpp:62-73 | writing as many samples as are counted keeps rear num_produced slots after front |
| CppCycleStartDetection.ShortReceiveDesyncs | cpp/CycleStartDetector.cpp:62-73 | four samples passed with samples_size 2 leave rear and num_produced out of step |
| CppCycleStartDetection.CorrReadsWindow | cpp/CycleStartDetector.cpp:122-124 | the correlation at an offset reads only the N_zfc ring slots from it |
| CppCycleStartDetection.Correlate | cpp/CycleStartDetector.cpp:122-124 | the inner loop computes the sum of samples[(front + i + j) mod capacity] · conj(zfc[j]) |
| CppCycleStartDetection.TapAt | cpp/CycleStartDetector.cpp:122-130 | each offset reads its correlation, its sample and its time from the ring |
| CppCycleStartDetection.TapsReadWindow | cpp/CycleStartDetector.cpp:119-130 | two rings that agree on the block and its ZFC tail give the same taps |
| CppCycleStartDetection.DetectFrom | cpp/CycleStartDetector.cpp:119-139 | the scan stops before the block's end only on a detection, which comes with all peaks registered, and keeps the noise level |
| CppCycleStartDetection.DetectAt | cpp/CycleStartDetector.cpp:126-138 | processing one offset moves past it and keeps the noise level |
| CppCycleStartDetection.DetectFromStep | cpp/CycleStartDetector.cpp:126-138 | a detection ends the scan at the next offset; otherwise the scan goes on with samples_from_first_peak incremented |
| CppCycleStartDetection.AmplSumNonNegative | cpp/CycleStartDetector.cpp:128-133 | the amplitude sum is never negative |
| CppCycleStartDetection.BlockScanOf | cpp/CycleStartDetector.cpp:119-139 | the scan scans the whole block unless it detects, shifts each processed sample into the windows without changing their lengths, and keeps the noise level |
| CppCycleStartDetection.ProgressStep | cpp/CycleStartDetector.cpp:119-139 | one offset either ends the loop on a detection or continues it with the windows, sum and state the scan specifies |
| CppCycleStartDetection.NoiseUpdateUsesWholeBlock | cpp/CycleStartDetector.cpp:141-143 | the noise update runs only on a block scanned to its end, with the mean amplitude of all its offsets |
| CppCycleStartDetection.AfterScanKeepsNoise | cpp/CycleStartDetector.cpp:141-143 | after the noise update the level stays positive, the counter non-negative and a pending detection is untouched |
| CppCycleStartDetection.WaitTime | cpp/CycleStartDetector.cpp:252-256 | the transmission time is never before the sync peak's time |
| CppCycleStartDetection.WaitTimeShifts | cpp/CycleStartDetector.cpp:252-256 | moving the sync peak moves the transmission time by as much |
| CppCycleStartDetection.CycleStartDetector.constructor | cpp/CycleStartDetector.cpp:5-36 | the ring at slot 0 with nothing produced, the buffers holding capacity zeros |
| CppCycleStartDetection.CycleStartDetector.Reset | cpp/CycleStartDetector.cpp:38-48 | the ring restarts at slot 0 with nothing produced, and capacity zeros are inserted in front of both buffers |
| CppCycleStartDetection.CycleStartDetector.Produce | cpp/CycleStartDetector.cpp:50-77 | every sample passed is written from rear with its time, while num_produced grows by samples_size |
| CppCycleStartDetection.CycleStartDetector.ProduceReceived | cpp/CycleStartDetector.cpp:50-77 | writing only the received samples keeps the ring consistent |
| CppCycleStartDetection.CycleStartDetector.ScanOffset | cpp/CycleStartDetector.cpp:121-133 | one offset: process_corr on its correlation, its sample shifted into the windows, its amplitude added when tracked |
| CppCycleStartDetection.CycleStartDetector.ScanIteration | cpp/CycleStartDetector.cpp:119-139 | one pass keeps the loop's progress invariant, or ends it on a detection |
| CppCycleStartDetection.CycleStartDetector.ScanLoop | cpp/CycleStartDetector.cpp:119-139 | the loop performs exactly the scan the detection specifies |
| CppCycleStartDetection.CycleStartDetector.ScanBlock | cpp/CycleStartDetector.cpp:112-139 | the detector's state, windows, found flag and sum become the block scan's |
| CppCycleStartDetection.CycleStartDetector.CorrelationOperation | cpp/CycleStartDetector.cpp:112-144 | the block scan followed by the noise update |
| CppCycleStartDetection.CycleStartDetector.DetectionReached | cpp/CycleStartDetector.cpp:90-101 | the wait time from the sync peak, the amplitude from the peak values, then the ring and the peak detector reset |
| CppCycleStartDetection.CycleStartDetector.Consume | cpp/CycleStartDetector.cpp:79-110 | success exactly when the block scan detects; then the timers and resets, otherwise front advances one block and num_produced drops by one block |
| CppCsdTest.GenerateZadoffChuSequence | cpp/CycleStartDetectorTest.cpp:232-244 | the loop yields the N unit-modulus values e^{−iπ·m·n·(n + 1)/N} |
| CppCsdTest.SampleIndex | cpp/CycleStartDetectorTest.cpp:121-124 | the slot the inner loop reads lies inside the ring |
| CppCsdTest.OneSampleCorrelation | cpp/CycleStartDetectorTest.cpp:121-124 | as written, offset i multiplies the one sample at front + i with the sum of the conjugated reference |
| CppCsdTest.BalancedReferenceCancels | cpp/CycleStartDetectorTest.cpp:121-124 | as written, a reference whose conjugates sum to zero correlates to zero at every offset |
| CppCsdTest.PairFacts | cpp/CycleStartDetectorTest.cpp:121-124 | a reference [z, −z] is balanced and has energy 2·abs(z)² |
| CppCsdTest.PairWindow | cpp/CycleStartDetectorTest.cpp:121-124 | a two-slot ring read from slot 0 presents its contents in order to the sliding window |
| CppCsdTest.SameSampleCorrelation | cpp/CycleStartDetectorTest.cpp:121-124 | a ring holding a non-zero reference [z, −z] correlates to zero as written and to 2·abs(z)² with the sliding window |
| CppCsdTest.MatchedCorrelation | cpp/CycleStartDetectorTest.cpp:121-124 | with the sliding window, a window holding the reference correlates to the reference's energy |
| CppCsdTest.CorrelateAt | cpp/CycleStartDetectorTest.cpp:120-124 | the inner loop computes the sliding-window correlation |
| CppCsdTest.RunningMax | cpp/CycleStartDetectorTest.cpp:115-131 | max_corr is non-negative, bounds every value and is 0 or one of them |
| CppCsdTest.Correlations | cpp/CycleStartDetectorTest.cpp:118-132 | the loop fills abs_corr with the correlation magnitudes, sums them and takes their maximum |
| CppCsdTest.PositiveSumHasPositive | cpp/CycleStartDetectorTest.cpp:134-141 | a positive sum of magnitudes has a positive magnitude |
| CppCsdTest.Peaks | cpp/CycleStartDetectorTest.cpp:214-225 | every kept index lies in the block and exceeds the threshold |
| CppCsdTest.PeaksStep | cpp/CycleStartDetectorTest.cpp:216-223 | one more value keeps the peaks or appends its own index |
| CppCsdTest.PeaksSpaced | cpp/CycleStartDetectorTest.cpp:214-225 | the peaks are increasing and more than min_peak_sep apart |
| CppCsdTest.PeaksComplete | cpp/CycleStartDetectorTest.cpp:214-225 | a value above the threshold is skipped only within min_peak_sep after a kept index |
| CppCsdTest.PeaksNonEmpty | cpp/CycleStartDetectorTest.cpp:214-225 | a value above the threshold always yields a peak |
| CppCsdTest.FindPeaks | cpp/CycleStartDetectorTest.cpp:204-229 | {0} for an empty abs_corr, otherwise the spaced peaks |
| CppCsdTest.PeaksAsWrittenUndefined | cpp/CycleStartDetectorTest.cpp:213-220 | as written, the first value above the threshold reads back() of an empty vector, and a block without one yields no peaks |
| CppCsdTest.MaxNat | cpp/CycleStartDetectorTest.cpp:171 | max_element bounds every peak and is one of them |
| CppCsdTest.Verdict | cpp/CycleStartDetectorTest.cpp:155-199 | 1 with the last peak exactly when there are at least two and at least R_zfc peaks; −1 with the first peak for one peak or a last peak within N_zfc of the end; otherwise 0 |
| CppCsdTest.Decision | cpp/CycleStartDetectorTest.cpp:134-200 | the reported index is 0 or inside the block |
| CppCsdTest.Decide | cpp/CycleStartDetectorTest.cpp:134-200 | the decision part of correlation_operation computes the ratio test and the verdict on the peaks |
| CppCsdTest.DecideOnPeaks | cpp/CycleStartDetectorTest.cpp:146-200 | a block past the ratio test gets the verdict of its peaks at 0.7 of the maximum, 20 apart |
| CppCsdTest.PassingBlockHasPeak | cpp/CycleStartDetectorTest.cpp:141-147 | a block with positive energy has a peak at 0.7 of its maximum, and as written findPeaks reads back() of an empty vector on it |
| CppCsdTest.MaxAboveFraction | cpp/CycleStartDetectorTest.cpp:128-146 | with a positive sum some value exceeds 0.7 of the maximum |
| CppCsdTest.AboveThresholdHasPeak | cpp/CycleStartDetectorTest.cpp:213-225 | a value above the threshold yields a peak, and as written reaches the empty-vector read |
| CppCsdTest.PeakTime | cpp/CycleStartDetectorTest.cpp:347-354 | a detection reports a time from the timer, anything else 0 |
| CppCsdTest.Settle | cpp/CycleStartDetectorTest.cpp:321-338 | the corrected front stays inside the ring |
| CppCsdTest.DiscardKeepsRing | cpp/CycleStartDetectorTest.cpp:321-325 | verdict 0 keeps rear num_produced slots after front |
| CppCsdTest.RewindKeepsRing | cpp/CycleStartDetectorTest.cpp:326-332 | corrected, verdict −1 keeps rear num_produced slots after front |
| CppCsdTest.RewindAsWrittenBreaksRing | cpp/CycleStartDetectorTest.cpp:326-332 | as written, a first peak at 5 with N_zfc = 10 wraps the removed count and breaks the ring |
| CppCsdTest.SettleRing | cpp/CycleStartDetectorTest.cpp:316-354 | the ring update for a verdict, with front inside the ring and the reported time |
| CppCsdTest.CycleStartDetector.constructor | cpp/CycleStartDetectorTest.cpp:106-108 | buffers of capacity defaults, abs_corr of num_samp_consume zeros, the ring at 0 and the ZFC reference generated |
| CppCsdTest.CycleStartDetector.Produce | cpp/CycleStartDetectorTest.cpp:247-285 | every sample written from rear with its time, num_produced grown by the packet size, consistency kept when it fits |
| CppCsdTest.CycleStartDetector.CorrelationOperation | cpp/CycleStartDetectorTest.cpp:111-201 | abs_corr holds the block's correlation magnitudes and the verdict is the decision on them |
| CppCsdTest.CycleStartDetector.Consume | cpp/CycleStartDetectorTest.cpp:287-355 | the block's verdict, the ring settled for it, success exactly on verdict 1 with the peak's time |
| Otac.SqRatio | ProjectRoot/src/lib_otac/otac_processor.cpp:139 | the squared ratio times val1² is (val1 − val2)² |
| Otac.ComputeNmse | ProjectRoot/src/lib_otac/otac_processor.cpp:137-140 | the NMSE is non-finite exactly when val1 is 0, and otherwise non-negative |
| Otac.NmseZeroIffEqual | ProjectRoot/src/lib_otac/otac_processor.cpp:137-140 | the NMSE is 0 exactly when output equals input |
| Otac.NmseIsRelativeError | ProjectRoot/src/lib_otac/otac_processor.cpp:137-140 | the NMSE is the relative error abs(val1 − val2) / abs(val1) |
| Otac.ClampFullScale | ProjectRoot/src/lib_otac/otac_processor.cpp:106-112 | a full_scale read outside (0, 1) becomes 1.0; one inside is kept |
| Otac.PostScaling | ProjectRoot/src/lib_otac/otac_processor.cpp:188 | post_scaling lies in (0, 1], and is full_scale / sqrt(ctol / min_e2e_pow) when that is at most 1 |
| Otac.SigScale | ProjectRoot/src/lib_otac/otac_processor.cpp:188-189 | the signal scale lies between 0 and the square root of the input power |
| Otac.InputPower | ProjectRoot/src/lib_otac/otac_processor.cpp:182 | the input power times (dmax − dmin) is otac_input − dmin, and lies in [0, 1] for an input in range |
| Otac.Powers | ProjectRoot/src/lib_otac/otac_processor.cpp:182 | one normalised power per leaf input |
| Otac.PowersSum | ProjectRoot/src/lib_otac/otac_processor.cpp:182-197 | the leaves' summed powers normalise their summed inputs |
| Otac.PreProcessing | ProjectRoot/src/lib_otac/otac_processor.cpp:174-191 | fails exactly when the input is out of range; yields NaN when dmin = dmax and the signal scale otherwise |
| Otac.PostProcessing | ProjectRoot/src/lib_otac/otac_processor.cpp:193-207 | fails exactly when the output leaves [dmin·num_leafs, dmax·num_leafs], and otherwise yields it |
| Otac.PostInverts | ProjectRoot/src/lib_otac/otac_processor.cpp:193-197 | post-processing of noise plus min_e2e_pow times the summed powers recovers the summed inputs |
| Otac.OtacRoundTrip | ProjectRoot/src/lib_otac/otac_processor.cpp:174-207 | leaf inputs in range, pre-processed, received with the noise and post-processed, come back as their sum |
| Otac.PostOfPowers | ProjectRoot/src/lib_otac/otac_processor.cpp:193-197 | the post-processed value of the received summed powers is the sum of the inputs |
| Otac.PreScaleAtMostOne | ProjectRoot/src/lib_otac/otac_processor.cpp:174-191 | the transmitted scale never exceeds 1 |
| Otac.ClampScale | ProjectRoot/src/lib_otac/otac_processor.cpp:374-378 | the scale is clamped at 1.0 |
| Otac.RetunedGain | ProjectRoot/src/lib_otac/otac_processor.cpp:142-172 | the gain is kept in range, floored from gain − toDecibel(ctol / upper) above it and ceiled from gain − toDecibel(ctol / lower) below it |
| Otac.RetuneLowersGain | ProjectRoot/src/lib_otac/otac_processor.cpp:148-157 | a ctol above the range lowers the gain |
| Otac.RetuneRaisesGain | ProjectRoot/src/lib_otac/otac_processor.cpp:159-168 | a ctol below the range raises the gain |
| Otac.StaleRxGainRaises | ProjectRoot/src/lib_otac/otac_processor.cpp:148-157 | as written, with a member RX gain stuck at 30 dB and a ctol just above the range, a radio at 23 dB is retuned to 29 dB, where the stored member would give 22 dB |
| Otac.Norms | ProjectRoot/src/lib_otac/otac_processor.cpp:450-452 | norm_samples holds the squared magnitude of each sample |
| Otac.RangeSumCons | ProjectRoot/src/lib_otac/otac_processor.cpp:460-469 | a window sum is its first value plus the rest |
| Otac.SlideWindow | ProjectRoot/src/lib_otac/otac_processor.cpp:466-469 | sliding the window drops the value before it and adds the value at its end |
| Otac.BestPowerIsMax | ProjectRoot/src/lib_otac/otac_processor.cpp:454-477 | max_val is non-negative and at least every window's mean power |
| Otac.BestIndexFirst | ProjectRoot/src/lib_otac/otac_processor.cpp:471-476 | max_index is 0 without a positive window, and otherwise the first window of maximal power |
| Otac.ScanWindows | ProjectRoot/src/lib_otac/otac_processor.cpp:454-477 | the window loop yields the maximal mean power and its first index |
| Otac.Burst | ProjectRoot/src/lib_otac/otac_processor.cpp:371-393 | the full-scale waveform at scale 1.0, then the OTA-C waveform at the clamped scale, each sample rotated for its counter |
| Otac.BurstRampRestarts | ProjectRoot/src/lib_otac/otac_processor.cpp:380-387 | as written, the first transmitted sample is rotated with counter equal to the OTA-C length and the first OTA-C sample with 0 |
| Otac.BurstRampContinuous | ProjectRoot/src/lib_otac/otac_processor.cpp:371-393 | corrected, sample k of the burst is rotated with counter k |
| Otac.BurstWithoutCfo | ProjectRoot/src/lib_otac/otac_processor.cpp:371-393 | without a CFO the burst is the two waveforms scaled |
| Otac.RotateCopy | ProjectRoot/src/lib_otac/otac_processor.cpp:380-385 | correct_cfo_tx rotates each sample for its counter and advances the counter by the waveform's length |
| Otac.BurstOfRotated | ProjectRoot/src/lib_otac/otac_processor.cpp:380-387 | the burst is the rotated full-scale copy followed by the rotated OTA-C copy |
| Otac.RotateBurst | ProjectRoot/src/lib_otac/otac_processor.cpp:371-393 | the body of transmission_otac builds the burst |
| Otac.OtacProcessor.constructor | ProjectRoot/src/lib_otac/otac_processor.cpp:8-27 | stores the input, its range and the number of leaves |
| Otac.OtacProcessor.Initialize | ProjectRoot/src/lib_otac/otac_processor.cpp:89-121 | the noise power (from initialize_peak_det_obj) and the end-to-end power bounds from their amplitudes, and full_scale clamped into (0, 1] when it was read |
| Otac.OtacProcessor.CheckCtol | ProjectRoot/src/lib_otac/otac_processor.cpp:142-172 | true exactly when ctol lies in [min_e2e_pow, max_e2e_pow], and then no gain changes; otherwise the radio's RX gain is retuned from the member RX gain, and the member keeps its old value as written and takes the new gain when set_rx_gain stores it |
| Otac.OtacProcessor.SetRxGain | ProjectRoot/src/lib_usrp/usrp_class.cpp:324-330 | the radio takes the gain; the member keeps its old value as written and takes the gain when it is stored |
| Otac.OtacProcessor.OtacSignalDetection | ProjectRoot/src/lib_otac/otac_processor.cpp:434-493 | type 0 yields 0.1, type 1 the best window's power and start time when it clears 10 × noise_power, any other type fails |
| Otac.OtacProcessor.ReceptionOtac | ProjectRoot/src/lib_otac/otac_processor.cpp:423-493 | fails unless exactly 10 × test-signal-len samples arrive; then type 0 yields 0.1, type 1 succeeds exactly when the best window's mean power clears 10 × noise_power and then yields it and its start time, and any other type fails, leaving power and timer unchanged on every failure |
| Otac.OtacProcessor.TransmissionOtac | ProjectRoot/src/lib_otac/otac_processor.cpp:371-393 | the burst handed to the radio |
| Calibration.AssignRoles | ProjectRoot/src/lib_cal/calibration.cpp:22-31 | "cent" makes the device the centre and the counterpart the leaf, "leaf" the other way round, any other type assigns neither |
| Calibration.MqttTopics | ProjectRoot/src/lib_cal/calibration.cpp:58-78 | the client id is the leaf's on a leaf, the centre's on a centre, and empty otherwise |
| Calibration.PairSharesTopics | ProjectRoot/src/lib_cal/calibration.cpp:58-78 | a centre and its leaf agree on their roles and on the flag, LTOC, CTOL, scale and full-scale topics |
| Calibration.CloseIsRelative | ProjectRoot/src/lib_cal/calibration.cpp:164-166 | two values are close exactly when (v1 − v2)² < 5e-3 · v1², with v1 non-zero |
| Calibration.CloseSelf | ProjectRoot/src/lib_cal/calibration.cpp:164-166 | a value is close to itself exactly when it is non-zero |
| Calibration.Trailing | ProjectRoot/src/lib_cal/calibration.cpp:162-181 | the run of close results at the end is no longer than the run |
| Calibration.RunCounter | ProjectRoot/src/lib_cal/calibration.cpp:162-181 | current_reps_cal counts the trailing close results, capped at total_reps_cal |
| Calibration.ProximityPassesIffRun | ProjectRoot/src/lib_cal/calibration.cpp:162-181 | from a cleared counter a call passes exactly when it and the total_reps_cal (2) calls before it were all close |
| Calibration.RefWaveform | ProjectRoot/src/lib_cal/calibration.cpp:80-89 | the REF burst has the padding, R_zfc copies of the N_zfc-sample ZFC sequence and the padding again, 2·padding + R_zfc·N_zfc samples |
| Calibration.RandWaveform | ProjectRoot/src/lib_cal/calibration.cpp:91-92 | the random burst has num_samps_sync unit-circle samples from seed 123 at half_scale |
| Calibration.ScaleByOne | ProjectRoot/src/lib_cal/calibration.cpp:465 | scaling by 1 changes nothing, so skipping it at scale 1 is sound |
| Calibration.ScaleInPlace | ProjectRoot/src/lib_cal/calibration.cpp:467-475 | the loop multiplies every element of the waveform by the scale |
| Calibration.ScaledCopy | ProjectRoot/src/lib_cal/calibration.cpp:463-476 | the transmitted copy is the waveform scaled, the stored waveform untouched |
| Calibration.HalfDbCeil | ProjectRoot/src/lib_cal/calibration.cpp:318 | ceil(2g)/2 is the least half decibel at or above g |
| Calibration.LeafGainStep | ProjectRoot/src/lib_cal/calibration.cpp:317-346 | past max_tx_gain the TX gain is pinned at 86 and the RX gain moves by the deficit, rounded up to a whole decibel; otherwise the TX gain is the request rounded up to the half decibel and the scale, capped at 2, is the request minus the member TX gain in decibels, that member being the old gain as written and the rounded gain when set_tx_gain stores it |
| Calibration.RetransmitLowersRx | ProjectRoot/src/lib_cal/calibration.cpp:320-323 | past the limit the rounded RX gain never rises by a whole decibel, and does not rise from a whole-decibel gain |
| Calibration.RetunedMatchesRequest | ProjectRoot/src/lib_cal/calibration.cpp:332-346 | with set_tx_gain storing the gain, below the limit the scale is at most 1 and the TX gain plus the scale in decibels is the requested gain |
| Calibration.StaleTxGainDoubleCounts | ProjectRoot/src/lib_cal/calibration.cpp:334-343 | as written, when the cap does not fire, the TX gain plus the scale in decibels overshoots the request by the TX gain's own move |
| Calibration.StaleTxGainExample | ProjectRoot/src/lib_cal/calibration.cpp:317-346 | a member gain of 50 dB and a request of 56.3 dB give TX 56.5 dB with scale 1 as written, and with scale 10^(−0.2/20) when the member is stored |
| Calibration.Calibration.constructor | ProjectRoot/src/lib_cal/calibration.cpp:5-34 | roles assigned, num_samps_sync = 50 × max_rx_packet_size in size_t and the wait truncated to whole microseconds |
| Calibration.Calibration.GenerateWaveform | ProjectRoot/src/lib_cal/calibration.cpp:80-93 | the stored REF and random bursts |
| Calibration.Calibration.Initialize | ProjectRoot/src/lib_cal/calibration.cpp:95-131 | success and end flags cleared, ltoc = ctol = −1, the bursts generated, and a leaf's stored full scale taken (failing when it is not a number) |
| Calibration.Calibration.ProximityCheck | ProjectRoot/src/lib_cal/calibration.cpp:162-181 | the result and the new counter of one proximity check |
| Calibration.Calibration.CallbackUpdateLtoc | ProjectRoot/src/lib_cal/calibration.cpp:184-206 | a payload with a value sets ltoc and recv_success and, with ctol known, runs the proximity check; a parse error only logs |
| Calibration.Calibration.CallbackDetectFlags | ProjectRoot/src/lib_cal/calibration.cpp:208-231 | "recv", "retx" and "end" raise their flag, nothing clears one, anything else changes nothing |
| Calibration.Calibration.LeafGainUpdate | ProjectRoot/src/lib_cal/calibration.cpp:314-348 | without a fresh LTOC nothing changes; with one, the radio's gains and the scale take the gain step computed from the member gains, recv_success is cleared and a retransmit is reported past the limit; as written the member gains never change, and with set_tx_gain and set_rx_gain storing the gain the members stay in step with the radio |
| Calibration.Calibration.SetTxGain | ProjectRoot/src/lib_usrp/usrp_class.cpp:316-322 | the radio takes the gain; the member keeps its old value as written and takes the gain when it is stored |
| Calibration.Calibration.SetRxGain | ProjectRoot/src/lib_usrp/usrp_class.cpp:324-330 | the radio takes the gain; the member keeps its old value as written and takes the gain when it is stored |
| Calibration.Calibration.TransmitWaveform | ProjectRoot/src/lib_cal/calibration.cpp:461-482 | scaled copies of both bursts, the REF 5 ms from now and the random burst the configured gap after the REF ends |
| Waveforms.ZadoffChu | ProjectRoot/src/lib_waveform/waveforms.cpp:20-33 | the Zadoff-Chu sequence has wf_len samples |
| Waveforms.GenerateZadoffChu | ProjectRoot/src/lib_waveform/waveforms.cpp:20-33 | sample n is scale · e^{−iπ·q·n·(n + 1)/wf_len} |
| Waveforms.UnitCircleRandom | ProjectRoot/src/lib_waveform/waveforms.cpp:35-55 | the random sequence has wf_len samples |
| Waveforms.GenerateUnitCircleRandom | ProjectRoot/src/lib_waveform/waveforms.cpp:35-55 | sample i has magnitude scale and the i-th phase of the generator seeded with rand_seed |
| Waveforms.GenerateImpulse | ProjectRoot/src/lib_waveform/waveforms.cpp:57-68 | zeros except sample wf_len/2 − 1, which has magnitude scale and phase 0.71 |
| Waveforms.GenerateDftSeq | ProjectRoot/src/lib_waveform/waveforms.cpp:70-82 | sample n has magnitude scale / sqrt(wf_len) and angle 2π·q·n/wf_len |
| Waveforms.Repeat | ProjectRoot/src/lib_waveform/waveforms.cpp:113-118 | the repetition loop yields wf_reps copies of the base with wf_gap zeros between consecutive copies |
| Waveforms.BodyLength | ProjectRoot/src/lib_waveform/waveforms.cpp:113-118 | the repetitions have reps·len + (reps − 1)·gap samples |
| Waveforms.BodyPrefix | ProjectRoot/src/lib_waveform/waveforms.cpp:113-118 | each step of the loop only appends |
| Waveforms.BodyCopy | ProjectRoot/src/lib_waveform/waveforms.cpp:113-118 | copy k of the base starts at k·(len + gap) |
| Waveforms.BodyGap | ProjectRoot/src/lib_waveform/waveforms.cpp:116-117 | the gap after copy k holds zeros |
| Waveforms.Base | ProjectRoot/src/lib_waveform/waveforms.cpp:90-110 | every type but SINE gives wf_len samples; the DFT type gives the impulse; SINE gives nothing |
| Waveforms.GenerateBase | ProjectRoot/src/lib_waveform/waveforms.cpp:88-110 | the switch of generate_waveform picks the base sequence for the type |
| Waveforms.LayoutLength | ProjectRoot/src/lib_waveform/waveforms.cpp:84-128 | the waveform has 2·pad + reps·len + (reps − 1)·gap samples |
| Waveforms.WaveformGenerator.constructor | ProjectRoot/src/lib_waveform/waveforms.cpp:6 | a generator at scale 1.0 |
| Waveforms.WaveformGenerator.Initialize | ProjectRoot/src/lib_waveform/waveforms.cpp:8-18 | stores every parameter |
| Waveforms.WaveformGenerator.GenerateWaveform | ProjectRoot/src/lib_waveform/waveforms.cpp:84-128 | wf_pad zeros, the repetitions of the base, wf_pad zeros |
| CppWaveforms.Base | cpp/waveforms.cpp:61-80 | the three listed types give wf_len samples; any other type gives no base |
| CppWaveforms.ScaleSamples | cpp/waveforms.cpp:94-99 | every base sample multiplied by the padding's scale factor |
| CppWaveforms.CyclicLayout | cpp/waveforms.cpp:91-102 | the padded waveform is 0.3·base[2..], then the repetitions unchanged, then 0.3·base[..len − 2], and has 2·(len − 2) more samples than the repetitions |
| CppWaveforms.GenerateWaveform | cpp/waveforms.cpp:55-105 | the repetitions of the base with gaps, cyclically padded when asked |
| Ofdm.FftSpec | cpp/OFDM.cpp:6-35 | the radix-2 transform keeps the length; output i is the butterfly of the even and odd halves' transforms with twiddle wn^(i mod n/2), halved when inverting |
| Ofdm.Combine | cpp/OFDM.cpp:24-34 | the butterfly loop writes a[i] = a0[i] + w·a1[i] and a[i + n/2] = a0[i] − w·a1[i], halved when inverting |
| Ofdm.SplitEvenOdd | cpp/OFDM.cpp:12-17 | two new, distinct vectors of half the length, holding the even-indexed and the odd-indexed entries |
| Ofdm.FftRecursive | cpp/OFDM.cpp:6-35 | the array afterwards holds the radix-2 transform of its old contents |
| Ofdm.FftSpecZeros | cpp/OFDM.cpp:6-35 | the transform of an all-zero block is all zeros, forward and inverse |
| Ofdm.Fft | cpp/OFDM.cpp:37-42 | the forward transform of a copy of the input, of the same length |
| Ofdm.Ifft | cpp/OFDM.cpp:44-49 | the inverse transform of a copy of the input, of the same length |
| Ofdm.AddCp | cpp/OFDM.cpp:51-59 | N + CP samples: the last CP input samples, then the input, then zeros |
| Ofdm.RemoveCp | cpp/OFDM.cpp:61-67 | N samples: the input after its first CP samples, then zeros |
| Ofdm.RemoveAddCp | cpp/OFDM.cpp:51-67 | removing the prefix undoes adding it; a block of N samples comes back unchanged |
| Ofdm.SegmentData | cpp/OFDM.cpp:69-81 | ceil(size/N) blocks that concatenate to the data, each of N samples except a shorter last one |
| Ofdm.PlacedShape | cpp/OFDM.cpp:83-97 | the placed symbols are the input, without the symbol at index N/2 − 1 when skipping the DC subcarrier |
| Ofdm.PlaceSymbols | cpp/OFDM.cpp:89-95 | the placement loop writes the kept symbols in order from subcarrier 0 and leaves the rest zero |
| Ofdm.MapToSubcarriers | cpp/OFDM.cpp:83-97 | N subcarriers: the kept symbols in order, then zeros |
| Ofdm.PlacedBefore | cpp/OFDM.cpp:89-95 | symbols before the DC index keep their index |
| Ofdm.PlacedAfter | cpp/OFDM.cpp:89-95 | when skipping, symbols after the DC index move down by one |
| FftWrapper.Dft | ProjectRoot/src/lib_fft/FFTWrapper.cpp:19-20 | the plans compute an unnormalised DFT of the planned size, exponent sign −1 forward and +1 backward |
| FftWrapper.DftSumZeros | ProjectRoot/src/lib_fft/FFTWrapper.cpp:19-20 | every partial sum of the DFT of zeros is zero |
| FftWrapper.DftZeros | ProjectRoot/src/lib_fft/FFTWrapper.cpp:19-20 | the DFT of an all-zero block is all zeros |
| FftWrapper.Padded | ProjectRoot/src/lib_fft/FFTWrapper.cpp:87-107 | the input followed by zeros, of the padded size |
| FftWrapper.PaddedTruncate | ProjectRoot/src/lib_fft/FFTWrapper.cpp:98-106 | zero-padding keeps the input as a prefix, adds only zeros, and changes nothing at the input's own size |
| FftWrapper.PaddedTwice | ProjectRoot/src/lib_fft/FFTWrapper.cpp:87-107 | padding twice equals padding once to the larger size |
| FftWrapper.FftWrapper.constructor | ProjectRoot/src/lib_fft/FFTWrapper.cpp:3 | the size is 0 until initialize |
| FftWrapper.FftWrapper.Initialize | ProjectRoot/src/lib_fft/FFTWrapper.cpp:5-21 | a non-positive thread count ends the process with the size unchanged; otherwise the size is stored |
| FftWrapper.FftWrapper.Fft | ProjectRoot/src/lib_fft/FFTWrapper.cpp:32-57 | an input of the wrong size ends the process; otherwise the forward DFT, of the planned size |
| FftWrapper.FftWrapper.Ifft | ProjectRoot/src/lib_fft/FFTWrapper.cpp:59-85 | an input of the wrong size ends the process; otherwise 1/N times the backward DFT |
| FftWrapper.FftWrapper.ZeroPad | ProjectRoot/src/lib_fft/FFTWrapper.cpp:87-129 | a padded size below the input size ends the process; a negative one passes the unsigned comparison and makes resize throw; otherwise the zero-padded input |

## Left out

- USRP device control, streaming, MQTT, sqlite, SSH and the instrument drivers are foreign calls and I/O. The message table is a sequence of records with pre-parsed payloads, and received samples, times and payloads are parameters.
- Threads, mutexes, condition variables and atomics are concurrency. Waits are preconditions, atomics are plain fields, and the producer/consumer thread bodies of calibration.cpp and otac_processor.cpp are not modelled.
- Floating point is not modelled: `float` is `real`, with no rounding and no overflow. In the C++ modules a division by zero is modelled as `NonFinite`, except in the members that a line below names as requiring a non-zero divisor. The statistics of publish_calibration.py use `Stats.Float64`, which tells +inf, −inf and NaN apart as NumPy and pandas do.
- Square root, log10, powers of ten, cosine, sine, complex argument and the Mersenne-Twister phases are uninterpreted functions, so no numeric value of a phase, a decibel or a rotation is proved.
- FFTW execution is modelled as the unnormalised DFT it computes; plan creation and the thread setup are left out.
- estimate_phase_drift, updatePeaksAfterCFO, polynomial_fit and the chart drawing, and rational_number_approximation are floating-point numerics and are not modelled. toDecibel and fromDecibel are modelled as Common.ToDecibel and Common.FromDecibel over the uninterpreted log10 and powers of ten.
- PlotCalibRes.PlotCalibration: whether polynomial_fit and plot_data raise (np.polyfit on degenerate points, the file write) is the input `fitted`.
- The clock and file helpers (currentDateTime, convertStrToTime, the julia/time helpers of utility_funcs.cpp, save_*_to_file, read_from_file) and all logging are I/O. `LOG_ERROR` is modelled as ending the process.
- `CrossCorrBuffer::pop` never advances tail and has no return value on its normal path, so it has no meaning to model.
- The newer detector calls a `process_corr(float, size_t)` that only its header declares. Its per-sample peak and detection outcomes are inputs of the scan.
- The older `process_corr` of the cpp/ detector is passed the magnitude of each correlation value; the complex product is not modelled.
- Arrays created by `new[]` without initialisation are modelled as zeros.
- FftWrapper.FftWrapper.constructor, PeakDetector.PeakDetection.constructor and CppPeakDetection.PeakDetection.constructor: the scalars the C++ constructors leave uninitialised (FFTWrapper's `size_`, and `prev_peak_val` and `samples_from_first_peak` of both peak detectors) start at 0. An indeterminate value is not modelled.
- CppPeakDetection.Record, CppPeakDetection.Insert, CppPeakDetection.Process, CppCycleStartDetection.DetectorReady and CppCycleStartDetection.CycleStartDetector.ScanOffset: require a non-zero noise level. The PNR threshold and the PNR test divide by `noise_level` (cpp/PeakDetection.cpp:89-91 and 229), and a float division by zero is not modelled there.
- Otac.OtacProcessor.Initialize: the `catch` at otac_processor.cpp:116-120 is left out. The modelled steps of the `try` block do not throw, so the model always returns true.
- The headers whose declarations disagree with the bodies (peakdetector.hpp, cyclestartdetector.hpp, otac_processor.hpp, cpp/PeakDetection.hpp, cpp/CycleStartDetector.hpp) are not part of this model. Calibration constants missing from calibration.cpp are taken from calibration.hpp: `max_tx_gain` 86 and `total_reps_cal` 2.
- PeakDetector.PeakDetection and PeakDetector.ParamsOk: the methods after the constructor require at least two peaks and a non-zero ref_seq_len, which the source never checks. process_corr divides by ref_seq_len (peakdetector.cpp:186). avg_of_peak_vals divides by `total_num_peaks − 2` (line 259), which wraps in size_t below two peaks; for exactly two it is a float division by 0, modelled as `NonFinite`. Runs on such a configuration are not modelled.
- PeakDetector.PeakDetection.ProcessCorr, PeakDetector.Process, PeakDetector.PeakValue, PeakDetector.FullArrayOverflows, PeakDetector.ProcessStaysInRange, PeakDetector.ProcessOrdered, PeakDetector.ProcessTooFar, PeakDetector.ProcessTooClose and PeakDetector.ProcessInWindow: require a non-zero noise level. process_corr divides by `noise_level` (peakdetector.cpp:186). That level starts as the caller's `init_noise_level` (lines 33 and 94), which the source never checks; otac_processor.cpp:47-49 passes the USRP's noise amplitude. With a zero level the peak value is +inf, or NaN for a zero sample, and such peak values and the comparisons on them are not modelled.
- Otac.PreProcessing, Otac.PostValue, Otac.PostProcessing, Otac.RetunedGain, Otac.OtacProcessor.CheckCtol, Otac.RetuneLowersGain, Otac.StaleRxGainRaises, Otac.PreScaleAtMostOne, Otac.OtacRoundTrip and Otac.PostOfPowers: require positive end-to-end powers (and PreProcessing a positive full scale and a non-negative ctol), which the source never checks. min_e2e_pow and max_e2e_pow are the squares of configured amplitudes (otac_processor.cpp:55-56), and a zero amplitude gives 0; Otac.OtacProcessor.Initialize models that. With min_e2e_pow 0, `ctol / min_e2e_pow` at line 188 is +inf or NaN, so post_scaling is 0 or NaN, and a NaN scale passes the return at line 190 as true. The quotient `(dmax - dmin) / min_e2e_pow` at line 196 is then inf or NaN, and a NaN estimate passes both tests at line 199. In check_ctol a zero bound makes `toDecibel(ctol / bound)` at lines 151 and 162 infinite or NaN, and the retuned gain is not finite. These non-finite outcomes are not modelled.
- CppPeakDetection.PeakDetection and CppPeakDetection.ParamsOk: the methods after the constructor require non-zero ref_seq_len and total_num_peaks, and total_num_peaks + 1 below 2^64, which the source never checks. With ref_seq_len 0, `ref_signal` is empty and the shift at cpp/PeakDetection.cpp:421 pops an empty deque. With no peaks, `total_num_peaks − 1` in check_peaks (line 360) wraps and the loop reads past the arrays. Runs on such a configuration are not modelled.
- CppCycleStartDetection.CycleStartDetector.constructor: requires N_zfc > 0, num-corr-size-mul > 0 and a positive noise level. With N_zfc or the multiplier 0, corr_seq_len is 0 and the block ring has no room, and the PNR test divides by the noise level (cpp/PeakDetection.cpp:89-91). Such configurations are not modelled.
- CycleStartDetection.CycleStartDetector.Produce: the retry loop of `produce` is a precondition that the stop flag is set or the ring has room.
- CycleStartDetection.CycleStartDetector.Consume: the `csd_success_signal` notification is not modelled.
- CycleStartDetection.CycleStartDetector.constructor: in its corrected form the timer keeps the sample times it is given, and no unload refills it. No line of the detector computes a per-sample reception time to fill it with (see the findings).
- CppCycleStartDetection.CycleStartDetector.constructor: requires that the ring sizes do not wrap in `size_t`, and that 1 ≤ the sync-with-peak index ≤ the total number of peaks.
- CppCycleStartDetection.CycleStartDetector.ScanIteration: the stop flag that ends the scan from another thread is an input.
- CppPeakDetection.PeakDetection.SaveFloatDataIntoBuffer: requires a non-empty float save buffer when saving is on, since `pop_front` on an empty deque is undefined.
- PeakDetector.PeakDetection.UpdateNoiseLevel and CppPeakDetection.PeakDetection.UpdateNoiseLevel: require that the new sample count is not 0 modulo 2^64, where the weighted mean would divide by zero in float.
- Ofdm.FftRecursive: requires a length whose every recursion level is even. For other lengths the split loop reads and writes one element past its vectors.
- Ofdm.SegmentData: requires N > 0; with N = 0 the block count divides by zero.
- Ofdm.AddCp, Ofdm.RemoveCp and Ofdm.MapToSubcarriers: require the input to fit into the output vector, since `std::copy` and the subcarrier writes past the end are undefined.
- Waveforms.GenerateImpulse: requires `wf_len ≥ 2`, because slot `wf_len/2 − 1` does not exist otherwise.
- CppWaveforms.GenerateWaveform: cyclic padding requires a base of at least two samples, since the padding slices two samples off each end.
- Waveforms.GenerateDftSeq: `generateDFTseq` is modelled, but `generate_waveform` never calls it; the DFT type uses the impulse. The zero-length guard of its amplitude (`1/sqrt(wf_len)`) stands in for a float division by zero.
- The `int` loop counters that C++ compares with `size_t` sizes are unbounded; their overflow beyond 2^31 is not modelled.
- FftWrapper: the header declares `initialize` with other parameters than FFTWrapper.cpp defines, and the body is followed.
- Calibration.Calibration.CallbackDetectFlags: `retx_flag` is never cleared anywhere in calibration.cpp. The model keeps it raised, and no consequence is drawn from that.
- CppCsdTest: the test program's `main`, its file output and its waits are left out. The class uses the corrected forms of the findings below, and the as-written forms sit beside them.
- CircularPackets: the ring is proved FIFO only for a power-of-two capacity. For other capacities the contracts state only the masked index arithmetic, and one concrete lemma shows a ring of capacity 3 that is full when fresh.
- CircularPackets.CircularPacket.Clear: modelled as written only. Like the buffer's clear it empties the storage and leaves an invalid ring. Its one caller is the detector's reset, whose corrected form calls reset instead (see the findings).

## Findings

| source | as written | input that shows it | evidently intended | confidence | as-written member | corrected member |
|---|---|---|---|---|---|---|
| ProjectRoot/python/publish_calibration.py:159-162 | the results INSERT names 12 columns but has 13 placeholders, so sqlite rejects it and nothing is stored, marked or published | any run with at least one calibration result | name `ratio_amp_mean` as the thirteenth column | not executed | PublishCalibration.PublishAsWritten | PublishCalibration.Publish |
| ProjectRoot/src/lib_csd/circular_buffer.cpp:39-45 | clear empties both storage vectors but keeps capacity, so the next push writes slot 0 of an empty vector | clear on any ring, then push | keep capacity empty slots and reset head and tail | not executed | CircularBuffers.CircularBuffer.ClearAsWritten | CircularBuffers.CircularBuffer.Clear |
| ProjectRoot/src/lib_csd/cyclestartdetector.cpp:213-219 | the copy loop reads `consumed_packet[i]` with i counted from the start of the buffer, past the packet's end | N_zfc ≥ 2 and a non-empty packet | read `consumed_packet[i − (N_zfc − 1)]` | not executed | CycleStartDetection.UnloadReadsPastPacket | CycleStartDetection.CarryOver |
| cpp/PeakDetection.cpp:193-195 | insertPeak writes slot `peaks_count` of `total_num_peaks`-slot arrays when all slots hold peaks that are not at the right spacing | ref 10, two slots, peaks at 0 and 10, a new peak 12 samples later | one more slot, or no write when the arrays are full | not executed | CppPeakDetection.InsertOverflowsAsWritten | CppPeakDetection.InsertInRange |
| cpp/CycleStartDetectorTest.cpp:213-220 | findPeaks compares with `back()` of the still empty peak vector on its first candidate | any block with a value above the threshold | accept the first candidate without the spacing test | not executed | CppCsdTest.PeaksAsWrittenUndefined | CppCsdTest.FindPeaks |
| ProjectRoot/src/lib_csd/circular_buffer.cpp:104-109 | not_enough_space computes the free space as `(tail + capacity − head) % capacity`, which is 0 for an empty ring | an empty ring and a push of one sample | free space `capacity − 1 − used` | not executed | CircularBuffers.EmptyRingRefusesPush | CircularBuffers.CrossCorrBuffer.Push |
| ProjectRoot/src/lib_csd/peakdetector.cpp:138-143 | the last-peak spacing test is strict while process_corr's window is inclusive, so a peak exactly `peak_det_tol` off fills every slot without a detection and the next peak is written past the arrays | a last peak at ref + tol, then one more well-spaced peak | the same inclusive window in both tests | not executed | PeakDetector.LastPeakOnBoundary, PeakDetector.FullArrayOverflows | PeakDetector.ProcessStaysInRange |
| ProjectRoot/src/lib_csd/cyclestartdetector.cpp:62-73 | reset clears the packet ring's storage and the samples buffer, so the next unload copies N_zfc − 1 samples from an empty buffer | reset, then any consume | reset the ring's head and tail and give the samples buffer its constructed length in zeros | not executed | CycleStartDetection.CycleStartDetector.ResetAsWritten | CycleStartDetection.CycleStartDetector.Reset |
| ProjectRoot/src/lib_csd/cyclestartdetector.cpp:301-304 | the copy after a detection is bounded by `corr_seq_len`, not by the block, so a short block reads past the samples buffer | a block shorter than corr_seq_len with a detection in its last N_zfc − 1 samples | bound the copy by the block's length | not executed | CycleStartDetection.ShortBlockReadsPast | CycleStartDetection.ScanInRange |
| ProjectRoot/src/lib_csd/cyclestartdetector.cpp:305-306 | saved_ref_timer and timer are never sized or filled (the constructor, lines 3-60, leaves both empty), yet every scanned sample pops saved_ref_timer's front and reads `timer[i + N_zfc − 1]` | the first consume of any non-empty packet | size saved_ref_timer like saved_ref and keep in the timer the time of each sample in the samples buffer | not executed | CycleStartDetection.EmptyTimerReadsPast | CycleStartDetection.CycleStartDetector.ConsumePacket |
| cpp/CycleStartDetector.cpp:62-73 | produce advances rear by the samples written but num_produced by `samples_size`, so the two drift apart when a receive is shorter or longer | four samples passed with samples_size 2 | add the number of samples written | not executed | CppCycleStartDetection.ShortReceiveDesyncs | CppCycleStartDetection.CycleStartDetector.ProduceReceived |
| ProjectRoot/src/lib_otac/otac_processor.cpp:380-387 | the OTA-C waveform is rotated first and the full-scale waveform after it, but the full-scale waveform is sent first, so the CFO ramp restarts in the middle of the burst | any CFO and both waveforms non-empty | rotate in transmitted order | not executed | Otac.BurstRampRestarts | Otac.BurstRampContinuous |
| cpp/CycleStartDetectorTest.cpp:121-124 | the correlation multiplies the sample at `front + i` with every reference sample, ignoring j | a reference [z, −z] with z ≠ 0 | multiply sample `front + i + j` with reference sample j | not executed | CppCsdTest.OneSampleCorrelation, CppCsdTest.SameSampleCorrelation | CppCsdTest.MatchedCorrelation, CppCsdTest.CorrelateAt |
| cpp/CycleStartDetectorTest.cpp:326-332 | verdict −1 computes `first_peak − 2·N_zfc` in `size_t`, which wraps, and adds it to front without reducing modulo capacity | first peak at 5 with N_zfc 10 | drop max(0, first_peak − 2·N_zfc) samples, computed without wrapping, and reduce front modulo capacity | not executed | CppCsdTest.RewindAsWrittenBreaksRing | CppCsdTest.RewindKeepsRing |
| ProjectRoot/src/lib_usrp/usrp_class.cpp:316-322 | set_tx_gain stores the gain it reads back in a local, so `usrp_obj->tx_gain` keeps its first value; producer_leaf computes the request and the remainder scale from that stale member (calibration.cpp:317 and 336), and the gains published at calibration.cpp:360-361 are the stale members | a member gain of 50 dB and a request of 56.3 dB: TX goes to 56.5 dB, the scale 10^(6.3/20) exceeds 2 and is reset to 1, where 10^(−0.2/20) was intended | store the gain read back in the member `tx_gain` | not executed | Calibration.StaleTxGainDoubleCounts, Calibration.StaleTxGainExample | Calibration.RetunedMatchesRequest |
| ProjectRoot/src/lib_usrp/usrp_class.cpp:324-330 | set_rx_gain stores the gain it reads back in a local, so check_ctol retunes from the stale member `usrp_obj->rx_gain` every time (otac_processor.cpp:151 and 162) | a member gain stuck at 30 dB, a radio already retuned to 23 dB and a ctol just above the range: the radio is set to 29 dB, a raise where a cut was asked for | store the gain read back in the member `rx_gain` | not executed | Otac.StaleRxGainRaises | Otac.RetuneLowersGain |
