// The older configuration parser of the prototype programs
// (cpp/ConfigParser.cpp): the same line format as the main program's parser,
// but missing files and missing keys are not fatal, unknown types are not
// stored, and `set_value` throws.
module CppConfigParser {
  import opened Common
  import opened Text
  import CP = ConfigParser

  /** What an accepted line stores; `None` is an exception from `std::stoi`
      or `std::stof`. A line of unknown type stores no value, but its
      description is still recorded. */
  function Store(t: CP.Tables, f: Fields): Option<CP.Tables>
  {
    var t' := t.(descs := t.descs[f.name := Trim(f.rest)]);
    if f.vtype == "int" then
      match Stoi(f.value)
      case None => None
      case Some(v) => Some(t'.(ints := t.ints[f.name := IntToSize(v)]))
    else if f.vtype == "float" then
      match CP.Stof(f.value)
      case None => None
      case Some(x) => Some(t'.(floats := t.floats[f.name := x]))
    else if f.vtype == "str" || f.vtype == "string" then
      Some(t'.(strs := t.strs[f.name := f.value]))
    else
      Some(t')
  }

  /** Lines are trimmed and skipped exactly as by the main program's parser. */
  function ParseLine(t: CP.Tables, line: string): Option<CP.Tables>
  {
    match CP.Classify(line)
    case None => Some(t)
    case Some(f) => Store(t, f)
  }

  function ParseLines(t: CP.Tables, lines: seq<string>): Option<CP.Tables>
  {
    if lines == [] then Some(t)
    else
      match ParseLines(t, lines[..|lines| - 1])
      case None => None
      case Some(t') => ParseLine(t', lines[|lines| - 1])
  }

  lemma ParseLinesStep(t: CP.Tables, lines: seq<string>, i: nat)
    requires i < |lines|
    ensures ParseLines(t, lines[..i + 1]) == match ParseLines(t, lines[..i])
                                             case None => None
                                             case Some(u) => ParseLine(u, lines[i])
  {
    assert lines[..i + 1][..i] == lines[..i];
  }

  lemma PrefixFailure(t: CP.Tables, lines: seq<string>, n: nat)
    requires 0 < n <= |lines| && ParseLines(t, lines[..n]).None?
    ensures ParseLines(t, lines).None?
    decreases |lines| - n
  {
    if n < |lines| {
      assert lines[..n + 1][..n] == lines[..n];
      PrefixFailure(t, lines, n + 1);
    } else {
      assert lines[..n] == lines;
    }
  }

  /** The two parsers part ways on an unknown type: the main program keeps
      the value as a string, this one drops it; both record the description. */
  lemma UnknownTypeDropped(t: CP.Tables, line: string)
    requires CP.Classify(line).Some?
    requires CP.Classify(line).value.vtype !in {"int", "float", "str", "string"}
    ensures var f := CP.Classify(line).value;
            && ParseLine(t, line) == Some(t.(descs := t.descs[f.name := Trim(f.rest)]))
            && CP.ParseLine(t, line).value.strs == t.strs[f.name := f.value]
  {
  }

  /** For the other types the two parsers store the same thing. */
  lemma KnownTypesAgree(t: CP.Tables, line: string)
    requires CP.Classify(line).Some?
    requires CP.Classify(line).value.vtype in {"int", "float", "str", "string"}
    ensures ParseLine(t, line) == CP.ParseLine(t, line)
  {
  }

  const SaveBufferPrefix := "/OTA-C/cpp/storage/save_ref_rx_"

  /** `args` with every '=' turned into '_'. */
  function UnderscoreEquals(s: string): (r: string)
  {
    seq(|s|, i requires 0 <= i < |s| => if s[i] == '=' then '_' else s[i])
  }

  class Parser {
    var intData: map<string, Size>
    var floatData: map<string, real>
    var stringData: map<string, string>
    var descData: map<string, string>
    var saveBufferFilename: string

    function Snapshot(): CP.Tables
      reads this
    {
      CP.Tables(intData, floatData, stringData, descData)
    }

    constructor ()
      ensures Snapshot() == CP.NoTables
    {
      intData, floatData, stringData, descData := map[], map[], map[], map[];
      saveBufferFilename := "";
    }

    /** The body of the C++ constructor: an unopenable file leaves every map
        as it was; a failed numeric conversion throws. */
    method Load(file: Option<seq<string>>) returns (s: Status)
      modifies this
      ensures s != Exited
      ensures file.None? ==> s == Returned && Snapshot() == old(Snapshot())
      ensures file.Some? ==> (s == Returned <==> ParseLines(old(Snapshot()), file.value).Some?)
      ensures file.Some? && s == Returned ==> Snapshot() == ParseLines(old(Snapshot()), file.value).value
    {
      if file.None? {
        return Returned;
      }
      var lines := file.value;
      ghost var t0 := Snapshot();
      var i := 0;
      while i < |lines|
        invariant 0 <= i <= |lines|
        invariant ParseLines(t0, lines[..i]) == Some(Snapshot())
      {
        ParseLinesStep(t0, lines, i);
        var ok := LoadLine(lines[i]);
        if !ok {
          PrefixFailure(t0, lines, i + 1);
          return Threw;
        }
        i := i + 1;
      }
      assert lines[..|lines|] == lines;
      return Returned;
    }

    /** One line of the file: skipped when it is blank, a comment or
        malformed, stored otherwise; `false` when the conversion throws. */
    method LoadLine(line: string) returns (ok: bool)
      modifies this
      ensures ok == ParseLine(old(Snapshot()), line).Some?
      ensures ok ==> Snapshot() == ParseLine(old(Snapshot()), line).value
    {
      var fields := CP.Classify(line);
      if fields.Some? {
        ok := StoreFields(fields.value);
      } else {
        ok := true;
      }
    }

    method StoreFields(f: Fields) returns (ok: bool)
      modifies this
      ensures ok == Store(old(Snapshot()), f).Some?
      ensures ok ==> Snapshot() == Store(old(Snapshot()), f).value
      ensures saveBufferFilename == old(saveBufferFilename)
    {
      if f.vtype == "int" {
        var v := Stoi(f.value);
        if v.None? { return false; }
        intData := intData[f.name := IntToSize(v.value)];
      } else if f.vtype == "float" {
        var x := CP.Stof(f.value);
        if x.None? { return false; }
        floatData := floatData[f.name := x.value];
      } else if f.vtype == "str" || f.vtype == "string" {
        stringData := stringData[f.name := f.value];
      }
      // an unknown type is only reported
      descData := descData[f.name := Trim(f.rest)];
      return true;
    }

    /** getValue_str: a missing name is reported and yields "". */
    function GetValueStr(name: string): (r: string)
      reads this
      ensures name in stringData ==> r == stringData[name]
      ensures name !in stringData ==> r == ""
    {
      if name in stringData then stringData[name] else ""
    }

    /** getValue_int: a missing name yields 0. */
    function GetValueInt(name: string): (r: Size)
      reads this
      ensures name in intData ==> r == intData[name]
      ensures name !in intData ==> r == 0
    {
      if name in intData then intData[name] else 0
    }

    /** getValue_float: a missing name yields 0.0. */
    function GetValueFloat(name: string): (r: real)
      reads this
      ensures name in floatData ==> r == floatData[name]
      ensures name !in floatData ==> r == 0.0
    {
      if name in floatData then floatData[name] else 0.0
    }

    /** is_save_buffer: "NO" switches saving off; any other value (a missing
        key reads as "") names the save file after `args`, with '=' made '_'. */
    method IsSaveBuffer() returns (save: bool)
      modifies this`saveBufferFilename
      ensures save <==> GetValueStr("save-ref-rx") != "NO"
      ensures save ==> saveBufferFilename == SaveBufferPrefix + UnderscoreEquals(GetValueStr("args"))
      ensures !save ==> saveBufferFilename == old(saveBufferFilename)
    {
      var saveRefRx := GetValueStr("save-ref-rx");
      if saveRefRx == "NO" {
        return false;
      }
      var deviceId := GetValueStr("args");
      ghost var original := deviceId;
      var i := 0;
      while i < |deviceId|
        invariant 0 <= i <= |deviceId| == |original|
        invariant forall k :: 0 <= k < i ==> deviceId[k] == (if original[k] == '=' then '_' else original[k])
        invariant forall k :: i <= k < |deviceId| ==> deviceId[k] == original[k]
      {
        if deviceId[i] == '=' {
          deviceId := deviceId[i := '_'];
        }
        i := i + 1;
      }
      saveBufferFilename := SaveBufferPrefix + deviceId;
      return true;
    }

    /** set_value: an invalid type throws `invalid_argument`, a failed
        conversion throws `runtime_error`; the description is stored only
        when the value was. */
    method SetValue(name: string, value: string, vtype: string, desc: string) returns (s: Status)
      modifies this`intData, this`floatData, this`stringData, this`descData
      ensures s != Exited
      ensures s == Returned <==> SetValueSpec(old(Snapshot()), name, value, vtype, desc).Ok?
      ensures s == Returned ==> Snapshot() == SetValueSpec(old(Snapshot()), name, value, vtype, desc).value
      ensures s == Threw ==> Snapshot() == old(Snapshot())
    {
      if vtype == "str" || vtype == "string" {
        stringData := stringData[name := value];
      } else if vtype == "int" {
        var v := Stoi(value);
        if v.None? { return Threw; }
        intData := intData[name := IntToSize(v.value)];
      } else if vtype == "float" {
        var x := CP.Stof(value);
        if x.None? { return Threw; }
        floatData := floatData[name := x.value];
      } else {
        return Threw;
      }
      descData := descData[name := desc];
      return Returned;
    }
  }

  function SetValueSpec(t: CP.Tables, name: string, value: string, vtype: string, desc: string): Outcome<CP.Tables>
  {
    if vtype == "str" || vtype == "string" then Ok(t.(strs := t.strs[name := value], descs := t.descs[name := desc]))
    else if vtype == "int" then
      match Stoi(value)
      case None => Throw
      case Some(v) => Ok(t.(ints := t.ints[name := IntToSize(v)], descs := t.descs[name := desc]))
    else if vtype == "float" then
      match CP.Stof(value)
      case None => Throw
      case Some(x) => Ok(t.(floats := t.floats[name := x], descs := t.descs[name := desc]))
    else Throw
  }

  /** Where the main program's set_value terminates the process, this one
      throws, and on success the two agree. */
  lemma SetValueAgrees(t: CP.Tables, name: string, value: string, vtype: string, desc: string)
    ensures SetValueSpec(t, name, value, vtype, desc).Throw? <==> CP.SetValueSpec(t, name, value, vtype, desc).Exit?
    ensures SetValueSpec(t, name, value, vtype, desc).Ok? ==>
              SetValueSpec(t, name, value, vtype, desc) == CP.SetValueSpec(t, name, value, vtype, desc)
  {
  }

  /** The file name built from `args` has the same length as `args` and no '='. */
  lemma UnderscoreEqualsSpec(s: string)
    ensures |UnderscoreEquals(s)| == |s|
    ensures forall i :: 0 <= i < |s| ==> UnderscoreEquals(s)[i] != '='
    ensures forall i :: 0 <= i < |s| && s[i] != '=' ==> UnderscoreEquals(s)[i] == s[i]
  {
  }
}
