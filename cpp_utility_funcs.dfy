// The configuration readers of cpp/utility_funcs.cpp: `ConfigParser::parse`
// (no trimming, no comment lines) and `parse_config_from_file`, which keeps
// every value as a string.
module CppUtilityFuncs {
  import opened Common
  import opened Text
  import CP = ConfigParser

  /** The three typed maps of this parser (it keeps no descriptions). */
  datatype Maps = Maps(ints: map<string, Size>, floats: map<string, real>, strs: map<string, string>)

  /** One line of `parse`: any line with three tokens is dispatched on its
      type, so a `#` line is not special; `None` is the exception of
      `std::stoi`/`std::stof`, which escapes `parse`. */
  function ParseLine(m: Maps, line: string): Option<Maps>
  {
    match ReadThree(line)
    case None => Some(m)
    case Some(f) =>
      if f.vtype == "int" then
        match Stoi(f.value)
        case None => None
        case Some(v) => Some(m.(ints := m.ints[f.name := IntToSize(v)]))
      else if f.vtype == "float" then
        match CP.Stof(f.value)
        case None => None
        case Some(x) => Some(m.(floats := m.floats[f.name := x]))
      else if f.vtype == "str" || f.vtype == "string" then
        Some(m.(strs := m.strs[f.name := f.value]))
      else
        Some(m)
  }

  function ParseLines(m: Maps, lines: seq<string>): Option<Maps>
  {
    if lines == [] then Some(m)
    else
      match ParseLines(m, lines[..|lines| - 1])
      case None => None
      case Some(m') => ParseLine(m', lines[|lines| - 1])
  }

  lemma ParseLinesStep(m: Maps, lines: seq<string>, i: nat)
    requires i < |lines|
    ensures ParseLines(m, lines[..i + 1]) == match ParseLines(m, lines[..i])
                                             case None => None
                                             case Some(u) => ParseLine(u, lines[i])
  {
    assert lines[..i + 1][..i] == lines[..i];
  }

  lemma PrefixFailure(m: Maps, lines: seq<string>, n: nat)
    requires 0 < n <= |lines| && ParseLines(m, lines[..n]).None?
    ensures ParseLines(m, lines).None?
    decreases |lines| - n
  {
    if n < |lines| {
      assert lines[..n + 1][..n] == lines[..n];
      PrefixFailure(m, lines, n + 1);
    } else {
      assert lines[..n] == lines;
    }
  }

  /** A commented-out string setting is still read by `parse`, while the
      main program's parser ignores the line. */
  lemma CommentLineIsParsed(m: Maps, t: CP.Tables, line: string)
    requires Trim(line) != [] && Trim(line)[0] == '#'
    requires ReadThree(line).Some? && ReadThree(line).value.vtype == "str"
    ensures var f := ReadThree(line).value;
            ParseLine(m, line) == Some(m.(strs := m.strs[f.name := f.value]))
    ensures CP.ParseLine(t, line) == Some(t)
  {
  }

  class Parser {
    var intData: map<string, Size>
    var floatData: map<string, real>
    var stringData: map<string, string>

    function Snapshot(): Maps
      reads this
    {
      Maps(intData, floatData, stringData)
    }

    constructor ()
      ensures Snapshot() == Maps(map[], map[], map[])
    {
      intData, floatData, stringData := map[], map[], map[];
    }

    /** ConfigParser::parse: an unopenable file stores nothing. */
    method Parse(file: Option<seq<string>>) returns (s: Status)
      modifies this
      ensures s != Exited
      ensures file.None? ==> s == Returned && Snapshot() == old(Snapshot())
      ensures file.Some? ==> (s == Returned <==> ParseLines(old(Snapshot()), file.value).Some?)
      ensures file.Some? && s == Returned ==> Snapshot() == ParseLines(old(Snapshot()), file.value).value
    {
      if file.None? {
        return Returned;
      }
      var lines := file.value;
      ghost var m0 := Snapshot();
      var i := 0;
      while i < |lines|
        invariant 0 <= i <= |lines|
        invariant ParseLines(m0, lines[..i]) == Some(Snapshot())
      {
        ParseLinesStep(m0, lines, i);
        var fields := ReadThree(lines[i]);
        if fields.Some? {
          var f := fields.value;
          if f.vtype == "int" {
            var v := Stoi(f.value);
            if v.None? {
              PrefixFailure(m0, lines, i + 1);
              return Threw;
            }
            intData := intData[f.name := IntToSize(v.value)];
          } else if f.vtype == "float" {
            var x := CP.Stof(f.value);
            if x.None? {
              PrefixFailure(m0, lines, i + 1);
              return Threw;
            }
            floatData := floatData[f.name := x.value];
          } else if f.vtype == "str" || f.vtype == "string" {
            stringData := stringData[f.name := f.value];
          }
        }
        i := i + 1;
      }
      assert lines[..|lines|] == lines;
      return Returned;
    }

    /** getValue_str: a missing name yields "". */
    function GetValueStr(name: string): (r: string)
      reads this
      ensures name in stringData ==> r == stringData[name]
      ensures name !in stringData ==> r == ""
    {
      if name in stringData then stringData[name] else ""
    }

    function GetValueInt(name: string): (r: Size)
      reads this
      ensures name in intData ==> r == intData[name]
      ensures name !in intData ==> r == 0
    {
      if name in intData then intData[name] else 0
    }

    function GetValueFloat(name: string): (r: real)
      reads this
      ensures name in floatData ==> r == floatData[name]
      ensures name !in floatData ==> r == 0.0
    {
      if name in floatData then floatData[name] else 0.0
    }
  }

  /** The variables map of `parse_config_from_file` after some lines:
      `emplace` keeps the first value seen for a name. */
  function VariablesOf(vm: map<string, string>, lines: seq<string>): map<string, string>
  {
    if lines == [] then vm
    else
      var before := VariablesOf(vm, lines[..|lines| - 1]);
      match ReadThree(lines[|lines| - 1])
      case None => before
      case Some(f) => if f.name in before then before else before[f.name := f.value]
  }

  /** parse_config_from_file: an unopenable file throws; lines with fewer
      than three tokens are skipped; values stay strings. */
  method ParseConfigFromFile(file: Option<seq<string>>) returns (vm: Outcome<map<string, string>>)
    ensures file.None? <==> vm == Throw
    ensures file.Some? ==> vm == Ok(VariablesOf(map[], file.value))
  {
    if file.None? {
      return Throw;
    }
    var lines := file.value;
    var m: map<string, string> := map[];
    var i := 0;
    while i < |lines|
      invariant 0 <= i <= |lines|
      invariant m == VariablesOf(map[], lines[..i])
    {
      assert lines[..i + 1][..i] == lines[..i];
      var fields := ReadThree(lines[i]);
      if fields.Some? && fields.value.name !in m {
        m := m[fields.value.name := fields.value.value];
      }
      i := i + 1;
    }
    assert lines[..|lines|] == lines;
    return Ok(m);
  }

  /** The first line that names a variable decides its value; later lines
      for the same name are ignored. */
  lemma {:induction false} FirstOccurrenceWins(vm: map<string, string>, lines: seq<string>, k: nat)
    requires k < |lines| && ReadThree(lines[k]).Some?
    requires var n := ReadThree(lines[k]).value.name;
             n !in vm && forall j :: 0 <= j < k ==> ReadThree(lines[j]).None? || ReadThree(lines[j]).value.name != n
    ensures var f := ReadThree(lines[k]).value;
            f.name in VariablesOf(vm, lines) && VariablesOf(vm, lines)[f.name] == f.value
    decreases |lines|
  {
    var f := ReadThree(lines[k]).value;
    if k == |lines| - 1 {
      NameAbsent(vm, lines[..k], f.name);
    } else {
      assert lines[..|lines| - 1][k] == lines[k];
      FirstOccurrenceWins(vm, lines[..|lines| - 1], k);
      KeepsEntries(vm, lines);
    }
  }

  lemma {:induction false} NameAbsent(vm: map<string, string>, lines: seq<string>, n: string)
    requires n !in vm && forall j :: 0 <= j < |lines| ==> ReadThree(lines[j]).None? || ReadThree(lines[j]).value.name != n
    ensures n !in VariablesOf(vm, lines)
  {
    if lines != [] {
      NameAbsent(vm, lines[..|lines| - 1], n);
    }
  }

  lemma KeepsEntries(vm: map<string, string>, lines: seq<string>)
    requires lines != []
    ensures forall n :: n in VariablesOf(vm, lines[..|lines| - 1]) ==>
              n in VariablesOf(vm, lines) && VariablesOf(vm, lines)[n] == VariablesOf(vm, lines[..|lines| - 1])[n]
  {
  }
}
