// The configuration parser of the main program (lib_config): a file of
// `name value type [description]` lines read into three typed maps and a
// map of descriptions.
module ConfigParser {
  import opened Common
  import opened Text

  /** std::stof: uninterpreted; `None` stands for its exceptions. */
  const Stof: string -> Option<real>

  /** The four maps of a parser, as one value. */
  datatype Tables = Tables(ints: map<string, Size>, floats: map<string, real>,
                           strs: map<string, string>, descs: map<string, string>)

  const NoTables := Tables(map[], map[], map[], map[])

  /** The fields of a line the constructor accepts; `None` for a line it
      ignores: blank after trimming, a comment, or fewer than three tokens. */
  function Classify(line: string): Option<Fields>
  {
    var l := Trim(line);
    if l == [] || l[0] == '#' then None else ReadThree(l)
  }

  /** What an accepted line stores; `None` is an exception thrown by
      `std::stoi` or `std::stof`, which aborts the construction. */
  function Store(t: Tables, f: Fields): Option<Tables>
  {
    var t' := t.(descs := t.descs[f.name := Trim(f.rest)]);
    if f.vtype == "int" then
      match Stoi(f.value)
      case None => None
      case Some(v) => Some(t'.(ints := t.ints[f.name := IntToSize(v)]))
    else if f.vtype == "float" then
      match Stof(f.value)
      case None => None
      case Some(x) => Some(t'.(floats := t.floats[f.name := x]))
    else
      // "str", "string" and every unknown type are kept as strings
      Some(t'.(strs := t.strs[f.name := f.value]))
  }

  function ParseLine(t: Tables, line: string): Option<Tables>
  {
    match Classify(line)
    case None => Some(t)
    case Some(f) => Store(t, f)
  }

  /** The constructor's loop over the lines of the file, in order. */
  function ParseLines(t: Tables, lines: seq<string>): Option<Tables>
  {
    if lines == [] then Some(t)
    else
      match ParseLines(t, lines[..|lines| - 1])
      case None => None
      case Some(t') => ParseLine(t', lines[|lines| - 1])
  }

  /** A comment line, a blank line and a line of fewer than three tokens
      change nothing. */
  lemma IgnoredLines(t: Tables, line: string)
    requires var l := Trim(line); l == [] || l[0] == '#' || ReadThree(l).None?
    ensures ParseLine(t, line) == Some(t)
  {
  }

  /** An accepted line fails only on a numeric conversion; otherwise it
      records the trimmed rest of the line as the description and keeps
      every key already stored. */
  lemma StoreEffect(t: Tables, f: Fields)
    ensures Store(t, f).None? <==>
              (f.vtype == "int" && Stoi(f.value).None?) || (f.vtype == "float" && Stof(f.value).None?)
    ensures Store(t, f).Some? ==>
              var u := Store(t, f).value;
              u.descs == t.descs[f.name := Trim(f.rest)] && KeysKept(t, u)
  {
  }

  /** An accepted line of an unknown type is stored as a string, exactly as
      "str"/"string" lines are; the other typed maps stay as they were. */
  lemma UnknownTypeIsString(t: Tables, line: string)
    requires Classify(line).Some? && Classify(line).value.vtype !in {"int", "float"}
    ensures var f := Classify(line).value;
            ParseLine(t, line) == Some(Tables(t.ints, t.floats, t.strs[f.name := f.value],
                                              t.descs[f.name := Trim(f.rest)]))
  {
  }

  predicate KeysKept(t: Tables, u: Tables)
  {
    && (forall k :: k in t.ints ==> k in u.ints)
    && (forall k :: k in t.floats ==> k in u.floats)
    && (forall k :: k in t.strs ==> k in u.strs)
    && (forall k :: k in t.descs ==> k in u.descs)
  }

  /** Parsing never forgets a key: the key sets only grow, line by line. */
  lemma {:induction false} ParseLinesKeepsKeys(t: Tables, lines: seq<string>)
    requires ParseLines(t, lines).Some?
    ensures KeysKept(t, ParseLines(t, lines).value)
  {
    if lines != [] {
      ParseLinesKeepsKeys(t, lines[..|lines| - 1]);
      var u := ParseLines(t, lines[..|lines| - 1]).value;
      var f := Classify(lines[|lines| - 1]);
      if f.Some? { StoreEffect(u, f.value); }
    }
  }

  /** A later line for the same name overwrites what an earlier one stored:
      the description (and the value) kept is the last line's. */
  lemma LastLineWins(t: Tables, lines: seq<string>, line: string)
    requires ParseLines(t, lines + [line]).Some? && Classify(line).Some?
    ensures var f := Classify(line).value;
            ParseLines(t, lines + [line]).value.descs[f.name] == Trim(f.rest)
  {
    assert (lines + [line])[..|lines + [line]| - 1] == lines;
    StoreEffect(ParseLines(t, lines).value, Classify(line).value);
  }

  datatype JsonValue = JStr(s: string) | JInt(n: int) | JFloat(x: real)

  /** One `{name, value, desc}` element of `print_json`'s array. */
  datatype Entry = Entry(name: string, value: JsonValue, desc: string)

  /** `desc_data[name]`: `operator[]` yields "" for a missing key. */
  function DescOf(descs: map<string, string>, k: string): string
  {
    if k in descs then descs[k] else ""
  }

  /** One group of `print_json`: each stored key once, with its value and
      its description. The tables are unordered maps, so the order of the
      entries is left open. */
  predicate SegmentOf<V>(es: seq<Entry>, m: map<string, V>, descs: map<string, string>, val: V -> JsonValue)
  {
    && (forall i, j :: 0 <= i < j < |es| ==> es[i].name != es[j].name)
    && (forall i :: 0 <= i < |es| ==> es[i].name in m && es[i].value == val(m[es[i].name])
                                      && es[i].desc == DescOf(descs, es[i].name))
    && NamesOf(es) == m.Keys
  }

  function NamesOf(es: seq<Entry>): set<string>
  {
    if es == [] then {} else NamesOf(es[..|es| - 1]) + {es[|es| - 1].name}
  }

  lemma {:induction false} NamesOfHolds(es: seq<Entry>, i: nat)
    requires i < |es|
    ensures es[i].name in NamesOf(es)
  {
    if i < |es| - 1 {
      assert es[..|es| - 1][i] == es[i];
      NamesOfHolds(es[..|es| - 1], i);
    }
  }

  /** `d` after `desc_data[k]` for every k in `keys`: the missing keys
      inserted with "", every other description unchanged. */
  predicate DescsFilled(d: map<string, string>, d0: map<string, string>, keys: set<string>)
  {
    d.Keys == d0.Keys + keys && forall k :: k in d ==> d[k] == DescOf(d0, k)
  }

  /** Filling keeps every description `DescOf` reads, and two fillings in
      a row are one. */
  lemma FilledDescs(d2: map<string, string>, d1: map<string, string>, d0: map<string, string>,
                    k1: set<string>, k2: set<string>)
    requires DescsFilled(d1, d0, k1) && DescsFilled(d2, d1, k2)
    ensures DescsFilled(d2, d0, k1 + k2)
    ensures forall k :: DescOf(d1, k) == DescOf(d0, k)
  {
  }

  lemma FillStep(d: map<string, string>, d0: map<string, string>, keys: set<string>, k: string)
    requires DescsFilled(d, d0, keys)
    ensures DescsFilled(d[k := DescOf(d, k)], d0, keys + {k})
  {
  }

  lemma SegmentOfFilled<V>(es: seq<Entry>, m: map<string, V>, d: map<string, string>, d0: map<string, string>,
                           keys: set<string>, val: V -> JsonValue)
    requires SegmentOf(es, m, d, val) && DescsFilled(d, d0, keys)
    ensures SegmentOf(es, m, d0, val)
  {
  }

  class Parser {
    var intData: map<string, Size>
    var floatData: map<string, real>
    var stringData: map<string, string>
    var descData: map<string, string>

    function Snapshot(): Tables
      reads this
    {
      Tables(intData, floatData, stringData, descData)
    }

    constructor ()
      ensures Snapshot() == NoTables
    {
      intData, floatData, stringData, descData := map[], map[], map[], map[];
    }

    /** The body of the C++ constructor: an unopenable file is fatal, every
        line is handled in order, and a failed numeric conversion throws. */
    method Load(file: Option<seq<string>>) returns (s: Status)
      modifies this
      ensures file.None? ==> s == Exited
      ensures file.Some? ==> (s == Returned <==> ParseLines(old(Snapshot()), file.value).Some?)
      ensures s == Returned ==> Snapshot() == ParseLines(old(Snapshot()), file.value).value
    {
      if file.None? {
        return Exited;
      }
      var lines := file.value;
      ghost var t0 := Snapshot();
      var i := 0;
      while i < |lines|
        invariant 0 <= i <= |lines|
        invariant ParseLines(t0, lines[..i]) == Some(Snapshot())
      {
        ParseLinesStep(t0, lines, i);
        var ok := LoadLine(lines[i]);
        if !ok {
          PrefixFailure(t0, lines, i + 1);
          return Threw;
        }
        i := i + 1;
      }
      assert lines[..|lines|] == lines;
      return Returned;
    }

    /** One line of the file: skipped when it is blank, a comment or
        malformed, stored otherwise; `false` when the conversion throws. */
    method LoadLine(line: string) returns (ok: bool)
      modifies this
      ensures ok == ParseLine(old(Snapshot()), line).Some?
      ensures ok ==> Snapshot() == ParseLine(old(Snapshot()), line).value
    {
      var fields := Classify(line);
      if fields.Some? {
        ok := StoreFields(fields.value);
      } else {
        ok := true;
      }
    }

    /** One accepted line: the typed store and the description; `false` when
        the numeric conversion throws. */
    method StoreFields(f: Fields) returns (ok: bool)
      modifies this
      ensures ok == Store(old(Snapshot()), f).Some?
      ensures ok ==> Snapshot() == Store(old(Snapshot()), f).value
    {
      ghost var cur := Snapshot();
      if f.vtype == "int" {
        var v := Stoi(f.value);
        if v.None? { return false; }
        intData := intData[f.name := IntToSize(v.value)];
      } else if f.vtype == "float" {
        var x := Stof(f.value);
        if x.None? { return false; }
        floatData := floatData[f.name := x.value];
      } else {
        stringData := stringData[f.name := f.value];
      }
      descData := descData[f.name := Trim(f.rest)];
      return true;
    }

    /** getValue_str: a missing name is fatal. */
    function GetValueStr(name: string): (r: Outcome<string>)
      reads this
      ensures r.Exit? <==> name !in stringData
      ensures r.Ok? ==> r.value == stringData[name]
    {
      if name in stringData then Ok(stringData[name]) else Exit
    }

    function GetValueInt(name: string): (r: Outcome<Size>)
      reads this
      ensures r.Exit? <==> name !in intData
      ensures r.Ok? ==> r.value == intData[name]
    {
      if name in intData then Ok(intData[name]) else Exit
    }

    function GetValueFloat(name: string): (r: Outcome<real>)
      reads this
      ensures r.Exit? <==> name !in floatData
      ensures r.Ok? ==> r.value == floatData[name]
    {
      if name in floatData then Ok(floatData[name]) else Exit
    }

    /** set_value: stores into the map the type names and records the
        description; an invalid type or a failed conversion is fatal. */
    method SetValue(name: string, value: string, vtype: string, desc: string) returns (s: Status)
      modifies this
      ensures s == Exited <==> !(vtype in {"str", "string"} || (vtype == "int" && Stoi(value).Some?)
                                 || (vtype == "float" && Stof(value).Some?))
      ensures s != Threw
      ensures s == Returned ==> Snapshot() == SetValueSpec(old(Snapshot()), name, value, vtype, desc).value
    {
      if vtype == "str" || vtype == "string" {
        stringData := stringData[name := value];
      } else if vtype == "int" {
        var v := Stoi(value);
        if v.None? { return Exited; }
        intData := intData[name := IntToSize(v.value)];
      } else if vtype == "float" {
        var x := Stof(value);
        if x.None? { return Exited; }
        floatData := floatData[name := x.value];
      } else {
        return Exited;
      }
      descData := descData[name := desc];
      return Returned;
    }

    /** print_json: string entries, then int entries, then float entries,
        one entry per stored key. Reading `desc_data[name]` inserts "" for
        every key without a description. */
    method PrintJson() returns (es: seq<Entry>)
      modifies this`descData
      ensures exists a, b, c :: es == a + b + c
                 && SegmentOf(a, stringData, old(descData), (v: string) => JStr(v))
                 && SegmentOf(b, intData, old(descData), (n: Size) => JInt(n))
                 && SegmentOf(c, floatData, old(descData), (x: real) => JFloat(x))
      ensures DescsFilled(descData, old(descData), stringData.Keys + intData.Keys + floatData.Keys)
    {
      var d0 := descData;
      var a, d1 := Segment(stringData, d0, (v: string) => JStr(v));
      var b, d2 := Segment(intData, d1, (n: Size) => JInt(n));
      var c, d3 := Segment(floatData, d2, (x: real) => JFloat(x));
      FilledDescs(d2, d1, d0, stringData.Keys, intData.Keys);
      SegmentOfFilled(b, intData, d1, d0, stringData.Keys, (n: Size) => JInt(n));
      FilledDescs(d3, d2, d0, stringData.Keys + intData.Keys, floatData.Keys);
      SegmentOfFilled(c, floatData, d2, d0, stringData.Keys + intData.Keys, (x: real) => JFloat(x));
      es, descData := a + b + c, d3;
    }
  }

  function SetValueSpec(t: Tables, name: string, value: string, vtype: string, desc: string): (r: Outcome<Tables>)
    ensures r.Ok? ==> r.value.descs == t.descs[name := desc]
    ensures r.Ok? && vtype in {"str", "string"} ==>
              r.value.strs == t.strs[name := value] && r.value.ints == t.ints && r.value.floats == t.floats
  {
    if vtype == "str" || vtype == "string" then Ok(t.(strs := t.strs[name := value], descs := t.descs[name := desc]))
    else if vtype == "int" then
      match Stoi(value)
      case None => Exit
      case Some(v) => Ok(t.(ints := t.ints[name := IntToSize(v)], descs := t.descs[name := desc]))
    else if vtype == "float" then
      match Stof(value)
      case None => Exit
      case Some(x) => Ok(t.(floats := t.floats[name := x], descs := t.descs[name := desc]))
    else Exit
  }

  /** A value stored by set_value is the one getValue_* returns afterwards. */
  lemma SetThenGet(t: Tables, name: string, value: string, desc: string)
    ensures SetValueSpec(t, name, value, "str", desc) == Ok(t.(strs := t.strs[name := value], descs := t.descs[name := desc]))
    ensures Stoi(value).Some? ==>
              SetValueSpec(t, name, value, "int", desc).value.ints[name] == IntToSize(Stoi(value).value)
    ensures SetValueSpec(t, name, value, "double", desc) == Exit
  {
  }

  lemma ParseLinesStep(t: Tables, lines: seq<string>, i: nat)
    requires i < |lines|
    ensures ParseLines(t, lines[..i + 1]) == match ParseLines(t, lines[..i])
                                             case None => None
                                             case Some(u) => ParseLine(u, lines[i])
  {
    assert lines[..i + 1][..i] == lines[..i];
  }

  lemma PrefixFailure(t: Tables, lines: seq<string>, n: nat)
    requires 0 < n <= |lines| && ParseLines(t, lines[..n]).None?
    ensures ParseLines(t, lines).None?
    decreases |lines| - n
  {
    if n < |lines| {
      assert lines[..n + 1][..n] == lines[..n];
      PrefixFailure(t, lines, n + 1);
    } else {
      assert lines[..n] == lines;
    }
  }

  /** One group of `print_json`: walks the keys of an unordered map in an
      unspecified order, filling in the descriptions it reads. */
  method Segment<V>(m: map<string, V>, descs: map<string, string>, val: V -> JsonValue)
    returns (es: seq<Entry>, filled: map<string, string>)
    ensures SegmentOf(es, m, descs, val)
    ensures DescsFilled(filled, descs, m.Keys)
  {
    es, filled := [], descs;
    var rest := m.Keys;
    while rest != {}
      invariant SegmentLoop(es, rest, filled, m, descs, val)
      decreases |rest|
    {
      var k :| k in rest;
      SegmentStep(es, rest, filled, k, m, descs, val);
      es := es + [Entry(k, val(m[k]), DescOf(descs, k))];
      filled := filled[k := DescOf(filled, k)];
      rest := rest - {k};
    }
    SegmentDone(es, filled, m, descs, val);
  }

  /** The loop invariant of `Segment`, with the descriptions filled in for
      the keys already visited. */
  predicate SegmentLoop<V>(es: seq<Entry>, rest: set<string>, filled: map<string, string>, m: map<string, V>,
                           descs: map<string, string>, val: V -> JsonValue)
  {
    SegmentSoFar(es, rest, m, descs, val) && DescsFilled(filled, descs, NamesOf(es))
  }

  lemma SegmentDone<V>(es: seq<Entry>, filled: map<string, string>, m: map<string, V>,
                       descs: map<string, string>, val: V -> JsonValue)
    requires SegmentLoop(es, {}, filled, m, descs, val)
    ensures SegmentOf(es, m, descs, val) && DescsFilled(filled, descs, m.Keys)
  {
  }

  /** The loop invariant of `Segment`: `es` lists the keys already
      visited, once each, and the rest are still to visit. */
  predicate SegmentSoFar<V>(es: seq<Entry>, rest: set<string>, m: map<string, V>,
                            descs: map<string, string>, val: V -> JsonValue)
  {
    && NamesOf(es) + rest == m.Keys && NamesOf(es) !! rest
    && (forall i :: 0 <= i < |es| ==> es[i].name in m && es[i].value == val(m[es[i].name])
                                      && es[i].desc == DescOf(descs, es[i].name))
    && (forall i, j :: 0 <= i < j < |es| ==> es[i].name != es[j].name)
  }

  lemma SegmentStep<V>(es: seq<Entry>, rest: set<string>, filled: map<string, string>, k: string,
                       m: map<string, V>, descs: map<string, string>, val: V -> JsonValue)
    requires SegmentLoop(es, rest, filled, m, descs, val) && k in rest
    ensures SegmentLoop(es + [Entry(k, val(m[k]), DescOf(descs, k))], rest - {k},
                        filled[k := DescOf(filled, k)], m, descs, val)
  {
    var es' := es + [Entry(k, val(m[k]), DescOf(descs, k))];
    FillStep(filled, descs, NamesOf(es), k);
    assert es'[..|es'| - 1] == es;
    assert NamesOf(es') == NamesOf(es) + {k};
    forall i | 0 <= i < |es| ensures es'[i].name != k {
      NamesOfHolds(es, i);
    }
  }
}
