// Character-level helpers shared by the three configuration parsers:
// whitespace trimming, `istream >> std::string` token extraction and
// `std::stoi`.
module Text {
  import opened Common

  /** The whitespace set " \t\n\r\f\v" (also what `isspace` accepts in the C locale). */
  predicate IsSpace(c: char)
  {
    c == ' ' || c == '\t' || c == '\n' || c == '\r' || c == '\U{000C}' || c == '\U{000B}'
  }

  predicate NoSpace(s: string)
  {
    forall i :: 0 <= i < |s| ==> !IsSpace(s[i])
  }

  predicate AllSpace(s: string)
  {
    forall i :: 0 <= i < |s| ==> IsSpace(s[i])
  }

  /** `erase(find_last_not_of(ws) + 1)`: drops the trailing whitespace run. */
  function TrimRight(s: string): string
  {
    if s == [] then []
    else if IsSpace(s[|s| - 1]) then TrimRight(s[..|s| - 1])
    else s
  }

  lemma {:induction false} TrimRightSpec(s: string)
    ensures TrimRight(s) <= s
    ensures TrimRight(s) == [] || !IsSpace(TrimRight(s)[|TrimRight(s)| - 1])
    ensures AllSpace(s[|TrimRight(s)|..])
  {
    if s != [] && IsSpace(s[|s| - 1]) {
      TrimRightSpec(s[..|s| - 1]);
      var r := TrimRight(s);
      assert s[|r|..] == s[..|s| - 1][|r|..] + [s[|s| - 1]];
    }
  }

  /** `erase(0, find_first_not_of(ws))`: drops the leading whitespace run. */
  function TrimLeft(s: string): string
  {
    if s == [] then []
    else if IsSpace(s[0]) then TrimLeft(s[1..])
    else s
  }

  lemma {:induction false} TrimLeftSpec(s: string)
    ensures |TrimLeft(s)| <= |s| && TrimLeft(s) == s[|s| - |TrimLeft(s)|..]
    ensures TrimLeft(s) == [] || !IsSpace(TrimLeft(s)[0])
    ensures AllSpace(s[..|s| - |TrimLeft(s)|])
  {
    if s != [] && IsSpace(s[0]) {
      TrimLeftSpec(s[1..]);
      var r := TrimLeft(s);
      assert s[..|s| - |r|] == [s[0]] + s[1..][..|s| - 1 - |r|];
    }
  }

  /** ConfigParser::trim: right end first, then left end. */
  function Trim(s: string): string
  {
    TrimLeft(TrimRight(s))
  }

  /** The trimmed string is one contiguous slice of the input with only
      whitespace cut off on either side, and it neither starts nor ends with
      whitespace. */
  lemma TrimIsSlice(s: string)
    ensures exists i, j :: 0 <= i <= j <= |s| && Trim(s) == s[i..j]
                           && AllSpace(s[..i]) && AllSpace(s[j..])
    ensures Trim(s) == [] || (!IsSpace(Trim(s)[0]) && !IsSpace(Trim(s)[|Trim(s)| - 1]))
  {
    var rr := TrimRight(s);
    TrimRightSpec(s);
    var r := TrimLeft(rr);
    TrimLeftSpec(rr);
    var i, j := |rr| - |r|, |rr|;
    assert r == s[i..j];
    assert s[..i] == rr[..i];
    assert AllSpace(s[..i]);
    if r != [] {
      assert r[|r| - 1] == rr[|rr| - 1];
    }
  }

  /** An all-whitespace line trims to the empty string, and only such a line. */
  lemma TrimEmptyIff(s: string)
    ensures Trim(s) == [] <==> AllSpace(s)
  {
    var rr := TrimRight(s);
    TrimRightSpec(s);
    TrimLeftSpec(rr);
    if Trim(s) == [] {
      assert s[|rr|..] == s;
    } else {
      TrimIsSlice(s);
    }
  }

  lemma TrimIdempotent(s: string)
    ensures Trim(Trim(s)) == Trim(s)
  {
    var t := Trim(s);
    TrimIsSlice(s);
    if t != [] {
      assert TrimRight(t) == t;
      assert TrimLeft(t) == t;
    }
  }

  /** The maximal run of non-whitespace characters at the front of `s`
      together with what follows it. */
  function SplitToken(s: string): (string, string)
  {
    if s == [] || IsSpace(s[0]) then ([], s)
    else
      var (t, rest) := SplitToken(s[1..]);
      ([s[0]] + t, rest)
  }

  lemma {:induction false} SplitTokenSpec(s: string)
    ensures SplitToken(s).0 + SplitToken(s).1 == s
    ensures NoSpace(SplitToken(s).0)
    ensures SplitToken(s).1 == [] || IsSpace(SplitToken(s).1[0])
  {
    if s != [] && !IsSpace(s[0]) {
      SplitTokenSpec(s[1..]);
    }
  }

  /** `iss >> tok` for a std::string: skip whitespace, then read one
      non-empty token; fails when only whitespace is left. */
  function ReadToken(s: string): Option<(string, string)>
  {
    var t := SplitToken(TrimLeft(s));
    if t.0 == [] then None else Some(t)
  }

  lemma ReadTokenSpec(s: string)
    ensures ReadToken(s).None? <==> AllSpace(s)
    ensures ReadToken(s).Some? ==>
              var (tok, rest) := ReadToken(s).value;
              tok != [] && NoSpace(tok) && tok + rest == TrimLeft(s) && (rest == [] || IsSpace(rest[0]))
  {
    TrimLeftSpec(s);
    var t := SplitToken(TrimLeft(s));
    SplitTokenSpec(TrimLeft(s));
    if t.0 == [] {
      assert s[..|s|] == s;
    } else {
      var k := |s| - |TrimLeft(s)|;
      assert s[k] == TrimLeft(s)[0] == t.0[0];
    }
  }

  /** The three leading tokens of a configuration line (`iss >> name >> value
      >> type`) and the rest of the line after the third token. */
  datatype Fields = Fields(name: string, value: string, vtype: string, rest: string)

  function ReadThree(line: string): Option<Fields>
  {
    match ReadToken(line)
    case None => None
    case Some((a, r1)) =>
      match ReadToken(r1)
      case None => None
      case Some((b, r2)) =>
        match ReadToken(r2)
        case None => None
        case Some((c, r3)) => Some(Fields(a, b, c, r3))
  }

  /** The three fields are non-empty and free of whitespace, and a line with
      fewer than three tokens yields none. */
  lemma ReadThreeSpec(line: string)
    ensures ReadThree(line).Some? ==>
              var f := ReadThree(line).value;
              f.name != [] && f.value != [] && f.vtype != [] && NoSpace(f.name) && NoSpace(f.value) && NoSpace(f.vtype)
    ensures AllSpace(line) ==> ReadThree(line).None?
  {
    ReadTokenSpec(line);
    if ReadToken(line).Some? {
      var r1 := ReadToken(line).value.1;
      ReadTokenSpec(r1);
      if ReadToken(r1).Some? {
        ReadTokenSpec(ReadToken(r1).value.1);
      }
    }
  }

  function DigitValue(c: char): nat
    requires '0' <= c <= '9'
  {
    (c as int - '0' as int) as nat
  }

  /** The leading run of decimal digits of `s`. */
  function DigitPrefix(s: string): (r: string)
    ensures r <= s
    ensures forall i :: 0 <= i < |r| ==> '0' <= r[i] <= '9'
    ensures |r| == |s| || !('0' <= s[|r|] <= '9')
  {
    if s != [] && '0' <= s[0] <= '9' then [s[0]] + DigitPrefix(s[1..]) else []
  }

  function DigitsValue(d: string): nat
    requires forall i :: 0 <= i < |d| ==> '0' <= d[i] <= '9'
  {
    if d == [] then 0 else 10 * DigitsValue(d[..|d| - 1]) + DigitValue(d[|d| - 1])
  }

  const IntMin: int := -0x8000_0000
  const IntMax: int := 0x7fff_ffff

  /** std::stoi in base 10: leading whitespace, an optional sign, then the
      longest digit run; `None` stands for the invalid_argument (no digits)
      and out_of_range (outside a 32-bit int) exceptions. */
  function Stoi(s: string): (r: Option<int>)
    ensures r.Some? ==> IntMin <= r.value <= IntMax
  {
    if s != [] && IsSpace(s[0]) then Stoi(s[1..])
    else
      var neg := s != [] && s[0] == '-';
      var body := if s != [] && (s[0] == '-' || s[0] == '+') then s[1..] else s;
      var d := DigitPrefix(body);
      if d == [] then None
      else
        var v := if neg then -(DigitsValue(d) as int) else DigitsValue(d) as int;
        if IntMin <= v <= IntMax then Some(v) else None
  }

  /** `static_cast<size_t>` of an int: negative values wrap modulo 2^64. */
  function IntToSize(v: int): (r: Size)
    requires IntMin <= v <= IntMax
    ensures r % 0x1_0000_0000_0000_0000 == v % 0x1_0000_0000_0000_0000
  {
    if v < 0 then v + SizeModulus else v
  }

  /** std::string's `operator<`: lexicographic order on characters. */
  predicate StrLess(a: string, b: string)
  {
    if a == [] then b != []
    else if b == [] then false
    else if a[0] == b[0] then StrLess(a[1..], b[1..])
    else a[0] < b[0]
  }

  lemma {:induction false} StrLessIrreflexive(a: string)
    ensures !StrLess(a, a)
  {
    if a != [] { StrLessIrreflexive(a[1..]); }
  }

  lemma {:induction false} StrLessTransitive(a: string, b: string, c: string)
    requires StrLess(a, b) && StrLess(b, c)
    ensures StrLess(a, c)
  {
    if a != [] && b != [] && c != [] && a[0] == b[0] && b[0] == c[0] {
      StrLessTransitive(a[1..], b[1..], c[1..]);
    }
  }

  lemma {:induction false} StrLessTotal(a: string, b: string)
    ensures a == b || StrLess(a, b) || StrLess(b, a)
  {
    if a != [] && b != [] && a[0] == b[0] {
      StrLessTotal(a[1..], b[1..]);
      if a[1..] == b[1..] { assert a == [a[0]] + a[1..] && b == [b[0]] + b[1..]; }
    }
  }

  predicate IsLeast(k: string, s: set<string>)
  {
    k in s && forall j :: j in s && j != k ==> StrLess(k, j)
  }

  /** Every non-empty finite set of strings has a least element, which is
      where iteration over a nlohmann::json object starts: its keys are
      kept in a `std::map<std::string, json>`. */
  lemma {:induction false} LeastExists(s: set<string>)
    requires s != {}
    ensures exists k :: IsLeast(k, s)
    decreases |s|
  {
    var x :| x in s;
    var rest := s - {x};
    if rest == {} {
      assert s == {x};
      assert IsLeast(x, s);
    } else {
      LeastExists(rest);
      var m :| IsLeast(m, rest);
      StrLessTotal(x, m);
      if StrLess(x, m) {
        forall j | j in s && j != x ensures StrLess(x, j) {
          if j != m { StrLessTransitive(x, m, j); }
        }
        assert IsLeast(x, s);
      } else {
        assert IsLeast(m, s);
      }
    }
  }

  /** Strictly increasing, as the keys of a nlohmann::json object are
      visited. */
  predicate StrictlySorted(ks: seq<string>)
  {
    forall i, j :: 0 <= i < j < |ks| ==> StrLess(ks[i], ks[j])
  }
}
