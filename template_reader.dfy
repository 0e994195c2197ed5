/** The template file reader: blocks of template lines and `|` constraint lines become Templates.
    Slots are written `{field, attr=val}`, optional text `[like this]`, and constraints
    `field op value, ...`. Value groups `${name}: a, b` are a table the reader keeps between files. */
module TemplateReader {
  import opened Wrappers
  import opened Text
  import opened Models

  // ---------------------------------------------------------------- alias tables

  /** `canonical_map(entries)[k]`, or None when k is not a key: every canonical name and each of its
      alternatives maps to the canonical name, and a later entry overrides an earlier one, as in a
      dict built from pairs. */
  function CanonicalMap(entries: seq<(string, seq<string>)>, k: string): Option<string>
    decreases |entries|
  {
    if entries == [] then None
    else
      var later := CanonicalMap(entries[1..], k);
      if later.Some? then later
      else if k == entries[0].0 || k in entries[0].1 then Some(entries[0].0)
      else None
  }

  /** The keys are exactly the names of the entries, and each maps to the canonical name of the last
      entry that lists it. */
  lemma {:induction false} CanonicalMapLookup(entries: seq<(string, seq<string>)>, k: string)
    ensures CanonicalMap(entries, k).Some? <==> exists i :: 0 <= i < |entries| && (k == entries[i].0 || k in entries[i].1)
    ensures CanonicalMap(entries, k).Some? ==>
      exists i :: 0 <= i < |entries| && (k == entries[i].0 || k in entries[i].1) &&
        CanonicalMap(entries, k) == Some(entries[i].0) &&
        forall j :: i < j < |entries| ==> !(k == entries[j].0 || k in entries[j].1)
    decreases |entries|
  {
    if entries != [] {
      CanonicalMapLookup(entries[1..], k);
      assert forall i :: 1 <= i < |entries| ==> entries[i] == entries[1..][i - 1];
      if CanonicalMap(entries[1..], k).Some? {
        var i :| 0 <= i < |entries[1..]| && (k == entries[1..][i].0 || k in entries[1..][i].1) &&
                 CanonicalMap(entries[1..], k) == Some(entries[1..][i].0) &&
                 forall j :: i < j < |entries[1..]| ==> !(k == entries[1..][j].0 || k in entries[1..][j].1);
        assert entries[i + 1] == entries[1..][i];
      }
    }
  }

  const FactFieldAliases: seq<(string, seq<string>)> :=
    [("location_type", []), ("location", []), ("timestamp", []), ("timestamp_type", []),
     ("value_type", []), ("value", []), ("time", []), ("unit", [])]

  /** `FACT_FIELDS`: the names a template may substitute. */
  const FactFields: seq<string> :=
    ["location_type", "location", "timestamp", "timestamp_type", "value_type", "value", "time", "unit"]

  /** `FACT_FIELD_MAP[k]`: with no aliases defined, every fact field maps to itself (see
      FactFieldMapCanonical). */
  function FactFieldMap(k: string): Option<string> {
    if k in FactFields then Some(k) else None
  }

  const LocationTypes: seq<(string, seq<string>)> :=
    [("C", ["country"]), ("D", ["district"]), ("M", ["municipality", "mun"])]

  /** `LOCATION_TYPE_MAP[k]`. */
  function LocationTypeMap(k: string): Option<string> {
    CanonicalMap(LocationTypes, k)
  }

  /** `FACT_FIELD_MAP` is `canonical_map(FACT_FIELD_ALIASES)`. */
  lemma FactFieldMapCanonical(k: string)
    ensures FactFieldMap(k) == CanonicalMap(FactFieldAliases, k)
  {
    AliasesPlain();
    hide CanonicalMap, Canonicals;
    CanonicalMapPlain(FactFieldAliases, k);
  }

  lemma AliasesPlain()
    ensures forall i :: 0 <= i < |FactFieldAliases| ==> FactFieldAliases[i].1 == []
    ensures Canonicals(FactFieldAliases) == FactFields
  {
  }

  /** The canonical names of the entries, in order. */
  function Canonicals(entries: seq<(string, seq<string>)>): (r: seq<string>)
    ensures |r| == |entries| && forall i :: 0 <= i < |entries| ==> r[i] == entries[i].0
  {
    seq(|entries|, i requires 0 <= i < |entries| => entries[i].0)
  }

  /** Without alternatives every canonical name maps to itself, and nothing else is a key. */
  lemma {:induction false} CanonicalMapPlain(entries: seq<(string, seq<string>)>, k: string)
    requires forall i :: 0 <= i < |entries| ==> entries[i].1 == []
    ensures CanonicalMap(entries, k) == if k in Canonicals(entries) then Some(k) else None
    decreases |entries|
  {
    if entries != [] {
      assert forall i :: 0 <= i < |entries[1..]| ==> entries[1..][i] == entries[i + 1];
      CanonicalMapPlain(entries[1..], k);
      assert Canonicals(entries) == [entries[0].0] + Canonicals(entries[1..]);
      assert entries[0].1 == [];
    }
  }

  lemma LocationTypeAliases()
    ensures LocationTypeMap("country") == Some("C") && LocationTypeMap("district") == Some("D")
    ensures LocationTypeMap("municipality") == Some("M") && LocationTypeMap("mun") == Some("M")
    ensures LocationTypeMap("C") == Some("C") && LocationTypeMap("region") == None
  {
  }

  // ---------------------------------------------------------------- constraint values

  function Pow10(n: nat): (r: nat)
    ensures r >= 1
  {
    if n == 0 then 1 else 10 * Pow10(n - 1)
  }

  /** Digits with at most one point and at least one digit, read as the exact rational they
      denote. */
  function DecimalNumeral(m: string): Option<real> {
    var p := IndexOfChar(m, '.');
    var ip := if p == -1 then m else m[..p];
    var fp := if p == -1 then [] else m[p + 1..];
    if AllDigits(ip) && AllDigits(fp) && |ip| + |fp| > 0 then
      Some(DigitsValue(ip) as real + DigitsValue(fp) as real / Pow10(|fp|) as real)
    else None
  }

  /** The exponent of a float numeral: an optional sign and at least one digit. */
  function ExponentNumeral(x: string): Option<int> {
    var sign := if x != [] && (x[0] == '-' || x[0] == '+') then 1 else 0;
    var d := x[sign..];
    if d != [] && AllDigits(d) then
      var v: int := DigitsValue(d);
      Some(if sign == 1 && x[0] == '-' then -v else v)
    else None
  }

  /** v times ten to the power e. */
  function Scaled(v: real, e: int): real {
    if e >= 0 then v * Pow10(e) as real else v / Pow10(-e) as real
  }

  /** An unsigned float numeral: a decimal numeral, optionally followed by `e` or `E` and an
      exponent. */
  function FloatNumeral(body: string): Option<real> {
    var e := IndexOfChar(Lower(body), 'e');
    if e == -1 then DecimalNumeral(body)
    else
      var m := DecimalNumeral(body[..e]);
      var x := ExponentNumeral(body[e + 1..]);
      if m.None? || x.None? then None else Some(Scaled(m.value, x.value))
  }

  /** Python's `float(s)` for a decimal numeral: optional sign, digits with at most one point and at
      least one digit, an optional exponent `e` or `E` with its own optional sign, surrounding
      whitespace allowed; "nan" in any letter case. The numeral is read as the exact rational it
      denotes. */
  function ParseFloat(s: string): (r: Option<Value>)
    ensures r.Some? ==> r.value.VReal? || r.value.VNaN?
  {
    var t := Strip(s);
    var sign := if t != [] && (t[0] == '-' || t[0] == '+') then 1 else 0;
    var body := t[sign..];
    if Lower(body) == "nan" then Some(VNaN)
    else match FloatNumeral(body)
      case None => None
      case Some(v) => Some(VReal(if sign == 1 && t[0] == '-' then -v else v))
  }

  /** A text without surrounding whitespace that starts with a digit is read as an unsigned
      numeral. */
  lemma ParseFloatUnsigned(s: string)
    requires s != [] && IsDigit(s[0]) && !IsSpace(s[|s| - 1])
    ensures ParseFloat(s) == if FloatNumeral(s).Some? then Some(VReal(FloatNumeral(s).value)) else None
  {
    StripDigitStart(s);
    LowerNotNan(s);
    hide FloatNumeral, Strip, Lower;
    assert s[0] != '-' && s[0] != '+';
    assert s[0..] == s;
  }

  lemma StripDigitStart(s: string)
    requires s != [] && IsDigit(s[0]) && !IsSpace(s[|s| - 1])
    ensures Strip(s) == s
  {
  }

  lemma LowerNotNan(s: string)
    requires s != [] && IsDigit(s[0])
    ensures Lower(s) != "nan"
  {
    assert Lower(s)[0] == s[0];
    assert "nan"[0] == 'n';
  }

  /** The first index of `c` in a text made of a part without `c`, then `c`, then anything. */
  lemma IndexOfCharAt(a: string, c: char, b: string)
    requires c !in a
    ensures IndexOfChar(a + [c] + b, c) == |a|
  {
    var s := a + [c] + b;
    assert s[|a|] == c && s[..|a|] == a;
  }

  /** Digits, a point and digits: the number they denote. */
  lemma DecimalPoint(ip: string, fp: string)
    requires AllDigits(ip) && AllDigits(fp) && |ip| + |fp| > 0
    ensures DecimalNumeral(ip + "." + fp) == Some(DigitsValue(ip) as real + DigitsValue(fp) as real / Pow10(|fp|) as real)
  {
    hide DigitsValue, Pow10, IndexOfChar;
    PointSplit(ip, fp);
  }

  lemma PointSplit(ip: string, fp: string)
    requires AllDigits(ip)
    ensures var s := ip + "." + fp;
      IndexOfChar(s, '.') == |ip| && s[..|ip|] == ip && s[|ip| + 1..] == fp
  {
    assert '.' !in ip by { assert forall i :: 0 <= i < |ip| ==> IsDigit(ip[i]); }
    IndexOfCharAt(ip, '.', fp);
    var s := ip + "." + fp;
    assert s[..|ip|] == ip && s[|ip| + 1..] == fp;
  }

  /** Digits and a point and digits have no `e`, even lower-cased. */
  lemma NoExponent(s: string)
    requires forall i :: 0 <= i < |s| ==> IsDigit(s[i]) || s[i] == '.'
    ensures IndexOfChar(Lower(s), 'e') == -1
  {
    assert forall i :: 0 <= i < |s| ==> Lower(s)[i] != 'e';
  }

  /** Digits, a point and digits read as the number they denote. */
  lemma ParseFloatPoint(ip: string, fp: string)
    requires ip != [] && AllDigits(ip) && AllDigits(fp)
    ensures ParseFloat(ip + "." + fp) == Some(VReal(DigitsValue(ip) as real + DigitsValue(fp) as real / Pow10(|fp|) as real))
  {
    hide DigitsValue, Pow10, FloatNumeral, ParseFloat;
    var s := ip + "." + fp;
    assert s[0] == ip[0];
    assert !IsSpace(s[|s| - 1]) by { assert s[|s| - 1] == '.' || IsDigit(s[|s| - 1]); }
    FloatNumeralPoint(ip, fp);
    ParseFloatUnsigned(s);
  }

  lemma FloatNumeralPoint(ip: string, fp: string)
    requires ip != [] && AllDigits(ip) && AllDigits(fp)
    ensures FloatNumeral(ip + "." + fp) == Some(DigitsValue(ip) as real + DigitsValue(fp) as real / Pow10(|fp|) as real)
  {
    hide DigitsValue, Pow10, DecimalNumeral, Lower, IndexOfChar;
    var s := ip + "." + fp;
    assert forall i :: 0 <= i < |s| ==> IsDigit(s[i]) || s[i] == '.' by {
      forall i | 0 <= i < |s| ensures IsDigit(s[i]) || s[i] == '.' {
        if i < |ip| { assert s[i] == ip[i]; }
        else if i > |ip| { assert s[i] == fp[i - |ip| - 1]; }
      }
    }
    NoExponent(s);
    DecimalPoint(ip, fp);
  }

  /** Digits, an `e` and a natural exponent n read as the digits' value times ten to the n. */
  lemma ParseFloatExponent(ip: string, n: nat)
    requires ip != [] && AllDigits(ip)
    ensures ParseFloat(ip + "e" + NatToString(n)) == Some(VReal(DigitsValue(ip) as real * Pow10(n) as real))
  {
    hide DigitsValue, Pow10, FloatNumeral, ParseFloat, NatToString;
    var d := NatToString(n);
    var s := ip + "e" + d;
    assert s[0] == ip[0] && s[|s| - 1] == d[|d| - 1];
    assert IsDigit(d[|d| - 1]);
    FloatNumeralExponent(ip, n);
    ParseFloatUnsigned(s);
  }

  lemma FloatNumeralExponent(ip: string, n: nat)
    requires ip != [] && AllDigits(ip)
    ensures FloatNumeral(ip + "e" + NatToString(n)) == Some(DigitsValue(ip) as real * Pow10(n) as real)
  {
    hide Pow10, DigitsValue, DecimalNumeral, ExponentNumeral, Lower, IndexOfChar, NatToString;
    var d := NatToString(n);
    var s := ip + "e" + d;
    LowerSplit(ip, d);
    assert s[..|ip|] == ip && s[|ip| + 1..] == d;
    DecimalDigits(ip);
    ExponentDigits(n);
    assert FloatNumeral(s) == Some(Scaled(DigitsValue(ip) as real, n));
    ScaledNat(DigitsValue(ip) as real, n);
    assert Scaled(DigitsValue(ip) as real, n) == DigitsValue(ip) as real * Pow10(n) as real;
    assert s == ip + "e" + NatToString(n);
  }

  lemma ScaledNat(v: real, n: nat)
    ensures Scaled(v, n) == v * Pow10(n) as real
  {
  }

  /** The lower-cased `ip + "e" + d` has its first `e` right after the digits ip. */
  lemma LowerSplit(ip: string, d: string)
    requires AllDigits(ip)
    ensures IndexOfChar(Lower(ip + "e" + d), 'e') == |ip|
  {
    var s := ip + "e" + d;
    assert Lower(s) == Lower(ip) + "e" + Lower(d) by {
      assert forall i :: 0 <= i < |s| ==> Lower(s)[i] == (Lower(ip) + "e" + Lower(d))[i];
    }
    assert 'e' !in Lower(ip) by { assert forall i :: 0 <= i < |ip| ==> Lower(ip)[i] == ip[i]; }
    IndexOfCharAt(Lower(ip), 'e', Lower(d));
  }

  lemma DecimalDigits(ip: string)
    requires ip != [] && AllDigits(ip)
    ensures DecimalNumeral(ip) == Some(DigitsValue(ip) as real)
  {
    assert DigitsValue([]) == 0 && Pow10(0) == 1;
    hide DigitsValue, Pow10;
    assert '.' !in ip by { assert forall i :: 0 <= i < |ip| ==> IsDigit(ip[i]); }
  }

  lemma ExponentDigits(n: nat)
    ensures ExponentNumeral(NatToString(n)) == Some(n)
  {
    var d := NatToString(n);
    assert IsDigit(d[0]);
    assert d[0..] == d;
    DigitsOfNat(n);
  }

  /** The text "1e5" is the number 100000, as `float` reads it. */
  lemma DetectTypesExponent()
    ensures DetectTypes("1e5") == VReal(100000.0)
  {
    hide *;
    OneE5Parts();
    OneE5NoInt();
    DetectTypesAtExponent("1e5", "1", 5);
  }

  lemma DetectTypesAtExponent(t: string, ip: string, n: nat)
    requires ip != [] && AllDigits(ip) && t == ip + "e" + NatToString(n)
    requires ParseInt(t) == None && t != "True" && t != "False"
    ensures DetectTypes(t) == VReal(DigitsValue(ip) as real * Pow10(n) as real)
  {
    ParseFloatExponent(ip, n);
    hide ParseFloat, ParseInt, NatToString, Pow10, DigitsValue;
  }

  lemma OneE5Parts()
    ensures "1" + "e" + NatToString(5) == "1e5" && AllDigits("1")
    ensures DigitsValue("1") as real * Pow10(5) as real == 100000.0
  {
    assert DigitsValue("1") == 1 by { assert "1"[..0] == []; }
  }

  lemma OneE5NoInt()
    ensures ParseInt("1e5") == None && "1e5" != "True" && "1e5" != "False"
  {
    var t := "1e5";
    assert Strip(t) == t;
    assert !AllDigits(t) by { assert !IsDigit(t[1]); }
  }

  /** `detect_types`: "True" and "False" become booleans, then an int is tried, then a float, and
      anything else stays the string it was. */
  function DetectTypes(value: string): (r: Value)
    ensures r.VBool? <==> value == "True" || value == "False"
    ensures r.VStr? ==> r.s == value && ParseInt(value).None? && ParseFloat(value).None?
    ensures ParseInt(value).Some? && !r.VBool? ==> r == VInt(ParseInt(value).value)
  {
    if value == "True" then VBool(true)
    else if value == "False" then VBool(false)
    else match ParseInt(value)
      case Some(i) => VInt(i)
      case None =>
        match ParseFloat(value)
        case Some(v) => v
        case None => VStr(value)
  }

  /** An integer written out in decimal is read back as that integer. */
  lemma DetectTypesOfInt(i: int)
    ensures DetectTypes(IntToString(i)) == VInt(i)
  {
    ParseIntOfInt(i);
  }

  // ---------------------------------------------------------------- slot attributes

  const CaseNames: seq<(string, seq<string>)> :=
    [("nominative", ["nominatiivi", "nom"]), ("genitive", ["genitiivi", "gen"]),
     ("partitive", ["partitiivi", "par"]), ("accusative", ["akkusatiivi", "acc"]),
     ("inessive", ["inessiivi", "ine", "ssa"]), ("elative", ["elatiivi", "ela", "sta"]),
     ("illative", ["illatiivi", "ill"]), ("adessive", ["adessiivi", "ade", "lla"]),
     ("ablative", ["ablatiivi", "abl", "lta"]), ("allative", ["allatiivi", "all", "lle"]),
     ("essive", ["essiivi", "ess"]), ("translative", ["translatiivi", "tra"])]

  predicate NamesCase(v: Value, entry: (string, seq<string>)) {
    v.VStr? && (v.s == entry.0 || v.s in entry.1)
  }

  /** The canonical case name for `v`: the first entry that has it as name or alternative; a value
      no entry names is kept as it is. */
  function CaseOf(v: Value, entries: seq<(string, seq<string>)>): Value {
    if entries == [] then v
    else if NamesCase(v, entries[0]) then VStr(entries[0].0)
    else CaseOf(v, entries[1..])
  }

  /** The result is the canonical name of the first entry naming `v`, or `v` when none does. */
  lemma {:induction false} CaseOfFirst(v: Value, entries: seq<(string, seq<string>)>)
    ensures (forall i :: 0 <= i < |entries| ==> !NamesCase(v, entries[i])) ==> CaseOf(v, entries) == v
    ensures var r := CaseOf(v, entries);
      r == v || exists i :: 0 <= i < |entries| && NamesCase(v, entries[i]) && r == VStr(entries[i].0) &&
                            forall j :: 0 <= j < i ==> !NamesCase(v, entries[j])
  {
    if entries != [] && !NamesCase(v, entries[0]) {
      CaseOfFirst(v, entries[1..]);
      var r := CaseOf(v, entries[1..]);
      if r != v {
        var i :| 0 <= i < |entries[1..]| && NamesCase(v, entries[1..][i]) && r == VStr(entries[1..][i].0) &&
                 forall j :: 0 <= j < i ==> !NamesCase(v, entries[1..][j]);
        assert entries[i + 1] == entries[1..][i];
        assert forall j :: 1 <= j < i + 1 ==> entries[j] == entries[1..][j - 1];
      }
    }
  }

  /** `process_attributes`: the "case" attribute is canonicalised; every other attribute is kept. */
  function ProcessAttributes(attrs: map<string, Value>): (r: map<string, Value>)
    ensures r.Keys == attrs.Keys
    ensures forall k :: k in attrs && k != "case" ==> r[k] == attrs[k]
    ensures "case" in attrs ==> r["case"] == CaseOf(attrs["case"], CaseNames)
  {
    map k | k in attrs :: if k == "case" then CaseOf(attrs[k], CaseNames) else attrs[k]
  }

  /** The attribute parts of a substitution, in order: `k=v` sets the stripped string v under the
      stripped k, a bare part sets True; a later part overrides an earlier one with the same key. */
  function Attributes(parts: seq<string>): map<string, Value>
    decreases |parts|
  {
    if parts == [] then map[]
    else
      var m := Attributes(parts[..|parts| - 1]);
      var p := parts[|parts| - 1];
      var eq := IndexOfChar(p, '=');
      if eq == -1 then m[p := VBool(true)]
      else m[Strip(p[..eq]) := VStr(Strip(p[eq + 1..]))]
  }

  lemma AttributesLast(parts: seq<string>, key: string, val: string)
    requires parts != [] && parts[|parts| - 1] == key + "=" + val && '=' !in key
    ensures Strip(key) in Attributes(parts) && Attributes(parts)[Strip(key)] == VStr(Strip(val))
  {
    var p := key + "=" + val;
    assert p[|key|] == '=';
    assert IndexOfChar(p, '=') == |key|;
    assert p[..|key|] == key && p[|key| + 1..] == val;
  }

  // ---------------------------------------------------------------- lines and blocks

  predicate IsLineBreak(c: char) {
    c == '\n' || c == '\r' || c as int == 11 || c as int == 12 || c as int == 0x1c || c as int == 0x1d ||
    c as int == 0x1e || c as int == 0x85 || c as int == 0x2028 || c as int == 0x2029
  }

  function LineBreakIndex(s: string): (r: int)
    ensures -1 <= r < |s|
    ensures r >= 0 ==> IsLineBreak(s[r])
    ensures forall j :: 0 <= j < |s| && (r == -1 || j < r) ==> !IsLineBreak(s[j])
  {
    if s == [] then -1
    else if IsLineBreak(s[0]) then 0
    else var k := LineBreakIndex(s[1..]); if k == -1 then -1 else k + 1
  }

  /** Python's `str.splitlines()`: "\r\n" is one break, and a final break does not start a line. */
  function SplitLines(s: string): (r: seq<string>)
    ensures forall i, j :: 0 <= i < |r| && 0 <= j < |r[i]| ==> !IsLineBreak(r[i][j])
    decreases |s|
  {
    if s == [] then []
    else
      var k := LineBreakIndex(s);
      if k == -1 then [s]
      else
        var skip := if s[k] == '\r' && k + 1 < |s| && s[k + 1] == '\n' then 2 else 1;
        [s[..k]] + SplitLines(s[k + skip..])
  }

  /** Lines written out each followed by "\n". */
  function JoinLines(lines: seq<string>): string {
    if lines == [] then [] else lines[0] + "\n" + JoinLines(lines[1..])
  }

  /** `splitlines` undoes writing the lines out one per line. */
  lemma {:induction false} SplitJoinLines(lines: seq<string>)
    requires forall i, j :: 0 <= i < |lines| && 0 <= j < |lines[i]| ==> !IsLineBreak(lines[i][j])
    ensures SplitLines(JoinLines(lines)) == lines
  {
    if lines != [] {
      assert forall j :: 0 <= j < |lines[0]| ==> !IsLineBreak(lines[0][j]);
      SplitLinesStep(lines[0], JoinLines(lines[1..]));
      hide SplitLines;
      SplitJoinLines(lines[1..]);
      assert lines == [lines[0]] + lines[1..];
    }
  }

  /** A line without breaks, then "\n", is split off as the first line. */
  lemma SplitLinesStep(line: string, rest: string)
    requires forall j :: 0 <= j < |line| ==> !IsLineBreak(line[j])
    ensures SplitLines(line + "\n" + rest) == [line] + SplitLines(rest)
  {
    FirstLineBreak(line, rest);
  }

  /** The first break of a line without breaks followed by "\n" is that "\n". */
  lemma FirstLineBreak(line: string, rest: string)
    requires forall j :: 0 <= j < |line| ==> !IsLineBreak(line[j])
    ensures var s := line + "\n" + rest;
      LineBreakIndex(s) == |line| && s[..|line|] == line && s[|line|] == '\n' && s[|line| + 1..] == rest
  {
    var s := line + "\n" + rest;
    assert s[|line|] == '\n';
    assert forall j :: 0 <= j < |line| ==> s[j] == line[j];
    assert s[..|line|] == line;
    assert s[|line| + 1..] == rest;
  }

  /** `blank_line_split` with its open group: empty lines close the group; no group is empty. */
  function BlankSplit(lines: seq<string>, group: seq<string>): seq<seq<string>>
    decreases |lines|
  {
    if lines == [] then (if group != [] then [group] else [])
    else if lines[0] == [] then (if group != [] then [group] else []) + BlankSplit(lines[1..], [])
    else BlankSplit(lines[1..], group + [lines[0]])
  }

  function Flatten(groups: seq<seq<string>>): seq<string> {
    if groups == [] then [] else groups[0] + Flatten(groups[1..])
  }

  function NonEmptyLines(lines: seq<string>): (r: seq<string>)
    ensures forall i :: 0 <= i < |r| ==> r[i] != []
  {
    if lines == [] then [] else (if lines[0] != [] then [lines[0]] else []) + NonEmptyLines(lines[1..])
  }

  lemma {:induction false} FlattenAppend(a: seq<seq<string>>, b: seq<seq<string>>)
    ensures Flatten(a + b) == Flatten(a) + Flatten(b)
  {
    if a == [] {
      assert a + b == b;
    } else {
      assert (a + b)[0] == a[0] && (a + b)[1..] == a[1..] + b;
      FlattenAppend(a[1..], b);
    }
  }

  /** Every group is non-empty, and the groups together are the group so far followed by the
      non-empty lines, in order. */
  lemma {:induction false} BlankSplitMeaning(lines: seq<string>, group: seq<string>)
    ensures forall i :: 0 <= i < |BlankSplit(lines, group)| ==> BlankSplit(lines, group)[i] != []
    ensures Flatten(BlankSplit(lines, group)) == group + NonEmptyLines(lines)
    decreases |lines|
  {
    if lines == [] {
    } else if lines[0] == [] {
      BlankSplitMeaning(lines[1..], []);
      var head := if group != [] then [group] else [];
      FlattenAppend(head, BlankSplit(lines[1..], []));
    } else {
      BlankSplitMeaning(lines[1..], group + [lines[0]]);
    }
  }

  /** `blank_line_split`: the loop over the lines with the open group. */
  method BlankLineSplit(lines: seq<string>) returns (groups: seq<seq<string>>)
    ensures groups == BlankSplit(lines, [])
    ensures forall i :: 0 <= i < |groups| ==> groups[i] != []
    ensures Flatten(groups) == NonEmptyLines(lines)
  {
    groups := [];
    var group: seq<string> := [];
    var i := 0;
    while i < |lines|
      invariant 0 <= i <= |lines|
      invariant BlankSplit(lines, []) == groups + BlankSplit(lines[i..], group)
    {
      assert lines[i..][1..] == lines[i + 1..];
      if |lines[i]| == 0 {
        if |group| > 0 {
          groups := groups + [group];
          group := [];
        }
      } else {
        group := group + [lines[i]];
      }
      i := i + 1;
    }
    if |group| > 0 {
      groups := groups + [group];
    }
    BlankSplitMeaning(lines, []);
  }

  /** `re.match(r"\s", line)`: the line starts with whitespace. */
  predicate Indented(line: string) {
    line != [] && IsSpace(line[0])
  }

  /** `group_indented_lines` with the open group: an indented line joins the group, any other line
      closes it and opens the next. */
  function GroupLines(rest: seq<string>, group: seq<string>): seq<string>
    decreases |rest|
  {
    if rest == [] then [Join(" ", group)]
    else if Indented(rest[0]) then GroupLines(rest[1..], group + [Strip(rest[0])])
    else [Join(" ", group)] + GroupLines(rest[1..], [Strip(rest[0])])
  }

  /** The number of lines that are not indented. */
  function HeadCount(lines: seq<string>): nat {
    if lines == [] then 0 else (if Indented(lines[0]) then 0 else 1) + HeadCount(lines[1..])
  }

  /** The first line always opens a group; `seq[0]` on no lines raises IndexError. */
  function GroupIndented(lines: seq<string>): (r: Result<seq<string>>)
    ensures r.Ok? <==> lines != []
  {
    if lines == [] then Err(IndexError) else Ok(GroupLines(lines[1..], [Strip(lines[0])]))
  }

  /** One group per line that is not indented, plus the one the first line opens. */
  lemma {:induction false} GroupLinesCount(rest: seq<string>, group: seq<string>)
    ensures |GroupLines(rest, group)| == 1 + HeadCount(rest)
    decreases |rest|
  {
    if rest != [] {
      GroupLinesCount(rest[1..], if Indented(rest[0]) then group + [Strip(rest[0])] else [Strip(rest[0])]);
    }
  }

  lemma GroupIndentedCount(lines: seq<string>)
    requires lines != []
    ensures |GroupIndented(lines).value| == 1 + HeadCount(lines[1..])
  {
    GroupLinesCount(lines[1..], [Strip(lines[0])]);
  }

  function StripAll(lines: seq<string>): seq<string> {
    if lines == [] then [] else [Strip(lines[0])] + StripAll(lines[1..])
  }

  lemma {:induction false} JoinAppend(sep: string, a: seq<string>, b: seq<string>)
    requires a != [] && b != []
    ensures Join(sep, a + b) == Join(sep, a) + sep + Join(sep, b)
  {
    if |a| > 1 {
      assert (a + b)[1..] == a[1..] + b;
      JoinAppend(sep, a[1..], b);
    }
  }

  /** Joining the groups with one space gives all the stripped lines joined with one space. */
  lemma {:induction false} GroupLinesJoin(rest: seq<string>, group: seq<string>)
    requires group != []
    ensures Join(" ", GroupLines(rest, group)) == Join(" ", group + StripAll(rest))
    decreases |rest|
  {
    if rest == [] {
      assert group + StripAll(rest) == group;
    } else {
      hide GroupLines, StripAll, Join;
      if Indented(rest[0]) {
        GroupLinesJoin(rest[1..], group + [Strip(rest[0])]);
        IndentedGroupJoin(rest, group);
      } else {
        GroupLinesJoin(rest[1..], [Strip(rest[0])]);
        ClosedGroupJoin(rest, group);
      }
    }
  }

  lemma IndentedGroupJoin(rest: seq<string>, group: seq<string>)
    requires group != [] && rest != [] && Indented(rest[0])
    requires Join(" ", GroupLines(rest[1..], group + [Strip(rest[0])])) == Join(" ", group + [Strip(rest[0])] + StripAll(rest[1..]))
    ensures Join(" ", GroupLines(rest, group)) == Join(" ", group + StripAll(rest))
  {
    hide *;
    IndentedUnfold(rest, group);
    var s0 := Strip(rest[0]);
    var sa := StripAll(rest[1..]);
    assert group + [s0] + sa == group + ([s0] + sa);
  }

  lemma IndentedUnfold(rest: seq<string>, group: seq<string>)
    requires rest != [] && Indented(rest[0])
    ensures GroupLines(rest, group) == GroupLines(rest[1..], group + [Strip(rest[0])])
    ensures StripAll(rest) == [Strip(rest[0])] + StripAll(rest[1..])
  {
  }

  lemma ClosedGroupJoin(rest: seq<string>, group: seq<string>)
    requires group != [] && rest != [] && !Indented(rest[0])
    requires Join(" ", GroupLines(rest[1..], [Strip(rest[0])])) == Join(" ", [Strip(rest[0])] + StripAll(rest[1..]))
    ensures Join(" ", GroupLines(rest, group)) == Join(" ", group + StripAll(rest))
  {
    hide GroupLines, StripAll;
    ClosedUnfold(rest, group);
    var tail := GroupLines(rest[1..], [Strip(rest[0])]);
    GroupLinesCount(rest[1..], [Strip(rest[0])]);
    JoinAppend(" ", [Join(" ", group)], tail);
    JoinAppend(" ", group, StripAll(rest));
  }

  lemma ClosedUnfold(rest: seq<string>, group: seq<string>)
    requires rest != [] && !Indented(rest[0])
    ensures GroupLines(rest, group) == [Join(" ", group)] + GroupLines(rest[1..], [Strip(rest[0])])
    ensures StripAll(rest) == [Strip(rest[0])] + StripAll(rest[1..])
  {
  }

  lemma GroupIndentedJoin(lines: seq<string>)
    requires lines != []
    ensures Join(" ", GroupIndented(lines).value) == Join(" ", StripAll(lines))
  {
    GroupLinesJoin(lines[1..], [Strip(lines[0])]);
    assert [Strip(lines[0])] + StripAll(lines[1..]) == StripAll(lines);
  }

  lemma LastGroup(group: seq<string>)
    ensures GroupLines([], group) == [Join(" ", group)]
  {
  }

  /** `group_indented_lines`: the loop over the lines after the first. */
  method GroupIndentedLines(lines: seq<string>) returns (r: Result<seq<string>>)
    ensures r == GroupIndented(lines)
  {
    if |lines| == 0 {
      return Err(IndexError);
    }
    ghost var spec := GroupLines(lines[1..], [Strip(lines[0])]);
    var out: seq<string> := [];
    var group := [Strip(lines[0])];
    var i := 1;
    assert out + GroupLines(lines[1..], group) == spec;
    hide GroupLines;
    while i < |lines|
      invariant 1 <= i <= |lines|
      invariant spec == out + GroupLines(lines[i..], group)
    {
      ghost var tail := lines[i..];
      assert tail[0] == lines[i] && tail[1..] == lines[i + 1..];
      if Indented(lines[i]) {
        IndentedUnfold(tail, group);
        group := group + [Strip(lines[i])];
      } else {
        ClosedUnfold(tail, group);
        assert out + ([Join(" ", group)] + GroupLines(tail[1..], [Strip(lines[i])]))
          == (out + [Join(" ", group)]) + GroupLines(tail[1..], [Strip(lines[i])]);
        out := out + [Join(" ", group)];
        group := [Strip(lines[i])];
      }
      i := i + 1;
    }
    assert lines[i..] == [];
    LastGroup(group);
    return Ok(out + [Join(" ", group)]);
  }

  // ---------------------------------------------------------------------------------------------
  // Optional parts in square brackets (`expand_alternatives`)

  /** `add_to_alts`: every old alternative followed by every new part, old alternatives outermost. */
  function AddTo(olds: seq<string>, news: seq<string>): seq<string> {
    if olds == [] then [] else Suffixed(olds[0], news) + AddTo(olds[1..], news)
  }

  function Suffixed(prev: string, news: seq<string>): (r: seq<string>)
    ensures |r| == |news| && forall j :: 0 <= j < |news| ==> r[j] == prev + news[j]
  {
    if news == [] then [] else [prev + news[0]] + Suffixed(prev, news[1..])
  }

  lemma {:induction false} AddToLength(olds: seq<string>, news: seq<string>)
    ensures |AddTo(olds, news)| == |olds| * |news|
  {
    if olds != [] {
      AddToLength(olds[1..], news);
      assert |olds| * |news| == |news| + (|olds| - 1) * |news|;
    }
  }

  /** A single new part keeps the number of alternatives; two new parts double it. */
  lemma AddToCounts(olds: seq<string>, x: string, y: string)
    ensures |AddTo(olds, [x])| == |olds| && |AddTo(olds, [x, y])| == 2 * |olds|
  {
    AddToLength(olds, [x]);
    AddToLength(olds, [x, y]);
  }

  function Last(xs: seq<string>): string
    requires xs != []
  {
    xs[|xs| - 1]
  }

  /** The first alternative of the product extends the first old one by the first new part, the
      last extends the last old one by the last new part. */
  lemma {:induction false} AddToEnds(olds: seq<string>, news: seq<string>)
    requires olds != [] && news != []
    ensures var r := AddTo(olds, news);
      r != [] && r[0] == olds[0] + news[0] && Last(r) == Last(olds) + Last(news)
  {
    var r := AddTo(olds, news);
    if |olds| > 1 {
      AddToEnds(olds[1..], news);
      assert r == Suffixed(olds[0], news) + AddTo(olds[1..], news);
    } else {
      assert AddTo(olds[1..], news) == [];
      assert r == Suffixed(olds[0], news);
    }
  }

  /** What the two partitions of one loop round find in the unread text. */
  datatype Piece =
    | Plain(text: string)                                 // no `[`: the rest is plain text
    | Unclosed(before: string)                            // a `[` with no `]` after it
    | Optional(before: string, inside: string, after: string)

  function NextPiece(rest: string): (p: Piece)
    ensures p.Optional? ==> |p.after| < |rest|
  {
    var (before, bracket, after) := Partition(rest, '[');
    if !bracket then Plain(before)
    else
      var (inside, closing, after2) := Partition(after, ']');
      if !closing then Unclosed(before) else Optional(before, inside, after2)
  }


  /** The loop of `expand_alternatives` from the unread `rest` on, with alternatives `alts` so far. */
  function ExpandFrom(line: string, rest: string, alts: seq<string>): Result<seq<string>>
    decreases |rest|
  {
    if rest == [] then Ok(alts)
    else
      match NextPiece(rest)
      case Plain(text) => Ok(AddTo(alts, [text]))
      case Unclosed(_) => Err(UnmatchedBracketIn(line))
      case Optional(before, inside, after) => ExpandFrom(line, after, AddTo(AddTo(alts, [before]), [inside, ""]))
  }

  /** How many bracketed optional parts the text has. */
  function OptionalParts(rest: string): nat
    decreases |rest|
  {
    if rest == [] then 0
    else match NextPiece(rest)
      case Optional(_, _, after) => 1 + OptionalParts(after)
      case _ => 0
  }

  /** The text with every optional part kept, brackets removed. */
  function Kept(rest: string): string
    decreases |rest|
  {
    if rest == [] then []
    else match NextPiece(rest)
      case Optional(before, inside, after) => before + inside + Kept(after)
      case Plain(text) => text
      case Unclosed(before) => before
  }

  /** The text with every optional part dropped. */
  function Dropped(rest: string): string
    decreases |rest|
  {
    if rest == [] then []
    else match NextPiece(rest)
      case Optional(before, _, after) => before + Dropped(after)
      case Plain(text) => text
      case Unclosed(before) => before
  }

  function Pow2(n: nat): (r: nat)
    ensures r >= 1
  {
    if n == 0 then 1 else 2 * Pow2(n - 1)
  }

  /** `a` doubled `n` times. */
  function Doubling(a: nat, n: nat): nat
    decreases n
  {
    if n == 0 then a else Doubling(2 * a, n - 1)
  }

  lemma {:induction false} DoublingPow2(a: nat, n: nat)
    ensures Doubling(a, n) == a * Pow2(n)
    decreases n
  {
    if n > 0 {
      DoublingPow2(2 * a, n - 1);
      assert (2 * a) * Pow2(n - 1) == a * (2 * Pow2(n - 1));
    }
  }

  /** Each optional part doubles the alternatives. */
  lemma {:induction false} ExpandFromCount(line: string, rest: string, alts: seq<string>)
    requires ExpandFrom(line, rest, alts).Ok?
    ensures |ExpandFrom(line, rest, alts).value| == Doubling(|alts|, OptionalParts(rest))
    decreases |rest|
  {
    if rest != [] {
      match NextPiece(rest)
      case Plain(text) =>
        AddToCounts(alts, text, "");
      case Optional(before, inside, after) =>
        var alts1 := AddTo(alts, [before]);
        var alts2 := AddTo(alts1, [inside, ""]);
        AddToCounts(alts, before, "");
        AddToCounts(alts1, inside, "");
        ExpandFromCount(line, after, alts2);
        assert ExpandFrom(line, rest, alts) == ExpandFrom(line, after, alts2);
        assert OptionalParts(rest) == 1 + OptionalParts(after);
    }
  }

  /** One optional part: the first alternative gains the text before it and its contents, the
      last only the text before it. */
  lemma OptionalEnds(alts: seq<string>, before: string, inside: string)
    requires alts != []
    ensures var r := AddTo(AddTo(alts, [before]), [inside, ""]);
      r != [] && r[0] == alts[0] + (before + inside) && Last(r) == Last(alts) + before
  {
    var alts1 := AddTo(alts, [before]);
    AddToEnds(alts, [before]);
    AddToEnds(alts1, [inside, ""]);
    ConcatAssoc(alts[0], before, inside);
    assert Last(alts) + before + "" == Last(alts) + before;
  }

  /** One round of the loop over an optional part, unfolded. */
  lemma OptionalStep(line: string, rest: string, alts: seq<string>)
    requires alts != [] && rest != [] && NextPiece(rest).Optional?
    ensures var p := NextPiece(rest);
      var alts2 := AddTo(AddTo(alts, [p.before]), [p.inside, ""]);
      ExpandFrom(line, rest, alts) == ExpandFrom(line, p.after, alts2)
      && alts2 != [] && alts2[0] == alts[0] + (p.before + p.inside)
      && Last(alts2) == Last(alts) + p.before
      && Kept(rest) == p.before + p.inside + Kept(p.after)
      && Dropped(rest) == p.before + Dropped(p.after)
  {
    var p := NextPiece(rest);
    OptionalEnds(alts, p.before, p.inside);
  }

  lemma ConcatAssoc(a: string, b: string, c: string)
    ensures a + b + c == a + (b + c)
  {
  }

  /** The first alternative keeps every optional part. */
  lemma {:induction false} ExpandFromFirst(line: string, rest: string, alts: seq<string>)
    requires alts != [] && ExpandFrom(line, rest, alts).Ok?
    ensures var r := ExpandFrom(line, rest, alts).value; r != [] && r[0] == alts[0] + Kept(rest)
    decreases |rest|
  {
    if rest == [] {
      assert alts[0] + [] == alts[0];
    } else {
      var p := NextPiece(rest);
      if p.Plain? {
        AddToEnds(alts, [p.text]);
      } else if p.Optional? {
        OptionalStep(line, rest, alts);
        var alts2 := AddTo(AddTo(alts, [p.before]), [p.inside, ""]);
        ExpandFromFirst(line, p.after, alts2);
        ConcatAssoc(alts[0], p.before + p.inside, Kept(p.after));
      }
    }
  }

  /** The last alternative drops every optional part. */
  lemma {:induction false} ExpandFromLast(line: string, rest: string, alts: seq<string>)
    requires alts != [] && ExpandFrom(line, rest, alts).Ok?
    ensures var r := ExpandFrom(line, rest, alts).value; r != [] && Last(r) == Last(alts) + Dropped(rest)
    decreases |rest|
  {
    if rest == [] {
      assert Last(alts) + [] == Last(alts);
    } else {
      var p := NextPiece(rest);
      if p.Plain? {
        AddToEnds(alts, [p.text]);
      } else if p.Optional? {
        OptionalStep(line, rest, alts);
        var alts2 := AddTo(AddTo(alts, [p.before]), [p.inside, ""]);
        ExpandFromLast(line, p.after, alts2);
        ConcatAssoc(Last(alts), p.before, Dropped(p.after));
      }
    }
  }

  /** Python's `re.sub(r"\s+", " ", s)`. */
  function CollapseSpace(s: string): (r: string)
    ensures s != [] ==> r != [] && r[0] == (if IsSpace(s[0]) then ' ' else s[0])
    decreases |s|
  {
    if s == [] then []
    else if IsSpace(s[0]) then " " + CollapseSpace(LStrip(s[1..]))
    else [s[0]] + CollapseSpace(s[1..])
  }

  /** Every whitespace character is a single space with no whitespace after it. */
  predicate SingleSpaced(s: string) {
    forall i :: 0 <= i < |s| && IsSpace(s[i]) ==> s[i] == ' ' && (i + 1 < |s| ==> !IsSpace(s[i + 1]))
  }

  lemma {:induction false} CollapseSpaceSingle(s: string)
    ensures SingleSpaced(CollapseSpace(s))
    decreases |s|
  {
    if s != [] {
      if IsSpace(s[0]) {
        var t := LStrip(s[1..]);
        CollapseSpaceSingle(t);
        var c := CollapseSpace(t);
        assert CollapseSpace(s) == [' '] + c;
        SingleSpacedCons(' ', c);
      } else {
        CollapseSpaceSingle(s[1..]);
        var c := CollapseSpace(s[1..]);
        assert CollapseSpace(s) == [s[0]] + c;
        SingleSpacedCons(s[0], c);
      }
    }
  }

  lemma SingleSpacedCons(c: char, t: string)
    requires SingleSpaced(t) && (IsSpace(c) ==> c == ' ' && (t != [] ==> !IsSpace(t[0])))
    ensures SingleSpaced([c] + t)
  {
    var s := [c] + t;
    forall i | 0 <= i < |s| && IsSpace(s[i])
      ensures s[i] == ' ' && (i + 1 < |s| ==> !IsSpace(s[i + 1]))
    {
      if i > 0 {
        assert s[i] == t[i - 1];
        if i + 1 < |s| {
          assert s[i + 1] == t[i];
        }
      } else if |s| > 1 {
        assert s[1] == t[0];
      }
    }
  }

  /** A text that ends in a non-space character still does after collapsing. */
  lemma {:induction false} CollapseSpaceLast(s: string)
    requires s != [] && !IsSpace(s[|s| - 1])
    ensures var r := CollapseSpace(s); r != [] && !IsSpace(r[|r| - 1])
    decreases |s|
  {
    if IsSpace(s[0]) {
      var t := LStrip(s[1..]);
      assert s[1..][|s| - 2] == s[|s| - 1];
      LStripKeepsLast(s[1..]);
      CollapseSpaceLast(t);
    } else if |s| > 1 {
      assert s[1..][|s| - 2] == s[|s| - 1];
      CollapseSpaceLast(s[1..]);
    }
  }

  /** One alternative as the generator keeps it: stripped, whitespace runs collapsed. */
  function Normalize(x: string): string {
    CollapseSpace(Strip(x))
  }

  /** A normalised alternative has no whitespace at either end and no whitespace run. */
  predicate Normalized(r: string) {
    SingleSpaced(r) && (r == [] || (!IsSpace(r[0]) && !IsSpace(r[|r| - 1])))
  }

  lemma NormalizeMeaning(x: string)
    ensures Normalized(Normalize(x))
  {
    var t := Strip(x);
    CollapseSpaceSingle(t);
    if t != [] {
      CollapseSpaceLast(t);
    }
  }

  function NormalizeAll(xs: seq<string>): (r: seq<string>)
    ensures |r| == |xs| && forall j :: 0 <= j < |xs| ==> r[j] == Normalize(xs[j])
  {
    if xs == [] then []
    else
      var rest := NormalizeAll(xs[1..]);
      NormalizeCons(xs, rest);
      [Normalize(xs[0])] + rest
  }

  lemma NormalizeCons(xs: seq<string>, rest: seq<string>)
    requires xs != [] && |rest| == |xs| - 1 && forall j :: 0 <= j < |rest| ==> rest[j] == Normalize(xs[1..][j])
    ensures var r := [Normalize(xs[0])] + rest; |r| == |xs| && forall j :: 0 <= j < |xs| ==> r[j] == Normalize(xs[j])
  {
    hide *;
    assert forall j :: 1 <= j < |xs| ==> xs[1..][j - 1] == xs[j];
  }

  /** `expand_alternatives(line)`. */
  function Expansions(line: string): Result<seq<string>> {
    var alts :- ExpandFrom(line, line, [""]);
    Ok(NormalizeAll(alts))
  }

  /** A line with `k` optional parts has 2^k variants. */
  lemma ExpansionsCount(line: string)
    requires Expansions(line).Ok?
    ensures |Expansions(line).value| == Pow2(OptionalParts(line))
  {
    ExpandFromCount(line, line, [""]);
    DoublingPow2(1, OptionalParts(line));
  }

  /** The first variant keeps every optional part and the last drops them all. */
  lemma ExpansionsEnds(line: string)
    requires Expansions(line).Ok?
    ensures var r := Expansions(line).value;
      r != [] && r[0] == Normalize(Kept(line)) && Last(r) == Normalize(Dropped(line))
  {
    ExpandFromFirst(line, line, [""]);
    ExpandFromLast(line, line, [""]);
    assert "" + Kept(line) == Kept(line);
    assert "" + Dropped(line) == Dropped(line);
  }

  /** Every variant is stripped and single-spaced. */
  lemma ExpansionsNormalized(line: string)
    requires Expansions(line).Ok?
    ensures forall j :: 0 <= j < |Expansions(line).value| ==> Normalized(Expansions(line).value[j])
  {
    var alts := ExpandFrom(line, line, [""]).value;
    forall j | 0 <= j < |alts|
      ensures Normalized(Normalize(alts[j]))
    {
      NormalizeMeaning(alts[j]);
    }
  }

  /** An opening bracket with no closing one after it is an error. */
  lemma UnmatchedBracket(before: string, after: string)
    requires '[' !in before && ']' !in after
    ensures Expansions(before + "[" + after).Err?
  {
    PartitionAt(before, '[', after);
  }

  /** `expand_alternatives` as it loops over the line. */
  method ExpandAlternatives(line: string) returns (r: Result<seq<string>>)
    ensures r == Expansions(line)
  {
    var alts := [""];
    var rest := line;
    while |rest| > 0
      invariant ExpandFrom(line, line, [""]) == ExpandFrom(line, rest, alts)
      decreases |rest|
    {
      var (before, bracket, after) := Partition(rest, '[');
      alts := AddTo(alts, [before]);
      rest := after;
      if bracket {
        var (inside, closing, after2) := Partition(after, ']');
        if !closing {
          return Err(UnmatchedBracketIn(line));
        }
        alts := AddTo(alts, [inside, ""]);
        rest := after2;
      }
    }
    return Ok(NormalizeAll(alts));
  }

  // ---------------------------------------------------------------------------------------------
  // Constraint lines (`parse_matcher_lhs`, `parse_matcher_expr`)

  /** `field_name_re = [^ |=]+`. */
  predicate FieldNameChar(c: char) {
    c != ' ' && c != '|' && c != '='
  }

  function FieldNameEnd(s: string, i: nat): (r: nat)
    requires i <= |s|
    ensures i <= r <= |s| && (r == |s| || !FieldNameChar(s[r]))
    decreases |s| - i
  {
    if i == |s| || !FieldNameChar(s[i]) then i else FieldNameEnd(s, i + 1)
  }

  /** Python's `s[i:]`, which is empty past the end. */
  function From(s: string, i: nat): (r: string)
    ensures |r| <= |s| && (0 < i && s != [] ==> |r| < |s|)
  {
    if i <= |s| then s[i..] else []
  }

  /** `parse_matcher_lhs`: the field name is the longest prefix without ' ', '|' or '='; exactly one
      character after it is skipped and the remainder stripped. Filters (`|`) are not implemented. */
  function ParseMatcherLhs(text: string): (r: Result<(Expr, string)>)
    ensures r.Ok? ==> r.value.0.FactField? && |r.value.1| < |text|
    ensures r.Ok? ==> !StartsWith(r.value.1, "|")
  {
    var e := FieldNameEnd(text, 0);
    if e == 0 then Err(MatcherWithoutField(text))
    else
      var name := text[..e];
      var rest := Strip(From(text, e + 1));
      var canonical := match FactFieldMap(name) case Some(c) => c case None => name;
      if StartsWith(rest, "|") then Err(NotImplemented("not implemented filters yet"))
      else Ok((FactField(canonical), rest))
  }

  /** The first of `Matcher.OPERATORS`, in their written order, that the text starts with. Since
      "=" and ">" come before ">=" and "<=", the two compound operators are never chosen. */
  function FirstOperator(rest: string): (r: Option<Op>)
    ensures r.Some? ==> StartsWith(rest, OpName(r.value))
  {
    if StartsWith(rest, "=") then Some(OpEq)
    else if StartsWith(rest, "!=") then Some(OpNe)
    else if StartsWith(rest, ">") then Some(OpGt)
    else if StartsWith(rest, "<") then Some(OpLt)
    else if StartsWith(rest, ">=") then Some(OpGe)
    else if StartsWith(rest, "<=") then Some(OpLe)
    else if StartsWith(rest, "in") then Some(OpIn)
    else None
  }

  /** `>=` is read as `>` followed by a value starting with "=", and `<=` likewise. */
  lemma CompoundOperatorsShadowed(rest: string)
    ensures FirstOperator(rest) != Some(OpGe) && FirstOperator(rest) != Some(OpLe)
    ensures StartsWith(rest, ">=") ==> FirstOperator(rest) == Some(OpGt)
    ensures StartsWith(rest, "<=") ==> FirstOperator(rest) == Some(OpLt)
  {
    if StartsWith(rest, ">=") {
      assert rest[..1] == rest[..2][..1];
    }
    if StartsWith(rest, "<=") {
      assert rest[..1] == rest[..2][..1];
    }
  }

  /** `rhs_value_re = [^,]+`: the end of the run of non-comma characters from `i`. */
  function ValueEnd(s: string, i: nat): (r: nat)
    requires i <= |s|
    ensures i <= r <= |s| && (r == |s| || s[r] == ',')
    decreases |s| - i
  {
    if i == |s| || s[i] == ',' then i else ValueEnd(s, i + 1)
  }

  /** The field names `referential_value_re` allows after the dot. */
  const ReferentialFields: seq<string> :=
    ["who", "where", "what", "who_type", "where_type", "what_type", "when_1", "when_2", "when_type"]

  /** `referential_value_re`: the whole value is a run of digits, a dot and one of the fields
      above; the 1-based number and the field. */
  function ReferentialValue(value: string): (r: Option<(nat, string)>)
    ensures r.Some? ==> r.value.1 in ReferentialFields
  {
    var (digits, dot, field) := Partition(value, '.');
    if dot && digits != [] && AllDigits(digits) && field in ReferentialFields then Some((DigitsValue(digits), field))
    else None
  }

  /** A quoted string value loses its quotes (`value[1:-1]`, empty for a lone quote). */
  function Unquote(v: Value): (r: Value)
    ensures r != v ==> v.VStr? && r.VStr? && |v.s| >= 1 && (v.s[0] == '\'' || v.s[0] == '"')
  {
    if v.VStr? && |v.s| >= 1 && ((v.s[0] == '\'' && v.s[|v.s| - 1] == '\'') || (v.s[0] == '"' && v.s[|v.s| - 1] == '"'))
    then VStr(if |v.s| < 2 then [] else v.s[1..|v.s| - 1])
    else v
  }

  /** `value_groups.get(value, value)`: a string naming a value group becomes the group's set. */
  function Grouped(rhs: Rhs, groups: map<string, set<string>>): (r: Rhs)
    ensures r != rhs ==> rhs.Const? && rhs.v.VStr? && rhs.v.s in groups && r == Const(VSet(groups[rhs.v.s]))
  {
    if rhs.Const? && rhs.v.VStr? && rhs.v.s in groups then Const(VSet(groups[rhs.v.s])) else rhs
  }

  /** The right-hand side the reader builds for `field op value` once the field is known. */
  function ValueRhs(field: string, value: string): Rhs {
    if field == "location_type" then
      Const(VStr(match LocationTypeMap(value) case Some(c) => c case None => value))
    else if field == "value_type" then Const(VStr(value))
    else match ReferentialValue(value)
      case Some((n, f)) => Computed(Referential(n - 1, f))
      case None =>
        if FactFieldMap(value).Some? then Computed(FactField(value))
        else Const(Unquote(DetectTypes(value)))
  }

  /** The matchers one `lhs op value` part yields: an unknown field name first yields
      `value_type = name` and then stands for `value`. */
  function MatchersFor(field: string, op: Op, value: string, groups: map<string, set<string>>): seq<Matcher> {
    if FactFieldMap(field).None? then
      [Matcher(FactField("value_type"), OpEq, Const(VStr(field))),
       Matcher(FactField("value"), op, Grouped(ValueRhs("value", value), groups))]
    else [Matcher(FactField(field), op, Grouped(ValueRhs(field, value), groups))]
  }

  /** One `lhs op value` part of a constraint line, read from its start: the matchers it yields and
      the unread text after the comma that ends it. */
  function ConstraintPart(r0: string, groups: map<string, set<string>>): (r: Result<(seq<Matcher>, string)>)
    ensures r.Ok? ==> |r.value.1| < |r0|
  {
    var (lhs, r1) :- ParseMatcherLhs(r0);
    match FirstOperator(r1)
    case None => Err(UnknownOperator(r1))
    case Some(op) =>
      var r2 := Strip(r1[|OpName(op)|..]);
      var vend := ValueEnd(r2, 0);
      if vend == 0 then Err(AttributeError("end"))
      else Ok((MatchersFor(lhs.field, op, r2[..vend], groups), Strip(From(r2, vend + 1))))
  }

  /** `parse_matcher_expr` on the unread `rest` of a constraint line, all of its matchers in order. */
  function ConstraintsFrom(rest: string, groups: map<string, set<string>>): Result<seq<Matcher>>
    decreases |rest|
  {
    if Strip(rest) == [] then Ok([])
    else
      var (ms, next) :- ConstraintPart(Strip(rest), groups);
      var more :- ConstraintsFrom(next, groups);
      Ok(ms + more)
  }

  /** Error results pass through; successful ones get `acc` in front. */
  function Prefixed<T>(acc: seq<T>, r: Result<seq<T>>): Result<seq<T>> {
    if r.Err? then r else Ok(acc + r.value)
  }

  lemma PrefixedNil<T>(r: Result<seq<T>>)
    ensures Prefixed([], r) == r
  {
    if r.Ok? {
      assert [] + r.value == r.value;
    }
  }

  lemma PrefixedErr<T>(acc: seq<T>, e: Error)
    ensures Prefixed(acc, Err(e)) == Err(e)
  {
  }

  lemma PrefixedTwice<T>(a: seq<T>, b: seq<T>, r: Result<seq<T>>)
    ensures Prefixed(a, Prefixed(b, r)) == Prefixed(a + b, r)
  {
    if r.Ok? {
      assert a + (b + r.value) == a + b + r.value;
    }
  }

  /** One round of reading constraints. */
  lemma ConstraintsStep(rest: string, groups: map<string, set<string>>)
    requires Strip(rest) != []
    ensures var part := ConstraintPart(Strip(rest), groups);
      ConstraintsFrom(rest, groups) == if part.Err? then Err(part.error) else Prefixed(part.value.0, ConstraintsFrom(part.value.1, groups))
  {
  }

  /** `parse_matcher_expr` as the loop that consumes the line. */
  method ParseMatcherExpr(line: string, groups: map<string, set<string>>) returns (r: Result<seq<Matcher>>)
    ensures r == ConstraintsFrom(line, groups)
  {
    var acc: seq<Matcher> := [];
    var rest := line;
    PrefixedNil(ConstraintsFrom(line, groups));
    while Strip(rest) != []
      invariant ConstraintsFrom(line, groups) == Prefixed(acc, ConstraintsFrom(rest, groups))
      decreases |rest|
    {
      var part := ConstraintPart(Strip(rest), groups);
      ConstraintsStep(rest, groups);
      if part.Err? {
        return Err(part.error);
      }
      var (ms, next) := part.value;
      PrefixedTwice(acc, ms, ConstraintsFrom(next, groups));
      acc := acc + ms;
      rest := next;
    }
    assert acc + [] == acc;
    return Ok(acc);
  }

  /** What every constraint the reader builds looks like: its left side is a known fact field
      (unknown names were expanded), its operator is never `>=` or `<=`, and a `value_type`
      constraint compares with a string or a value group. */
  predicate WellFormedConstraint(m: Matcher) {
    m.lhs.FactField? && m.lhs.field in FactFields && m.op != OpGe && m.op != OpLe
    && (m.lhs.field == "value_type" ==> m.rhs.Const? && (m.rhs.v.VStr? || m.rhs.v.VSet?))
  }

  lemma MatchersForWellFormed(field: string, op: Op, value: string, groups: map<string, set<string>>)
    requires op != OpGe && op != OpLe
    ensures forall m :: m in MatchersFor(field, op, value, groups) ==> WellFormedConstraint(m)
  {
    var ms := MatchersFor(field, op, value, groups);
    if FactFieldMap(field).None? {
      assert ms[0] == Matcher(FactField("value_type"), OpEq, Const(VStr(field)));
      assert WellFormedConstraint(ms[0]);
      assert WellFormedConstraint(ms[1]);
    } else {
      assert WellFormedConstraint(ms[0]);
    }
  }

  lemma ConstraintPartWellFormed(r0: string, groups: map<string, set<string>>)
    requires ConstraintPart(r0, groups).Ok?
    ensures forall m :: m in ConstraintPart(r0, groups).value.0 ==> WellFormedConstraint(m)
  {
    var (lhs, r1) := ParseMatcherLhs(r0).value;
    var op := FirstOperator(r1).value;
    CompoundOperatorsShadowed(r1);
    var r2 := Strip(r1[|OpName(op)|..]);
    MatchersForWellFormed(lhs.field, op, r2[..ValueEnd(r2, 0)], groups);
  }

  lemma {:induction false} ConstraintsWellFormed(rest: string, groups: map<string, set<string>>)
    requires ConstraintsFrom(rest, groups).Ok?
    ensures forall m :: m in ConstraintsFrom(rest, groups).value ==> WellFormedConstraint(m)
    decreases |rest|
  {
    if Strip(rest) != [] {
      var (ms, next) := ConstraintPart(Strip(rest), groups).value;
      ConstraintPartWellFormed(Strip(rest), groups);
      ConstraintsWellFormed(next, groups);
    }
  }

  /** A value that ends in a digit or starts with a quote is no field name. */
  lemma NotAFieldName(v: string)
    requires v != [] && (IsDigit(v[|v| - 1]) || v[0] == '\'' || v[0] == '"')
    ensures FactFieldMap(v) == None
  {
  }

  /** A text without a dot is never a referential value. */
  lemma NoDotNotReferential(v: string)
    requires '.' !in v
    ensures ReferentialValue(v) == None
  {
  }

  /** A number written in the constraint is read as that number. */
  lemma IntValueRhs(field: string, i: int)
    requires field != "location_type" && field != "value_type"
    ensures ValueRhs(field, IntToString(i)) == Const(VInt(i))
  {
    var v := IntToString(i);
    DetectTypesOfInt(i);
    IntToStringShape(i);
    NoDotNotReferential(v);
    NotAFieldName(v);
  }

  /** `N.field` refers to the N-th used fact, counted from 1. */
  lemma ReferentialValueRhs(field: string, n: nat, f: string)
    requires field != "location_type" && field != "value_type" && f in ReferentialFields
    ensures ValueRhs(field, NatToString(n) + "." + f) == Computed(Referential(n - 1, f))
  {
    var d := NatToString(n);
    assert '.' !in d by { assert forall j :: 0 <= j < |d| ==> IsDigit(d[j]); }
    PartitionAt(d, '.', f);
    DigitsOfNat(n);
  }

  /** A text that starts with something other than a sign, a digit, a point or an `n` is no number. */
  lemma NotANumber(v: string)
    requires v != [] && Strip(v) == v
    requires !IsDigit(v[0]) && v[0] != '-' && v[0] != '+' && v[0] != '.' && LowerChar(v[0]) != 'n'
    requires LowerChar(v[0]) != 'i'
    ensures ParseInt(v) == None && ParseFloat(v) == None
  {
    NoFloatNumeral(v);
    assert Lower(v) != "nan" by { assert Lower(v)[0] != 'n'; }
    hide FloatNumeral, Lower, Strip;
    assert v[0..] == v;
  }

  lemma NoDecimalNumeral(m: string)
    requires m != [] && !IsDigit(m[0]) && m[0] != '.'
    ensures DecimalNumeral(m) == None
  {
    var p := IndexOfChar(m, '.');
    var ip := if p == -1 then m else m[..p];
    assert ip != [] && ip[0] == m[0];
  }

  lemma NoFloatNumeral(body: string)
    requires body != [] && !IsDigit(body[0]) && body[0] != '.'
    ensures FloatNumeral(body) == None
  {
    var e := IndexOfChar(Lower(body), 'e');
    if e == -1 {
      NoDecimalNumeral(body);
    } else if e > 0 {
      NoDecimalNumeral(body[..e]);
    } else {
      assert body[..e] == [];
    }
  }

  /** A text in quotes is no number and no boolean. */
  lemma DetectTypesQuoted(v: string)
    requires |v| >= 2 && (v[0] == '\'' || v[0] == '"') && v[|v| - 1] == v[0]
    ensures DetectTypes(v) == VStr(v)
  {
    QuotedNoNumber(v);
    assert v != "True" && v != "False" by { assert v[0] != 'T' && v[0] != 'F'; }
  }

  lemma QuotedNoNumber(v: string)
    requires |v| >= 2 && (v[0] == '\'' || v[0] == '"') && v[|v| - 1] == v[0]
    ensures ParseInt(v) == None && ParseFloat(v) == None
  {
    assert !IsSpace(v[0]) && !IsSpace(v[|v| - 1]);
    assert Strip(v) == v;
    assert !IsDigit(v[0]) && LowerChar(v[0]) != 'n';
    NotANumber(v);
  }

  lemma QuotedNotReference(q: char, text: string)
    requires (q == '\'' || q == '"') && '.' !in text
    ensures var v := [q] + text + [q]; ReferentialValue(v) == None && FactFieldMap(v) == None
  {
    var v := [q] + text + [q];
    assert v[0] == q;
    NoDotNotReferential(v);
    NotAFieldName(v);
  }

  lemma UnquoteQuoted(q: char, text: string)
    requires q == '\'' || q == '"'
    ensures Unquote(VStr([q] + text + [q])) == VStr(text)
  {
    var v := [q] + text + [q];
    assert v[0] == q && v[|v| - 1] == q;
    assert v[1..|v| - 1] == text;
  }

  /** Quotes around a plain string value are removed. */
  lemma QuotedValueRhs(field: string, q: char, text: string)
    requires field != "location_type" && field != "value_type" && (q == '\'' || q == '"') && '.' !in text
    ensures ValueRhs(field, [q] + text + [q]) == Const(VStr(text))
  {
    var v := [q] + text + [q];
    assert v[0] == q && v[|v| - 1] == q;
    DetectTypesQuoted(v);
    QuotedNotReference(q, text);
    UnquoteQuoted(q, text);
  }


  // ---------------------------------------------------------------------------------------------
  // Template lines (`{field, attr=val}` substitutions inside `read_template_group`)

  function StripEach(parts: seq<string>): (r: seq<string>)
    ensures |r| == |parts|
  {
    seq(|parts|, i requires 0 <= i < |parts| => Strip(parts[i]))
  }

  /** One parsed substitution: its Slot and the rule (0-based) whose fact fills it, if any. */
  datatype Substitution = Substitution(slot: Component, ruleRef: Option<nat>)

  /** `N.field` names rule N, counted from 1; without a dot the first rule is meant. */
  function RuleReference(first: string): (r: Result<(nat, string)>)
  {
    var (refText, dot, name) := Partition(first, '.');
    if !dot then Ok((0, first))
    else match ParseInt(refText)
      case None => Err(NotAnInt(refText))
      case Some(n) =>
        if n - 1 < 0 then Err(RuleZeroReference())
        else Ok(((n - 1) as nat, name))
  }

  /** A substitution's text between the braces: the value to substitute, then the attributes. */
  function ParseSubstitution(line: string, subst: string, nrules: nat): (r: Result<Substitution>)
    ensures r.Ok? ==> r.value.slot.Slot? && r.value.slot.fact.None? && !r.value.slot.source.Resolved?
    ensures r.Ok? && r.value.ruleRef.Some? ==> r.value.ruleRef.value < nrules
  {
    var parts := StripEach(SplitOn(subst, ','));
    SubstitutionValue(line, subst, parts[0], ProcessAttributes(Attributes(parts[1..])), nrules)
  }

  /** The slot for the substitution's value `first`, carrying the attributes `attrs`. */
  function SubstitutionValue(line: string, subst: string, first: string, attrs: map<string, Value>, nrules: nat): (r: Result<Substitution>)
    ensures r.Ok? ==> r.value.slot.Slot? && r.value.slot.fact.None? && !r.value.slot.source.Resolved?
    ensures r.Ok? && r.value.ruleRef.Some? ==> r.value.ruleRef.value < nrules
  {
    if first == [] then Err(IndexError)
    else if first[0] == '"' || first[0] == '\'' then
      if first[|first| - 1] != first[0] then Err(ClosingQuoteMissing(line))
      else Ok(Substitution(Slot(LiteralSource(if |first| < 2 then [] else first[1..|first| - 1]), attrs, None), None))
    else
      var (ref, name) :- RuleReference(first);
      match FactFieldMap(name)
      case None => Err(UnknownFactField(name, subst))
      case Some(field) =>
        if field !in FactFields then Err(InvalidFieldName(field, line))
        else if ref >= nrules then Err(NoSuchRule(subst))
        else Ok(Substitution(Slot(SourceOf(field), attrs, None), Some(ref)))
  }

  /** The slot source a fact field becomes. */
  function SourceOf(field: string): SlotSource {
    if field == "time" then TimeSource else if field == "unit" then UnitSource else FactFieldSource(field)
  }

  /** The components read so far and, per rule, the indices of the slots it fills. */
  datatype LineParse = LineParse(components: seq<Component>, ruleSlots: seq<seq<int>>)

  function Literals(words: seq<string>): (r: seq<Component>)
    ensures |r| == |words|
  {
    seq(|words|, i requires 0 <= i < |words| => Literal(words[i]))
  }

  /** Appending a substitution's Slot; its index is recorded under its rule. */
  function Record(st: LineParse, sub: Substitution): (r: LineParse)
    requires sub.ruleRef.Some? ==> sub.ruleRef.value < |st.ruleSlots|
  {
    var n := |st.components|;
    LineParse(st.components + [sub.slot],
              if sub.ruleRef.Some? then st.ruleSlots[sub.ruleRef.value := st.ruleSlots[sub.ruleRef.value] + [n]]
              else st.ruleSlots)
  }

  /** The loop over one template line from the unread `rest` on. */
  function SlotsFrom(line: string, rest: string, nrules: nat, st: LineParse): Result<LineParse>
    requires |st.ruleSlots| == nrules
    decreases |rest|
  {
    if Strip(rest) == [] then Ok(st)
    else
      var (literal, _, after) := Partition(rest, '{');
      var st1 := st.(components := st.components + Literals(Words(literal)));
      if after == [] then Ok(st1)
      else
        var (subst, closer, after2) := Partition(after, '}');
        if !closer then Err(ClosingBraceMissing(line))
        else
          var sub :- ParseSubstitution(line, subst, nrules);
          SlotsFrom(line, after2, nrules, Record(st1, sub))
  }

  function NoSlots(nrules: nat): (r: seq<seq<int>>)
    ensures |r| == nrules
  {
    seq(nrules, _ => [])
  }

  /** The components of one (expanded) template line and each rule's slot indices. */
  function TemplateLine(line: string, nrules: nat): Result<LineParse> {
    SlotsFrom(line, Strip(line), nrules, LineParse([], NoSlots(nrules)))
  }

  /** What the reader produces for a component: a literal is one non-empty word, a slot is not yet
      bound to a fact and not yet resolved. */
  predicate WellFormedComponent(c: Component) {
    (c.Literal? ==> c.text != [] && NoSpace(c.text)) && (c.Slot? ==> c.fact.None? && !c.source.Resolved?)
  }

  /** The invariant of the loop over a template line: one slot list per rule, each an increasing
      list of indices of Slot components. */
  predicate GoodParse(st: LineParse, nrules: nat) {
    |st.ruleSlots| == nrules
    && (forall k, j :: 0 <= k < nrules && 0 <= j < |st.ruleSlots[k]| ==>
          0 <= st.ruleSlots[k][j] < |st.components| && st.components[st.ruleSlots[k][j]].Slot?)
    && (forall k, j1, j2 :: 0 <= k < nrules && 0 <= j1 < j2 < |st.ruleSlots[k]| ==>
          st.ruleSlots[k][j1] < st.ruleSlots[k][j2])
    && (forall i :: 0 <= i < |st.components| ==> WellFormedComponent(st.components[i]))
  }

  lemma LiteralsGood(st: LineParse, nrules: nat, text: string)
    requires GoodParse(st, nrules)
    ensures GoodParse(st.(components := st.components + Literals(Words(text))), nrules)
  {
    var ws := Words(text);
    var cs := st.components + Literals(ws);
    assert forall i :: |st.components| <= i < |cs| ==> cs[i] == Literal(ws[i - |st.components|]);
  }

  lemma RecordGood(st: LineParse, nrules: nat, sub: Substitution)
    requires GoodParse(st, nrules) && sub.slot.Slot? && sub.slot.fact.None? && !sub.slot.source.Resolved?
    requires sub.ruleRef.Some? ==> sub.ruleRef.value < nrules
    ensures GoodParse(Record(st, sub), nrules)
  {
    var r := Record(st, sub);
    assert forall i :: 0 <= i < |st.components| ==> r.components[i] == st.components[i];
    if sub.ruleRef.Some? {
      var k0 := sub.ruleRef.value;
      assert forall j :: 0 <= j < |st.ruleSlots[k0]| ==> r.ruleSlots[k0][j] == st.ruleSlots[k0][j];
    }
  }


  lemma {:induction false} SlotsFromGood(line: string, rest: string, nrules: nat, st: LineParse)
    requires GoodParse(st, nrules) && SlotsFrom(line, rest, nrules, st).Ok?
    ensures GoodParse(SlotsFrom(line, rest, nrules, st).value, nrules)
    decreases |rest|
  {
    if Strip(rest) != [] {
      var (literal, _, after) := Partition(rest, '{');
      var st1 := st.(components := st.components + Literals(Words(literal)));
      LiteralsGood(st, nrules, literal);
      if after != [] {
        var (subst, closer, after2) := Partition(after, '}');
        var sub := ParseSubstitution(line, subst, nrules).value;
        RecordGood(st1, nrules, sub);
        SlotsFromGood(line, after2, nrules, Record(st1, sub));
      }
    }
  }

  /** Every literal of a parsed template line is one word, and each rule's slot indices are increasing
      and point at Slot components. */
  lemma TemplateLineGood(line: string, nrules: nat)
    requires TemplateLine(line, nrules).Ok?
    ensures GoodParse(TemplateLine(line, nrules).value, nrules)
  {
    var st := LineParse([], NoSlots(nrules));
    assert forall k :: 0 <= k < nrules ==> st.ruleSlots[k] == [];
    assert GoodParse(st, nrules);
    SlotsFromGood(line, Strip(line), nrules, st);
  }

  /** The loop over one expanded template line in `read_template_group`. */
  method ParseTemplateLine(line: string, nrules: nat) returns (r: Result<LineParse>)
    ensures r == TemplateLine(line, nrules)
  {
    var components: seq<Component> := [];
    var ruleSlots := NoSlots(nrules);
    var rest := Strip(line);
    while Strip(rest) != []
      invariant |ruleSlots| == nrules
      invariant TemplateLine(line, nrules) == SlotsFrom(line, rest, nrules, LineParse(components, ruleSlots))
      decreases |rest|
    {
      var (literal, _, after) := Partition(rest, '{');
      components := components + Literals(Words(literal));
      rest := after;
      if after != [] {
        var (subst, closer, after2) := Partition(after, '}');
        if !closer {
          return Err(ClosingBraceMissing(line));
        }
        var sub := ParseSubstitution(line, subst, nrules);
        if sub.Err? {
          return Err(sub.error);
        }
        if sub.value.ruleRef.Some? {
          var k := sub.value.ruleRef.value;
          ruleSlots := ruleSlots[k := ruleSlots[k] + [|components|]];
        }
        components := components + [sub.value.slot];
        rest := after2;
      }
    }
    return Ok(LineParse(components, ruleSlots));
  }

  // Errors and results of single substitutions. `subst` is the text between the braces.

  /** A substitution with no comma is its stripped text as the value, with no attributes. */
  lemma SingleValue(line: string, subst: string, nrules: nat)
    requires ',' !in subst
    ensures ParseSubstitution(line, subst, nrules) == SubstitutionValue(line, subst, Strip(subst), map[], nrules)
  {
    var parts := StripEach(SplitOn(subst, ','));
    assert parts == [Strip(subst)];
    assert parts[1..] == [];
  }

  /** A quoted value must end in the same quote. */
  lemma QuoteMissing(line: string, subst: string, nrules: nat)
    requires ',' !in subst && Strip(subst) == subst && subst != []
    requires (subst[0] == '"' || subst[0] == '\'') && subst[|subst| - 1] != subst[0]
    ensures ParseSubstitution(line, subst, nrules).Err? && ParseSubstitution(line, subst, nrules).error.TemplateReadingError?
  {
    SingleValue(line, subst, nrules);
    hide ParseSubstitution, Strip, RuleReference, FactFieldMap;
    assert SubstitutionValue(line, subst, subst, map[], nrules) == Err(ClosingQuoteMissing(line));
  }

  /** A quoted value is a literal slot that belongs to no rule. */
  lemma QuotedSubstitution(line: string, q: char, text: string, nrules: nat)
    requires (q == '"' || q == '\'') && ',' !in text && (text == [] || (!IsSpace(text[0]) && !IsSpace(text[|text| - 1])))
    ensures ParseSubstitution(line, [q] + text + [q], nrules) == Ok(Substitution(Slot(LiteralSource(text), map[], None), None))
  {
    var v := [q] + text + [q];
    assert v[0] == q && v[|v| - 1] == q;
    assert v[1..|v| - 1] == text;
    QuotedValue(line, v, nrules);
  }

  lemma QuotedValue(line: string, v: string, nrules: nat)
    requires |v| >= 2 && (v[0] == '"' || v[0] == '\'') && v[|v| - 1] == v[0] && ',' !in v
    ensures ParseSubstitution(line, v, nrules) == Ok(Substitution(Slot(LiteralSource(v[1..|v| - 1]), map[], None), None))
  {
    assert !IsSpace(v[0]) && !IsSpace(v[|v| - 1]);
    assert Strip(v) == v;
    SingleValue(line, v, nrules);
  }

  /** A value without a dot belongs to the first rule. */
  lemma PlainReference(name: string)
    requires '.' !in name
    ensures RuleReference(name) == Ok((0, name))
  {
  }

  /** `N.name` refers to rule N, counted from 1. */
  lemma NumberedReference(n: nat, name: string)
    ensures var r := RuleReference(NatToString(n) + "." + name);
      (n == 0 ==> r.Err? && r.error.TemplateReadingError?) && (n > 0 ==> r == Ok((n - 1, name)))
  {
    var d := NatToString(n);
    assert '.' !in d by { assert forall j :: 0 <= j < |d| ==> IsDigit(d[j]); }
    ParseIntOfNat(n);
    hide NatToString;
    ReferenceTo(d, n, name);
  }

  /** A reference whose number text `d` reads as `n`. */
  lemma ReferenceTo(d: string, n: int, name: string)
    requires '.' !in d && ParseInt(d) == Some(n)
    ensures var r := RuleReference(d + "." + name);
      (n <= 0 ==> r.Err? && r.error.TemplateReadingError?) && (n > 0 ==> r == Ok((n - 1, name)))
  {
    PartitionAt(d, '.', name);
  }

  /** A value starting `0.` refers to rule 0, which does not exist. */
  lemma ZeroReference(subst: string)
    requires |subst| >= 2 && subst[0] == '0' && subst[1] == '.'
    ensures RuleReference(subst).Err? && RuleReference(subst).error.TemplateReadingError?
  {
    var rest := subst[2..];
    assert subst == "0" + "." + rest;
    ZeroNumeral();
    hide *;
    ReferenceTo("0", 0, rest);
  }

  lemma ZeroNumeral()
    ensures '.' !in "0" && ParseInt("0") == Some(0)
  {
    ParseIntDigits("0");
  }

  /** An error in the rule number is the substitution's error. */
  lemma ReferenceError(line: string, subst: string, attrs: map<string, Value>, nrules: nat)
    requires subst != [] && subst[0] != '"' && subst[0] != '\'' && RuleReference(subst).Err?
    ensures SubstitutionValue(line, subst, subst, attrs, nrules) == Err(RuleReference(subst).error)
  {
  }

  /** Rule numbers count from 1: a value `0.name` is an error. */
  lemma RuleZero(line: string, subst: string, nrules: nat)
    requires |subst| >= 2 && subst[0] == '0' && subst[1] == '.'
    requires ',' !in subst && !IsSpace(subst[|subst| - 1])
    ensures ParseSubstitution(line, subst, nrules).Err?
    ensures ParseSubstitution(line, subst, nrules).error.TemplateReadingError?
  {
    assert !IsSpace(subst[0]);
    assert Strip(subst) == subst;
    hide ParseSubstitution, SubstitutionValue, RuleReference, Strip, IsSpace;
    ZeroReference(subst);
    SingleValue(line, subst, nrules);
    ReferenceError(line, subst, map[], nrules);
  }

  /** A field name that is not a fact field is an error. */
  lemma UnknownField(line: string, name: string, nrules: nat)
    requires name != [] && ',' !in name && '.' !in name && name !in FactFields
    requires !IsSpace(name[0]) && !IsSpace(name[|name| - 1]) && name[0] != '"' && name[0] != '\''
    ensures ParseSubstitution(line, name, nrules).Err?
    ensures ParseSubstitution(line, name, nrules).error.TemplateReadingError?
  {
    SingleValue(line, name, nrules);
  }

  lemma FactFieldPlain(field: string)
    requires field in FactFields
    ensures PlainName(field)
  {
  }

  /** A value that refers to a fact field of an existing rule is a slot of that rule. */
  lemma FieldValue(line: string, subst: string, first: string, attrs: map<string, Value>, nrules: nat, ref: nat, field: string)
    requires first != [] && first[0] != '"' && first[0] != '\''
    requires RuleReference(first) == Ok((ref, field)) && FactFieldMap(field) == Some(field)
    ensures var r := SubstitutionValue(line, subst, first, attrs, nrules);
      if ref >= nrules then r.Err? && r.error.TemplateReadingError?
      else r == Ok(Substitution(Slot(SourceOf(field), attrs, None), Some(ref)))
  {
  }

  /** A substitution whose value names rule `ref` and a fact field is a slot of that rule (0-based),
      or an error when the template has no such rule; see NumberedReference and PlainReference. */
  lemma FieldSubstitution(line: string, subst: string, nrules: nat, ref: nat, field: string)
    requires ',' !in subst && Strip(subst) == subst && subst != [] && subst[0] != '"' && subst[0] != '\''
    requires RuleReference(subst) == Ok((ref, field)) && field in FactFields
    ensures var r := ParseSubstitution(line, subst, nrules);
      if ref >= nrules then r.Err? && r.error.TemplateReadingError?
      else r == Ok(Substitution(Slot(SourceOf(field), map[], None), Some(ref)))
  {
    SingleValue(line, subst, nrules);
    assert FactFieldMap(field) == Some(field);
    FieldValue(line, subst, subst, map[], nrules, ref, field);
  }

  /** A field without a number belongs to the first rule. */
  lemma PlainSubstitution(line: string, field: string, nrules: nat)
    requires field in FactFields && nrules >= 1
    ensures ParseSubstitution(line, field, nrules) == Ok(Substitution(Slot(SourceOf(field), map[], None), Some(0)))
  {
    FactFieldPlain(field);
    PlainNameShape(field);
    PlainReference(field);
    FieldSubstitution(line, field, nrules, 0, field);
  }

  /** An opening brace with no closing brace after it is an error. */
  lemma MissingBrace(line: string, literal: string, after: string, nrules: nat, st: LineParse)
    requires |st.ruleSlots| == nrules && '{' !in literal && '}' !in after && after != []
    ensures SlotsFrom(line, literal + "{" + after, nrules, st).Err?
    ensures SlotsFrom(line, literal + "{" + after, nrules, st).error.TemplateReadingError?
  {
    var rest := literal + "{" + after;
    assert rest[|literal|] == '{';
    StripNonEmpty(rest, |literal|);
    PartitionAt(literal, '{', after);
  }

  // ---------------------------------------------------------------- error messages

  function RuleZeroReference(): Error {
    TemplateReadingError("rules are numbered from 1")
  }

  function UnmatchedBracketIn(line: string): Error {
    TemplateReadingError("unmatched [ in " + line)
  }

  function MatcherWithoutField(text: string): Error {
    TemplateReadingError("no field in " + text)
  }

  function UnknownOperator(r1: string): Error {
    TemplateReadingError("bad operator " + r1)
  }

  function NotAnInt(refText: string): Error {
    ValueError("not an int: " + refText)
  }

  function ClosingQuoteMissing(line: string): Error {
    TemplateReadingError("no closing quote: " + line)
  }

  function UnknownFactField(name: string, subst: string): Error {
    TemplateReadingError("unknown field " + name + " in " + subst)
  }

  function InvalidFieldName(field: string, line: string): Error {
    TemplateReadingError("bad field " + field + " in " + line)
  }

  function NoSuchRule(subst: string): Error {
    TemplateReadingError("no rule for " + subst)
  }

  function ClosingBraceMissing(line: string): Error {
    TemplateReadingError("closing brace missing in " + line)
  }
}
