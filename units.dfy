/**
  The unit converter: a constant table of units, each with its kind and its
  factor to the base unit of that kind, a case-insensitive lookup and the
  conversion through the base unit.
 */
module Units {
  import opened Wrappers

  datatype UnitType = Power | Frequency | Time | Storage | Angle | Unknown

  /** A table row: name (lower case), kind, factor to the base unit, base unit name. */
  datatype UnitInfo = UnitInfo(name: string, unitType: UnitType, toBase: real, baseUnit: string)

  /** The approximation of pi the table's factors are computed with. */
  const PI_APPROX: real := 3.1415926535

  /** unit_database, without its end-marker row. */
  const UNIT_DATABASE: seq<UnitInfo> := [
    UnitInfo("dbm", Power, 1.0, "mw"),
    UnitInfo("mw", Power, 1.0, "mw"),
    UnitInfo("w", Power, 1000.0, "mw"),
    UnitInfo("hz", Frequency, 1.0, "hz"),
    UnitInfo("khz", Frequency, 1000.0, "hz"),
    UnitInfo("mhz", Frequency, 1000000.0, "hz"),
    UnitInfo("rpm", Frequency, 1.0 / 60.0, "hz"),
    UnitInfo("rad/s", Frequency, 1.0 / (2.0 * PI_APPROX), "hz"),
    UnitInfo("s", Time, 1.0, "s"),
    UnitInfo("ms", Time, 0.001, "s"),
    UnitInfo("us", Time, 0.000001, "s"),
    UnitInfo("ns", Time, 0.000000001, "s"),
    UnitInfo("byte", Storage, 1.0, "byte"),
    UnitInfo("kb", Storage, 1024.0, "byte"),
    UnitInfo("mb", Storage, 1024.0 * 1024.0, "byte"),
    UnitInfo("gb", Storage, 1024.0 * 1024.0 * 1024.0, "byte"),
    UnitInfo("rad", Angle, 1.0, "rad"),
    UnitInfo("deg", Angle, PI_APPROX / 180.0, "rad"),
    UnitInfo("grad", Angle, PI_APPROX / 200.0, "rad")
  ]

  /** Size of the lower_unit buffer, terminating NUL included. */
  const LOWER_UNIT_CAPACITY: int := 20

  /** tolower in the C locale: only 'A' .. 'Z' change. */
  function ToLower(c: char): (r: char)
    ensures r == '\0' <==> c == '\0'
  {
    if 'A' <= c <= 'Z' then (c as int + 32) as char else c
  }

  /** ToLower on every character. */
  function Lower(s: string): (r: string)
    ensures |r| == |s| && forall k :: 0 <= k < |s| ==> r[k] == ToLower(s[k])
  {
    seq(|s|, k requires 0 <= k < |s| => ToLower(s[k]))
  }

  /** Bytes in the UTF-8 encoding of c. */
  function Utf8Width(c: char): int
  {
    if c as int < 0x80 then 1 else if c as int < 0x800 then 2 else if c as int < 0x1_0000 then 3 else 4
  }

  /**
    Bytes in the UTF-8 encoding of s, which is what strcpy copies before the
    terminating NUL: one per character exactly when every character is ASCII.
   */
  function Utf8Length(s: string): (n: nat)
    ensures n >= |s|
    ensures n == |s| <==> forall k :: 0 <= k < |s| ==> s[k] as int < 0x80
  {
    if s == [] then 0 else Utf8Length(s[..|s| - 1]) + Utf8Width(s[|s| - 1])
  }

  /**
    A unit name find_unit_info can copy into lower_unit: its bytes and the
    terminating NUL fit the buffer, and no NUL cuts it short.
   */
  predicate FitsLowerUnit(name: string)
  {
    Utf8Length(name) < LOWER_UNIT_CAPACITY && forall k :: 0 <= k < |name| ==> name[k] != '\0'
  }

  /** Every conversion factor of db is positive, so converting never divides by zero. */
  predicate PositiveFactors(db: seq<UnitInfo>)
  {
    forall k :: 0 <= k < |db| ==> db[k].toBase > 0.0
  }

  lemma DatabaseFactorsPositive()
    ensures PositiveFactors(UNIT_DATABASE)
  {
  }

  /** Index of the first row of db at or after k named key, if any. */
  function FirstMatch(db: seq<UnitInfo>, key: string, k: nat): (r: Option<nat>)
    requires k <= |db|
    ensures r.Some? ==> k <= r.value < |db| && db[r.value].name == key
    ensures r.Some? ==> forall j :: k <= j < r.value ==> db[j].name != key
    ensures r.None? <==> forall j :: k <= j < |db| ==> db[j].name != key
    decreases |db| - k
  {
    if k == |db| then None
    else if db[k].name == key then Some(k)
    else FirstMatch(db, key, k + 1)
  }

  /** The row find_unit_info returns from table db: the first whose name is the lower-cased unit name. */
  function LookupIndex(db: seq<UnitInfo>, unitName: string): Option<nat>
  {
    FirstMatch(db, Lower(unitName), 0)
  }

  function Lookup(db: seq<UnitInfo>, unitName: string): (r: Option<UnitInfo>)
    requires PositiveFactors(db)
    ensures r.None? <==> forall k :: 0 <= k < |db| ==> db[k].name != Lower(unitName)
    ensures r.Some? ==> r.value.name == Lower(unitName) && r.value.toBase > 0.0
  {
    match LookupIndex(db, unitName)
    case None => None
    case Some(k) => Some(db[k])
  }

  /** The table scan of find_unit_info: the first row named lower. */
  method ScanTable(db: seq<UnitInfo>, lower: string) returns (index: Option<nat>)
    ensures index == FirstMatch(db, lower, 0)
  {
    var i := 0;
    while i < |db|
      invariant 0 <= i <= |db|
      invariant FirstMatch(db, lower, i) == FirstMatch(db, lower, 0)
    {
      if lower == db[i].name {
        return Some(i);
      }
      i := i + 1;
    }
    return None;
  }

  /**
    find_unit_info: copies the name into lower_unit, lower-cases it in place up to
    its NUL, then scans unit_database for the first row with that name.
   */
  method FindUnitInfo(unitName: string) returns (index: Option<nat>)
    requires FitsLowerUnit(unitName)
    ensures index == LookupIndex(UNIT_DATABASE, unitName)
    ensures index.Some? ==> index.value < |UNIT_DATABASE| && UNIT_DATABASE[index.value].name == Lower(unitName)
  {
    var n := |unitName|;
    var lowerUnit := new char[LOWER_UNIT_CAPACITY]((k: nat) => if k < n then unitName[k] else '\0');
    var p := 0;
    while lowerUnit[p] != '\0'
      invariant 0 <= p <= n
      invariant forall k :: 0 <= k < p ==> lowerUnit[k] == ToLower(unitName[k])
      invariant forall k :: p <= k < n ==> lowerUnit[k] == unitName[k]
      invariant lowerUnit[n] == '\0'
      decreases n - p
    {
      lowerUnit[p] := ToLower(lowerUnit[p]);
      p := p + 1;
    }
    var lower := lowerUnit[..p];
    assert lower == Lower(unitName);
    index := ScanTable(UNIT_DATABASE, lower);
  }

  /** A value in a unit of factor fromFactor, expressed in a unit of factor toFactor of the same kind. */
  function Rescale(value: real, fromFactor: real, toFactor: real): real
    requires toFactor != 0.0
  {
    value * fromFactor / toFactor
  }

  /**
    convert_units over table db: no result (NaN) when either unit is unknown or
    the two are of different kinds, otherwise value * from.toBase / to.toBase.
   */
  function ConvertUnits(db: seq<UnitInfo>, value: real, fromUnit: string, toUnit: string): (r: Option<real>)
    requires PositiveFactors(db)
    requires FitsLowerUnit(fromUnit) && FitsLowerUnit(toUnit)
    ensures r.None? <==> (Lookup(db, fromUnit).None? || Lookup(db, toUnit).None?
                          || Lookup(db, fromUnit).value.unitType != Lookup(db, toUnit).value.unitType)
  {
    var from, to := Lookup(db, fromUnit), Lookup(db, toUnit);
    if from.None? || to.None? then None
    else if from.value.unitType != to.value.unitType then None
    else Some(Rescale(value, from.value.toBase, to.value.toBase))
  }
}
