/**
  Properties of the unit table, the lookup and the conversion of module Units.
  The lookup and conversion lemmas hold for any table with positive factors;
  the facts about unit_database itself are proved separately.
 */
module UnitsLemmas {
  import opened Wrappers
  import opened Units

  /** Lower-casing twice changes nothing more. */
  lemma LowerIdempotent(s: string)
    ensures Lower(Lower(s)) == Lower(s)
  {
  }

  /** The lookup ignores case: a name and its lower-case form find the same row. */
  lemma LookupIgnoresCase(db: seq<UnitInfo>, unitName: string)
    ensures LookupIndex(db, Lower(unitName)) == LookupIndex(db, unitName)
  {
    LowerIdempotent(unitName);
  }

  /** Every name of db is in lower case, so the lower-casing lookup can reach every row. */
  predicate NamesLowerCase(db: seq<UnitInfo>)
  {
    forall k :: 0 <= k < |db| ==> Lower(db[k].name) == db[k].name
  }

  /** No two rows of db share a name. */
  predicate NamesDistinct(db: seq<UnitInfo>)
  {
    forall i, j :: 0 <= i < j < |db| ==> db[i].name != db[j].name
  }

  /** In a table of distinct lower-case names, every row is the one its own name finds. */
  lemma LookupFindsEveryRow(db: seq<UnitInfo>, k: int)
    requires NamesLowerCase(db) && NamesDistinct(db)
    requires 0 <= k < |db|
    ensures LookupIndex(db, db[k].name) == Some(k)
  {
    var r := LookupIndex(db, db[k].name);
    assert Lower(db[k].name) == db[k].name;
    assert r.Some? && r.value <= k;
  }

  lemma DatabaseNamesLowerCase()
    ensures NamesLowerCase(UNIT_DATABASE)
  {
  }

  /** The name of row i of unit_database differs from the name of every later row. */
  lemma DatabaseNameUnique(i: int)
    requires 0 <= i < |UNIT_DATABASE|
    ensures forall j :: i < j < |UNIT_DATABASE| ==> UNIT_DATABASE[i].name != UNIT_DATABASE[j].name
  {
  }

  lemma DatabaseNamesDistinct()
    ensures NamesDistinct(UNIT_DATABASE)
  {
    forall i | 0 <= i < |UNIT_DATABASE|
      ensures forall j :: i < j < |UNIT_DATABASE| ==> UNIT_DATABASE[i].name != UNIT_DATABASE[j].name
    {
      DatabaseNameUnique(i);
    }
  }

  /** Every name of db and every base-unit name fits the lower_unit buffer. */
  predicate NamesFit(db: seq<UnitInfo>)
  {
    forall k :: 0 <= k < |db| ==> FitsLowerUnit(db[k].name) && FitsLowerUnit(db[k].baseUnit)
  }

  /** A short name of ASCII characters other than NUL: one byte per character. */
  predicate ShortAscii(name: string)
  {
    |name| < LOWER_UNIT_CAPACITY && forall k :: 0 <= k < |name| ==> 0 < name[k] as int < 0x80
  }

  lemma ShortAsciiFits(name: string)
    requires ShortAscii(name)
    ensures FitsLowerUnit(name)
  {
    assert Utf8Length(name) == |name|;
  }

  lemma DatabaseNameFits(k: int)
    requires 0 <= k < |UNIT_DATABASE|
    ensures FitsLowerUnit(UNIT_DATABASE[k].name)
  {
    assert ShortAscii(UNIT_DATABASE[k].name);
    ShortAsciiFits(UNIT_DATABASE[k].name);
  }

  lemma DatabaseBaseUnitFits(k: int)
    requires 0 <= k < |UNIT_DATABASE|
    ensures FitsLowerUnit(UNIT_DATABASE[k].baseUnit)
  {
    assert ShortAscii(UNIT_DATABASE[k].baseUnit);
    ShortAsciiFits(UNIT_DATABASE[k].baseUnit);
  }

  lemma DatabaseNamesFit()
    ensures NamesFit(UNIT_DATABASE)
  {
    forall k | 0 <= k < |UNIT_DATABASE|
      ensures FitsLowerUnit(UNIT_DATABASE[k].name) && FitsLowerUnit(UNIT_DATABASE[k].baseUnit)
    {
      DatabaseNameFits(k);
      DatabaseBaseUnitFits(k);
    }
  }

  /**
    The base unit of row k of db is a row of the same kind, with factor 1,
    that is its own base unit.
   */
  predicate BaseRowListed(db: seq<UnitInfo>, k: int)
    requires 0 <= k < |db|
  {
    var b := LookupIndex(db, db[k].baseUnit);
    && b.Some?
    && db[b.value].unitType == db[k].unitType
    && db[b.value].toBase == 1.0
    && db[b.value].baseUnit == db[b.value].name
  }

  /** Every base unit of unit_database is listed as such. */
  lemma BaseUnitsAreListed(k: int)
    requires 0 <= k < |UNIT_DATABASE|
    ensures BaseRowListed(UNIT_DATABASE, k)
  {
    // Rows are grouped by kind; the base unit of each group is one of its rows.
    var j := if k <= 2 then 1 else if k <= 7 then 3 else if k <= 11 then 8 else if k <= 15 then 12 else 16;
    assert UNIT_DATABASE[j].name == UNIT_DATABASE[k].baseUnit;
    DatabaseNamesLowerCase();
    DatabaseNamesDistinct();
    LookupFindsEveryRow(UNIT_DATABASE, j);
  }

  /** Rescaling between equal factors changes nothing. */
  lemma RescaleSame(value: real, f: real)
    requires f > 0.0
    ensures Rescale(value, f, f) == value
  {
  }

  /** Rescaling from fa to fb and then from fb to fc is rescaling from fa to fc. */
  lemma RescaleThrough(value: real, fa: real, fb: real, fc: real)
    requires fb > 0.0 && fc > 0.0
    ensures Rescale(Rescale(value, fa, fb), fb, fc) == Rescale(value, fa, fc)
  {
    assert value * fa / fb * fb == value * fa;
  }

  /** Converting a known unit to itself returns the value. */
  lemma ConvertToSelf(db: seq<UnitInfo>, value: real, unitName: string)
    requires PositiveFactors(db) && FitsLowerUnit(unitName) && Lookup(db, unitName).Some?
    ensures ConvertUnits(db, value, unitName, unitName) == Some(value)
  {
    RescaleSame(value, Lookup(db, unitName).value.toBase);
  }

  /** Converting back undoes a conversion. */
  lemma ConvertRoundTrip(db: seq<UnitInfo>, value: real, a: string, b: string)
    requires PositiveFactors(db) && FitsLowerUnit(a) && FitsLowerUnit(b)
    requires ConvertUnits(db, value, a, b).Some?
    ensures ConvertUnits(db, ConvertUnits(db, value, a, b).value, b, a) == Some(value)
  {
    var fa, fb := Lookup(db, a).value.toBase, Lookup(db, b).value.toBase;
    RescaleThrough(value, fa, fb, fa);
    RescaleSame(value, fa);
  }

  /** Converting through an intermediate unit is converting directly. */
  lemma ConvertCompose(db: seq<UnitInfo>, value: real, a: string, b: string, c: string)
    requires PositiveFactors(db) && FitsLowerUnit(a) && FitsLowerUnit(b) && FitsLowerUnit(c)
    requires ConvertUnits(db, value, a, b).Some?
    ensures ConvertUnits(db, ConvertUnits(db, value, a, b).value, b, c) == ConvertUnits(db, value, a, c)
  {
    if Lookup(db, c).Some? {
      RescaleThrough(value, Lookup(db, a).value.toBase, Lookup(db, b).value.toBase, Lookup(db, c).value.toBase);
    }
  }

  /** Rescaling to a factor of 1 multiplies by the source factor. */
  lemma RescaleToBase(value: real, f: real)
    ensures Rescale(value, f, 1.0) == value * f
  {
  }

  /** Between two names that find rows i and j of the same kind, conversion rescales by their factors. */
  lemma ConvertBetweenRows(db: seq<UnitInfo>, value: real, a: string, b: string, i: nat, j: nat)
    requires PositiveFactors(db) && FitsLowerUnit(a) && FitsLowerUnit(b)
    requires LookupIndex(db, a) == Some(i) && LookupIndex(db, b) == Some(j)
    requires db[i].unitType == db[j].unitType
    ensures ConvertUnits(db, value, a, b) == Some(Rescale(value, db[i].toBase, db[j].toBase))
  {
    assert Lookup(db, a) == Some(db[i]) && Lookup(db, b) == Some(db[j]);
  }

  /** Converting the unit of a row to its listed base unit rescales to a factor of 1. */
  lemma ConvertToBase(db: seq<UnitInfo>, value: real, k: int)
    requires PositiveFactors(db) && NamesLowerCase(db) && NamesDistinct(db)
    requires 0 <= k < |db| && BaseRowListed(db, k)
    requires FitsLowerUnit(db[k].name) && FitsLowerUnit(db[k].baseUnit)
    ensures ConvertUnits(db, value, db[k].name, db[k].baseUnit) == Some(Rescale(value, db[k].toBase, 1.0))
  {
    LookupFindsEveryRow(db, k);
    var j := LookupIndex(db, db[k].baseUnit).value;
    ConvertBetweenRows(db, value, db[k].name, db[k].baseUnit, k, j);
  }

  /** Converting a unit of unit_database to its base unit multiplies by the row's factor. */
  lemma ConvertToBaseUnit(value: real, k: int)
    requires 0 <= k < |UNIT_DATABASE|
    ensures PositiveFactors(UNIT_DATABASE)
    ensures FitsLowerUnit(UNIT_DATABASE[k].name) && FitsLowerUnit(UNIT_DATABASE[k].baseUnit)
    ensures ConvertUnits(UNIT_DATABASE, value, UNIT_DATABASE[k].name, UNIT_DATABASE[k].baseUnit)
         == Some(value * UNIT_DATABASE[k].toBase)
  {
    var row := UNIT_DATABASE[k];
    DatabaseFactorsPositive();
    DatabaseNamesLowerCase();
    DatabaseNamesDistinct();
    DatabaseNameFits(k);
    DatabaseBaseUnitFits(k);
    BaseUnitsAreListed(k);
    ConvertToBase(UNIT_DATABASE, value, k);
    RescaleToBase(value, row.toBase);
  }

  /** Conversion between names whose lower-case forms are the names of rows i and j. */
  lemma ConvertNamed(db: seq<UnitInfo>, value: real, a: string, b: string, i: nat, j: nat)
    requires PositiveFactors(db) && NamesLowerCase(db) && NamesDistinct(db)
    requires FitsLowerUnit(a) && FitsLowerUnit(b)
    requires i < |db| && j < |db| && Lower(a) == db[i].name && Lower(b) == db[j].name
    ensures ConvertUnits(db, value, a, b)
         == if db[i].unitType == db[j].unitType then Some(Rescale(value, db[i].toBase, db[j].toBase)) else None
  {
    LookupFindsEveryRow(db, i);
    LookupFindsEveryRow(db, j);
    LookupIgnoresCase(db, a);
    LookupIgnoresCase(db, b);
    assert Lookup(db, a) == Some(db[i]) && Lookup(db, b) == Some(db[j]);
  }

  /** Names are matched without regard to case: one GB is 1024 MB. */
  lemma ConvertGigabytes()
    ensures PositiveFactors(UNIT_DATABASE)
    ensures ConvertUnits(UNIT_DATABASE, 1.0, "GB", "mb") == Some(1024.0)
  {
    DatabaseFactorsPositive();
    DatabaseNamesLowerCase();
    DatabaseNamesDistinct();
    ConvertNamed(UNIT_DATABASE, 1.0, "GB", "mb", 15, 14);
  }

  /** 2500 mW is 2.5 W. */
  lemma ConvertMilliwatts()
    ensures PositiveFactors(UNIT_DATABASE)
    ensures ConvertUnits(UNIT_DATABASE, 2500.0, "mW", "W") == Some(2.5)
  {
    DatabaseFactorsPositive();
    DatabaseNamesLowerCase();
    DatabaseNamesDistinct();
    ConvertNamed(UNIT_DATABASE, 2500.0, "mW", "W", 1, 2);
  }

  /** A time cannot be converted to a frequency. */
  lemma ConvertAcrossKindsRefused()
    ensures PositiveFactors(UNIT_DATABASE)
    ensures ConvertUnits(UNIT_DATABASE, 1.0, "ms", "hz") == None
  {
    DatabaseFactorsPositive();
    DatabaseNamesLowerCase();
    DatabaseNamesDistinct();
    ConvertNamed(UNIT_DATABASE, 1.0, "ms", "hz", 9, 3);
  }

  /** A unit missing from the table converts to nothing. */
  lemma ConvertUnknownRefused()
    ensures PositiveFactors(UNIT_DATABASE)
    ensures ConvertUnits(UNIT_DATABASE, 1.0, "mile", "km") == None
  {
    DatabaseFactorsPositive();
    assert Lower("mile") == "mile";
    assert forall k :: 0 <= k < |UNIT_DATABASE| ==> UNIT_DATABASE[k].name != "mile";
  }
}
