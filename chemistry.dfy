/**
 * The element lookups of problem1/chemistry_utils.cpp:8-44: three total
 * functions over exact, case-sensitive string matches and a `switch`, each
 * with a fallback value for anything it does not know.
 *
 * They are checked against one reference table of the three known elements,
 * from which the round trips between names and atomic numbers follow.
 */
module Chemistry {
  import opened Options

  /** The fallback of `getElementName`. */
  const UnknownName: string := "Unknown"

  /** `calculateMolarMass` (problem1/chemistry_utils.cpp:8-18), in g/mol. */
  function CalculateMolarMass(element: string): real {
    if element == "Hydrogen" then 1.008
    else if element == "Carbon" then 12.011
    else if element == "Oxygen" then 15.999
    else 0.0
  }

  /** `getElementName` (problem1/chemistry_utils.cpp:20-32). */
  function GetElementName(atomicNumber: int): string {
    match atomicNumber
    case 1 => "Hydrogen"
    case 6 => "Carbon"
    case 8 => "Oxygen"
    case _ => UnknownName
  }

  /** `getAtomicNumber` (problem1/chemistry_utils.cpp:34-44). */
  function GetAtomicNumber(element: string): int {
    if element == "Hydrogen" then 1
    else if element == "Carbon" then 6
    else if element == "Oxygen" then 8
    else 0
  }

  // ---------------------------------------------------------------------------
  // The reference table

  datatype Element = Element(name: string, atomicNumber: int, molarMass: real)

  /** The elements the three functions know, one entry each. */
  const KnownElements: seq<Element> := [
    Element("Hydrogen", 1, 1.008),
    Element("Carbon", 6, 12.011),
    Element("Oxygen", 8, 15.999)
  ]

  /** An entry of `table` with the given name, or None when there is none. */
  function FindByName(table: seq<Element>, name: string): (r: Option<Element>)
    ensures r.Some? ==> r.value in table && r.value.name == name
    ensures r.None? ==> forall i :: 0 <= i < |table| ==> table[i].name != name
  {
    if table == [] then None
    else if table[0].name == name then Some(table[0])
    else FindByName(table[1..], name)
  }

  /** An entry of `table` with the given atomic number, or None when there is none. */
  function FindByNumber(table: seq<Element>, atomicNumber: int): (r: Option<Element>)
    ensures r.Some? ==> r.value in table && r.value.atomicNumber == atomicNumber
    ensures r.None? ==> forall i :: 0 <= i < |table| ==> table[i].atomicNumber != atomicNumber
  {
    if table == [] then None
    else if table[0].atomicNumber == atomicNumber then Some(table[0])
    else FindByNumber(table[1..], atomicNumber)
  }

  /** No two entries share a name or an atomic number. */
  predicate Distinct(table: seq<Element>) {
    forall i, j :: 0 <= i < j < |table| ==>
      table[i].name != table[j].name && table[i].atomicNumber != table[j].atomicNumber
  }

  /** In a table without duplicates, looking up the number of a name's entry finds that entry. */
  lemma {:induction false} NameThenNumber(table: seq<Element>, e: Element)
    requires Distinct(table) && e in table
    ensures FindByName(table, e.name) == Some(e)
    ensures FindByNumber(table, e.atomicNumber) == Some(e)
  {
    if table[0] != e {
      assert e in table[1..];
      var k :| 0 <= k < |table| && table[k] == e;
      assert table[0].name != e.name && table[0].atomicNumber != e.atomicNumber;
      NameThenNumber(table[1..], e);
    }
  }

  /** The reference table has no duplicates, no atomic number 0, no entry named "Unknown" and no zero mass. */
  lemma KnownElementsWellFormed()
    ensures Distinct(KnownElements)
    ensures forall i :: 0 <= i < |KnownElements| ==>
      KnownElements[i].atomicNumber != 0 && KnownElements[i].name != UnknownName &&
      KnownElements[i].molarMass != 0.0
  {
  }

  // ---------------------------------------------------------------------------
  // The three functions agree with the table

  lemma AtomicNumberMatchesTable(element: string)
    ensures GetAtomicNumber(element) ==
      match FindByName(KnownElements, element)
      case Some(e) => e.atomicNumber
      case None => 0
  {
    KnownElementsWellFormed();
    if element == "Hydrogen" {
      NameThenNumber(KnownElements, KnownElements[0]);
    } else if element == "Carbon" {
      NameThenNumber(KnownElements, KnownElements[1]);
    } else if element == "Oxygen" {
      NameThenNumber(KnownElements, KnownElements[2]);
    }
  }

  lemma MolarMassMatchesTable(element: string)
    ensures CalculateMolarMass(element) ==
      match FindByName(KnownElements, element)
      case Some(e) => e.molarMass
      case None => 0.0
  {
    KnownElementsWellFormed();
    if element == "Hydrogen" {
      NameThenNumber(KnownElements, KnownElements[0]);
    } else if element == "Carbon" {
      NameThenNumber(KnownElements, KnownElements[1]);
    } else if element == "Oxygen" {
      NameThenNumber(KnownElements, KnownElements[2]);
    }
  }

  lemma ElementNameMatchesTable(atomicNumber: int)
    ensures GetElementName(atomicNumber) ==
      match FindByNumber(KnownElements, atomicNumber)
      case Some(e) => e.name
      case None => UnknownName
  {
    KnownElementsWellFormed();
    if atomicNumber == 1 {
      NameThenNumber(KnownElements, KnownElements[0]);
    } else if atomicNumber == 6 {
      NameThenNumber(KnownElements, KnownElements[1]);
    } else if atomicNumber == 8 {
      NameThenNumber(KnownElements, KnownElements[2]);
    }
  }

  // ---------------------------------------------------------------------------
  // Round trips and fallbacks

  /** A number with a known name maps back to itself; exactly 1, 6 and 8 have one. */
  lemma NumberRoundTrip(atomicNumber: int)
    ensures GetElementName(atomicNumber) != UnknownName <==> atomicNumber in {1, 6, 8}
    ensures GetElementName(atomicNumber) != UnknownName ==>
      GetAtomicNumber(GetElementName(atomicNumber)) == atomicNumber
  {
    ElementNameMatchesTable(atomicNumber);
    KnownElementsWellFormed();
    match FindByNumber(KnownElements, atomicNumber)
    case Some(e) =>
      NameThenNumber(KnownElements, e);
      AtomicNumberMatchesTable(e.name);
    case None =>
  }

  /** A name with a known number maps back to itself; exactly the three table names have one. */
  lemma NameRoundTrip(element: string)
    ensures GetAtomicNumber(element) != 0 <==> element in {"Hydrogen", "Carbon", "Oxygen"}
    ensures GetAtomicNumber(element) != 0 ==> GetElementName(GetAtomicNumber(element)) == element
  {
    AtomicNumberMatchesTable(element);
    KnownElementsWellFormed();
    match FindByName(KnownElements, element)
    case Some(e) =>
      NameThenNumber(KnownElements, e);
      ElementNameMatchesTable(e.atomicNumber);
    case None =>
  }

  /**
   * An unrecognised name, "Unknown" and differently-cased names included,
   * maps to 0, and 0 maps back to "Unknown".
   */
  lemma UnknownNameFallback(element: string)
    ensures GetElementName(GetAtomicNumber(element)) == UnknownName <==> GetAtomicNumber(element) == 0
    ensures GetAtomicNumber(UnknownName) == 0 && GetAtomicNumber("hydrogen") == 0
  {
    NameRoundTrip(element);
  }

  /** The mass table and the number table recognise the same names. */
  lemma MassAndNumberAgree(element: string)
    ensures CalculateMolarMass(element) != 0.0 <==> GetAtomicNumber(element) != 0
    ensures CalculateMolarMass(element) >= 0.0
  {
    MolarMassMatchesTable(element);
    AtomicNumberMatchesTable(element);
    KnownElementsWellFormed();
  }

  /** The masses of the three known elements. */
  lemma KnownMolarMasses()
    ensures CalculateMolarMass("Hydrogen") == 1.008
    ensures CalculateMolarMass("Carbon") == 12.011
    ensures CalculateMolarMass("Oxygen") == 15.999
    ensures CalculateMolarMass("") == 0.0
  {
  }
}
