/**
 * The two eras of the ISO calendar: BCE (value 0) for proleptic years up to 0
 * and CE (value 1) for proleptic years from 1 on. The source's singletons built
 * by a static initialiser become the two constructors of a closed datatype.
 */
module IsoEra {
  import opened Results

  datatype Era = BCE | CE {
    /** The numeric era: 0 for BCE, 1 for CE. */
    function GetValue(): (v: int)
      ensures v == 0 || v == 1
      ensures v == 0 <==> this == BCE
    {
      match this
      case BCE => 0
      case CE => 1
    }

    /** The era's name: "BCE" when the value is 0, "CE" otherwise. */
    function ToString(): (s: string)
      ensures s == "BCE" <==> GetValue() == 0
      ensures s == "CE" <==> GetValue() != 0
    {
      if GetValue() == 0 then "BCE" else "CE"
    }
  }

  /** The factory from an int: 0 and 1 name the eras, anything else fails. */
  function Of(isoEra: int): (r: Result<Era>)
    ensures r.Ok? <==> isoEra == 0 || isoEra == 1
    ensures r.Err? ==> r.error == InvalidEra(isoEra)
    ensures r.Ok? ==> r.value.GetValue() == isoEra
  {
    match isoEra
    case 0 => Ok(BCE)
    case 1 => Ok(CE)
    case _ => Err(InvalidEra(isoEra))
  }

  lemma OfGetValue(e: Era)
    ensures Of(e.GetValue()) == Ok(e)
  {
  }

  // ------------------------------------------- the year-of-era table of the era's documentation

  /** The proleptic year that a year-of-era in an era stands for: CE y is y, BCE y is 1 - y. */
  function ProlepticYear(era: Era, yearOfEra: int): (p: int)
    ensures era == CE ==> p == yearOfEra
    ensures era == BCE ==> p + yearOfEra == 1
  {
    if era == CE then yearOfEra else 1 - yearOfEra
  }

  /** The era a proleptic year falls in. */
  function EraOf(prolepticYear: int): (e: Era)
    ensures e == CE <==> prolepticYear >= 1
  {
    if prolepticYear >= 1 then CE else BCE
  }

  /** The year-of-era of a proleptic year, always at least 1. */
  function YearOfEra(prolepticYear: int): (y: int)
    ensures y >= 1
  {
    if prolepticYear >= 1 then prolepticYear else 1 - prolepticYear
  }

  /** Both eras count year-of-era from 1, and every proleptic year has exactly one era and year-of-era. */
  lemma EraYearRoundTrip(prolepticYear: int)
    ensures ProlepticYear(EraOf(prolepticYear), YearOfEra(prolepticYear)) == prolepticYear
  {
  }

  lemma YearEraRoundTrip(era: Era, yearOfEra: int)
    requires yearOfEra >= 1
    ensures EraOf(ProlepticYear(era, yearOfEra)) == era
    ensures YearOfEra(ProlepticYear(era, yearOfEra)) == yearOfEra
  {
  }

  /** The four rows of the table: 2 CE = 2, 1 CE = 1, 1 BCE = 0, 2 BCE = -1. */
  lemma DocumentedTable()
    ensures ProlepticYear(CE, 2) == 2 && ProlepticYear(CE, 1) == 1
    ensures ProlepticYear(BCE, 1) == 0 && ProlepticYear(BCE, 2) == -1
  {
  }
}
