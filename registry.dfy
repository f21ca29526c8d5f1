/** The fixed table of countries the bot reports on, in the order it walks them. */
module Registry {
  import opened Nations

  function Countries(): seq<Country> {
    [
      Country("PT", "Portugal"), Country("ES", "Spain"), Country("FR", "France"),
      Country("BE", "Belgium"), Country("NL", "Netherlands"), Country("LU", "Luxembourg"),
      Country("DE", "Germany"), Country("CH", "Switzerland"), Country("IT", "Italy"),
      Country("AT", "Austria"), Country("PL", "Poland"), Country("GB", "United Kingdom"),
      Country("DK", "Denmark"), Country("IE", "Ireland"), Country("NO", "Norway"),
      Country("SE", "Sweden"), Country("FI", "Finland"), Country("GR", "Greece"),
      Country("CZ", "Czech Republic"), Country("SK", "Slovakia"), Country("HU", "Hungary"),
      Country("SI", "Slovenia"), Country("HR", "Croatia"), Country("RO", "Romania"),
      Country("BG", "Bulgaria"), Country("EE", "Estonia"), Country("LV", "Latvia"),
      Country("LT", "Lithuania"), Country("CY", "Cyprus"), Country("MT", "Malta"),
      Country("IS", "Iceland"), Country("BA", "Bosnia and Herzegovina"), Country("RS", "Serbia"),
      Country("ME", "Montenegro"), Country("MK", "North Macedonia"), Country("AL", "Albania"),
      Country("AD", "Andorra"), Country("LI", "Liechtenstein"), Country("UA", "Ukraine"),
      Country("BY", "Belarus"), Country("RU", "Russia")
    ]
  }

  /** The registry's display names (the values of the country table). */
  function Names(): set<string> {
    set c | c in Countries() :: c.name
  }

  /**
   * The position of a code in the table, read off its two letters. It undoes
   * the table's codes (see `CodesDistinct`), so no code occurs twice, as in a
   * Python dictionary's keys.
   */
  function CodeRank(code: string): int {
    if |code| < 2 then -1 else
    match (code[0], code[1])
      case ('P', 'T') => 0
      case ('E', 'S') => 1
      case ('F', 'R') => 2
      case ('B', 'E') => 3
      case ('N', 'L') => 4
      case ('L', 'U') => 5
      case ('D', 'E') => 6
      case ('C', 'H') => 7
      case ('I', 'T') => 8
      case ('A', 'T') => 9
      case ('P', 'L') => 10
      case ('G', 'B') => 11
      case ('D', 'K') => 12
      case ('I', 'E') => 13
      case ('N', 'O') => 14
      case ('S', 'E') => 15
      case ('F', 'I') => 16
      case ('G', 'R') => 17
      case ('C', 'Z') => 18
      case ('S', 'K') => 19
      case ('H', 'U') => 20
      case ('S', 'I') => 21
      case ('H', 'R') => 22
      case ('R', 'O') => 23
      case ('B', 'G') => 24
      case ('E', 'E') => 25
      case ('L', 'V') => 26
      case ('L', 'T') => 27
      case ('C', 'Y') => 28
      case ('M', 'T') => 29
      case ('I', 'S') => 30
      case ('B', 'A') => 31
      case ('R', 'S') => 32
      case ('M', 'E') => 33
      case ('M', 'K') => 34
      case ('A', 'L') => 35
      case ('A', 'D') => 36
      case ('L', 'I') => 37
      case ('U', 'A') => 38
      case ('B', 'Y') => 39
      case ('R', 'U') => 40
      case _ => -1
  }

  /**
   * The position of a display name in the table, read off its first, second
   * and fifth characters (every display name has at least five).
   */
  function NameRank(name: string): int {
    if |name| < 5 then -1 else
    match (name[0], name[1], name[4])
      case ('P', 'o', 'u') => 0
      case ('S', 'p', 'n') => 1
      case ('F', 'r', 'c') => 2
      case ('B', 'e', 'i') => 3
      case ('N', 'e', 'e') => 4
      case ('L', 'u', 'm') => 5
      case ('G', 'e', 'a') => 6
      case ('S', 'w', 'z') => 7
      case ('I', 't', 'y') => 8
      case ('A', 'u', 'r') => 9
      case ('P', 'o', 'n') => 10
      case ('U', 'n', 'e') => 11
      case ('D', 'e', 'a') => 12
      case ('I', 'r', 'a') => 13
      case ('N', 'o', 'a') => 14
      case ('S', 'w', 'e') => 15
      case ('F', 'i', 'a') => 16
      case ('G', 'r', 'c') => 17
      case ('C', 'z', 'h') => 18
      case ('S', 'l', 'a') => 19
      case ('H', 'u', 'a') => 20
      case ('S', 'l', 'e') => 21
      case ('C', 'r', 't') => 22
      case ('R', 'o', 'n') => 23
      case ('B', 'u', 'a') => 24
      case ('E', 's', 'n') => 25
      case ('L', 'a', 'i') => 26
      case ('L', 'i', 'u') => 27
      case ('C', 'y', 'u') => 28
      case ('M', 'a', 'a') => 29
      case ('I', 'c', 'a') => 30
      case ('B', 'o', 'i') => 31
      case ('S', 'e', 'i') => 32
      case ('M', 'o', 'e') => 33
      case ('N', 'o', 'h') => 34
      case ('A', 'l', 'n') => 35
      case ('A', 'n', 'r') => 36
      case ('L', 'i', 'h') => 37
      case ('U', 'k', 'i') => 38
      case ('B', 'e', 'r') => 39
      case ('R', 'u', 'i') => 40
      case _ => -1
  }

  lemma CodeRanksFirst()
    ensures forall i :: 0 <= i < 14 ==> CodeRank(Countries()[i].code) == i
  {
  }

  lemma CodeRanksMiddle()
    ensures forall i :: 14 <= i < 28 ==> CodeRank(Countries()[i].code) == i
  {
  }

  lemma CodeRanksLast()
    ensures forall i :: 28 <= i < 41 ==> CodeRank(Countries()[i].code) == i
  {
  }

  lemma NameRanksFirst()
    ensures forall i :: 0 <= i < 14 ==> NameRank(Countries()[i].name) == i
  {
  }

  lemma NameRanksMiddle()
    ensures forall i :: 14 <= i < 28 ==> NameRank(Countries()[i].name) == i
  {
  }

  lemma NameRanksLast()
    ensures forall i :: 28 <= i < 41 ==> NameRank(Countries()[i].name) == i
  {
  }

  /** The table walks 41 countries, and no two of them share a code. */
  lemma CodesDistinct()
    ensures |Countries()| == 41
    ensures forall i, j :: 0 <= i < j < |Countries()| ==> Countries()[i].code != Countries()[j].code
  {
    CodeRanksFirst();
    CodeRanksMiddle();
    CodeRanksLast();
  }

  /** No two countries of the table share a display name. */
  lemma NamesDistinct()
    ensures forall i, j :: 0 <= i < j < |Countries()| ==> Countries()[i].name != Countries()[j].name
  {
    NameRanksFirst();
    NameRanksMiddle();
    NameRanksLast();
  }
}
