/**
 * A course offering and the address of its schedule page on the
 * university's course-schedule site.
 */
module Course {
  import opened Wrappers
  import opened Text

  /** The terms of the academic year, with their discriminants 1, 2 and 3. */
  datatype Semester = Winter | Summer | Fall

  /** `semester as u8`: the number a term stands for in schedule addresses. */
  function Discriminant(s: Semester): (d: nat)
    ensures 1 <= d <= 3
  {
    match s
    case Winter => 1
    case Summer => 2
    case Fall => 3
  }

  /** The term a digit of a schedule address stands for, if any. */
  function SemesterOfDigit(c: char): Option<Semester> {
    if c == '1' then Some(Winter)
    else if c == '2' then Some(Summer)
    else if c == '3' then Some(Fall)
    else None
  }

  /** Each term is written as the one digit that reads back as that term. */
  lemma DiscriminantDigit(s: Semester)
    ensures NatToDecimal(Discriminant(s)) == [DigitChar(Discriminant(s))]
    ensures SemesterOfDigit(DigitChar(Discriminant(s))) == Some(s)
  {
  }

  /** A course symbol in a term of a year, in a program. */
  datatype Class = Class(symbol: string, year: u32, semester: Semester, programCode: u32)

  const UrlPrefix: string := "https://etudier.uqam.ca/wshoraire/cours/"

  /**
   * The schedule page of a class: the fixed prefix, the symbol as given,
   * then the year immediately followed by the term digit, then the program
   * code, separated by slashes.
   */
  function GetUrl(c: Class): (url: string)
    ensures UrlPrefix + c.symbol + "/" <= url
  {
    UrlPrefix + c.symbol + "/" + NatToDecimal(c.year) + NatToDecimal(Discriminant(c.semester))
    + "/" + NatToDecimal(c.programCode)
  }

  /** Reads a class back from a schedule address; the inverse of `GetUrl`. */
  function ParseUrl(url: string): Option<Class> {
    if !(UrlPrefix <= url) then None
    else ClassOfFields(Split(url[|UrlPrefix|..], "/"))
  }

  /**
   * The class of the slash-separated fields after the prefix: a symbol, a
   * year followed by a term digit, and a program code.
   */
  function ClassOfFields(fields: seq<string>): Option<Class> {
    if |fields| != 3 || |fields[1]| < 2 then None
    else
      var term := fields[1];
      var year := ParseU32(term[..|term| - 1]);
      var semester := SemesterOfDigit(term[|term| - 1]);
      var program := ParseU32(fields[2]);
      if year.Some? && semester.Some? && program.Some?
      then Some(Class(fields[0], year.value, semester.value, program.value))
      else None
  }

  /** The part of an address after the prefix splits into symbol, year-and-term and program. */
  lemma SplitAddressTail(symbol: string, term: string, program: string)
    requires '/' !in symbol && '/' !in term && '/' !in program
    ensures Split(symbol + "/" + term + "/" + program, "/") == [symbol, term, program]
  {
    SplitTwoHeads(symbol, "/", term, program);
    NoMatchWithoutFirstChar(program, "/");
    SplitNoMatch(program, "/");
  }

  /** The fields `GetUrl` writes after the prefix read back as the class. */
  lemma ClassOfGetUrlFields(c: Class)
    ensures var term := NatToDecimal(c.year) + NatToDecimal(Discriminant(c.semester));
      ClassOfFields([c.symbol, term, NatToDecimal(c.programCode)]) == Some(c)
  {
    var y := NatToDecimal(c.year);
    DiscriminantDigit(c.semester);
    var term := y + [DigitChar(Discriminant(c.semester))];
    assert term[..|term| - 1] == y;
    ParseU32OfDecimal(c.year);
    ParseU32OfDecimal(c.programCode);
  }

  /** A symbol without a slash makes the address determine the class. */
  lemma ParseUrlOfGetUrl(c: Class)
    requires '/' !in c.symbol
    ensures ParseUrl(GetUrl(c)) == Some(c)
  {
    var term := NatToDecimal(c.year) + NatToDecimal(Discriminant(c.semester));
    var p := NatToDecimal(c.programCode);
    NonDigitAbsent(term, '/');
    NonDigitAbsent(p, '/');
    var tail := c.symbol + "/" + term + "/" + p;
    assert GetUrl(c) == UrlPrefix + tail;
    assert (UrlPrefix + tail)[|UrlPrefix|..] == tail;
    SplitAddressTail(c.symbol, term, p);
    ClassOfGetUrlFields(c);
  }

  /** Two classes whose symbols have no slash share an address only if they are the same class. */
  lemma GetUrlInjective(c1: Class, c2: Class)
    requires '/' !in c1.symbol && '/' !in c2.symbol
    requires GetUrl(c1) == GetUrl(c2)
    ensures c1 == c2
  {
    ParseUrlOfGetUrl(c1);
    ParseUrlOfGetUrl(c2);
  }

  lemma ExampleUrlNumbers()
    ensures NatToDecimal(2022) == "2022" && NatToDecimal(3) == "3" && NatToDecimal(7316) == "7316"
  {
    assert NatToDecimal(20) == "20";
    assert NatToDecimal(202) == "202";
    assert NatToDecimal(73) == "73";
    assert NatToDecimal(731) == "731";
  }

  /** INF1070 in the fall of 2022, program 7316. */
  lemma GetUrlExample()
    ensures GetUrl(Class("inf1070", 2022, Fall, 7316))
         == "https://etudier.uqam.ca/wshoraire/cours/inf1070/20223/7316"
  {
    ExampleUrlNumbers();
  }
}
