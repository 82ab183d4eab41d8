/** The company scraper: for each NACE industry code it asks the
    Brønnøysund register for units in that industry, keeps the first few as
    company records tagged with the code, and flattens the per-code lists
    into one table. The HTTP request is the parameter `fetch`. */
module Scrape {
  import opened Py
  import opened PyStr

  /** The NACE industry codes scraped, in the order they are visited. */
  const NaceCodes: seq<string> := [
    "23.51", "23.63", "23.61", "23.99",
    "42.11", "42.99",
    "24.10", "24.42", "24.45", "24.51", "24.52", "24.53", "24.54",
    "22.22", "22.29", "38.32",
    "16.21", "16.10",
    "35.11", "35.30", "35.21",
    "20.15", "01.11"
  ]

  /** `top_n` when the scraper is called without one. */
  const DefaultTopN := 5

  /** The register's form of a NACE code: the dots are dropped, and a code
      whose second dotted piece has two digits gets a trailing '0'
      ("23.51" becomes "23510"). A code without a dot has no second piece,
      which the scraper does not survive. */
  function FormatNace(code: string): (r: string)
    requires '.' in code
    ensures '.' !in r
    ensures r == Concat(Split(code, '.')) + (if |Split(code, '.')[1]| == 2 then "0" else "")
  {
    RemoveCharIsConcatOfSplit(code, '.');
    if |Split(code, '.')[1]| == 2 then RemoveChar(code, '.') + "0" else RemoveChar(code, '.')
  }

  predicate IsDigit(ch: char) { '0' <= ch <= '9' }

  /** Two digits, a dot, two digits: "23.51". */
  predicate IsNaceShape(code: string) {
    |code| == 5 && IsDigit(code[0]) && IsDigit(code[1]) && code[2] == '.' && IsDigit(code[3]) && IsDigit(code[4])
  }

  /** A code of the form "dd.dd" becomes its four digits followed by '0'. */
  lemma FormatNaceOfShape(code: string)
    requires IsNaceShape(code)
    ensures '.' in code
    ensures FormatNace(code) == code[..2] + code[3..] + "0"
    ensures |FormatNace(code)| == 5 && FormatNace(code)[4] == '0'
    ensures forall k :: 0 <= k < 5 ==> IsDigit(FormatNace(code)[k])
  {
    assert code[2] == '.';
    assert IndexOf(code, '.') == 2 by {
      assert code[..2] == [code[0], code[1]];
    }
    var tail := code[3..];
    assert tail == [code[3], code[4]];
    assert '.' !in tail;
    assert Split(code, '.') == [code[..2]] + Split(tail, '.');
    assert Split(code, '.') == [code[..2], tail];
    assert Concat([code[..2], tail]) == code[..2] + tail by {
      assert Concat([tail]) == tail;
    }
  }

  /** Every listed code has the form "dd.dd", and no code is listed twice. */
  lemma NaceCodesWellFormed()
    ensures forall i :: 0 <= i < |NaceCodes| ==> IsNaceShape(NaceCodes[i])
    ensures Distinct(NaceCodes)
  {
  }

  /** The `i`th listed code has a dot and was not listed before. */
  lemma NaceCodeAt(i: nat)
    requires i < |NaceCodes|
    ensures '.' in NaceCodes[i] && NaceCodes[i] !in NaceCodes[..i]
  {
    NaceCodesWellFormed();
    assert IsNaceShape(NaceCodes[i]);
    DistinctPrefix(NaceCodes, i);
  }

  /** Distinct codes of the form "dd.dd" are sent as distinct register codes. */
  lemma FormatNaceInjective(a: string, b: string)
    requires IsNaceShape(a) && IsNaceShape(b)
    ensures '.' in a && '.' in b
    ensures FormatNace(a) == FormatNace(b) ==> a == b
  {
    FormatNaceOfShape(a);
    FormatNaceOfShape(b);
    var fa, fb := FormatNace(a), FormatNace(b);
    assert fa == a[..2] + a[3..] + "0" && fb == b[..2] + b[3..] + "0";
    if fa == fb {
      forall k | 0 <= k < 5 ensures a[k] == b[k] {
        if k < 2 {
          assert a[k] == fa[k] && b[k] == fb[k];
        } else if k > 2 {
          assert a[k] == fa[k - 1] && b[k] == fb[k - 1];
        }
      }
    }
  }

  /** The register receives a distinct five-digit code ending in '0' for
      every listed NACE code. */
  lemma FormattedNaceCodes(i: nat, j: nat)
    requires i < j < |NaceCodes|
    ensures '.' in NaceCodes[i] && '.' in NaceCodes[j]
    ensures |FormatNace(NaceCodes[i])| == 5 && FormatNace(NaceCodes[i])[4] == '0'
    ensures FormatNace(NaceCodes[i]) != FormatNace(NaceCodes[j])
  {
    NaceCodesWellFormed();
    assert NaceCodes[i] != NaceCodes[j];
    FormatNaceOfShape(NaceCodes[i]);
    FormatNaceInjective(NaceCodes[i], NaceCodes[j]);
  }

  /** Query parameters of one register request. */
  datatype Request = Request(naeringskode: string, size: int)

  /** `{"beskrivelse": ...}`, a described code or form. */
  datatype Described = Described(beskrivelse: Option<string>)

  /** A business address. */
  datatype Address = Address(poststed: Option<string>, kommune: Option<string>)

  /** One unit of the register's answer; `None` is a key the answer lacks. */
  datatype Unit = Unit(
    navn: Option<string>,
    organisasjonsnummer: Option<string>,
    naeringskode1: Option<Described>,
    antallAnsatte: Option<int>,
    forretningsadresse: Option<Address>,
    hjemmeside: Option<string>,
    registreringsdatoEnhetsregisteret: Option<string>,
    organisasjonsform: Option<Described>)

  /** The parsed JSON answer: `{"_embedded": {"enheter": [...]}}`, either level possibly absent. */
  datatype Embedded = Embedded(enheter: Option<seq<Unit>>)
  datatype Response = Response(embedded: Option<Embedded>)

  /** What the HTTP request gives: a parsed answer, or a request exception
      (connection error, timeout, an error status). */
  datatype FetchOutcome = Fetched(data: Response) | RequestFailed

  /** One company record as the scraper stores it. */
  datatype Company = Company(
    name: Option<string>,
    orgNumber: Option<string>,
    naceCode: string,
    naceDescription: Option<string>,
    revenue: Option<int>,
    employees: Option<int>,
    location: Option<string>,
    description: Option<string>,
    municipality: Option<string>,
    postalPlace: Option<string>,
    registrationDate: Option<string>,
    organizationalForm: Option<string>)

  /** `data.get("_embedded", {}).get("enheter", [])` */
  function Units(data: Response): seq<Unit> {
    match data.embedded
    case None => []
    case Some(e) => e.enheter.GetOr([])
  }

  /** `unit.get(key, {}).get("beskrivelse")` */
  function Description(d: Option<Described>): Option<string> {
    match d
    case None => None
    case Some(x) => x.beskrivelse
  }

  /** `unit.get("forretningsadresse", {}).get(key)` */
  function AddressPart(a: Option<Address>, postal: bool): Option<string> {
    match a
    case None => None
    case Some(x) => if postal then x.poststed else x.kommune
  }

  /** The record built from one unit; revenue is never available. */
  function ToCompany(u: Unit, naceCode: string): Company {
    Company(
      u.navn,
      u.organisasjonsnummer,
      naceCode,
      Description(u.naeringskode1),
      None,
      u.antallAnsatte,
      AddressPart(u.forretningsadresse, true),
      u.hjemmeside,
      AddressPart(u.forretningsadresse, false),
      AddressPart(u.forretningsadresse, true),
      u.registreringsdatoEnhetsregisteret,
      Description(u.organisasjonsform))
  }

  /** The records built from `units`, one per unit and in the same order. */
  function Records(units: seq<Unit>, naceCode: string): (r: seq<Company>)
    ensures |r| == |units|
    ensures forall i :: 0 <= i < |units| ==> r[i] == ToCompany(units[i], naceCode)
  {
    if units == [] then [] else Records(units[..|units| - 1], naceCode) + [ToCompany(units[|units| - 1], naceCode)]
  }

  /** What the scraper returns for one code, given the request's outcome. */
  function Scraped(naceCode: string, topN: int, outcome: FetchOutcome): seq<Company> {
    match outcome
    case RequestFailed => []
    case Fetched(data) => Records(Take(Units(data), topN), naceCode)
  }

  /** The records for one code: at most `topN` of them, the first units of
      the answer in the answer's order, each tagged with the code as given
      and without revenue; a failed request gives none. */
  lemma ScrapedRecords(naceCode: string, topN: int, outcome: FetchOutcome)
    ensures var r := Scraped(naceCode, topN, outcome);
      && (0 <= topN ==> |r| <= topN)
      && (forall c :: c in r ==> c.naceCode == naceCode && c.revenue == None)
      && (outcome.RequestFailed? ==> r == [])
      && (outcome.Fetched? ==>
        var units := Units(outcome.data);
        && |r| <= |units|
        && (0 <= topN ==> |r| == (if topN < |units| then topN else |units|))
        && forall i :: 0 <= i < |r| ==> r[i] == ToCompany(units[i], naceCode))
  {
  }

  /** `scrape_companies_by_nace`: asks the register for `3 * topN` units of
      the industry, under the code in the register's format, and builds the
      records from the answer. */
  method ScrapeCompaniesByNace(naceCode: string, topN: int, fetch: Request -> FetchOutcome)
    returns (companies: seq<Company>)
    requires '.' in naceCode
    ensures companies == Scraped(naceCode, topN, fetch(Request(FormatNace(naceCode), 3 * topN)))
  {
    var naceFormatted := FormatNace(naceCode);
    var outcome := fetch(Request(naceFormatted, 3 * topN));
    match outcome {
      case RequestFailed =>
        companies := [];
      case Fetched(data) =>
        var units := Take(Units(data), topN);
        companies := [];
        for i := 0 to |units|
          invariant companies == Records(units[..i], naceCode)
        {
          assert units[..i + 1][..i] == units[..i];
          companies := companies + [ToCompany(units[i], naceCode)];
        }
        assert units[..|units|] == units;
    }
  }

  /** The values of `d` joined in iteration order. */
  function Flatten<K, V>(d: Dict<K, seq<V>>): seq<V> {
    if d == [] then [] else Flatten(d[..|d| - 1]) + d[|d| - 1].1
  }

  /** The sum of the lengths of the values of `d`. */
  function TotalLength<K, V>(d: Dict<K, seq<V>>): nat {
    if d == [] then 0 else TotalLength(d[..|d| - 1]) + |d[|d| - 1].1|
  }

  /** The table has one row per scraped record. */
  lemma {:induction false} FlattenLength<K, V>(d: Dict<K, seq<V>>)
    ensures |Flatten(d)| == TotalLength(d)
  {
    if d != [] {
      FlattenLength(d[..|d| - 1]);
    }
  }

  /** Entry `k` of `all` holds what the scraper returns for the `k`th listed
      code with the default `top_n`. */
  predicate ScrapedAt(all: Dict<string, seq<Company>>, k: int, fetch: Request -> FetchOutcome) {
    0 <= k < |all| && 0 <= k < |NaceCodes| && '.' in NaceCodes[k] &&
    all[k].1 == Scraped(NaceCodes[k], DefaultTopN, fetch(Request(FormatNace(NaceCodes[k]), 3 * DefaultTopN)))
  }

  /** The table rows: a copy of every record of every code, in iteration order. */
  method CsvRows(allCompanies: Dict<string, seq<Company>>) returns (csvRows: seq<Company>)
    ensures csvRows == Flatten(allCompanies)
    ensures |csvRows| == TotalLength(allCompanies)
  {
    csvRows := [];
    for i := 0 to |allCompanies|
      invariant csvRows == Flatten(allCompanies[..i])
    {
      var companies := allCompanies[i].1;
      for j := 0 to |companies|
        invariant csvRows == Flatten(allCompanies[..i]) + companies[..j]
      {
        var row := companies[j];
        csvRows := csvRows + [row];
        assert companies[..j + 1] == companies[..j] + [companies[j]];
      }
      assert allCompanies[..i + 1][..i] == allCompanies[..i];
      assert companies[..|companies|] == companies;
    }
    assert allCompanies[..|allCompanies|] == allCompanies;
    FlattenLength(allCompanies);
  }

  /** Storing the records of the next listed code under that code keeps
      every earlier entry and makes the new one the scraper's answer. */
  lemma ScrapedAtExtend(prev: Dict<string, seq<Company>>, i: nat, companies: seq<Company>,
                        fetch: Request -> FetchOutcome)
    requires |prev| == i < |NaceCodes| && '.' in NaceCodes[i]
    requires forall k :: 0 <= k < i ==> ScrapedAt(prev, k, fetch)
    requires companies == Scraped(NaceCodes[i], DefaultTopN, fetch(Request(FormatNace(NaceCodes[i]), 3 * DefaultTopN)))
    ensures forall k :: 0 <= k < i + 1 ==> ScrapedAt(prev + [(NaceCodes[i], companies)], k, fetch)
  {
    var next := prev + [(NaceCodes[i], companies)];
    forall k | 0 <= k < i + 1 ensures ScrapedAt(next, k, fetch) {
      if k < i {
        assert ScrapedAt(prev, k, fetch);
        assert next[k] == prev[k];
      }
    }
  }

  /** Scrapes every listed code with the default `top_n`, keyed by code in
      list order, and flattens the result into table rows in that order. */
  method ScrapeAll(fetch: Request -> FetchOutcome)
    returns (allCompanies: Dict<string, seq<Company>>, csvRows: seq<Company>)
    ensures Keys(allCompanies) == NaceCodes
    ensures forall i :: 0 <= i < |NaceCodes| ==> ScrapedAt(allCompanies, i, fetch)
    ensures csvRows == Flatten(allCompanies)
    ensures |csvRows| == TotalLength(allCompanies)
  {
    allCompanies := [];
    for i := 0 to |NaceCodes|
      invariant Keys(allCompanies) == NaceCodes[..i]
      invariant forall k :: 0 <= k < i ==> ScrapedAt(allCompanies, k, fetch)
    {
      var naceCode := NaceCodes[i];
      NaceCodeAt(i);
      var companies := ScrapeCompaniesByNace(naceCode, DefaultTopN, fetch);
      PutFreshKey(allCompanies, naceCode, companies);
      ScrapedAtExtend(allCompanies, i, companies, fetch);
      allCompanies := Put(allCompanies, naceCode, companies);
      assert NaceCodes[..i + 1] == NaceCodes[..i] + [naceCode];
    }
    csvRows := CsvRows(allCompanies);
  }
}
