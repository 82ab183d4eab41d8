/** The research step: from the scraped companies of each industry it picks
    the three largest by employee count, and it writes one placeholder
    research record per picked company. */
module Research {
  import opened Py
  import opened PyStr
  import opened Scrape

  const SearchPrefix := "https://www.google.com/search?q="
  const SearchSuffix := " sustainability report 2024"

  /** The web-search address for a company's sustainability report: the
      query "<name> sustainability report 2024" with spaces written as '+'. */
  function SearchUrl(companyName: string): (url: string)
    ensures ' ' !in url
    ensures |url| == |SearchPrefix| + |companyName| + |SearchSuffix|
    ensures url[..|SearchPrefix|] == SearchPrefix
    ensures var query := companyName + SearchSuffix;
      forall i :: 0 <= i < |query| ==> url[|SearchPrefix| + i] == if query[i] == ' ' then '+' else query[i]
  {
    SearchPrefix + ReplaceChar(companyName + SearchSuffix, ' ', '+')
  }

  /** For a name without '+', the query read back from the address (each
      '+' a space again) is the name followed by the fixed words. */
  lemma SearchUrlQuery(companyName: string)
    requires '+' !in companyName
    ensures ReplaceChar(SearchUrl(companyName)[|SearchPrefix|..], '+', ' ') == companyName + SearchSuffix
  {
    var query := companyName + SearchSuffix;
    assert '+' !in query;
    assert SearchUrl(companyName)[|SearchPrefix|..] == ReplaceChar(query, ' ', '+');
    ReplaceCharRoundTrip(query, ' ', '+');
  }

  /** One company's research record. */
  datatype ResearchRecord = ResearchRecord(
    name: Option<string>,
    orgNumber: Option<string>,
    naceCode: string,
    employees: Option<int>,
    sector: string,
    annualReportUrl: string,
    sustainabilityReportUrl: string,
    srmTypesUsed: seq<string>,
    srmUsageEvidence: string,
    quantitativeData: string,
    summary: string,
    sources: seq<string>)

  /** The record still to be filled in by hand: the company's identity with
      every finding a placeholder. */
  predicate IsPlaceholderFor(r: ResearchRecord, c: Company) {
    && r.name == c.name && r.orgNumber == c.orgNumber
    && r.naceCode == c.naceCode && r.employees == c.employees
    && r.sector == "To be determined"
    && r.annualReportUrl == "Not found" && r.sustainabilityReportUrl == "Not found"
    && r.srmTypesUsed == [] && r.sources == []
    && r.srmUsageEvidence == "No data available" && r.quantitativeData == "No data available"
    && r.summary == "Research required"
  }

  /** The placeholder research record for one company. */
  function AnalyzeSrmUsage(company: Company): (r: ResearchRecord)
    ensures IsPlaceholderFor(r, company)
  {
    ResearchRecord(
      company.name, company.orgNumber, company.naceCode, company.employees,
      "To be determined", "Not found", "Not found", [], "No data available",
      "No data available", "Research required", [])
  }

  /** `c.get("employees")` is truthy: present, and neither null nor 0. */
  predicate HasEmployees(c: Company) {
    c.employees.Some? && c.employees.value != 0
  }

  /** The sort key. */
  function Employees(c: Company): int {
    c.employees.GetOr(0)
  }

  /** `[c for c in cs if c.get("employees")]` */
  function Eligible(cs: seq<Company>): seq<Company> {
    if cs == [] then [] else (if HasEmployees(cs[0]) then [cs[0]] else []) + Eligible(cs[1..])
  }

  /** The filter keeps every occurrence of a company with a truthy employee
      count and drops every other company. */
  lemma {:induction false} EligibleCounts(cs: seq<Company>)
    ensures forall x :: multiset(Eligible(cs))[x] == if HasEmployees(x) then multiset(cs)[x] else 0
  {
    if cs != [] {
      assert cs == [cs[0]] + cs[1..];
      EligibleCounts(cs[1..]);
    }
  }

  /** Employee counts never increase along `s`. */
  predicate NonIncreasing(s: seq<Company>) {
    forall i, j :: 0 <= i < j < |s| ==> Employees(s[i]) >= Employees(s[j])
  }

  /** The companies of `s` with exactly `k` employees, in their order in `s`. */
  function WithEmployees(s: seq<Company>, k: int): seq<Company> {
    if s == [] then [] else (if Employees(s[0]) == k then [s[0]] else []) + WithEmployees(s[1..], k)
  }

  /** Restricting `[c] + s` to one count. */
  lemma WithEmployeesCons(c: Company, s: seq<Company>, k: int)
    ensures WithEmployees([c] + s, k) == (if Employees(c) == k then [c] else []) + WithEmployees(s, k)
  {
    assert ([c] + s)[1..] == s;
  }

  /** A company with at least as many employees as all of a non-increasing
      list can go in front of it. */
  lemma NonIncreasingCons(c: Company, s: seq<Company>)
    requires NonIncreasing(s)
    requires forall j :: 0 <= j < |s| ==> Employees(s[j]) <= Employees(c)
    ensures NonIncreasing([c] + s)
  {
    var r := [c] + s;
    forall i, j | 0 <= i < j < |r| ensures Employees(r[i]) >= Employees(r[j]) {
      assert r[j] == s[j - 1];
      if i > 0 {
        assert r[i] == s[i - 1];
      }
    }
  }

  /** The head of a non-increasing list has at least as many employees as
      anything after it. */
  lemma HeadBounds(s: seq<Company>, y: Company)
    requires NonIncreasing(s) && |s| > 0 && y in multiset(s[1..])
    ensures Employees(y) <= Employees(s[0])
  {
    var j :| 0 <= j < |s[1..]| && s[1..][j] == y;
    assert s[j + 1] == y;
  }

  /** Puts `x` after every company with more employees than `x` and before
      the rest, so it comes first among those with its own count. */
  function Insert(x: Company, s: seq<Company>): (r: seq<Company>)
    requires NonIncreasing(s)
    ensures NonIncreasing(r)
    ensures multiset(r) == multiset(s) + multiset{x}
  {
    if s == [] || Employees(s[0]) <= Employees(x) then [x] + s
    else
      var rest := Insert(x, s[1..]);
      assert s == [s[0]] + s[1..];
      var r := [s[0]] + rest;
      forall j | 0 <= j < |rest| ensures Employees(rest[j]) <= Employees(s[0]) {
        assert rest[j] in multiset(rest);
        if rest[j] != x {
          HeadBounds(s, rest[j]);
        }
      }
      NonIncreasingCons(s[0], rest);
      r
  }

  /** Inserting keeps the order among companies with equal counts, with `x`
      first among its own. */
  lemma {:induction false} InsertStable(x: Company, s: seq<Company>, k: int)
    requires NonIncreasing(s)
    ensures WithEmployees(Insert(x, s), k) == (if Employees(x) == k then [x] else []) + WithEmployees(s, k)
  {
    if s == [] || Employees(s[0]) <= Employees(x) {
      WithEmployeesCons(x, s, k);
    } else {
      var rest := Insert(x, s[1..]);
      assert s == [s[0]] + s[1..];
      WithEmployeesCons(s[0], rest, k);
      InsertStable(x, s[1..], k);
      WithEmployeesCons(s[0], s[1..], k);
    }
  }

  /** `sorted(s, key=lambda c: c["employees"], reverse=True)`: most
      employees first, a permutation of `s`. */
  function SortByEmployees(s: seq<Company>): (r: seq<Company>)
    ensures NonIncreasing(r)
    ensures multiset(r) == multiset(s)
  {
    if s == [] then []
    else
      assert s == [s[0]] + s[1..];
      Insert(s[0], SortByEmployees(s[1..]))
  }

  /** The sort is stable: the companies with any one count keep their input order. */
  lemma {:induction false} SortStable(s: seq<Company>, k: int)
    ensures WithEmployees(SortByEmployees(s), k) == WithEmployees(s, k)
  {
    if s != [] {
      SortStable(s[1..], k);
      InsertStable(s[0], SortByEmployees(s[1..]), k);
      WithEmployeesCons(s[0], s[1..], k);
      assert s == [s[0]] + s[1..];
    }
  }

  /** `sorted(...)[:3]` over the companies with a truthy employee count. */
  function TopThree(cs: seq<Company>): seq<Company> {
    Take(SortByEmployees(Eligible(cs)), 3)
  }

  /** `a` is a prefix of `b`. */
  predicate IsPrefix<T(==)>(a: seq<T>, b: seq<T>) {
    |a| <= |b| && a == b[..|a|]
  }

  /** Restricting a prefix to one count gives a prefix of the restriction. */
  lemma {:induction false} WithEmployeesOfPrefix(s: seq<Company>, n: nat, k: int)
    requires n <= |s|
    ensures IsPrefix(WithEmployees(s[..n], k), WithEmployees(s, k))
  {
    if n > 0 {
      assert s[..n][1..] == s[1..][..n - 1];
      WithEmployeesOfPrefix(s[1..], n - 1, k);
    }
  }

  /** The picks are the front of the sorted eligible companies. */
  lemma TopThreeIsFront(cs: seq<Company>)
    ensures |SortByEmployees(Eligible(cs))| == |Eligible(cs)|
    ensures TopThree(cs) == SortByEmployees(Eligible(cs))[..|TopThree(cs)|]
    ensures |TopThree(cs)| == if |Eligible(cs)| < 3 then |Eligible(cs)| else 3
  {
    var e := Eligible(cs);
    assert |multiset(SortByEmployees(e))| == |multiset(e)|;
  }

  /** The elements of a list are those of its front and of its back. */
  lemma SplitMultiset<T>(s: seq<T>, m: nat)
    requires m <= |s|
    ensures multiset(s) == multiset(s[..m]) + multiset(s[m..])
  {
    assert s == s[..m] + s[m..];
  }

  /** The front of a non-increasing list is non-increasing. */
  lemma NonIncreasingPrefix(s: seq<Company>, m: nat)
    requires NonIncreasing(s) && m <= |s|
    ensures NonIncreasing(s[..m])
  {
  }

  /** At most three companies are picked from one industry, all of them
      with a truthy employee count, most employees first. */
  lemma TopThreePicks(cs: seq<Company>)
    ensures |TopThree(cs)| == if |Eligible(cs)| < 3 then |Eligible(cs)| else 3
    ensures forall x :: x in TopThree(cs) ==> HasEmployees(x) && x in cs
    ensures multiset(TopThree(cs)) <= multiset(Eligible(cs))
    ensures NonIncreasing(TopThree(cs))
  {
    var e := Eligible(cs);
    var sorted := SortByEmployees(e);
    var top := TopThree(cs);
    TopThreeIsFront(cs);
    SplitMultiset(sorted, |top|);
    assert multiset(top) <= multiset(e);
    EligibleCounts(cs);
    forall x | x in top ensures HasEmployees(x) && x in cs {
      assert x in multiset(top);
      assert multiset(e)[x] > 0;
      assert multiset(cs)[x] > 0;
    }
    NonIncreasingPrefix(sorted, |top|);
  }

  /** In a non-increasing list, nothing in the first `m` places has fewer
      employees than anything after them. */
  lemma FrontDominatesBack(s: seq<Company>, m: nat, u: Company, x: Company)
    requires NonIncreasing(s) && m <= |s|
    requires u in multiset(s[m..]) && x in s[..m]
    ensures Employees(x) >= Employees(u)
  {
    var j :| 0 <= j < |s| - m && s[m..][j] == u;
    var i :| 0 <= i < m && s[..m][i] == x;
    assert s[i] == x && s[m + j] == u;
  }

  /** No picked company has fewer employees than an eligible company of
      the same industry that was passed over. */
  lemma TopThreeDominates(cs: seq<Company>, u: Company, x: Company)
    requires u in multiset(Eligible(cs)) - multiset(TopThree(cs))
    requires x in TopThree(cs)
    ensures Employees(x) >= Employees(u)
  {
    var sorted := SortByEmployees(Eligible(cs));
    var m := |TopThree(cs)|;
    TopThreeIsFront(cs);
    SplitMultiset(sorted, m);
    FrontDominatesBack(sorted, m, u, x);
  }

  /** Among companies with equal counts the earliest ones in the input are
      picked: restricted to any one count, the picks are a prefix of the
      eligible companies. */
  lemma TopThreeTies(cs: seq<Company>, k: int)
    ensures IsPrefix(WithEmployees(TopThree(cs), k), WithEmployees(Eligible(cs), k))
  {
    var e := Eligible(cs);
    TopThreeIsFront(cs);
    WithEmployeesOfPrefix(SortByEmployees(e), |TopThree(cs)|, k);
    SortStable(e, k);
  }

  /** `pick` applied to every value of `d`, the results joined in dictionary order. */
  function ConcatBlocks<K, V, W>(d: Dict<K, V>, pick: V -> seq<W>): seq<W> {
    if d == [] then [] else ConcatBlocks(d[..|d| - 1], pick) + pick(d[|d| - 1].1)
  }

  /** Each value contributes one contiguous block: the blocks of two runs of
      entries are those of the first followed by those of the second. */
  lemma {:induction false} ConcatBlocksAppend<K, V, W>(a: Dict<K, V>, b: Dict<K, V>, pick: V -> seq<W>)
    ensures ConcatBlocks(a + b, pick) == ConcatBlocks(a, pick) + ConcatBlocks(b, pick)
    decreases |b|
  {
    if b == [] {
      assert a + b == a;
    } else {
      var n := |b| - 1;
      assert (a + b)[..|a + b| - 1] == a + b[..n];
      assert (a + b)[|a + b| - 1] == b[n];
      ConcatBlocksAppend(a, b[..n], pick);
    }
  }

  /** The picked companies of every industry, industry by industry in
      dictionary order. */
  function Priority(companiesByNace: Dict<string, seq<Company>>): seq<Company> {
    ConcatBlocks(companiesByNace, TopThree)
  }

  /** Each industry contributes one contiguous block: the picks from two
      runs of industries are the picks of the first followed by those of
      the second. */
  lemma PriorityBlocks(a: Dict<string, seq<Company>>, b: Dict<string, seq<Company>>)
    ensures Priority(a + b) == Priority(a) + Priority(b)
  {
    ConcatBlocksAppend(a, b, TopThree);
  }

  /** At most three companies per industry are picked, and every pick has a
      truthy employee count. */
  lemma {:induction false} PriorityBounds(companiesByNace: Dict<string, seq<Company>>)
    ensures |Priority(companiesByNace)| <= 3 * |companiesByNace|
    ensures forall x :: x in Priority(companiesByNace) ==> HasEmployees(x)
  {
    if companiesByNace != [] {
      var n := |companiesByNace| - 1;
      PriorityBounds(companiesByNace[..n]);
      TopThreePicks(companiesByNace[n].1);
      assert Priority(companiesByNace) == Priority(companiesByNace[..n]) + TopThree(companiesByNace[n].1);
    }
  }

  /** Goes through the industries in dictionary order and extends the
      priority list with each one's top three. */
  method SelectPriorityCompanies(companiesByNace: Dict<string, seq<Company>>)
    returns (priorityCompanies: seq<Company>)
    ensures priorityCompanies == Priority(companiesByNace)
    ensures |priorityCompanies| <= 3 * |companiesByNace|
    ensures forall x :: x in priorityCompanies ==> HasEmployees(x)
  {
    priorityCompanies := [];
    for i := 0 to |companiesByNace|
      invariant priorityCompanies == Priority(companiesByNace[..i])
    {
      var companies := companiesByNace[i].1;
      var sortedCompanies := SortByEmployees(Eligible(companies));
      priorityCompanies := priorityCompanies + Take(sortedCompanies, 3);
      assert companiesByNace[..i + 1][..i] == companiesByNace[..i];
    }
    assert companiesByNace[..|companiesByNace|] == companiesByNace;
    PriorityBounds(companiesByNace);
  }

  /** The research file's metadata. */
  datatype Metadata = Metadata(totalCompaniesResearched: int)

  /** The research file. */
  datatype ResearchResults = ResearchResults(researchDate: string, metadata: Metadata, companies: seq<ResearchRecord>)

  const ResearchDate := "2026-02-11"

  /** Writes one placeholder record per priority company, in the same
      order, and counts them in the metadata. */
  method BuildResearchResults(priorityCompanies: seq<Company>) returns (results: ResearchResults)
    ensures results.researchDate == ResearchDate
    ensures results.metadata.totalCompaniesResearched == |results.companies| == |priorityCompanies|
    ensures forall i :: 0 <= i < |priorityCompanies| ==> IsPlaceholderFor(results.companies[i], priorityCompanies[i])
  {
    results := ResearchResults(ResearchDate, Metadata(|priorityCompanies|), []);
    for i := 0 to |priorityCompanies|
      invariant results.researchDate == ResearchDate
      invariant results.metadata.totalCompaniesResearched == |priorityCompanies|
      invariant |results.companies| == i
      invariant forall k :: 0 <= k < i ==> IsPlaceholderFor(results.companies[k], priorityCompanies[k])
    {
      var result := AnalyzeSrmUsage(priorityCompanies[i]);
      results := results.(companies := results.companies + [result]);
    }
  }
}
