# SRM analysis pipeline: a Dafny model

This project models the three scripts of the EiT 2026 secondary raw
material (SRM) analysis, in the order the pipeline runs them.

1. **Scraping** (`scrape.dfy`, module `Scrape`). The script visits 23 NACE
   industry codes in a fixed order. It rewrites each code into the
   Brønnøysund register's format: "23.51" becomes "23510". It asks the
   register for `3 * top_n` units of that industry. It keeps the first
   `top_n` units as company records tagged with the code as given, with no
   revenue. A failed request gives an empty list. The per-code lists are
   stored in a dictionary keyed by code and then flattened into the rows of
   a table.
2. **Research** (`research.dfy`, module `Research`). For each industry the
   script keeps the companies with a truthy employee count. It sorts them by
   employee count, most first, with Python's stable sort, and picks the
   first three. It writes one placeholder research record per picked
   company, counted in the metadata. It also defines, without calling it,
   a function that builds a web-search address for a company's
   sustainability report.
3. **Report** (`report.dfy`, module `Report`). Every research record gets
   an intensity level from 0 to 3 in each of seven material categories. The
   level comes from the SRM types the company uses and the free text of its
   quantitative data. The level is written into the company's own entry.

Two helper modules model the Python built-ins the scripts depend on:

- `py.dfy` (module `Py`): `None` and missing keys (`Option`), list slicing
  from the front (`Take`), and dictionaries in insertion order (`Dict`,
  `Keys`, `Get`, `Put`).
- `py_str.dfy` (module `PyStr`): the `in` substring test, `replace`,
  `split` and `join`.

The HTTP request is a parameter: a function from the request's query
parameters to either a parsed answer or a failure.

The scoring loop and the annotation loop are methods. Each one is proved
against a specification function:

- `Scores` is a left fold of one scoring step.
- `Annotated` says that an entry holds its own scores.

The per-code scraping loop, the table loop and the priority loop are
proved the same way, against `Scraped`, `Flatten` and `Priority`. The
company entry that the report updates in place is a class.

## Model

| member | source | states |
|---|---|---|
| Scrape.FormatNace | scripts/1_scrape_companies.py:51-52 | The register code has no dot. It is the dotted pieces joined with nothing between them, plus a trailing "0" exactly when the second piece has two characters. |
| Scrape.FormatNaceOfShape | scripts/1_scrape_companies.py:51-52 | A code "dd.dd" becomes its four digits followed by '0': five digits in all. |
| Scrape.FormatNaceInjective | scripts/1_scrape_companies.py:52 | Two codes of the form "dd.dd" that format to the same register code are the same code. |
| Scrape.NaceCodesWellFormed | scripts/1_scrape_companies.py:30-38 | Every listed code has the form "dd.dd", and no code is listed twice. |
| Scrape.NaceCodeAt | scripts/1_scrape_companies.py:30-38 | The i-th listed code contains a dot, so formatting it cannot fail, and it does not occur earlier in the list. |
| Scrape.FormattedNaceCodes | scripts/1_scrape_companies.py:30-38 | Distinct listed codes are sent to the register as distinct five-digit codes ending in '0'. |
| Scrape.Records | scripts/1_scrape_companies.py:71-86 | One record per unit, in the units' order, each record built from its own unit. |
| Scrape.ScrapedRecords | scripts/1_scrape_companies.py:64-94 | For a non-negative `top_n`, at most `top_n` records, and exactly min(`top_n`, number of units) for a non-negative `top_n`. Record i is built from unit i. Every record carries the code as given and no revenue. A failed request gives no records. |
| Scrape.ScrapeCompaniesByNace | scripts/1_scrape_companies.py:40-94 | Sends the formatted code and size `3 * top_n`. The result is what `Scraped` gives for the request's outcome. |
| Scrape.FlattenLength | scripts/1_scrape_companies.py:124-136 | The table has as many rows as there are records across all codes. |
| Scrape.CsvRows | scripts/1_scrape_companies.py:124-128 | The rows are every code's records, code by code in dictionary order, each code's records in their own order. |
| Scrape.ScrapedAtExtend | scripts/1_scrape_companies.py:105-107 | Storing the next code's records keeps every earlier entry, and the new entry is the scraper's result for that code. |
| Scrape.ScrapeAll | scripts/1_scrape_companies.py:103-128 | The dictionary's keys are the listed codes in list order. Entry i holds the scraper's result for code i with the default `top_n` of 5. The rows are the flattened dictionary. |
| Py.Take | scripts/1_scrape_companies.py:71 | `s[:n]` is a prefix of `s`. Its length is min(n, \|s\|) for n >= 0, and it drops -n elements from the end for n < 0. |
| Py.Keys | scripts/1_scrape_companies.py:105-107 | The keys of a dictionary, one per entry, in entry order. |
| Py.Get | scripts/1_scrape_companies.py:107 | Dictionary lookup `d.get(k)`, used to state what `d[k] = v` does: it finds nothing exactly when the key is absent, and otherwise that key's entry. |
| Py.Put | scripts/1_scrape_companies.py:107 | Assigning to a present key keeps the key order. A new key goes last. |
| Py.PutGet | scripts/1_scrape_companies.py:107 | After `d[k] = v`, `k` maps to `v` and every other key maps to what it did before. |
| Py.PutFreshKey | scripts/1_scrape_companies.py:105-107 | Assigning a key that is not yet present appends the entry. |
| PyStr.Contains | scripts/3_generate_report.py:75-79 | `pat in text` holds exactly when `pat` occurs at some position of `text`. |
| PyStr.Split | scripts/1_scrape_companies.py:52 | `split` on one character gives one more piece than there are separators, and no piece holds the separator. |
| PyStr.JoinSplit | scripts/1_scrape_companies.py:52 | Joining the pieces of a split with the separator gives back the string. |
| PyStr.RemoveChar | scripts/1_scrape_companies.py:52 | `replace(".", "")` leaves no dot. |
| PyStr.RemoveCharCounts | scripts/1_scrape_companies.py:52 | Removing a character deletes exactly its occurrences and keeps the count of every other character. |
| PyStr.RemoveCharIsConcatOfSplit | scripts/1_scrape_companies.py:52 | Removing the dots gives the dotted pieces joined with nothing between them. |
| PyStr.ReplaceChar | scripts/2_research_srm_usage.py:47 | `replace(' ', '+')` keeps the length and replaces exactly the spaces. |
| PyStr.ReplaceCharRoundTrip | scripts/2_research_srm_usage.py:47 | For a string without '+', turning the '+' back into spaces restores it. |
| PyStr.IndexOf | scripts/1_scrape_companies.py:52 | The first occurrence of a character that occurs in the string. |
| Research.SearchUrl | scripts/2_research_srm_usage.py:45-47 | The address is the search prefix followed by the query "<name> sustainability report 2024" with every space, and nothing else, written as '+'. It is as long as the prefix and the query together and contains no space. |
| Research.SearchUrlQuery | scripts/2_research_srm_usage.py:45-47 | For a name without '+', the query part read back gives the name followed by " sustainability report 2024". |
| Research.AnalyzeSrmUsage | scripts/2_research_srm_usage.py:60-75 | The record copies name, organisation number, NACE code and employee count. Every finding is a placeholder: no SRM types, no sources, "No data available" as quantitative text. |
| Research.EligibleCounts | scripts/2_research_srm_usage.py:97 | The filter keeps every occurrence of each company with a truthy employee count and no other company. |
| Research.HeadBounds | scripts/2_research_srm_usage.py:96-100 | In a list sorted most employees first, the head has at least as many employees as anything after it. |
| Research.Insert | scripts/2_research_srm_usage.py:96-100 | Inserting into a list sorted most employees first keeps it sorted and adds exactly the inserted company. |
| Research.InsertStable | scripts/2_research_srm_usage.py:96-100 | The inserted company comes first among those with its own count, and the others keep their order. |
| Research.SortByEmployees | scripts/2_research_srm_usage.py:96-100 | The sort puts most employees first and is a permutation of its input. |
| Research.SortStable | scripts/2_research_srm_usage.py:96-100 | The sort is stable: companies with equal counts keep their input order. |
| Research.TopThreeIsFront | scripts/2_research_srm_usage.py:96-101 | The picks are the first min(3, number eligible) companies of the sorted list. |
| Research.TopThreePicks | scripts/2_research_srm_usage.py:96-101 | Exactly min(3, number eligible) companies are picked, most employees first. Each pick has a truthy count and comes from the industry's list, with no company picked more often than it is eligible. |
| Research.FrontDominatesBack | scripts/2_research_srm_usage.py:96-101 | In a list sorted most employees first, nothing in the front has fewer employees than anything behind it. |
| Research.TopThreeDominates | scripts/2_research_srm_usage.py:96-101 | No picked company has fewer employees than an eligible company of the industry that was passed over. |
| Research.TopThreeTies | scripts/2_research_srm_usage.py:96-101 | Among companies with equal counts, the picks are the earliest in the input. |
| Research.ConcatBlocksAppend | scripts/2_research_srm_usage.py:94-101 | The per-key results of two runs of dictionary entries are those of the first run followed by those of the second. |
| Research.PriorityBlocks | scripts/2_research_srm_usage.py:93-101 | Each industry adds one contiguous block of picks, in dictionary order. |
| Research.PriorityBounds | scripts/2_research_srm_usage.py:93-101 | At most three picks per industry, each with a truthy employee count. |
| Research.SelectPriorityCompanies | scripts/2_research_srm_usage.py:93-101 | The loop's result is the industries' top-three blocks in dictionary order, bounded as `PriorityBounds` states. |
| Research.BuildResearchResults | scripts/2_research_srm_usage.py:105-118 | The research date is fixed. The count in the metadata equals the number of records and the number of priority companies. Record i is the placeholder for priority company i. |
| Report.CategoryMapTargetsCategories | scripts/3_generate_report.py:32-53 | Every mapped SRM type counts towards one of the seven categories of the result, named by a non-empty string. |
| Report.CategoryOfTargets | scripts/3_generate_report.py:72-73 | A known SRM type's category is one of the seven, so scoring never adds a key. |
| Report.AnyContained | scripts/3_generate_report.py:77 | `any(x in text for x in pats)` holds exactly when some pattern occurs in the text. |
| Report.Level | scripts/3_generate_report.py:74-82 | One SRM type earns a level from 1 to 3. It earns 3 exactly when the text contains "100%" or "Core". |
| Report.Step | scripts/3_generate_report.py:71-82 | One turn of the scoring loop keeps exactly the seven categories, each at a level from 0 to 3. |
| Report.Scores | scripts/3_generate_report.py:61-84 | The scores map exactly the seven categories, each to a level from 0 to 3. |
| Report.CalculateSrmIntensity | scripts/3_generate_report.py:55-84 | The loop's result is `Scores` of its inputs: the seven categories, each at a level from 0 to 3. |
| Report.ScoresCharacterised | scripts/3_generate_report.py:71-82 | A category scores non-zero exactly when some SRM type of that category occurs. Its score is then the highest level earned by such a type. |
| Report.ScoresDependOnlyOnMappedNames | scripts/3_generate_report.py:71-73 | Two SRM lists that contain the same mapped types score the same. Order, repetitions and unknown names change nothing. |
| Report.ScoresOrderIndependent | scripts/3_generate_report.py:71-82 | Two SRM lists holding the same names, in any order and with any repetitions, score the same. |
| Report.UnmappedScoresZero | scripts/3_generate_report.py:61-73 | A list with no known SRM type scores 0 in every category. |
| Report.CoreTextScoresThree | scripts/3_generate_report.py:75-76 | If the text marks SRM as core, every category reached scores 3 and every other category 0. |
| Report.HighMarkerScoresTwo | scripts/3_generate_report.py:77-78 | If the text is not core but mentions a high-share marker, every category reached scores exactly 2 and every other category 0. |
| Report.MentionScoresTwo | scripts/3_generate_report.py:79-82 | Otherwise a category scores 2 when the text names one of its SRM types in the list or the category itself. It scores 1 when it is reached without such a mention, and 0 when it is not reached. |
| Report.PlaceholderScoresZero | scripts/2_research_srm_usage.py:68-70 | A placeholder research record scores 0 in every category. |
| Report.AnnotateIntensities | scripts/3_generate_report.py:143-146 | Every entry ends up holding the scores of its own SRM types and quantitative text, with a missing key read as empty. No other field of any entry changes. |

## Left out

- HTTP, the 30-second timeout, `raise_for_status` and the half-second rate-limiting pause are not modelled. The request is the parameter `fetch`. Every `RequestException` is its outcome `RequestFailed`.
- An answer body that is not JSON is not modelled separately. `fetch` either yields a parsed answer or fails.
- The model cannot express a response or unit key that is present with the value `null` where the script chains `.get` on it, which raises `AttributeError` in the script. The model only tells present keys from missing ones.
- Employee counts are modelled as integers or missing. JSON values of other types and their Python truthiness are not modelled.
- Reading and writing the JSON files, the CSV export through pandas, directory creation and every console message are left out. The table is the list of rows that goes into the data frame.
- The scrape file's fixed date, its source text and its note are file content only and are not modelled.
- The research metadata's note text is not modelled. `Metadata` keeps the count.
- `generate_html_report`, the HTML template, the report timestamp and the printed file size are output formatting and are not modelled.
- `search_company_sustainability_report` (`Research.SearchUrl`) is never called by the scripts. It is modelled on its own.
- `Scrape.FormatNace` requires a dot in the code. A code without one makes the script fail with `IndexError`, and every listed code has a dot (`Scrape.NaceCodeAt`).
- Report.AnnotateIntensities: a research entry's `srm_types_used` is modelled only as a list of strings or missing, and its `quantitative_data` only as a string or missing. Other values, on which the script crashes or behaves differently, are not modelled: a key present with the value `null`, on which `.get` returns `None` and the loop or the `in` test raises `TypeError`; an unhashable list element, which fails the map lookup; and a list-valued `quantitative_data`, which turns `in` into list membership.
- `Report.CompanyEntry` keeps the keys that scoring does not use as uninterpreted JSON text in `otherFields`.
- The batch runner that drives per-company assessments through an external tool (cli.py) and the PDF tools are not part of this model. The three scripts do not use them.
