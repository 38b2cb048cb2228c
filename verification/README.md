# Job scraper core in Dafny

A verified model of the ingest → filter → deduplicate pipeline of
`JobScraperBot` (`job_scraper.py`). Nine source adapters turn decoded
responses into normalised job records. Each record is keyed by a digest of
`title + company + url`. `process_jobs` offers every record, in scraper
order, to the `seen_jobs` table, which has insert-or-ignore semantics, and
counts the new ones per scraper.

Modules, in dependency order:

- `Wrappers`: `Option` and `Result`.
- `Text`: the Python string operations the code relies on: `lower()`, `strip()`, `in`, `split(',')`, `int()` on a run of digits.
- `Jobs`: the job record and the job id. The digest is a parameter, so every property holds for any digest, MD5 included.
- `Skills`: the skill list read from the configuration, and `matches_skills`.
- `Recency`: `is_recent_job` and `parse_days_ago`. Each `re.search(r'(\d+)\s*unit', ...)` is modelled as a leftmost greedy scan, and that scan is proved equal to the regular expression's own reading.
- `Store`: the `seen_jobs` table as a class holding a map from id to row.
- `Adapters`: the record-building loops of the `scrape_*` methods, over already-decoded items. Each loop is a method proved equal to a specification function.
- `Pipeline`: `process_jobs` as a method of the class `JobScraperBot`. It is proved against `Ingest`, `CountNew` and `NewCounts`, the store contents and new-record counts after offering the records in order.

## Model

| member | source | states |
|---|---|---|
| Text.Lower | job_scraper.py:70 | `lower()`: same length, every character lower-cased at its own position |
| Text.LowerIdempotent | job_scraper.py:76 | lower-casing twice is lower-casing once |
| Text.LowerAppend | job_scraper.py:76 | lower-casing distributes over concatenation |
| Text.Strip | job_scraper.py:71 | `strip()` result is a slice of the input whose removed edges are whitespace and whose own edges are not |
| Text.StripUnpadded | job_scraper.py:71 | a non-empty string without whitespace at either edge strips to itself |
| Text.Contains | job_scraper.py:71 | definition: `needle in hay`, an occurrence of the needle at some position |
| Text.MissingCharNotContained | job_scraper.py:77 | `needle in hay` fails when the needle has a character the haystack lacks |
| Text.ContainsEmpty | job_scraper.py:71 | the empty string is in every string |
| Text.ContainsAfterDigits | job_scraper.py:77-79 | a word that starts with a non-digit occurs after a run of digits exactly when it occurs in the rest |
| Text.Split | job_scraper.py:24 | `split(',')` gives at least one part and no part holds the separator |
| Text.JoinSplit | job_scraper.py:24 | joining the parts with the separator gives back the original string |
| Text.SplitTrailingSeparator | job_scraper.py:24 | a trailing separator adds an empty last part |
| Text.DecimalValue | job_scraper.py:83 | definition: `int()` of a run of ASCII digits, most significant first |
| Text.NatToDecimal | job_scraper.py:83 | the decimal rendering of a number is a non-empty run of digits |
| Text.DecimalRoundTrip | job_scraper.py:83 | `int()` of a number's decimal rendering is that number |
| Jobs.IdentityKey | job_scraper.py:53 | the hashed key is title, company and url side by side, with no separator |
| Jobs.GenerateJobId | job_scraper.py:52-53 | definition: the digest of `IdentityKey(title, company, url)` |
| Jobs.RecordId | job_scraper.py:434 | definition: the id of a record is `GenerateJobId` of its title, company and link |
| Jobs.IdDependsOnlyOnKey | job_scraper.py:52-53 | equal concatenations give equal ids, for any digest |
| Jobs.RecordIdIgnoresMetadata | job_scraper.py:434 | portal, posted date and age never affect a record's id |
| Jobs.IdCollidesAcrossFieldBoundary | job_scraper.py:53 | ("ab", "c", u) and ("a", "bc", u) get the same id |
| Skills.ParseSkills | job_scraper.py:21-24 | the skill list is the lower-cased config (or the default) split on every comma: parts hold no comma, are lower-case and join back to the lower-cased config |
| Skills.SplitKeepsLower | job_scraper.py:24 | every part of a lower-case string is lower-case |
| Skills.AnySkillIn | job_scraper.py:71 | definition: `any(skill.strip() in text for skill in skills)`, element by element |
| Skills.MatchesSkills | job_scraper.py:69-71 | definition: `AnySkillIn` on the lower-cased text |
| Skills.MatchesSkillsIff | job_scraper.py:69-71 | relevant exactly when some stripped skill is a substring of the lower-cased text |
| Skills.AnySkillInIff | job_scraper.py:71 | `any(...)` over the list holds exactly when some element holds |
| Skills.MatchesIgnoresCase | job_scraper.py:70 | the text's case never matters |
| Skills.BlankSkillMatchesEverything | job_scraper.py:71 | a skill that strips to nothing matches every text |
| Skills.TrailingCommaMatchesEverything | job_scraper.py:21-24 | a configuration ending in a comma makes every text relevant |
| Skills.SkillOccurrenceMatches | job_scraper.py:71 | one occurrence of one stripped skill in the lower-cased text makes it relevant |
| Skills.SubstringNotWord | job_scraper.py:71 | matching is substring containment, not whole words: the skill "java" matches every text starting with "Java", such as "JavaScript" |
| Recency.IsRecentJob | job_scraper.py:92-93 | definition: the age is at most `max_days_old` |
| Recency.RecencyBoundary | job_scraper.py:92-93 | the threshold is inclusive, one more day fails, and 999 fails any threshold below 999 |
| Recency.DigitRunEnd | job_scraper.py:81 | the end of the maximal run of digits from a position |
| Recency.SpaceRunEnd | job_scraper.py:81 | the end of the maximal run of whitespace from a position |
| Recency.NumberUnitAtIsRegexMatch | job_scraper.py:81 | the greedy scan matches at a position exactly when some split into digits, whitespace and unit does, and it captures the whole digit run |
| Recency.DigitRunEndIs | job_scraper.py:81 | any maximal digit run is the one the scan finds |
| Recency.SpaceRunEndIs | job_scraper.py:81 | any maximal whitespace run is the one the scan finds |
| Recency.NumberUnitAt | job_scraper.py:81 | definition: at the position, a digit, the whole digit run, the whole whitespace run after it, then the unit word |
| Recency.SearchFrom | job_scraper.py:81 | `re.search` finds the leftmost matching position, or reports none when no position matches |
| Recency.Captured | job_scraper.py:83 | definition: `int(m.group(1))` for a match at a position, the decimal value of the whole digit run there |
| Recency.NumberBefore | job_scraper.py:81-89 | definition: `Captured` at the position `re.search` reports, or none when it reports no match |
| Recency.SaysNow | job_scraper.py:77 | definition: some of "today", "just now", "minutes ago", "hours ago", "hour ago" is a substring of the lower-cased phrase |
| Recency.ParseDaysAgo | job_scraper.py:73-90 | the day count is never negative, and empty input gives 999 |
| Recency.ParseLowered | job_scraper.py:77-90 | the precedence chain after lower-casing never gives a negative count |
| Recency.UnitRule | job_scraper.py:81-90 | the unit rule (lines 81-90) never gives a negative count; its precedence is stated by `UnitRuleOrder` |
| Recency.UnitRuleOrder | job_scraper.py:81-90 | in the regular expression's terms: the leftmost day match gives its number; with no day match, the leftmost week match gives 7 times its number; with neither, the leftmost month match gives 30 times; with none of the three, 999. Where the numbers stand in the phrase plays no part |
| Recency.FirstMatchFound | job_scraper.py:81 | `re.search` reports the leftmost position where `(\d+)\s*unit` matches |
| Recency.NoMatchFound | job_scraper.py:81 | `re.search` returns `None` when no position matches |
| Recency.NumberBeforeDigitsThen | job_scraper.py:81-89 | for a number followed by digit-free text, the search finds that number exactly when the unit follows it |
| Recency.SaysNowAfterDigits | job_scraper.py:77 | digits in front never create or hide a now-word |
| Recency.NoNowWordIn | job_scraper.py:77 | a phrase lacking a letter of each now-word holds none of them |
| Recency.NoDigitsNoNumber | job_scraper.py:81-90 | text without digits never matches `(\d+)\s*unit` |
| Recency.ParseNumberPhrase | job_scraper.py:76-80 | a number followed by lower-case text with no now-word and no "yesterday" is read by the unit rule alone |
| Recency.QuietFromChars | job_scraper.py:77-80 | plain words lacking a letter of each signal word carry no signal |
| Recency.UnitRuleDay | job_scraper.py:81-83 | "N day..." gives N |
| Recency.UnitRuleWeek | job_scraper.py:84-86 | "N week..." gives 7N, since no "day" follows the number |
| Recency.UnitRuleMonth | job_scraper.py:87-89 | "N month..." gives 30N |
| Recency.DayPhrase | job_scraper.py:73-83 | a phrase "N day..." with no other signal reads as N |
| Recency.WeekPhrase | job_scraper.py:73-86 | a phrase "N week..." with no other signal reads as 7N |
| Recency.MonthPhrase | job_scraper.py:73-89 | a phrase "N month..." with no other signal reads as 30N |
| Recency.DaysAgoSuffix | job_scraper.py:77-80 | " days ago" holds no now-word, no "yesterday" and no digit |
| Recency.WeeksAgoSuffix | job_scraper.py:77-80 | " weeks ago" holds no now-word, no "yesterday" and no digit |
| Recency.MonthsAgoSuffix | job_scraper.py:77-80 | " months ago" holds no now-word, no "yesterday" and no digit |
| Recency.MonthAgoSuffix | job_scraper.py:77-80 | " month ago" holds no now-word, no "yesterday" and no digit |
| Recency.DaysAgoPhrase | job_scraper.py:81-83 | "<n> days ago" reads as n, for every n |
| Recency.WeeksAgoPhrase | job_scraper.py:84-86 | "<n> weeks ago" reads as 7n, for every n |
| Recency.MonthsAgoPhrase | job_scraper.py:87-89 | "<n> months ago" reads as 30n, for every n |
| Recency.MonthAgoPhrase | job_scraper.py:87-89 | "<n> month ago" reads as 30n, for every n |
| Recency.ThreeDaysAgo | job_scraper.py:81-83 | "3 days ago" reads as 3 |
| Recency.TwoWeeksAgo | job_scraper.py:84-86 | "2 weeks ago" reads as 14 |
| Recency.OneMonthAgo | job_scraper.py:87-89 | "1 month ago" reads as 30 |
| Recency.NowWordsLower | job_scraper.py:77 | the now-words are lower-case |
| Recency.NowWordWins | job_scraper.py:77-78 | a phrase ending in a now-word reads as 0, whatever precedes it, a day count included |
| Recency.NowIsZero | job_scraper.py:76-78 | a phrase whose lower-cased form contains any now-word anywhere reads as 0 |
| Recency.TodayIsZero | job_scraper.py:76-78 | "Today" reads as 0 |
| Recency.YesterdayIsOne | job_scraper.py:79-80 | "Yesterday" reads as 1 |
| Recency.YesterdayNoNowWord | job_scraper.py:77 | "yesterday" holds none of the now-words |
| Recency.RecentlyQuiet | job_scraper.py:77-80 | "recently" holds no now-word, no "yesterday" and no digit |
| Recency.RecentlyIsUnknown | job_scraper.py:90 | "Recently" reads as 999 |
| Recency.YesterdayWins | job_scraper.py:76-80 | a non-empty phrase that holds "yesterday" (after lower-casing) and no now-word reads as 1, whatever numbers and units it also holds |
| Recency.YesterdayBeatsDayCount | job_scraper.py:79-83 | "yesterday <n> days" reads as 1, not n, for every n |
| Recency.NoSignalIsUnknown | job_scraper.py:74-90 | a non-empty phrase with no digit, no now-word and no "yesterday" reads as 999 |
| Recency.DayCountBeatsEarlierWeeks | job_scraper.py:81-86 | "<m> weeks <n> days ago" reads as n for all m and n: the day count wins even when a week count comes first |
| Recency.ParseDaysAgoAsWritten | job_scraper.py:81 | the function as the file runs it succeeds only with 0, 1 or 999 |
| Recency.AsWrittenAgrees | job_scraper.py:73-80 | where the code as written returns, it agrees with the stated rule |
| Recency.AsWrittenFailsOnDaysAgo | job_scraper.py:81 | "<n> days ago" raises NameError as written, while the stated rule reads it as n |
| Store.Insert | job_scraper.py:59-67 | insert-or-ignore: the keys grow by the id, existing rows are untouched, and the new row is stored only for an absent id |
| Store.InsertExistingIsNoOp | job_scraper.py:66-67 | a duplicate id leaves the table unchanged |
| Store.InsertIdempotent | job_scraper.py:59-67 | a second insert of the same id changes nothing, whatever its row |
| Store.InsertCommutes | job_scraper.py:59-67 | inserts under different ids commute |
| Store.SeenJobStore.constructor | job_scraper.py:34-49 | `CREATE TABLE IF NOT EXISTS` keeps the rows already in the file |
| Store.SeenJobStore.IsJobSeen | job_scraper.py:55-57 | seen exactly when a row with that id exists |
| Store.SeenJobStore.MarkJobSeen | job_scraper.py:59-67 | the new table is the insert-or-ignore of the row; afterwards the id is seen and no id was removed |
| Adapters.Collect | job_scraper.py:105-123 | the kept records number at most the items |
| Adapters.CollectFromAll | job_scraper.py:105-123 | every kept record comes from some item |
| Adapters.CollectSnoc | job_scraper.py:116 | one more item appends its record when it is kept |
| Adapters.Kept | job_scraper.py:105-123 | the kept positions increase, lie within the items and list every kept item |
| Adapters.CollectIsKept | job_scraper.py:105-123 | the k-th record is the record of the k-th kept item: order-preserving and complete |
| Adapters.Take | job_scraper.py:211 | `[:cap]` is a prefix of at most cap items, and the whole list when shorter |
| Adapters.ReadablePrefix | job_scraper.py:105-125 | the entries processed before the first that raises |
| Adapters.ReadablePrefixIs | job_scraper.py:105-125 | a readable run ended by the end or a raising entry is the processed prefix |
| Adapters.Readables | job_scraper.py:105 | wraps values as readable entries, in order |
| Adapters.JoinWords | job_scraper.py:114 | definition: `' '.join(tags)`, "" for no tags |
| Adapters.RemotiveText | job_scraper.py:114 | definition: title, description and joined tags, separated by single spaces, missing fields as "" |
| Adapters.RemotiveRecord | job_scraper.py:106-123 | kept exactly when the age (999 if the date does not parse) passes recency and the title, description and tags match; the record's defaults are "N/A", "N/A" and "" |
| Adapters.RemotiveJobs | job_scraper.py:97-126 | a failed request gives no records; every record is from Remotive and recent |
| Adapters.ScrapeRemotive | job_scraper.py:97-126 | the loop returns exactly the specified records |
| Adapters.GitHubText | job_scraper.py:220 | definition: title, description and company, separated by single spaces, missing fields as "" |
| Adapters.GitHubRecord | job_scraper.py:212-229 | kept exactly when the age (999 if the date does not parse) passes recency and the title, description and company match |
| Adapters.GitHubJobs | job_scraper.py:202-232 | at most 20 records, none on failure, every record from GitHub Jobs and recent |
| Adapters.ScrapeGitHub | job_scraper.py:202-232 | the loop returns exactly the specified records |
| Adapters.FindFrom | job_scraper.py:402-403 | the leftmost occurrence of a separator at or after a position, or none |
| Adapters.WwrCompany | job_scraper.py:401-403 | the company is the title's text before its first " - ", or "N/A" without one |
| Adapters.WwrRecord | job_scraper.py:391-413 | kept exactly when the age (0 if the date does not parse) passes recency and the title matches |
| Adapters.WwrJobs | job_scraper.py:381-416 | at most 20 records, none on failure, every record from We Work Remotely and recent |
| Adapters.ScrapeWeWorkRemotely | job_scraper.py:381-416 | the loop returns exactly the specified records |
| Adapters.CardText | job_scraper.py:149 | definition: `f"{title} {company}"` of the stripped title and company |
| Adapters.ResolveLink | job_scraper.py:183 | a raw href defaults to ""; a prefixed link is base + href for a non-empty href and "" otherwise |
| Adapters.HtmlRecord | job_scraper.py:139-158 | a card is kept exactly when it has its required elements and the stripped title and company match; the record holds the stripped title, the stripped company or "N/A" without a company element, the resolved link, the site portal and age, and the date "Recently" |
| Adapters.HtmlJobs | job_scraper.py:129-163 | at most the site's cap of records, none on failure, all with the site's portal and age |
| Adapters.ScrapeHtml | job_scraper.py:129-163 | the loop returns exactly the specified records, for all six HTML sites |
| Adapters.RemotiveStopsAtUnreadable | job_scraper.py:124-126 | entries after one that raises never affect the result |
| Adapters.RemotiveUnknownDateDropped | job_scraper.py:110-113 | an unparseable Remotive date drops the entry under any threshold below 999 |
| Adapters.GitHubUnknownDateDropped | job_scraper.py:216-219 | an unparseable GitHub date drops the entry under any threshold below 999 |
| Adapters.WwrUnknownDateKept | job_scraper.py:397-400 | an unparseable RSS date counts as age 0 and a relevant item is kept |
| Adapters.GitHubIgnoresBeyondCap | job_scraper.py:211 | entries past the twentieth never affect the result |
| Adapters.WwrIgnoresBeyondCap | job_scraper.py:389 | items past the twentieth never affect the result |
| Adapters.HtmlIgnoresBeyondCap | job_scraper.py:138 | cards past the site's cap never affect the result |
| Adapters.GitHubEmittedPassed | job_scraper.py:211-229 | every GitHub record comes from one of the first twenty entries that passed both filters |
| Adapters.RemotiveEmittedPassed | job_scraper.py:105-123 | every Remotive record comes from an entry before any failure that passed both filters |
| Adapters.WwrCompanyBeforeFirstSeparator | job_scraper.py:401-403 | the company is the text before the first separator, whatever follows; hyphens inside the company ("Coca-Cola - Backend Engineer") are not a separator |
| Adapters.WwrCompanyWithoutSeparator | job_scraper.py:401-402 | a title without a space, hyphenated or not, has no separator and gives "N/A" |
| Adapters.GlassdoorLinks | job_scraper.py:183 | Glassdoor prefixes a non-empty href and drops an empty or missing one; Monster keeps the href raw |
| Pipeline.Flatten | job_scraper.py:439 | every scraper's records appear in the result |
| Pipeline.Ids | job_scraper.py:434 | every record's id is in the set |
| Pipeline.IdsFrom | job_scraper.py:434 | every id in the set comes from some record |
| Pipeline.IdsAppend | job_scraper.py:434 | the ids of two runs of records are the union of their ids |
| Pipeline.Ingest | job_scraper.py:433-437 | definition: the table after offering the records one after another, each an insert-or-ignore under its id |
| Pipeline.IngestGrows | job_scraper.py:433-437 | after a run the store holds the old ids plus the run's ids, and no old row changed |
| Pipeline.CountNew | job_scraper.py:432-437 | the new count is the number of the run's ids that were not stored before |
| Pipeline.CountNewStep | job_scraper.py:435-437 | one more id adds one to the count exactly when it is neither stored nor repeated |
| Pipeline.IngestAppend | job_scraper.py:430-437 | offering two runs in turn is offering their concatenation |
| Pipeline.IngestStored | job_scraper.py:435 | records whose ids are all stored leave the store unchanged |
| Pipeline.RerunAddsNothing | job_scraper.py:430-437 | a second run over the same records changes nothing and counts 0 |
| Pipeline.DuplicateAddsNothing | job_scraper.py:433-437 | a record repeated within a run adds nothing to the store or the count |
| Pipeline.FirstRecordStored | job_scraper.py:435-436 | the row stored for a new id is the first record that carries it |
| Pipeline.NewCounts | job_scraper.py:430-438 | one count per scraper |
| Pipeline.CountNewAppend | job_scraper.py:430-437 | counting in two parts, the second against the store the first left, counts the whole |
| Pipeline.UnseenSplit | job_scraper.py:435-437 | the unseen ids of a union split into those of the first part and the rest of the second |
| Pipeline.NewCountsTotal | job_scraper.py:430-440 | the per-scraper counts add up to the ids of the run that were not stored before |
| Pipeline.ScraperOutputs | job_scraper.py:424-429 | one output for each of the nine scrapers |
| Pipeline.JobScraperBot.constructor | job_scraper.py:18-31 | skills, age threshold (10 by default), digest and store are set from the configuration |
| Pipeline.JobScraperBot.OfferAll | job_scraper.py:432-437 | one scraper's records are offered in order; the store and new count are as specified |
| Pipeline.JobScraperBot.ProcessJobs | job_scraper.py:422-440 | returns the concatenation of all outputs; the store is the in-order ingest; every returned id is stored; the counts are as specified |
| Pipeline.JobScraperBot.Run | job_scraper.py:422-440 | `process_jobs` with the nine scrapers' outputs in their fixed order |

## Left out

- Network I/O is not modelled: `requests.get`, headers, timeouts and status checks. Each request is an input `Fetch`; `Failed` stands for a raised request, a status other than 200, or a body that does not decode, and gives no records.
- JSON and HTML/XML parsing (`r.json()`, BeautifulSoup) are not modelled. Adapters take decoded entries, located elements and RSS fields. A JSON key that holds `null` is not modelled: fields are optional only by absence.
- JSON entries that raise inside the loop are modelled as `Unreadable`; the loop ends and the records gathered so far are returned. The HTML per-card `except: continue` has no counterpart, because no modelled card step raises.
- The clock and `strptime` are not modelled. Each dated item carries its age in days as an input, or `None` when the date does not parse. An age may be negative for a date in the future, as the code allows.
- SQLite is not modelled: the engine, the SQL text, `commit` and the `notified_at` default timestamp. The table is a map from id to row.
- MD5 is not modelled. The digest is a parameter of type `string -> string`.
- Logging is not modelled. The per-scraper new count is only logged by the code; the model returns it as `newCounts`.
- Environment variables are not read: the Telegram settings, `CHECK_INTERVAL`, the dashboard credentials, and `int()` parsing of `MAX_DAYS_OLD`. The constructor takes the optional skills string and an optional integer threshold.
- `quote_plus` query building from `skills[:2]` / `skills[:3]` and the request URLs are not modelled.
- The Flask dashboard, basic authentication and template rendering are not modelled.
- The scrapers mentioned only in comments do not exist in the code and are not modelled.
- Text.Lower: lower-cases ASCII letters only; Python's `lower()` also maps non-ASCII letters.
- Recency.DigitRunEnd: `\d` is modelled as the ASCII digits only; Python's `\d` and `int()` also accept other Unicode decimal digits.
- Pipeline.JobScraperBot.Run: runs all nine scrapers before ingesting, whereas the code ingests after each scraper. The scrapers never read the store, so the result is the same.
- Ages may be negative for a date in the future, as the code computes them. The default for an unparseable date is 999 for Remotive and GitHub but 0 for We Work Remotely.
- Recency.UnitRule: its own contract says only that the count is never negative. The day-then-week-then-month precedence is the lemma `UnitRuleOrder`, kept apart so that the many phrase lemmas using `UnitRule` stay cheap to verify.

## Findings

| source | as written | input that shows it | evidently intended | confidence | as-written member | corrected member |
|---|---|---|---|---|---|---|
| job_scraper.py:81 | `re.search` is called but `re` is never imported (lines 1-9), so every phrase that gets past line 80 raises `NameError` | "3 days ago" | `import re`, so that "3 days ago" reads as 3 | high, not executed | Recency.ParseDaysAgoAsWritten, Recency.AsWrittenFailsOnDaysAgo | Recency.ParseDaysAgo, Recency.DaysAgoPhrase |
