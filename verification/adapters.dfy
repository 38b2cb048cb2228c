/**
 * The source adapters (`scrape_*`) over already-decoded input: each turns
 * the items of one response into normalised job records, keeping the
 * items that pass its filters, in order.
 */
module Adapters {
  import opened Wrappers
  import opened Text
  import opened Jobs
  import opened Skills
  import opened Recency

  /**
   * One request: `Failed` when it raised, answered with a status other than
   * 200 or could not be decoded (the adapter then returns no record), else
   * the decoded items in document order.
   */
  datatype Fetch<T> = Failed | Fetched(items: seq<T>)

  /**
   * A decoded JSON entry: `Unreadable` is one whose field access raises (an
   * entry that is not an object, tags that are not strings); the exception
   * leaves the loop and the records gathered so far are returned.
   */
  datatype Entry<T> = Readable(value: T) | Unreadable

  // ------------------------------------------------------- generic shape

  /** The records that `step` keeps, in item order. */
  function Collect<T>(step: T -> Option<JobRecord>, items: seq<T>): (out: seq<JobRecord>)
    ensures |out| <= |items|
  {
    if items == [] then []
    else
      var prefix := Collect(step, items[..|items| - 1]);
      match step(items[|items| - 1])
      case Some(r) => prefix + [r]
      case None => prefix
  }

  /** Appending one item appends its record, if it is kept. */
  lemma CollectSnoc<T>(step: T -> Option<JobRecord>, items: seq<T>, x: T)
    ensures Collect(step, items + [x])
         == Collect(step, items) + (if step(x).Some? then [step(x).value] else [])
  {
    assert (items + [x])[..|items|] == items;
  }

  /** A prefix one longer is the prefix and the next item. */
  lemma PrefixSnoc<T>(s: seq<T>, i: nat)
    requires i < |s|
    ensures s[..i + 1] == s[..i] + [s[i]]
  {
  }

  /** The positions of the kept items: increasing, and every kept item listed. */
  function Kept<T>(step: T -> Option<JobRecord>, items: seq<T>): (idx: seq<nat>)
    ensures forall k :: 0 <= k < |idx| ==> idx[k] < |items| && step(items[idx[k]]).Some?
    ensures forall k, l :: 0 <= k < l < |idx| ==> idx[k] < idx[l]
    ensures forall i :: 0 <= i < |items| && step(items[i]).Some? ==> i in idx
  {
    if items == [] then []
    else
      var prefix := Kept(step, items[..|items| - 1]);
      assert forall i :: 0 <= i < |items| - 1 ==> items[..|items| - 1][i] == items[i];
      if step(items[|items| - 1]).Some? then prefix + [|items| - 1] else prefix
  }

  /**
   * The output is the kept items' records, in order: the k-th record comes
   * from the k-th kept position.
   */
  lemma {:induction false} CollectIsKept<T>(step: T -> Option<JobRecord>, items: seq<T>)
    ensures |Collect(step, items)| == |Kept(step, items)|
    ensures forall k :: 0 <= k < |Kept(step, items)| ==>
              step(items[Kept(step, items)[k]]) == Some(Collect(step, items)[k])
  {
    if items != [] {
      var init := items[..|items| - 1];
      var x := items[|items| - 1];
      CollectIsKept(step, init);
      var out0, idx0 := Collect(step, init), Kept(step, init);
      assert forall i :: 0 <= i < |init| ==> init[i] == items[i];
      if step(x).Some? {
        assert Collect(step, items) == out0 + [step(x).value];
        assert Kept(step, items) == idx0 + [|items| - 1];
      } else {
        assert Collect(step, items) == out0;
        assert Kept(step, items) == idx0;
      }
    }
  }

  /** Every record comes from a kept item. */
  lemma CollectFromAll<T>(step: T -> Option<JobRecord>, items: seq<T>)
    ensures forall k :: 0 <= k < |Collect(step, items)| ==>
              exists i :: 0 <= i < |items| && step(items[i]) == Some(Collect(step, items)[k])
  {
    CollectIsKept(step, items);
    forall k | 0 <= k < |Collect(step, items)|
      ensures exists i :: 0 <= i < |items| && step(items[i]) == Some(Collect(step, items)[k])
    {
      var i := Kept(step, items)[k];
      assert step(items[i]) == Some(Collect(step, items)[k]);
    }
  }

  /** `items[:cap]`. */
  function Take<T>(items: seq<T>, cap: nat): (r: seq<T>)
    ensures |r| <= cap && |r| <= |items|
    ensures r == items[..|r|]
    ensures |items| <= cap ==> r == items
  {
    if |items| <= cap then items else items[..cap]
  }

  /** The entries read before the first one that raises. */
  function ReadablePrefix<T>(entries: seq<Entry<T>>): (vals: seq<T>)
    ensures |vals| <= |entries|
    ensures forall k :: 0 <= k < |vals| ==> entries[k] == Readable(vals[k])
    ensures |vals| == |entries| || entries[|vals|] == Unreadable
  {
    if entries == [] then []
    else
      match entries[0]
      case Unreadable => []
      case Readable(v) => [v] + ReadablePrefix(entries[1..])
  }

  /** A run of readable entries ended by the end or an unreadable one is the readable prefix. */
  lemma {:induction false} ReadablePrefixIs<T>(entries: seq<Entry<T>>, vals: seq<T>)
    requires |vals| <= |entries|
    requires forall k :: 0 <= k < |vals| ==> entries[k] == Readable(vals[k])
    requires |vals| == |entries| || entries[|vals|] == Unreadable
    ensures ReadablePrefix(entries) == vals
  {
    if vals != [] {
      ReadablePrefixIs(entries[1..], vals[1..]);
    }
  }

  // ------------------------------------------------------------ Remotive

  /** One entry of the Remotive `jobs` array; `None` is a missing key. */
  datatype RemotiveJob = RemotiveJob(
    title: Option<string>,
    description: Option<string>,
    tags: seq<string>,
    companyName: Option<string>,
    url: Option<string>,
    publicationDate: Option<string>,
    /** The age computed from `publication_date`; `None` when it does not parse. */
    daysAgo: Option<int>)

  /** `' '.join(words)`. */
  function JoinWords(words: seq<string>): string {
    if words == [] then "" else Join(words, ' ')
  }

  /** The text Remotive matches skills against: title, description and tags. */
  function RemotiveText(job: RemotiveJob): string {
    job.title.GetOr("") + " " + job.description.GetOr("") + " " + JoinWords(job.tags)
  }

  /** One iteration of the Remotive loop: age (999 when unknown), recency, then skills. */
  function RemotiveRecord(job: RemotiveJob, skills: seq<string>, maxDaysOld: int): (r: Option<JobRecord>)
    ensures r.Some? <==> IsRecentJob(job.daysAgo.GetOr(UnknownDays), maxDaysOld)
                         && MatchesSkills(RemotiveText(job), skills)
    ensures r.Some? ==> r.value == JobRecord(job.title.GetOr("N/A"), job.companyName.GetOr("N/A"),
                                             job.url.GetOr(""), "Remotive", job.publicationDate.GetOr(""),
                                             job.daysAgo.GetOr(UnknownDays))
  {
    var days := job.daysAgo.GetOr(UnknownDays);
    if !IsRecentJob(days, maxDaysOld) then None
    else if MatchesSkills(RemotiveText(job), skills) then
      Some(JobRecord(job.title.GetOr("N/A"), job.companyName.GetOr("N/A"), job.url.GetOr(""),
                     "Remotive", job.publicationDate.GetOr(""), days))
    else None
  }

  /** What `scrape_remotive` returns for one response. */
  function RemotiveJobs(fetch: Fetch<Entry<RemotiveJob>>, skills: seq<string>, maxDaysOld: int): (out: seq<JobRecord>)
    ensures fetch.Failed? ==> out == []
    ensures fetch.Fetched? ==> |out| <= |fetch.items|
    ensures forall k :: 0 <= k < |out| ==> out[k].portal == "Remotive" && IsRecentJob(out[k].daysAgo, maxDaysOld)
  {
    match fetch
    case Failed => []
    case Fetched(entries) =>
      var step := job => RemotiveRecord(job, skills, maxDaysOld);
      var examined := ReadablePrefix(entries);
      CollectFromAll(step, examined);
      Collect(step, examined)
  }

  /** `scrape_remotive` over a decoded response. */
  method ScrapeRemotive(fetch: Fetch<Entry<RemotiveJob>>, skills: seq<string>, maxDaysOld: int)
    returns (jobs: seq<JobRecord>)
    ensures jobs == RemotiveJobs(fetch, skills, maxDaysOld)
  {
    jobs := [];
    if fetch.Failed? {
      return;
    }
    var entries := fetch.items;
    ghost var step := (job: RemotiveJob) => RemotiveRecord(job, skills, maxDaysOld);
    ghost var read: seq<RemotiveJob> := [];
    var i := 0;
    while i < |entries| && entries[i].Readable?
      invariant 0 <= i <= |entries| && |read| == i
      invariant forall k :: 0 <= k < i ==> entries[k] == Readable(read[k])
      invariant jobs == Collect(step, read)
    {
      var job := entries[i].value;
      CollectSnoc(step, read, job);
      var daysAgo := job.daysAgo.GetOr(UnknownDays);
      if IsRecentJob(daysAgo, maxDaysOld) && MatchesSkills(RemotiveText(job), skills) {
        jobs := jobs + [JobRecord(job.title.GetOr("N/A"), job.companyName.GetOr("N/A"), job.url.GetOr(""),
                                  "Remotive", job.publicationDate.GetOr(""), daysAgo)];
      }
      read := read + [job];
      i := i + 1;
    }
    ReadablePrefixIs(entries, read);
  }

  // -------------------------------------------------------------- GitHub

  /** One entry of the GitHub Jobs array; `None` is a missing key. */
  datatype GitHubJob = GitHubJob(
    title: Option<string>,
    description: Option<string>,
    company: Option<string>,
    url: Option<string>,
    createdAt: Option<string>,
    /** The age computed from `created_at`; `None` when it does not parse. */
    daysAgo: Option<int>)

  /** The text GitHub Jobs matches skills against: title, description and company. */
  function GitHubText(job: GitHubJob): string {
    job.title.GetOr("") + " " + job.description.GetOr("") + " " + job.company.GetOr("")
  }

  /** One iteration of the GitHub loop: age (999 when unknown), recency, then skills. */
  function GitHubRecord(job: GitHubJob, skills: seq<string>, maxDaysOld: int): (r: Option<JobRecord>)
    ensures r.Some? <==> IsRecentJob(job.daysAgo.GetOr(UnknownDays), maxDaysOld)
                         && MatchesSkills(GitHubText(job), skills)
    ensures r.Some? ==> r.value == JobRecord(job.title.GetOr("N/A"), job.company.GetOr("N/A"),
                                             job.url.GetOr(""), "GitHub Jobs", job.createdAt.GetOr(""),
                                             job.daysAgo.GetOr(UnknownDays))
  {
    var days := job.daysAgo.GetOr(UnknownDays);
    if !IsRecentJob(days, maxDaysOld) then None
    else if MatchesSkills(GitHubText(job), skills) then
      Some(JobRecord(job.title.GetOr("N/A"), job.company.GetOr("N/A"), job.url.GetOr(""),
                     "GitHub Jobs", job.createdAt.GetOr(""), days))
    else None
  }

  /** How many GitHub entries are examined: `data[:20]`. */
  const GitHubCap: nat := 20

  /** What `scrape_github` returns for one response. */
  function GitHubJobs(fetch: Fetch<Entry<GitHubJob>>, skills: seq<string>, maxDaysOld: int): (out: seq<JobRecord>)
    ensures |out| <= GitHubCap
    ensures fetch.Failed? ==> out == []
    ensures forall k :: 0 <= k < |out| ==> out[k].portal == "GitHub Jobs" && IsRecentJob(out[k].daysAgo, maxDaysOld)
  {
    match fetch
    case Failed => []
    case Fetched(entries) =>
      var step := job => GitHubRecord(job, skills, maxDaysOld);
      var examined := ReadablePrefix(Take(entries, GitHubCap));
      CollectFromAll(step, examined);
      Collect(step, examined)
  }

  /** `scrape_github` over a decoded response. */
  method ScrapeGitHub(fetch: Fetch<Entry<GitHubJob>>, skills: seq<string>, maxDaysOld: int)
    returns (jobs: seq<JobRecord>)
    ensures jobs == GitHubJobs(fetch, skills, maxDaysOld)
  {
    jobs := [];
    if fetch.Failed? {
      return;
    }
    var entries := Take(fetch.items, GitHubCap);
    ghost var step := (job: GitHubJob) => GitHubRecord(job, skills, maxDaysOld);
    ghost var read: seq<GitHubJob> := [];
    var i := 0;
    while i < |entries| && entries[i].Readable?
      invariant 0 <= i <= |entries| && |read| == i
      invariant forall k :: 0 <= k < i ==> entries[k] == Readable(read[k])
      invariant jobs == Collect(step, read)
    {
      var job := entries[i].value;
      CollectSnoc(step, read, job);
      var daysAgo := job.daysAgo.GetOr(UnknownDays);
      if IsRecentJob(daysAgo, maxDaysOld) && MatchesSkills(GitHubText(job), skills) {
        jobs := jobs + [JobRecord(job.title.GetOr("N/A"), job.company.GetOr("N/A"), job.url.GetOr(""),
                                  "GitHub Jobs", job.createdAt.GetOr(""), daysAgo)];
      }
      read := read + [job];
      i := i + 1;
    }
    ReadablePrefixIs(entries, read);
  }

  // --------------------------------------------------- We Work Remotely

  /** One RSS `<item>`; `None` is a missing child element. */
  datatype RssItem = RssItem(
    title: Option<string>,
    link: Option<string>,
    pubDate: Option<string>,
    /** The age computed from `pubDate`; `None` when it does not parse. */
    daysAgo: Option<int>)

  /** The leftmost occurrence of `sep` at or after `from`. */
  function FindFrom(s: string, sep: string, from: nat): (r: Option<nat>)
    ensures r.Some? ==> from <= r.value && OccursAt(s, sep, r.value)
    ensures r.Some? ==> forall j :: from <= j < r.value ==> !OccursAt(s, sep, j)
    ensures r.None? ==> forall j :: from <= j ==> !OccursAt(s, sep, j)
    decreases |s| - from
  {
    if from + |sep| > |s| then None
    else if OccursAt(s, sep, from) then Some(from)
    else FindFrom(s, sep, from + 1)
  }

  /**
   * The company We Work Remotely takes from a title: the text before the
   * first " - " (`title.split(' - ')[0]`), or "N/A" when there is none.
   */
  function WwrCompany(title: string): (company: string)
    ensures Contains(title, " - ") ==>
              OccursAt(title, " - ", |company|) && company == title[..|company|]
              && forall j :: 0 <= j < |company| ==> !OccursAt(title, " - ", j)
    ensures !Contains(title, " - ") ==> company == "N/A"
  {
    match FindFrom(title, " - ", 0)
    case Some(i) => title[..i]
    case None => "N/A"
  }

  /** One iteration of the RSS loop: age (0 when unknown), recency, then skills on the title. */
  function WwrRecord(item: RssItem, skills: seq<string>, maxDaysOld: int): (r: Option<JobRecord>)
    ensures r.Some? <==> IsRecentJob(item.daysAgo.GetOr(0), maxDaysOld)
                         && MatchesSkills(item.title.GetOr("N/A"), skills)
    ensures r.Some? ==> r.value == JobRecord(item.title.GetOr("N/A"), WwrCompany(item.title.GetOr("N/A")),
                                             item.link.GetOr(""), "We Work Remotely", item.pubDate.GetOr(""),
                                             item.daysAgo.GetOr(0))
  {
    var title := item.title.GetOr("N/A");
    var days := item.daysAgo.GetOr(0);
    if !IsRecentJob(days, maxDaysOld) then None
    else if MatchesSkills(title, skills) then
      Some(JobRecord(title, WwrCompany(title), item.link.GetOr(""), "We Work Remotely", item.pubDate.GetOr(""), days))
    else None
  }

  /** How many RSS items are examined: `items[:20]`. */
  const WwrCap: nat := 20

  /** What `scrape_weworkremotely` returns for one response. */
  function WwrJobs(fetch: Fetch<RssItem>, skills: seq<string>, maxDaysOld: int): (out: seq<JobRecord>)
    ensures |out| <= WwrCap
    ensures fetch.Failed? ==> out == []
    ensures forall k :: 0 <= k < |out| ==> out[k].portal == "We Work Remotely" && IsRecentJob(out[k].daysAgo, maxDaysOld)
  {
    match fetch
    case Failed => []
    case Fetched(items) =>
      var step := item => WwrRecord(item, skills, maxDaysOld);
      var examined := Take(items, WwrCap);
      CollectFromAll(step, examined);
      Collect(step, examined)
  }

  /** `scrape_weworkremotely` over a decoded feed. */
  method ScrapeWeWorkRemotely(fetch: Fetch<RssItem>, skills: seq<string>, maxDaysOld: int)
    returns (jobs: seq<JobRecord>)
    ensures jobs == WwrJobs(fetch, skills, maxDaysOld)
  {
    jobs := [];
    if fetch.Failed? {
      return;
    }
    var items := Take(fetch.items, WwrCap);
    ghost var step := (item: RssItem) => WwrRecord(item, skills, maxDaysOld);
    for i := 0 to |items|
      invariant jobs == Collect(step, items[..i])
    {
      var item := items[i];
      PrefixSnoc(items, i);
      CollectSnoc(step, items[..i], item);
      var title := item.title.GetOr("N/A");
      var daysAgo := item.daysAgo.GetOr(0);
      if IsRecentJob(daysAgo, maxDaysOld) {
        var company := "N/A";
        var cut := FindFrom(title, " - ", 0);
        if cut.Some? {
          company := title[..cut.value];
        }
        if MatchesSkills(title, skills) {
          jobs := jobs + [JobRecord(title, company, item.link.GetOr(""), "We Work Remotely", item.pubDate.GetOr(""), daysAgo)];
        }
      }
    }
    assert items[..|items|] == items;
  }

  // ------------------------------------------------------------- HTML

  /** A located element: its text and its `href` attribute, if any. */
  datatype Element = Element(text: string, href: Option<string>)

  /** One job card: the title, company and link elements the selectors found. */
  datatype Card = Card(title: Option<Element>, company: Option<Element>, link: Option<Element>)

  /** How a site turns an `href` into the stored link. */
  datatype LinkRule =
    | Raw                       // `elem.get('href', '')`
    | Prefixed(base: string)    // `base + elem.get('href', '') if elem.get('href') else ''`

  /**
   * One HTML job site: its portal name, how many cards are examined, the
   * age it assumes, whether the link is the title's own `href` (otherwise
   * a separate link element is required), and how the link is resolved.
   */
  datatype HtmlSite = HtmlSite(portal: string, cap: nat, daysAgo: int, linkFromTitle: bool, rule: LinkRule)

  const LinkedIn: HtmlSite := HtmlSite("LinkedIn", 20, 1, false, Raw)
  const Glassdoor: HtmlSite := HtmlSite("Glassdoor", 20, 3, true, Prefixed("https://www.glassdoor.com"))
  const AngelList: HtmlSite := HtmlSite("AngelList", 15, 2, false, Prefixed("https://angel.co"))
  const Monster: HtmlSite := HtmlSite("Monster", 15, 4, false, Raw)
  const Dice: HtmlSite := HtmlSite("Dice", 15, 3, true, Raw)
  const FlexJobs: HtmlSite := HtmlSite("FlexJobs", 15, 2, true, Prefixed("https://www.flexjobs.com"))

  /** The stored link for an anchor's `href`. */
  function ResolveLink(rule: LinkRule, href: Option<string>): (link: string)
    ensures rule.Raw? ==> link == href.GetOr("")
    ensures rule.Prefixed? ==> (link == "" <==> href.None? || href.value == "")
    ensures rule.Prefixed? && href.Some? && href.value != "" ==>
              |link| == |rule.base| + |href.value| && link[..|rule.base|] == rule.base && link[|rule.base|..] == href.value
  {
    match rule
    case Raw => href.GetOr("")
    case Prefixed(base) => if href.Some? && href.value != "" then base + href.value else ""
  }

  /** The text HTML sites match skills against: stripped title and company. */
  function CardText(title: string, company: string): string {
    title + " " + company
  }

  /**
   * One iteration of an HTML site's loop: a card needs its title element
   * (and its link element where the link is separate); company falls back
   * to "N/A"; the age is the site's constant and there is no recency check.
   */
  function HtmlRecord(site: HtmlSite, card: Card, skills: seq<string>): (r: Option<JobRecord>)
    ensures r.Some? <==> card.title.Some? && (site.linkFromTitle || card.link.Some?)
                         && MatchesSkills(CardText(Strip(card.title.value.text),
                                                   if card.company.Some? then Strip(card.company.value.text) else "N/A"),
                                          skills)
    ensures r.Some? ==> r.value.portal == site.portal && r.value.daysAgo == site.daysAgo
                        && r.value.postedDate == "Recently" && r.value.title == Strip(card.title.value.text)
    ensures r.Some? ==> r.value.company == (if card.company.Some? then Strip(card.company.value.text) else "N/A")
    ensures r.Some? ==> r.value.link == ResolveLink(site.rule, if site.linkFromTitle then card.title.value.href else card.link.value.href)
  {
    if card.title.None? || (!site.linkFromTitle && card.link.None?) then None
    else
      var title := Strip(card.title.value.text);
      var company := if card.company.Some? then Strip(card.company.value.text) else "N/A";
      var anchor := if site.linkFromTitle then card.title.value else card.link.value;
      if MatchesSkills(CardText(title, company), skills) then
        Some(JobRecord(title, company, ResolveLink(site.rule, anchor.href), site.portal, "Recently", site.daysAgo))
      else None
  }

  /** What an HTML `scrape_*` returns for one page. */
  function HtmlJobs(site: HtmlSite, fetch: Fetch<Card>, skills: seq<string>): (out: seq<JobRecord>)
    ensures |out| <= site.cap
    ensures fetch.Failed? ==> out == []
    ensures forall k :: 0 <= k < |out| ==> out[k].portal == site.portal && out[k].daysAgo == site.daysAgo
  {
    match fetch
    case Failed => []
    case Fetched(cards) =>
      var step := card => HtmlRecord(site, card, skills);
      var examined := Take(cards, site.cap);
      CollectFromAll(step, examined);
      Collect(step, examined)
  }

  /** An HTML `scrape_*` (LinkedIn, Glassdoor, AngelList, Monster, Dice, FlexJobs) over a parsed page. */
  method ScrapeHtml(site: HtmlSite, fetch: Fetch<Card>, skills: seq<string>) returns (jobs: seq<JobRecord>)
    ensures jobs == HtmlJobs(site, fetch, skills)
  {
    jobs := [];
    if fetch.Failed? {
      return;
    }
    var cards := Take(fetch.items, site.cap);
    ghost var step := (card: Card) => HtmlRecord(site, card, skills);
    for i := 0 to |cards|
      invariant jobs == Collect(step, cards[..i])
    {
      var card := cards[i];
      PrefixSnoc(cards, i);
      CollectSnoc(step, cards[..i], card);
      if card.title.Some? && (site.linkFromTitle || card.link.Some?) {
        var title := Strip(card.title.value.text);
        var company := if card.company.Some? then Strip(card.company.value.text) else "N/A";
        var anchor := if site.linkFromTitle then card.title.value else card.link.value;
        var link := ResolveLink(site.rule, anchor.href);
        if MatchesSkills(CardText(title, company), skills) {
          assert step(card) == Some(JobRecord(title, company, link, site.portal, "Recently", site.daysAgo));
          jobs := jobs + [JobRecord(title, company, link, site.portal, "Recently", site.daysAgo)];
        } else {
          assert step(card) == None;
        }
      } else {
        assert step(card) == None;
      }
    }
    assert cards[..|cards|] == cards;
  }

  // ---------------------------------------------------------- properties

  /** Entries after one that raises are never looked at: the loop has already left. */
  lemma {:induction false} RemotiveStopsAtUnreadable(read: seq<RemotiveJob>, rest: seq<Entry<RemotiveJob>>,
                                                    skills: seq<string>, maxDaysOld: int)
    ensures RemotiveJobs(Fetched(Readables(read) + [Unreadable] + rest), skills, maxDaysOld)
         == RemotiveJobs(Fetched(Readables(read)), skills, maxDaysOld)
  {
    var entries := Readables(read) + [Unreadable] + rest;
    ReadablePrefixIs(entries, read);
    ReadablePrefixIs(Readables(read), read);
  }

  /** The entries `Readable(v)` for each value, in order. */
  function Readables<T>(vals: seq<T>): (entries: seq<Entry<T>>)
    ensures |entries| == |vals|
    ensures forall k :: 0 <= k < |vals| ==> entries[k] == Readable(vals[k])
  {
    if vals == [] then [] else [Readable(vals[0])] + Readables(vals[1..])
  }

  /** A Remotive entry whose date does not parse is too old for any threshold below 999. */
  lemma RemotiveUnknownDateDropped(job: RemotiveJob, skills: seq<string>, maxDaysOld: int)
    requires job.daysAgo.None? && maxDaysOld < UnknownDays
    ensures RemotiveRecord(job, skills, maxDaysOld) == None
  {
  }

  /** A GitHub entry whose date does not parse is too old for any threshold below 999. */
  lemma GitHubUnknownDateDropped(job: GitHubJob, skills: seq<string>, maxDaysOld: int)
    requires job.daysAgo.None? && maxDaysOld < UnknownDays
    ensures GitHubRecord(job, skills, maxDaysOld) == None
  {
  }

  /** An RSS item whose date does not parse counts as posted today and is kept when relevant. */
  lemma WwrUnknownDateKept(item: RssItem, skills: seq<string>, maxDaysOld: int)
    requires item.daysAgo.None? && 0 <= maxDaysOld
    requires MatchesSkills(item.title.GetOr("N/A"), skills)
    ensures WwrRecord(item, skills, maxDaysOld).Some?
    ensures WwrRecord(item, skills, maxDaysOld).value.daysAgo == 0
  {
  }

  /** GitHub entries past the twentieth never affect the result. */
  lemma GitHubIgnoresBeyondCap(entries: seq<Entry<GitHubJob>>, skills: seq<string>, maxDaysOld: int)
    requires |entries| >= GitHubCap
    ensures GitHubJobs(Fetched(entries), skills, maxDaysOld) == GitHubJobs(Fetched(entries[..GitHubCap]), skills, maxDaysOld)
  {
    assert Take(entries, GitHubCap) == Take(entries[..GitHubCap], GitHubCap);
  }

  /** RSS items past the twentieth never affect the result. */
  lemma WwrIgnoresBeyondCap(items: seq<RssItem>, skills: seq<string>, maxDaysOld: int)
    requires |items| >= WwrCap
    ensures WwrJobs(Fetched(items), skills, maxDaysOld) == WwrJobs(Fetched(items[..WwrCap]), skills, maxDaysOld)
  {
    assert Take(items, WwrCap) == Take(items[..WwrCap], WwrCap);
  }

  /** Cards past a site's cap never affect the result. */
  lemma HtmlIgnoresBeyondCap(site: HtmlSite, cards: seq<Card>, skills: seq<string>)
    requires |cards| >= site.cap
    ensures HtmlJobs(site, Fetched(cards), skills) == HtmlJobs(site, Fetched(cards[..site.cap]), skills)
  {
    assert Take(cards, site.cap) == Take(cards[..site.cap], site.cap);
  }

  /** Every GitHub record comes from one of the first twenty entries that passed both filters. */
  lemma GitHubEmittedPassed(entries: seq<Entry<GitHubJob>>, skills: seq<string>, maxDaysOld: int, k: nat)
    requires k < |GitHubJobs(Fetched(entries), skills, maxDaysOld)|
    ensures exists i :: 0 <= i < |entries| && i < GitHubCap && entries[i].Readable?
              && IsRecentJob(entries[i].value.daysAgo.GetOr(UnknownDays), maxDaysOld)
              && MatchesSkills(GitHubText(entries[i].value), skills)
              && GitHubRecord(entries[i].value, skills, maxDaysOld) == Some(GitHubJobs(Fetched(entries), skills, maxDaysOld)[k])
  {
    var step := job => GitHubRecord(job, skills, maxDaysOld);
    var read := ReadablePrefix(Take(entries, GitHubCap));
    CollectIsKept(step, read);
    var i := Kept(step, read)[k];
    assert GitHubRecord(read[i], skills, maxDaysOld) == Some(GitHubJobs(Fetched(entries), skills, maxDaysOld)[k]);
    assert entries[i] == Take(entries, GitHubCap)[i];
  }

  /** Every Remotive record comes from an entry read before any failure that passed both filters. */
  lemma RemotiveEmittedPassed(entries: seq<Entry<RemotiveJob>>, skills: seq<string>, maxDaysOld: int, k: nat)
    requires k < |RemotiveJobs(Fetched(entries), skills, maxDaysOld)|
    ensures exists i :: 0 <= i < |entries| && entries[i].Readable?
              && (forall j :: 0 <= j < i ==> entries[j].Readable?)
              && IsRecentJob(entries[i].value.daysAgo.GetOr(UnknownDays), maxDaysOld)
              && MatchesSkills(RemotiveText(entries[i].value), skills)
              && RemotiveRecord(entries[i].value, skills, maxDaysOld) == Some(RemotiveJobs(Fetched(entries), skills, maxDaysOld)[k])
  {
    var step := job => RemotiveRecord(job, skills, maxDaysOld);
    var read := ReadablePrefix(entries);
    CollectIsKept(step, read);
    var i := Kept(step, read)[k];
    assert RemotiveRecord(read[i], skills, maxDaysOld) == Some(RemotiveJobs(Fetched(entries), skills, maxDaysOld)[k]);
    assert entries[i] == Readable(read[i]);
  }

  /**
   * The WWR company is the part before the first separator, whatever
   * follows it (more separators included); hyphens inside the company, as
   * in "Coca-Cola - Backend Engineer", do not count as a separator.
   */
  lemma WwrCompanyBeforeFirstSeparator(company: string, rest: string)
    requires !Contains(company + " -", " - ")
    ensures WwrCompany(company + " - " + rest) == company
  {
    var t := company + " - " + rest;
    var head := company + " -";
    assert t[|company|..|company| + 3] == " - ";
    assert OccursAt(t, " - ", |company|);
    forall j | 0 <= j < |company| ensures !OccursAt(t, " - ", j) {
      assert !OccursAt(head, " - ", j);
      assert t[j..j + 3] == head[j..j + 3];
    }
    var c := WwrCompany(t);
    assert |c| == |company|;
    assert c == t[..|company|];
  }

  /** A title without a space, hyphenated or not, has no separator and so no company. */
  lemma WwrCompanyWithoutSeparator(title: string)
    requires ' ' !in title
    ensures WwrCompany(title) == "N/A"
  {
    MissingCharNotContained(title, " - ", ' ');
  }

  /** Prefixed links: a present, non-empty href is appended to the base; otherwise the link is empty. */
  lemma GlassdoorLinks()
    ensures ResolveLink(Glassdoor.rule, Some("/job/1")) == "https://www.glassdoor.com/job/1"
    ensures ResolveLink(Glassdoor.rule, Some("")) == ""
    ensures ResolveLink(Glassdoor.rule, None) == ""
    ensures ResolveLink(Monster.rule, Some("/job/1")) == "/job/1"
  {
  }
}
