/**
 * `process_jobs`: every scraper in a fixed order, each record keyed by its
 * id and inserted into the seen-job store when new, with a count of the new
 * records per scraper; the result is every scraper's output, concatenated.
 */
module Pipeline {
  import opened Wrappers
  import opened Jobs
  import opened Store
  import opened Skills
  import opened Adapters

  /** The outputs of several scrapers, one after another. */
  function Flatten(outputs: seq<seq<JobRecord>>): (all: seq<JobRecord>)
    ensures forall s :: 0 <= s < |outputs| ==> multiset(outputs[s]) <= multiset(all)
  {
    if outputs == [] then []
    else
      var init := outputs[..|outputs| - 1];
      assert forall s :: 0 <= s < |init| ==> init[s] == outputs[s];
      Flatten(init) + outputs[|outputs| - 1]
  }

  /** The ids of some records. */
  function Ids(digest: Digest, jobs: seq<JobRecord>): (ids: set<string>)
    ensures forall k :: 0 <= k < |jobs| ==> RecordId(digest, jobs[k]) in ids
  {
    if jobs == [] then {}
    else
      var init := jobs[..|jobs| - 1];
      assert forall k :: 0 <= k < |init| ==> init[k] == jobs[k];
      Ids(digest, init) + {RecordId(digest, jobs[|jobs| - 1])}
  }

  /** Every id comes from some record. */
  lemma {:induction false} IdsFrom(digest: Digest, jobs: seq<JobRecord>, x: string)
    requires x in Ids(digest, jobs)
    ensures exists k :: 0 <= k < |jobs| && RecordId(digest, jobs[k]) == x
  {
    var init := jobs[..|jobs| - 1];
    if x != RecordId(digest, jobs[|jobs| - 1]) {
      IdsFrom(digest, init, x);
      var k :| 0 <= k < |init| && RecordId(digest, init[k]) == x;
      assert init[k] == jobs[k];
    }
  }

  /** The ids of two runs of records together are the ids of each. */
  lemma IdsAppend(digest: Digest, a: seq<JobRecord>, b: seq<JobRecord>)
    ensures Ids(digest, a + b) == Ids(digest, a) + Ids(digest, b)
  {
    var ab := a + b;
    forall x | x in Ids(digest, ab) ensures x in Ids(digest, a) + Ids(digest, b) {
      IdsFrom(digest, ab, x);
      var k :| 0 <= k < |ab| && RecordId(digest, ab[k]) == x;
      if k >= |a| {
        assert ab[k] == b[k - |a|];
      }
    }
    forall x | x in Ids(digest, a) + Ids(digest, b) ensures x in Ids(digest, ab) {
      if x in Ids(digest, a) {
        IdsFrom(digest, a, x);
        var k :| 0 <= k < |a| && RecordId(digest, a[k]) == x;
        assert ab[k] == a[k];
      } else {
        IdsFrom(digest, b, x);
        var k :| 0 <= k < |b| && RecordId(digest, b[k]) == x;
        assert ab[|a| + k] == b[k];
      }
    }
  }

  /**
   * The store after the records are offered one by one in order: a record
   * is inserted under its id, or ignored when that id is already stored.
   */
  function Ingest(digest: Digest, rows: map<string, JobRecord>, jobs: seq<JobRecord>): map<string, JobRecord> {
    if jobs == [] then rows
    else
      var last := jobs[|jobs| - 1];
      Insert(Ingest(digest, rows, jobs[..|jobs| - 1]), RecordId(digest, last), last)
  }

  /**
   * The store only grows: afterwards it holds the earlier ids and the
   * records' ids, and every earlier row is unchanged.
   */
  lemma {:induction false} IngestGrows(digest: Digest, rows: map<string, JobRecord>, jobs: seq<JobRecord>)
    ensures Ingest(digest, rows, jobs).Keys == rows.Keys + Ids(digest, jobs)
    ensures forall id :: id in rows ==> Ingest(digest, rows, jobs)[id] == rows[id]
  {
    if jobs != [] {
      var init := jobs[..|jobs| - 1];
      var last := jobs[|jobs| - 1];
      IngestGrows(digest, rows, init);
      var before := Ingest(digest, rows, init);
      assert Ingest(digest, rows, jobs) == Insert(before, RecordId(digest, last), last);
      assert Ids(digest, jobs) == Ids(digest, init) + {RecordId(digest, last)};
    }
  }

  /** How many of the records were new, each judged against the store as it was when reached. */
  function CountNew(digest: Digest, rows: map<string, JobRecord>, jobs: seq<JobRecord>): (n: nat)
    ensures n == |Ids(digest, jobs) - rows.Keys|
  {
    if jobs == [] then 0
    else
      var init := jobs[..|jobs| - 1];
      var id := RecordId(digest, jobs[|jobs| - 1]);
      var before := Ingest(digest, rows, init);
      IngestGrows(digest, rows, init);
      CountNewStep(Ids(digest, init), rows.Keys, id);
      CountNew(digest, rows, init) + (if id in before then 0 else 1)
  }

  /** One more id grows the unseen ids by one exactly when it is neither stored nor repeated. */
  lemma CountNewStep(seen: set<string>, stored: set<string>, id: string)
    ensures |(seen + {id}) - stored| == |seen - stored| + (if id in stored + seen then 0 else 1)
  {
    if id in stored + seen {
      assert (seen + {id}) - stored == seen - stored;
    } else {
      assert (seen + {id}) - stored == (seen - stored) + {id};
    }
  }

  /** Offering `a` then `b` is offering `a + b`. */
  lemma {:induction false} IngestAppend(digest: Digest, rows: map<string, JobRecord>, a: seq<JobRecord>, b: seq<JobRecord>)
    ensures Ingest(digest, Ingest(digest, rows, a), b) == Ingest(digest, rows, a + b)
    decreases |b|
  {
    if b == [] {
      assert a + b == a;
    } else {
      var init := b[..|b| - 1];
      IngestAppend(digest, rows, a, init);
      assert (a + b)[..|a + b| - 1] == a + init;
      assert (a + b)[|a + b| - 1] == b[|b| - 1];
    }
  }

  /** Records whose ids are all stored leave the store as it is. */
  lemma {:induction false} IngestStored(digest: Digest, rows: map<string, JobRecord>, jobs: seq<JobRecord>)
    requires Ids(digest, jobs) <= rows.Keys
    ensures Ingest(digest, rows, jobs) == rows
  {
    if jobs != [] {
      var init := jobs[..|jobs| - 1];
      assert Ids(digest, init) <= Ids(digest, jobs);
      IngestStored(digest, rows, init);
    }
  }

  /** Running the same records again changes nothing and finds nothing new. */
  lemma RerunAddsNothing(digest: Digest, rows: map<string, JobRecord>, jobs: seq<JobRecord>)
    ensures Ingest(digest, Ingest(digest, rows, jobs), jobs) == Ingest(digest, rows, jobs)
    ensures CountNew(digest, Ingest(digest, rows, jobs), jobs) == 0
  {
    IngestGrows(digest, rows, jobs);
    IngestStored(digest, Ingest(digest, rows, jobs), jobs);
    assert Ids(digest, jobs) - Ingest(digest, rows, jobs).Keys == {};
  }

  /** A record repeated later in a run adds nothing. */
  lemma DuplicateAddsNothing(digest: Digest, rows: map<string, JobRecord>, jobs: seq<JobRecord>, k: nat)
    requires k < |jobs|
    ensures CountNew(digest, rows, jobs + [jobs[k]]) == CountNew(digest, rows, jobs)
    ensures Ingest(digest, rows, jobs + [jobs[k]]) == Ingest(digest, rows, jobs)
  {
    var x := jobs[k];
    IngestGrows(digest, rows, jobs);
    assert RecordId(digest, x) in Ingest(digest, rows, jobs);
    assert (jobs + [x])[..|jobs|] == jobs;
    assert Ingest(digest, rows, jobs + [x]) == Insert(Ingest(digest, rows, jobs), RecordId(digest, x), x);
  }

  /**
   * The row stored for a new id is the first record that carries it; later
   * records with the same id are ignored.
   */
  lemma {:induction false} FirstRecordStored(digest: Digest, rows: map<string, JobRecord>, jobs: seq<JobRecord>, i: nat)
    requires i < |jobs| && RecordId(digest, jobs[i]) !in rows
    requires forall j :: 0 <= j < i ==> RecordId(digest, jobs[j]) != RecordId(digest, jobs[i])
    ensures RecordId(digest, jobs[i]) in Ingest(digest, rows, jobs)
    ensures Ingest(digest, rows, jobs)[RecordId(digest, jobs[i])] == jobs[i]
  {
    var init := jobs[..|jobs| - 1];
    var id := RecordId(digest, jobs[i]);
    IngestGrows(digest, rows, init);
    if i == |jobs| - 1 {
      assert id !in Ids(digest, init) by {
        forall x | x in Ids(digest, init) ensures x != id {
          IdsFrom(digest, init, x);
          var k :| 0 <= k < |init| && RecordId(digest, init[k]) == x;
          assert init[k] == jobs[k];
        }
      }
    } else {
      assert init[i] == jobs[i];
      forall j | 0 <= j < i ensures RecordId(digest, init[j]) != id {
        assert init[j] == jobs[j];
      }
      FirstRecordStored(digest, rows, init, i);
      assert id in Ingest(digest, rows, init);
    }
  }

  /** The per-scraper new counts, each judged against the store the earlier scrapers left. */
  function NewCounts(digest: Digest, rows: map<string, JobRecord>, outputs: seq<seq<JobRecord>>): (counts: seq<nat>)
    ensures |counts| == |outputs|
  {
    if outputs == [] then []
    else
      var init := outputs[..|outputs| - 1];
      NewCounts(digest, rows, init) + [CountNew(digest, Ingest(digest, rows, Flatten(init)), outputs[|outputs| - 1])]
  }

  /** Extending a prefix of the outputs by one scraper's records. */
  lemma PrefixStep(digest: Digest, rows: map<string, JobRecord>, outputs: seq<seq<JobRecord>>, s: nat)
    requires s < |outputs|
    ensures Flatten(outputs[..s + 1]) == Flatten(outputs[..s]) + outputs[s]
    ensures NewCounts(digest, rows, outputs[..s + 1])
         == NewCounts(digest, rows, outputs[..s]) + [CountNew(digest, Ingest(digest, rows, Flatten(outputs[..s])), outputs[s])]
  {
    assert outputs[..s + 1][..s] == outputs[..s];
  }

  /** The sum of some counts. */
  function Sum(xs: seq<nat>): nat {
    if xs == [] then 0 else Sum(xs[..|xs| - 1]) + xs[|xs| - 1]
  }

  /** Counting new records in two parts counts the unseen ids of the whole. */
  lemma CountNewAppend(digest: Digest, rows: map<string, JobRecord>, a: seq<JobRecord>, b: seq<JobRecord>)
    ensures CountNew(digest, rows, a) + CountNew(digest, Ingest(digest, rows, a), b) == CountNew(digest, rows, a + b)
  {
    IdsAppend(digest, a, b);
    IngestGrows(digest, rows, a);
    UnseenSplit(Ids(digest, a), Ids(digest, b), rows.Keys);
  }

  /** The unseen ids of a union: those of the first part, then those of the second not already counted. */
  lemma UnseenSplit(x: set<string>, y: set<string>, stored: set<string>)
    ensures |(x + y) - stored| == |x - stored| + |y - (stored + x)|
  {
    var A := x - stored;
    var B := y - (stored + x);
    assert A * B == {};
    assert (x + y) - stored == A + B;
  }

  /** Over a whole run the new counts add up to the ids that were not stored before. */
  lemma {:induction false} NewCountsTotal(digest: Digest, rows: map<string, JobRecord>, outputs: seq<seq<JobRecord>>)
    ensures Sum(NewCounts(digest, rows, outputs)) == |Ids(digest, Flatten(outputs)) - rows.Keys|
  {
    if outputs != [] {
      var init := outputs[..|outputs| - 1];
      NewCountsTotal(digest, rows, init);
      CountNewAppend(digest, rows, Flatten(init), outputs[|outputs| - 1]);
      var counts := NewCounts(digest, rows, outputs);
      assert counts[..|counts| - 1] == NewCounts(digest, rows, init);
    }
  }

  /** Decoded responses for the nine scrapers. */
  datatype Responses = Responses(
    remotive: Fetch<Entry<RemotiveJob>>,
    linkedin: Fetch<Card>,
    glassdoor: Fetch<Card>,
    github: Fetch<Entry<GitHubJob>>,
    angelco: Fetch<Card>,
    monster: Fetch<Card>,
    dice: Fetch<Card>,
    flexjobs: Fetch<Card>,
    weworkremotely: Fetch<RssItem>)

  /** Every scraper's output, in the order `process_jobs` lists the scrapers. */
  function ScraperOutputs(responses: Responses, skills: seq<string>, maxDaysOld: int): (outputs: seq<seq<JobRecord>>)
    ensures |outputs| == 9
  {
    [ RemotiveJobs(responses.remotive, skills, maxDaysOld),
      HtmlJobs(LinkedIn, responses.linkedin, skills),
      HtmlJobs(Glassdoor, responses.glassdoor, skills),
      GitHubJobs(responses.github, skills, maxDaysOld),
      HtmlJobs(AngelList, responses.angelco, skills),
      HtmlJobs(Monster, responses.monster, skills),
      HtmlJobs(Dice, responses.dice, skills),
      HtmlJobs(FlexJobs, responses.flexjobs, skills),
      WwrJobs(responses.weworkremotely, skills, maxDaysOld) ]
  }

  /** `JobScraperBot`: its configuration and its seen-job store. */
  class JobScraperBot {
    /** The skill list read at construction. */
    const skills: seq<string>
    /** `MAX_DAYS_OLD`, 10 when unset. */
    const maxDaysOld: int
    /** The digest behind `generate_job_id`. */
    const digest: Digest
    /** The `seen_jobs` table. */
    const store: SeenJobStore

    /**
     * The constructor: the skills from `JOB_SKILLS` (or the default), the
     * age threshold from `MAX_DAYS_OLD` (or 10), and the store over the rows
     * the database file already holds.
     */
    constructor(jobSkills: Option<string>, maxDaysOldSetting: Option<int>, digest: Digest,
                existing: map<string, JobRecord>)
      ensures skills == ParseSkills(jobSkills)
      ensures maxDaysOld == maxDaysOldSetting.GetOr(10)
      ensures this.digest == digest
      ensures fresh(store) && store.rows == existing
    {
      skills := ParseSkills(jobSkills);
      maxDaysOld := maxDaysOldSetting.GetOr(10);
      this.digest := digest;
      store := new SeenJobStore(existing);
    }

    /**
     * The inner loop of `process_jobs` for one scraper's records: each id is
     * looked up, inserted when unseen, and the new ones are counted.
     */
    method OfferAll(jobs: seq<JobRecord>) returns (newCount: nat)
      modifies store
      ensures store.rows == Ingest(digest, old(store.rows), jobs)
      ensures newCount == CountNew(digest, old(store.rows), jobs)
    {
      newCount := 0;
      ghost var rows0 := store.rows;
      for i := 0 to |jobs|
        invariant store.rows == Ingest(digest, rows0, jobs[..i])
        invariant newCount == CountNew(digest, rows0, jobs[..i])
      {
        var job := jobs[i];
        var id := GenerateJobId(digest, job.title, job.company, job.link);
        var seen := store.IsJobSeen(id);
        if !seen {
          store.MarkJobSeen(id, job.title, job.company, job.link, job.portal, job.postedDate, job.daysAgo);
          newCount := newCount + 1;
        }
        assert jobs[..i + 1][..i] == jobs[..i];
      }
      assert jobs[..|jobs|] == jobs;
    }

    /**
     * `process_jobs` over the scrapers' outputs: every record is offered to
     * the store in order, and each scraper's new records are counted.
     */
    method ProcessJobs(outputs: seq<seq<JobRecord>>) returns (allJobs: seq<JobRecord>, newCounts: seq<nat>)
      modifies store
      ensures allJobs == Flatten(outputs)
      ensures store.rows == Ingest(digest, old(store.rows), allJobs)
      ensures newCounts == NewCounts(digest, old(store.rows), outputs)
      ensures Ids(digest, allJobs) <= store.rows.Keys
    {
      allJobs := [];
      newCounts := [];
      ghost var rows0 := store.rows;
      for s := 0 to |outputs|
        invariant allJobs == Flatten(outputs[..s])
        invariant store.rows == Ingest(digest, rows0, allJobs)
        invariant newCounts == NewCounts(digest, rows0, outputs[..s])
      {
        var jobs := outputs[s];
        var newCount := OfferAll(jobs);
        IngestAppend(digest, rows0, allJobs, jobs);
        PrefixStep(digest, rows0, outputs, s);
        newCounts := newCounts + [newCount];
        allJobs := allJobs + jobs;
      }
      assert outputs[..|outputs|] == outputs;
      IngestGrows(digest, rows0, allJobs);
    }

    /**
     * One dashboard refresh: the nine scrapers in their fixed order, then
     * `process_jobs` over what they returned. The scrapers never read the
     * store, so collecting their outputs first changes nothing.
     */
    method Run(responses: Responses) returns (allJobs: seq<JobRecord>, newCounts: seq<nat>)
      modifies store
      ensures allJobs == Flatten(ScraperOutputs(responses, skills, maxDaysOld))
      ensures store.rows == Ingest(digest, old(store.rows), allJobs)
      ensures newCounts == NewCounts(digest, old(store.rows), ScraperOutputs(responses, skills, maxDaysOld))
    {
      var remotive := ScrapeRemotive(responses.remotive, skills, maxDaysOld);
      var linkedin := ScrapeHtml(LinkedIn, responses.linkedin, skills);
      var glassdoor := ScrapeHtml(Glassdoor, responses.glassdoor, skills);
      var github := ScrapeGitHub(responses.github, skills, maxDaysOld);
      var angelco := ScrapeHtml(AngelList, responses.angelco, skills);
      var monster := ScrapeHtml(Monster, responses.monster, skills);
      var dice := ScrapeHtml(Dice, responses.dice, skills);
      var flexjobs := ScrapeHtml(FlexJobs, responses.flexjobs, skills);
      var weworkremotely := ScrapeWeWorkRemotely(responses.weworkremotely, skills, maxDaysOld);
      allJobs, newCounts := ProcessJobs([remotive, linkedin, glassdoor, github, angelco, monster, dice, flexjobs, weworkremotely]);
    }
  }
}
