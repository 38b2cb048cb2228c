/**
 * The normalised job record every source adapter emits, and the job identity
 * used to deduplicate records against the seen-job store.
 */
module Jobs {

  /**
   * One posting as an adapter emits it (the dictionary built in each
   * `scrape_*`): `daysAgo` is the age in days, 999 when unknown.
   */
  datatype JobRecord = JobRecord(
    title: string,
    company: string,
    link: string,
    portal: string,
    postedDate: string,
    daysAgo: int)

  /**
   * The digest applied to the identity key (MD5 rendered as hex in the
   * source); left uninterpreted, so every property below holds for any digest.
   */
  type Digest = string -> string

  /** The hashed text: plain concatenation, with no separator between the fields. */
  function IdentityKey(title: string, company: string, url: string): (key: string)
    ensures |key| == |title| + |company| + |url|
    ensures key[..|title|] == title
    ensures key[|title|..|title| + |company|] == company
    ensures key[|title| + |company|..] == url
  {
    title + company + url
  }

  /** `generate_job_id(title, company, url)`. */
  function GenerateJobId(digest: Digest, title: string, company: string, url: string): string {
    digest(IdentityKey(title, company, url))
  }

  /** The id `process_jobs` computes for an emitted record. */
  function RecordId(digest: Digest, job: JobRecord): string {
    GenerateJobId(digest, job.title, job.company, job.link)
  }

  /** The id is a function of the concatenated key alone: equal keys, equal ids. */
  lemma IdDependsOnlyOnKey(digest: Digest, t1: string, c1: string, u1: string,
                                           t2: string, c2: string, u2: string)
    requires t1 + c1 + u1 == t2 + c2 + u2
    ensures GenerateJobId(digest, t1, c1, u1) == GenerateJobId(digest, t2, c2, u2)
  {
  }

  /** Portal, posted date and age never take part in a record's id. */
  lemma RecordIdIgnoresMetadata(digest: Digest, job: JobRecord, portal: string, postedDate: string, daysAgo: int)
    ensures RecordId(digest, job.(portal := portal, postedDate := postedDate, daysAgo := daysAgo))
         == RecordId(digest, job)
  {
  }

  /**
   * Without a separator, moving characters between title and company keeps
   * the id: ("ab", "c", u) and ("a", "bc", u) are the same job.
   */
  lemma IdCollidesAcrossFieldBoundary(digest: Digest, url: string)
    ensures GenerateJobId(digest, "ab", "c", url) == GenerateJobId(digest, "a", "bc", url)
  {
    assert IdentityKey("ab", "c", url) == IdentityKey("a", "bc", url);
  }
}
