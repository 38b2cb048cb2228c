/**
 * Skill configuration and relevance: the skill list read from the
 * configuration string and `matches_skills`.
 */
module Skills {
  import opened Wrappers
  import opened Text

  /** The skill list used when `JOB_SKILLS` is not set. */
  const DefaultSkills: string :=
    "java,spring,spring boot,microservices,hibernate,jpa,rest api,sql,mysql,postgres,docker,kubernetes"

  /**
   * The skill list of the constructor: the configured string (or the default
   * when absent), lower-cased and split on every comma.
   */
  function ParseSkills(config: Option<string>): (skills: seq<string>)
    ensures |skills| >= 1
    ensures forall k :: 0 <= k < |skills| ==> ',' !in skills[k] && Lower(skills[k]) == skills[k]
    ensures Join(skills, ',') == Lower(config.GetOr(DefaultSkills))
  {
    var lowered := Lower(config.GetOr(DefaultSkills));
    LowerIdempotent(config.GetOr(DefaultSkills));
    SplitKeepsLower(lowered, ',');
    JoinSplit(lowered, ',');
    Split(lowered, ',')
  }

  /** Every part of a lower-case string is lower-case. */
  lemma {:induction false} SplitKeepsLower(s: string, sep: char)
    requires Lower(s) == s
    ensures forall k :: 0 <= k < |Split(s, sep)| ==> Lower(Split(s, sep)[k]) == Split(s, sep)[k]
  {
    if s != [] {
      assert Lower(s[1..]) == s[1..] by {
        assert forall i :: 0 <= i < |s| - 1 ==> s[1..][i] == s[i + 1];
      }
      SplitKeepsLower(s[1..], sep);
      var rest := Split(s[1..], sep);
      if s[0] != sep {
        assert LowerChar(s[0]) == s[0] by { assert Lower(s)[0] == LowerChar(s[0]); }
        assert Lower([s[0]] + rest[0]) == [s[0]] + rest[0] by {
          LowerAppend([s[0]], rest[0]);
        }
        assert forall k :: 1 <= k < |Split(s, sep)| ==> Split(s, sep)[k] == rest[k];
      } else {
        assert forall k :: 1 <= k < |Split(s, sep)| ==> Split(s, sep)[k] == rest[k - 1];
      }
    }
  }

  /** `any(skill.strip() in text for skill in skills)`, in list order. */
  predicate AnySkillIn(text: string, skills: seq<string>) {
    skills != [] && (Contains(text, Strip(skills[0])) || AnySkillIn(text, skills[1..]))
  }

  /** `matches_skills(job_text)`: some trimmed skill occurs in the lower-cased text. */
  predicate MatchesSkills(jobText: string, skills: seq<string>) {
    AnySkillIn(Lower(jobText), skills)
  }

  /** Relevance is exactly: some skill, once trimmed, is a substring of the lower-cased text. */
  lemma {:induction false} MatchesSkillsIff(jobText: string, skills: seq<string>)
    ensures MatchesSkills(jobText, skills)
        <==> exists k :: 0 <= k < |skills| && Contains(Lower(jobText), Strip(skills[k]))
  {
    AnySkillInIff(Lower(jobText), skills);
  }

  lemma {:induction false} AnySkillInIff(text: string, skills: seq<string>)
    ensures AnySkillIn(text, skills) <==> exists k :: 0 <= k < |skills| && Contains(text, Strip(skills[k]))
  {
    if skills != [] {
      AnySkillInIff(text, skills[1..]);
      if exists k :: 0 <= k < |skills| && Contains(text, Strip(skills[k])) {
        var k :| 0 <= k < |skills| && Contains(text, Strip(skills[k]));
        if k > 0 {
          assert skills[1..][k - 1] == skills[k];
        }
      }
    }
  }

  /** Matching ignores the case of the text. */
  lemma MatchesIgnoresCase(jobText: string, skills: seq<string>)
    ensures MatchesSkills(Lower(jobText), skills) == MatchesSkills(jobText, skills)
  {
    LowerIdempotent(jobText);
  }

  /** A skill that trims to nothing (an empty entry, say) matches every text. */
  lemma BlankSkillMatchesEverything(jobText: string, skills: seq<string>, k: nat)
    requires k < |skills| && Strip(skills[k]) == ""
    ensures MatchesSkills(jobText, skills)
  {
    ContainsEmpty(Lower(jobText));
    MatchesSkillsIff(jobText, skills);
  }

  /** A trailing comma in the configured string makes every text relevant. */
  lemma TrailingCommaMatchesEverything(config: string, jobText: string)
    ensures MatchesSkills(jobText, ParseSkills(Some(config + ",")))
  {
    var skills := ParseSkills(Some(config + ","));
    LowerAppend(config, ",");
    assert Lower(",") == ",";
    SplitTrailingSeparator(Lower(config), ',');
    assert skills[|skills| - 1] == "";
    assert Strip("") == "";
    BlankSkillMatchesEverything(jobText, skills, |skills| - 1);
  }

  /**
   * Containment is plain substring, not whole words: the skill "java"
   * matches every text that starts with "Java", "JavaScript" included.
   */
  lemma SubstringNotWord(rest: string)
    ensures MatchesSkills("Java" + rest, ["java"])
  {
    LowerAppend("Java", rest);
    assert Lower("Java") == "java";
    StripUnpadded("java");
    assert (Lower("Java") + Lower(rest))[0..4] == "java";
    SkillOccurrenceMatches("Java" + rest, ["java"], 0, 0);
  }

  /** One occurrence of one trimmed skill makes the text relevant. */
  lemma SkillOccurrenceMatches(jobText: string, skills: seq<string>, k: nat, i: nat)
    requires k < |skills| && OccursAt(Lower(jobText), Strip(skills[k]), i)
    ensures MatchesSkills(jobText, skills)
  {
    MatchesSkillsIff(jobText, skills);
  }
}
