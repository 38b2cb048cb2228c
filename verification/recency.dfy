/**
 * Recency: `is_recent_job` and `parse_days_ago`, whose `(\d+)\s*<unit>`
 * searches are modelled as a leftmost scan over the lower-cased phrase.
 */
module Recency {
  import opened Wrappers
  import opened Text

  /** The age given to a posting whose date is unknown. */
  const UnknownDays: int := 999

  /** Phrases that mean "posted today" (`parse_days_ago`, first test). */
  const NowWords: seq<string> := ["today", "just now", "minutes ago", "hours ago", "hour ago"]

  /** `is_recent_job(days_ago)`: inclusive threshold against `max_days_old`. */
  predicate IsRecentJob(daysAgo: int, maxDaysOld: int) {
    daysAgo <= maxDaysOld
  }

  /** The threshold is inclusive, and the unknown-date sentinel fails any threshold below it. */
  lemma RecencyBoundary(maxDaysOld: int)
    ensures IsRecentJob(maxDaysOld, maxDaysOld)
    ensures !IsRecentJob(maxDaysOld + 1, maxDaysOld)
    ensures maxDaysOld < UnknownDays ==> !IsRecentJob(UnknownDays, maxDaysOld)
  {
  }

  // ------------------------------------------- the `(\d+)\s*unit` search

  /** The end of the run of digits that starts at `i`. */
  function DigitRunEnd(s: string, i: nat): (j: nat)
    requires i <= |s|
    ensures i <= j <= |s|
    ensures forall k :: i <= k < j ==> IsDigit(s[k])
    ensures j == |s| || !IsDigit(s[j])
    decreases |s| - i
  {
    if i < |s| && IsDigit(s[i]) then DigitRunEnd(s, i + 1) else i
  }

  /** The end of the run of whitespace that starts at `i`. */
  function SpaceRunEnd(s: string, i: nat): (j: nat)
    requires i <= |s|
    ensures i <= j <= |s|
    ensures forall k :: i <= k < j ==> IsSpace(s[k])
    ensures j == |s| || !IsSpace(s[j])
    decreases |s| - i
  {
    if i < |s| && IsSpace(s[i]) then SpaceRunEnd(s, i + 1) else i
  }

  /**
   * The pattern `(\d+)\s*unit` matches at `i`: digits as far as they go,
   * whitespace as far as it goes, then the unit.
   */
  predicate NumberUnitAt(s: string, unit: string, i: nat) {
    i < |s| && IsDigit(s[i]) && OccursAt(s, unit, SpaceRunEnd(s, DigitRunEnd(s, i)))
  }

  /**
   * The regular expression's own reading: some split of `s[i..]` into one or
   * more digits `s[i..j]`, any whitespace `s[j..k]` and the unit at `k`.
   */
  predicate RegexMatchAt(s: string, unit: string, i: nat, j: nat, k: nat) {
    i < j <= k <= |s|
    && (forall m :: i <= m < j ==> IsDigit(s[m]))
    && (forall m :: j <= m < k ==> IsSpace(s[m]))
    && OccursAt(s, unit, k)
  }

  /** The unit words all start with a letter: neither a digit nor whitespace. */
  predicate IsUnitWord(unit: string) {
    unit != [] && !IsDigit(unit[0]) && !IsSpace(unit[0])
  }

  /**
   * The greedy scan agrees with the regular expression: it matches at `i`
   * exactly when some split does, and the captured digits are then the whole
   * run of digits starting at `i`, whatever backtracking could try.
   */
  lemma NumberUnitAtIsRegexMatch(s: string, unit: string, i: nat)
    requires IsUnitWord(unit)
    ensures NumberUnitAt(s, unit, i) ==> i < |s| && RegexMatchAt(s, unit, i, DigitRunEnd(s, i), SpaceRunEnd(s, DigitRunEnd(s, i)))
    ensures forall j: nat, k: nat :: RegexMatchAt(s, unit, i, j, k) ==> NumberUnitAt(s, unit, i) && j == DigitRunEnd(s, i)
  {
    forall j: nat, k: nat | RegexMatchAt(s, unit, i, j, k)
      ensures NumberUnitAt(s, unit, i) && j == DigitRunEnd(s, i)
    {
      assert s[k] == unit[0];
      assert !IsDigit(s[j]);
      DigitRunEndIs(s, i, j);
      SpaceRunEndIs(s, j, k);
    }
  }

  /** A maximal run of digits from `i` to `j` is the one the scan finds. */
  lemma {:induction false} DigitRunEndIs(s: string, i: nat, j: nat)
    requires i <= j <= |s|
    requires forall m :: i <= m < j ==> IsDigit(s[m])
    requires j == |s| || !IsDigit(s[j])
    ensures DigitRunEnd(s, i) == j
    decreases j - i
  {
    if i < j {
      DigitRunEndIs(s, i + 1, j);
    }
  }

  /** A maximal run of whitespace from `i` to `j` is the one the scan finds. */
  lemma {:induction false} SpaceRunEndIs(s: string, i: nat, j: nat)
    requires i <= j <= |s|
    requires forall m :: i <= m < j ==> IsSpace(s[m])
    requires j == |s| || !IsSpace(s[j])
    ensures SpaceRunEnd(s, i) == j
    decreases j - i
  {
    if i < j {
      SpaceRunEndIs(s, i + 1, j);
    }
  }

  /** `re.search`: the leftmost position at or after `from` where the pattern matches. */
  function SearchFrom(s: string, unit: string, from: nat): (r: Option<nat>)
    ensures r.Some? ==> from <= r.value < |s| && NumberUnitAt(s, unit, r.value)
    ensures r.Some? ==> forall i :: from <= i < r.value ==> !NumberUnitAt(s, unit, i)
    ensures r.None? ==> forall i :: from <= i ==> !NumberUnitAt(s, unit, i)
    decreases |s| - from
  {
    if from >= |s| then None
    else if NumberUnitAt(s, unit, from) then Some(from)
    else SearchFrom(s, unit, from + 1)
  }

  /** `int(m.group(1))` for a match at `p`: the value of the digit run there. */
  function Captured(s: string, p: nat): nat
    requires p < |s|
  {
    DecimalValue(s[p..DigitRunEnd(s, p)])
  }

  /** `int(m.group(1))` for the first match of `(\d+)\s*unit`, if any. */
  function NumberBefore(s: string, unit: string): Option<nat> {
    match SearchFrom(s, unit, 0)
    case Some(i) => Some(Captured(s, i))
    case None => None
  }

  /** Some now-word occurs in the lower-cased phrase. */
  predicate SaysNow(low: string) {
    exists k :: 0 <= k < |NowWords| && Contains(low, NowWords[k])
  }

  /**
   * `parse_days_ago(date_str)`: the precedence chain of lines 74-90. The
   * source file never imports `re`; this is the rule the code states, as if
   * it did (`ParseDaysAgoAsWritten` is what actually runs).
   */
  function ParseDaysAgo(dateStr: string): (days: int)
    ensures days >= 0
    ensures dateStr == [] ==> days == UnknownDays
  {
    if dateStr == [] then UnknownDays else ParseLowered(Lower(dateStr))
  }

  /** The rule on the lower-cased phrase: now-words, then "yesterday", then a number with a unit. */
  function ParseLowered(low: string): (days: int)
    ensures days >= 0
  {
    if SaysNow(low) then 0
    else if Contains(low, "yesterday") then 1
    else UnitRule(low)
  }

  /** The first of `<N> day`, `<N> week`, `<N> month` that is found, scaled to days; else unknown. */
  function UnitRule(low: string): (days: int)
    ensures days >= 0
  {
    match NumberBefore(low, "day")
    case Some(n) => n
    case None =>
      match NumberBefore(low, "week")
      case Some(n) => n * 7
      case None =>
        match NumberBefore(low, "month")
        case Some(n) => n * 30
        case None => UnknownDays
  }

  // ---------------------------------------------------------- properties

  predicate NoDigits(s: string) {
    forall i :: 0 <= i < |s| ==> !IsDigit(s[i])
  }

  /** `(\d+)\s*unit` matches at `p` and at no earlier position: the match `re.search` reports. */
  predicate FirstMatchAt(s: string, unit: string, p: nat) {
    NumberUnitAt(s, unit, p) && forall j: nat :: j < p ==> !NumberUnitAt(s, unit, j)
  }

  /** `re.search(r'(\d+)\s*unit', s)` is `None`. */
  predicate NoMatch(s: string, unit: string) {
    forall j: nat :: j < |s| ==> !NumberUnitAt(s, unit, j)
  }

  /**
   * The unit rule in the regular expression's terms: the leftmost day count
   * wins; failing any day match, the leftmost week count times 7; failing
   * that, the leftmost month count times 30; with none of the three, 999.
   * Where each number stands in the phrase plays no part.
   */
  lemma UnitRuleOrder(low: string)
    ensures forall p: nat :: FirstMatchAt(low, "day", p) ==>
              UnitRule(low) == Captured(low, p)
    ensures NoMatch(low, "day") ==> forall p: nat :: FirstMatchAt(low, "week", p) ==>
              UnitRule(low) == 7 * Captured(low, p)
    ensures NoMatch(low, "day") && NoMatch(low, "week") ==> forall p: nat :: FirstMatchAt(low, "month", p) ==>
              UnitRule(low) == 30 * Captured(low, p)
    ensures NoMatch(low, "day") && NoMatch(low, "week") && NoMatch(low, "month") ==> UnitRule(low) == UnknownDays
  {
    DayMatchRule(low);
    WeekMatchRule(low);
    MonthMatchRule(low);
    NoMatchRule(low);
  }

  lemma DayMatchRule(low: string)
    ensures forall p: nat :: FirstMatchAt(low, "day", p) ==>
              UnitRule(low) == Captured(low, p)
  {
    forall p: nat | FirstMatchAt(low, "day", p)
      ensures UnitRule(low) == Captured(low, p)
    {
      FirstMatchFound(low, "day", p);
    }
  }

  lemma WeekMatchRule(low: string)
    ensures NoMatch(low, "day") ==> forall p: nat :: FirstMatchAt(low, "week", p) ==>
              UnitRule(low) == 7 * Captured(low, p)
  {
    if NoMatch(low, "day") {
      NoMatchFound(low, "day");
      forall p: nat | FirstMatchAt(low, "week", p)
        ensures UnitRule(low) == 7 * Captured(low, p)
      {
        FirstMatchFound(low, "week", p);
      }
    }
  }

  lemma MonthMatchRule(low: string)
    ensures NoMatch(low, "day") && NoMatch(low, "week") ==> forall p: nat :: FirstMatchAt(low, "month", p) ==>
              UnitRule(low) == 30 * Captured(low, p)
  {
    if NoMatch(low, "day") && NoMatch(low, "week") {
      NoMatchFound(low, "day");
      NoMatchFound(low, "week");
      forall p: nat | FirstMatchAt(low, "month", p)
        ensures UnitRule(low) == 30 * Captured(low, p)
      {
        FirstMatchFound(low, "month", p);
      }
    }
  }

  lemma NoMatchRule(low: string)
    ensures NoMatch(low, "day") && NoMatch(low, "week") && NoMatch(low, "month") ==> UnitRule(low) == UnknownDays
  {
    if NoMatch(low, "day") && NoMatch(low, "week") && NoMatch(low, "month") {
      NoMatchFound(low, "day");
      NoMatchFound(low, "week");
      NoMatchFound(low, "month");
    }
  }

  /** The leftmost match is the one the search returns. */
  lemma FirstMatchFound(s: string, unit: string, p: nat)
    requires FirstMatchAt(s, unit, p)
    ensures SearchFrom(s, unit, 0) == Some(p)
  {
  }

  /** With no match anywhere, the search returns none. */
  lemma NoMatchFound(s: string, unit: string)
    requires NoMatch(s, unit)
    ensures SearchFrom(s, unit, 0) == None
  {
  }

  /**
   * For a phrase made of a number followed by digit-free text, the search for
   * `(\d+)\s*unit` finds that number exactly when the unit follows it.
   */
  lemma NumberBeforeDigitsThen(d: string, rest: string, unit: string)
    requires d != [] && AllDigits(d) && NoDigits(rest) && IsUnitWord(unit)
    ensures NumberBefore(d + rest, unit)
         == if OccursAt(d + rest, unit, SpaceRunEnd(d + rest, |d|)) then Some(DecimalValue(d)) else None
  {
    var s := d + rest;
    forall i | 0 <= i < |d| ensures DigitRunEnd(s, i) == |d| {
      DigitRunEndIs(s, i, |d|);
    }
    assert s[..|d|] == d;
    if !OccursAt(s, unit, SpaceRunEnd(s, |d|)) {
      forall i: nat | i < |s| ensures !NumberUnitAt(s, unit, i) {
        if i >= |d| {
          assert s[i] == rest[i - |d|];
        }
      }
    }
  }

  /** A run of digits in front of a phrase never creates or hides a now-word. */
  lemma SaysNowAfterDigits(d: string, rest: string)
    requires AllDigits(d)
    ensures SaysNow(d + rest) <==> SaysNow(rest)
  {
    forall k | 0 <= k < |NowWords|
      ensures Contains(d + rest, NowWords[k]) <==> Contains(rest, NowWords[k])
    {
      assert NowWords[k][0] in "tjmh";
      ContainsAfterDigits(d, rest, NowWords[k]);
    }
  }

  /** Lower-case letters and spaces only, as in " days ago". */
  predicate PlainWords(s: string) {
    forall i :: 0 <= i < |s| ==> s[i] == ' ' || 'a' <= s[i] <= 'z'
  }

  lemma PlainWordsFacts(s: string)
    requires PlainWords(s)
    ensures Lower(s) == s && NoDigits(s)
  {
  }

  lemma LowerDigits(d: string)
    requires AllDigits(d)
    ensures Lower(d) == d
  {
  }

  /** A lower-case phrase none of whose letters can spell a now-word. */
  lemma NoNowWordIn(low: string, a: char, b: char, c: char, d: char)
    requires a in "today" && a !in low
    requires b in "just now" && b !in low
    requires c in "minutes ago" && c !in low
    requires d in "hour ago" && d !in low
    ensures !SaysNow(low)
  {
    MissingCharNotContained(low, "today", a);
    MissingCharNotContained(low, "just now", b);
    MissingCharNotContained(low, "minutes ago", c);
    MissingCharNotContained(low, "hour ago", d);
    assert d in "hours ago";
    MissingCharNotContained(low, "hours ago", d);
  }

  /** Text without digits holds no `(\d+)\s*unit` match. */
  lemma NoDigitsNoNumber(s: string, unit: string)
    requires NoDigits(s)
    ensures NumberBefore(s, unit) == None
  {
    assert forall i: nat :: !NumberUnitAt(s, unit, i);
  }

  /**
   * A number followed by lower-case text with no now-word and no
   * "yesterday" is read by the unit rule alone.
   */
  lemma ParseNumberPhrase(d: string, rest: string)
    requires d != [] && AllDigits(d) && Lower(rest) == rest
    requires !SaysNow(rest) && !Contains(rest, "yesterday")
    ensures ParseDaysAgo(d + rest) == UnitRule(d + rest)
  {
    LowerDigits(d);
    LowerAppend(d, rest);
    SaysNowAfterDigits(d, rest);
    ContainsAfterDigits(d, rest, "yesterday");
  }

  /**
   * Text after a number that carries no other signal: lower-case, without
   * digits, now-words or "yesterday".
   */
  predicate QuietSuffix(rest: string) {
    Lower(rest) == rest && NoDigits(rest) && !SaysNow(rest) && !Contains(rest, "yesterday")
  }

  /** Plain lower-case words missing one letter of each signal word carry no signal. */
  lemma QuietFromChars(rest: string, a: char, b: char, c: char, d: char, y: char)
    requires PlainWords(rest)
    requires a in "today" && a !in rest
    requires b in "just now" && b !in rest
    requires c in "minutes ago" && c !in rest
    requires d in "hour ago" && d !in rest
    requires y in "yesterday" && y !in rest
    ensures QuietSuffix(rest)
  {
    PlainWordsFacts(rest);
    NoNowWordIn(rest, a, b, c, d);
    MissingCharNotContained(rest, "yesterday", y);
  }

  /** The unit rule on "<digits> day...": the number itself. */
  lemma UnitRuleDay(d: string, rest: string)
    requires d != [] && AllDigits(d) && NoDigits(rest)
    requires 4 <= |rest| && rest[0] == ' ' && rest[1..4] == "day"
    ensures UnitRule(d + rest) == DecimalValue(d)
  {
    var s := d + rest;
    SpaceRunEndIs(s, |d|, |d| + 1);
    assert s[|d| + 1..|d| + 4] == "day";
    NumberBeforeDigitsThen(d, rest, "day");
  }

  /** The unit rule on "<digits> week...": seven times the number, as no "day" follows it. */
  lemma UnitRuleWeek(d: string, rest: string)
    requires d != [] && AllDigits(d) && NoDigits(rest)
    requires 5 <= |rest| && rest[0] == ' ' && rest[1..5] == "week"
    ensures UnitRule(d + rest) == DecimalValue(d) * 7
  {
    var s := d + rest;
    SpaceRunEndIs(s, |d|, |d| + 1);
    assert s[|d| + 1] == 'w';
    assert !OccursAt(s, "day", |d| + 1) by {
      if |d| + 4 <= |s| { assert s[|d| + 1..|d| + 4][0] == 'w'; }
    }
    assert s[|d| + 1..|d| + 5] == "week";
    NumberBeforeDigitsThen(d, rest, "day");
    NumberBeforeDigitsThen(d, rest, "week");
  }

  /** The unit rule on "<digits> month...": thirty times the number. */
  lemma UnitRuleMonth(d: string, rest: string)
    requires d != [] && AllDigits(d) && NoDigits(rest)
    requires 6 <= |rest| && rest[0] == ' ' && rest[1..6] == "month"
    ensures UnitRule(d + rest) == DecimalValue(d) * 30
  {
    var s := d + rest;
    SpaceRunEndIs(s, |d|, |d| + 1);
    assert s[|d| + 1] == 'm';
    assert !OccursAt(s, "day", |d| + 1) by {
      if |d| + 4 <= |s| { assert s[|d| + 1..|d| + 4][0] == 'm'; }
    }
    assert !OccursAt(s, "week", |d| + 1) by {
      if |d| + 5 <= |s| { assert s[|d| + 1..|d| + 5][0] == 'm'; }
    }
    assert s[|d| + 1..|d| + 6] == "month";
    NumberBeforeDigitsThen(d, rest, "day");
    NumberBeforeDigitsThen(d, rest, "week");
    NumberBeforeDigitsThen(d, rest, "month");
  }

  /** "<digits> day..." followed by text with no other signal reads as the number. */
  lemma DayPhrase(d: string, rest: string)
    requires d != [] && AllDigits(d)
    requires QuietSuffix(rest)
    requires 4 <= |rest| && rest[0] == ' ' && rest[1..4] == "day"
    ensures ParseDaysAgo(d + rest) == DecimalValue(d)
  {
    ParseNumberPhrase(d, rest);
    UnitRuleDay(d, rest);
  }

  /** "<digits> week..." reads as seven times the number. */
  lemma WeekPhrase(d: string, rest: string)
    requires d != [] && AllDigits(d)
    requires QuietSuffix(rest)
    requires 5 <= |rest| && rest[0] == ' ' && rest[1..5] == "week"
    ensures ParseDaysAgo(d + rest) == DecimalValue(d) * 7
  {
    ParseNumberPhrase(d, rest);
    UnitRuleWeek(d, rest);
  }

  /** "<digits> month..." reads as thirty times the number. */
  lemma MonthPhrase(d: string, rest: string)
    requires d != [] && AllDigits(d)
    requires QuietSuffix(rest)
    requires 6 <= |rest| && rest[0] == ' ' && rest[1..6] == "month"
    ensures ParseDaysAgo(d + rest) == DecimalValue(d) * 30
  {
    ParseNumberPhrase(d, rest);
    UnitRuleMonth(d, rest);
  }

  /** " days ago" opens with a space and its unit. */
  lemma DaysAgoUnit()
    ensures 4 <= |" days ago"| && " days ago"[0] == ' ' && " days ago"[1..4] == "day"
  {
  }

  /** " days ago" carries no signal besides its unit. */
  lemma DaysAgoSuffix()
    ensures QuietSuffix(" days ago")
  {
    assert PlainWords(" days ago");
    assert 't' !in " days ago" && 'j' !in " days ago" && 'm' !in " days ago" && 'h' !in " days ago";
    QuietFromChars(" days ago", 't', 'j', 'm', 'h', 't');
  }

  /** " weeks ago" opens with a space and its unit. */
  lemma WeeksAgoUnit()
    ensures 5 <= |" weeks ago"| && " weeks ago"[0] == ' ' && " weeks ago"[1..5] == "week"
  {
  }

  /** " weeks ago" carries no signal besides its unit. */
  lemma WeeksAgoSuffix()
    ensures QuietSuffix(" weeks ago")
  {
    assert PlainWords(" weeks ago");
    assert 't' !in " weeks ago" && 'j' !in " weeks ago" && 'm' !in " weeks ago" && 'h' !in " weeks ago";
    QuietFromChars(" weeks ago", 't', 'j', 'm', 'h', 't');
  }

  /** " months ago" opens with a space and its unit. */
  lemma MonthsAgoUnit()
    ensures 6 <= |" months ago"| && " months ago"[0] == ' ' && " months ago"[1..6] == "month"
  {
  }

  /** " months ago" carries no signal besides its unit. */
  lemma MonthsAgoSuffix()
    ensures QuietSuffix(" months ago")
  {
    assert PlainWords(" months ago");
    assert 'd' !in " months ago" && 'j' !in " months ago" && 'i' !in " months ago" && 'u' !in " months ago";
    QuietFromChars(" months ago", 'd', 'j', 'i', 'u', 'y');
  }

  /** Reading "<n> days ago" gives n, for every n. */
  lemma DaysAgoPhrase(n: nat)
    ensures ParseDaysAgo(NatToDecimal(n) + " days ago") == n
  {
    DaysAgoSuffix();
    DaysAgoUnit();
    DayPhrase(NatToDecimal(n), " days ago");
    DecimalRoundTrip(n);
  }

  /** Reading "<n> weeks ago" gives 7n, for every n. */
  lemma WeeksAgoPhrase(n: nat)
    ensures ParseDaysAgo(NatToDecimal(n) + " weeks ago") == 7 * n
  {
    WeeksAgoSuffix();
    WeeksAgoUnit();
    WeekPhrase(NatToDecimal(n), " weeks ago");
    DecimalRoundTrip(n);
  }

  /** Reading "<n> months ago" gives 30n, for every n. */
  lemma MonthsAgoPhrase(n: nat)
    ensures ParseDaysAgo(NatToDecimal(n) + " months ago") == 30 * n
  {
    MonthsAgoSuffix();
    MonthsAgoUnit();
    MonthPhrase(NatToDecimal(n), " months ago");
    DecimalRoundTrip(n);
  }

  /** " month ago" opens with a space and its unit. */
  lemma MonthAgoUnit()
    ensures 6 <= |" month ago"| && " month ago"[0] == ' ' && " month ago"[1..6] == "month"
  {
  }

  /** " month ago" carries no signal besides its unit. */
  lemma MonthAgoSuffix()
    ensures QuietSuffix(" month ago")
  {
    assert PlainWords(" month ago");
    assert 'd' !in " month ago" && 'j' !in " month ago" && 'i' !in " month ago" && 'u' !in " month ago";
    QuietFromChars(" month ago", 'd', 'j', 'i', 'u', 'y');
  }

  /** "3 days ago" is three days old. */
  lemma ThreeDaysAgo()
    ensures ParseDaysAgo("3 days ago") == 3
  {
    assert NatToDecimal(3) + " days ago" == "3 days ago";
    DaysAgoPhrase(3);
  }

  /** "2 weeks ago" is fourteen days old. */
  lemma TwoWeeksAgo()
    ensures ParseDaysAgo("2 weeks ago") == 14
  {
    assert NatToDecimal(2) + " weeks ago" == "2 weeks ago";
    WeeksAgoPhrase(2);
  }

  /** Reading "<n> month ago" gives 30n, for every n. */
  lemma MonthAgoPhrase(n: nat)
    ensures ParseDaysAgo(NatToDecimal(n) + " month ago") == 30 * n
  {
    MonthAgoSuffix();
    MonthAgoUnit();
    MonthPhrase(NatToDecimal(n), " month ago");
    DecimalRoundTrip(n);
  }

  /** "1 month ago" is thirty days old. */
  lemma OneMonthAgo()
    ensures ParseDaysAgo("1 month ago") == 30
  {
    assert NatToDecimal(1) + " month ago" == "1 month ago";
    MonthAgoPhrase(1);
  }

  /** The now-words are already lower-case. */
  lemma NowWordsLower(k: nat)
    requires k < |NowWords|
    ensures Lower(NowWords[k]) == NowWords[k]
  {
    assert PlainWords(NowWords[k]);
    PlainWordsFacts(NowWords[k]);
  }

  /**
   * A now-word anywhere wins over everything else in the phrase, a number
   * of days included: whatever precedes it, the phrase reads as today.
   */
  lemma NowWordWins(prefix: string, k: nat)
    requires k < |NowWords|
    ensures ParseDaysAgo(prefix + NowWords[k]) == 0
  {
    var w := NowWords[k];
    NowWordsLower(k);
    LowerAppend(prefix, w);
    var low := Lower(prefix + w);
    var j := |Lower(prefix)|;
    assert low[j..j + |w|] == w;
    assert OccursAt(low, w, j);
    assert Contains(low, w);
    NowIsZero(prefix + w, k);
  }

  /** A phrase whose lower-cased form holds the k-th now-word reads as 0. */
  lemma NowIsZero(dateStr: string, k: nat)
    requires k < |NowWords| && Contains(Lower(dateStr), NowWords[k])
    ensures ParseDaysAgo(dateStr) == 0
  {
    assert SaysNow(Lower(dateStr));
    assert dateStr != [];
  }

  /** "Today" reads as 0. */
  lemma TodayIsZero()
    ensures ParseDaysAgo("Today") == 0
  {
    assert Lower("Today") == "today";
    assert OccursAt("today", NowWords[0], 0);
  }

  /** "Yesterday" reads as 1: it holds no now-word, and "yesterday" comes next. */
  lemma YesterdayIsOne()
    ensures ParseDaysAgo("Yesterday") == 1
  {
    YesterdayNoNowWord();
    assert Lower("Yesterday") == "yesterday";
    assert OccursAt("yesterday", "yesterday", 0);
  }

  /** "yesterday" holds no now-word: it has no letter 'o'. */
  lemma YesterdayNoNowWord()
    ensures !SaysNow("yesterday")
  {
    assert 'o' !in "yesterday";
    NoNowWordIn("yesterday", 'o', 'o', 'o', 'o');
  }

  /** "recently" carries no signal at all. */
  lemma RecentlyQuiet()
    ensures QuietSuffix("recently")
  {
    assert PlainWords("recently");
    assert 'o' !in "recently" && 's' !in "recently";
    QuietFromChars("recently", 'o', 'o', 'o', 'o', 's');
  }

  /** "Recently" holds no signal and reads as unknown. */
  lemma RecentlyIsUnknown()
    ensures ParseDaysAgo("Recently") == UnknownDays
  {
    RecentlyQuiet();
    assert Lower("Recently") == "recently";
    NoDigitsNoNumber("recently", "day");
    NoDigitsNoNumber("recently", "week");
    NoDigitsNoNumber("recently", "month");
  }

  /**
   * Below the now-words, "yesterday" wins: a phrase that holds it and no
   * now-word reads as 1, whatever numbers and units it also holds.
   */
  lemma YesterdayWins(dateStr: string)
    requires dateStr != [] && !SaysNow(Lower(dateStr)) && Contains(Lower(dateStr), "yesterday")
    ensures ParseDaysAgo(dateStr) == 1
  {
  }

  /** "yesterday <n> days" reads as 1, not n. */
  lemma YesterdayBeatsDayCount(n: nat)
    ensures ParseDaysAgo("yesterday " + NatToDecimal(n) + " days") == 1
  {
    var d := NatToDecimal(n);
    var s := "yesterday " + d + " days";
    YesterdayDaysLower(d);
    YesterdayDaysQuiet(d);
    assert s[0..9] == "yesterday";
    assert OccursAt(s, "yesterday", 0);
    YesterdayWins(s);
  }

  /** "yesterday <digits> days" is already lower-case. */
  lemma YesterdayDaysLower(d: string)
    requires AllDigits(d)
    ensures Lower("yesterday " + d + " days") == "yesterday " + d + " days"
  {
    assert PlainWords("yesterday ") && PlainWords(" days");
    PlainWordsFacts("yesterday ");
    PlainWordsFacts(" days");
    LowerDigits(d);
    LowerAppend("yesterday " + d, " days");
    LowerAppend("yesterday ", d);
  }

  /** "yesterday <digits> days" holds no now-word. */
  lemma YesterdayDaysQuiet(d: string)
    requires AllDigits(d)
    ensures !SaysNow("yesterday " + d + " days")
  {
    assert 'o' !in d && 'j' !in d && 'm' !in d && 'h' !in d by {
      forall i | 0 <= i < |d| ensures IsDigit(d[i]) { }
    }
    assert 'o' !in "yesterday " && 'j' !in "yesterday " && 'm' !in "yesterday " && 'h' !in "yesterday ";
    assert 'o' !in " days" && 'j' !in " days" && 'm' !in " days" && 'h' !in " days";
    NoNowWordIn("yesterday " + d + " days", 'o', 'j', 'm', 'h');
  }

  /** A phrase with no digit, no now-word and no "yesterday" reads as unknown. */
  lemma NoSignalIsUnknown(dateStr: string)
    requires dateStr != [] && NoDigits(dateStr)
    requires !SaysNow(Lower(dateStr)) && !Contains(Lower(dateStr), "yesterday")
    ensures ParseDaysAgo(dateStr) == UnknownDays
  {
    var low := Lower(dateStr);
    assert NoDigits(low) by {
      forall i | 0 <= i < |low| ensures !IsDigit(low[i]) {
        assert low[i] == LowerChar(dateStr[i]);
      }
    }
    NoDigitsNoNumber(low, "day");
    NoDigitsNoNumber(low, "week");
    NoDigitsNoNumber(low, "month");
  }

  /**
   * A day count wins over a week count, even one that comes first:
   * "<m> weeks <n> days ago" reads as n.
   */
  lemma DayCountBeatsEarlierWeeks(m: nat, n: nat)
    ensures ParseDaysAgo(NatToDecimal(m) + " weeks " + NatToDecimal(n) + " days ago") == n
  {
    var d1, d2 := NatToDecimal(m), NatToDecimal(n);
    var s := d1 + " weeks " + d2 + " days ago";
    WeeksDaysLower(d1, d2);
    WeeksDaysQuiet(d1, d2);
    var p := |d1| + 7;
    WeeksDaysDayMatch(d1, d2);
    UnitRuleOrder(s);
    assert s[p..p + |d2|] == d2;
    DecimalRoundTrip(n);
  }

  /** The phrase "<m> weeks <n> days ago" is already lower-case. */
  lemma WeeksDaysLower(d1: string, d2: string)
    requires AllDigits(d1) && AllDigits(d2)
    ensures Lower(d1 + " weeks " + d2 + " days ago") == d1 + " weeks " + d2 + " days ago"
  {
    DaysAgoSuffix();
    assert PlainWords(" weeks ");
    PlainWordsFacts(" weeks ");
    LowerDigits(d1);
    LowerDigits(d2);
    LowerAppend(d1 + " weeks " + d2, " days ago");
    LowerAppend(d1 + " weeks ", d2);
    LowerAppend(d1, " weeks ");
  }

  /** "<m> weeks <n> days ago" holds no now-word and no "yesterday". */
  lemma WeeksDaysQuiet(d1: string, d2: string)
    requires AllDigits(d1) && AllDigits(d2)
    ensures !SaysNow(d1 + " weeks " + d2 + " days ago")
    ensures !Contains(d1 + " weeks " + d2 + " days ago", "yesterday")
  {
    var s := d1 + " weeks " + d2 + " days ago";
    assert 't' !in d1 && 'j' !in d1 && 'm' !in d1 && 'h' !in d1 by {
      forall i | 0 <= i < |d1| ensures IsDigit(d1[i]) { }
    }
    assert 't' !in d2 && 'j' !in d2 && 'm' !in d2 && 'h' !in d2 by {
      forall i | 0 <= i < |d2| ensures IsDigit(d2[i]) { }
    }
    assert 't' !in " weeks " && 'j' !in " weeks " && 'm' !in " weeks " && 'h' !in " weeks ";
    assert 't' !in " days ago" && 'j' !in " days ago" && 'm' !in " days ago" && 'h' !in " days ago";
    NoNowWordIn(s, 't', 'j', 'm', 'h');
    MissingCharNotContained(s, "yesterday", 't');
  }

  /** In "<m> weeks <n> days ago" the leftmost day match is at n. */
  lemma WeeksDaysDayMatch(d1: string, d2: string)
    requires d1 != [] && d2 != [] && AllDigits(d1) && AllDigits(d2)
    ensures FirstMatchAt(d1 + " weeks " + d2 + " days ago", "day", |d1| + 7)
    ensures DigitRunEnd(d1 + " weeks " + d2 + " days ago", |d1| + 7) == |d1| + 7 + |d2|
  {
    var s := d1 + " weeks " + d2 + " days ago";
    var p := |d1| + 7;
    var q := p + |d2|;
    WeeksDaysChars(d1, d2, s, p, q);
    DayMatchAt(s, p, q);
    NoDayMatchBefore(s, |d1|, p);
  }

  /** Where the digits, the spaces and the letters of "<m> weeks <n> days ago" stand. */
  lemma WeeksDaysChars(d1: string, d2: string, s: string, p: nat, q: nat)
    requires AllDigits(d1) && AllDigits(d2)
    requires s == d1 + " weeks " + d2 + " days ago" && p == |d1| + 7 && q == p + |d2|
    ensures |s| == q + 9
    ensures forall k :: 0 <= k < |d1| ==> IsDigit(s[k])
    ensures forall k :: |d1| <= k < p ==> !IsDigit(s[k])
    ensures s[|d1|] == ' ' && s[|d1| + 1] == 'w'
    ensures forall k :: p <= k < q ==> IsDigit(s[k])
    ensures s[q] == ' ' && s[q + 1..q + 4] == "day"
  {
    var w, r := " weeks ", " days ago";
    assert s == d1 + w + d2 + r;
    forall k | |d1| <= k < p ensures !IsDigit(s[k]) {
      assert s[k] == w[k - |d1|];
    }
    forall k | p <= k < q ensures IsDigit(s[k]) {
      assert s[k] == d2[k - p];
    }
    assert s[q..] == r;
  }

  /** Digits from `p` to `q`, then " day": the pattern matches at `p` and captures up to `q`. */
  lemma DayMatchAt(s: string, p: nat, q: nat)
    requires p < q && q + 4 <= |s|
    requires forall k :: p <= k < q ==> IsDigit(s[k])
    requires s[q] == ' ' && s[q + 1..q + 4] == "day"
    ensures NumberUnitAt(s, "day", p) && DigitRunEnd(s, p) == q
  {
    DigitRunEndIs(s, p, q);
    assert s[q + 1] == 'd';
    SpaceRunEndIs(s, q, q + 1);
  }

  /**
   * Digits up to `a`, then a space and a letter other than 'd', and no digit
   * from `a` to `p`: no day match starts before `p`.
   */
  lemma NoDayMatchBefore(s: string, a: nat, p: nat)
    requires a + 2 <= p <= |s|
    requires forall k :: 0 <= k < a ==> IsDigit(s[k])
    requires forall k :: a <= k < p ==> !IsDigit(s[k])
    requires s[a] == ' ' && s[a + 1] == 'w'
    ensures forall j: nat :: j < p ==> !NumberUnitAt(s, "day", j)
  {
    SpaceRunEndIs(s, a, a + 1);
    forall j: nat | j < a ensures !NumberUnitAt(s, "day", j) {
      DigitRunEndIs(s, j, a);
    }
  }

  // ------------------------------------------------- the code as it runs

  /** The Python exception a call ends with. */
  datatype PyError = NameError(name: string)

  /**
   * `parse_days_ago` as the file runs it: `re` is never imported, so every
   * phrase that reaches the `re.search` of line 81 raises `NameError`.
   */
  function ParseDaysAgoAsWritten(dateStr: string): (r: Result<int, PyError>)
    ensures r.Success? ==> r.value in {0, 1, UnknownDays}
  {
    if dateStr == [] then Success(UnknownDays)
    else
      var low := Lower(dateStr);
      if SaysNow(low) then Success(0)
      else if Contains(low, "yesterday") then Success(1)
      else Failure(NameError("re"))
  }

  /** Where the code as written returns at all, it agrees with the rule it states. */
  lemma AsWrittenAgrees(dateStr: string)
    ensures ParseDaysAgoAsWritten(dateStr).Success? ==> ParseDaysAgoAsWritten(dateStr).value == ParseDaysAgo(dateStr)
  {
  }

  /** Every "<n> days ago" raises NameError as written, where the stated rule gives n. */
  lemma AsWrittenFailsOnDaysAgo(n: nat)
    ensures ParseDaysAgoAsWritten(NatToDecimal(n) + " days ago") == Failure(NameError("re"))
    ensures ParseDaysAgo(NatToDecimal(n) + " days ago") == n
  {
    var d := NatToDecimal(n);
    DaysAgoSuffix();
    LowerDigits(d);
    LowerAppend(d, " days ago");
    SaysNowAfterDigits(d, " days ago");
    ContainsAfterDigits(d, " days ago", "yesterday");
    DaysAgoPhrase(n);
  }
}
