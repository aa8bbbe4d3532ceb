/** The leaderboard page of `src/app/leaderboard/page.tsx`: how a fetched row
    becomes an entry, the quiz-title filter, and the rank label, badge and
    highlight of each position. */
module Leaderboard {
  import opened Wrappers
  import opened Text
  import opened Lists
  import opened Badges

  /** A row as the leaderboard query returns it. The completion time is
      kept as the text it is shown as. */
  datatype RawRow = RawRow(quizTitle: string, nickname: Option<string>, score: int, totalQuestions: int, completedAt: string)

  /** A row as the page shows it; `percentage` is exact. */
  datatype Entry = Entry(quizTitle: string, nickname: string, score: int, totalQuestions: int, completedAt: string, percentage: real)

  const Anonymous := "Anonymous"

  /** `total > 0 ? (score / total) * 100 : 0`. */
  function Percentage(score: int, total: int): (p: real)
    ensures total <= 0 ==> p == 0.0
    ensures total > 0 ==> p * total as real == 100.0 * score as real
    ensures total > 0 && 0 <= score <= total ==> 0.0 <= p <= 100.0
  {
    if total > 0 then (score as real / total as real) * 100.0 else 0.0
  }

  /** `entry.nickname || 'Anonymous'`: a missing or empty nickname reads
      'Anonymous'. */
  function DisplayName(nickname: Option<string>): (r: string)
    ensures r != ""
    ensures nickname.Some? && nickname.value != "" ==> r == nickname.value
    ensures nickname.None? || nickname.value == "" ==> r == Anonymous
  {
    if nickname.Some? && nickname.value != "" then nickname.value else Anonymous
  }

  function FormatEntry(row: RawRow): Entry {
    Entry(row.quizTitle, DisplayName(row.nickname), row.score, row.totalQuestions, row.completedAt,
          Percentage(row.score, row.totalQuestions))
  }

  /** `leaderboardData.map(...)`: one entry per row, in row order. */
  function FormatLeaderboard(rows: seq<RawRow>): (r: seq<Entry>)
    ensures |r| == |rows|
    ensures forall i :: 0 <= i < |rows| ==> r[i] == FormatEntry(rows[i])
  {
    seq(|rows|, i requires 0 <= i < |rows| => FormatEntry(rows[i]))
  }

  /** Formatting keeps the title, score, totals and time of each row; the
      name shown is 'Anonymous' exactly when the row has no name, or the name
      happens to be 'Anonymous'; the percentage scales back to the score. */
  lemma FormatEntryKeepsRow(row: RawRow)
    ensures var e := FormatEntry(row);
      && e.quizTitle == row.quizTitle && e.score == row.score
      && e.totalQuestions == row.totalQuestions && e.completedAt == row.completedAt
      && (e.nickname == Anonymous <==> (row.nickname.None? || row.nickname.value in {"", Anonymous}))
      && (row.totalQuestions > 0 ==> e.percentage * row.totalQuestions as real == 100.0 * row.score as real)
      && (row.totalQuestions <= 0 ==> e.percentage == 0.0)
  {
  }

  /** The test an entry passes for a lower-cased search text `needle`. */
  function TitleMatches(needle: string): Entry -> bool {
    (e: Entry) => Contains(ToLower(e.quizTitle), needle)
  }

  /** `filterLeaderboard`: a blank filter shows every entry; otherwise the
      entries whose lower-cased title contains the lower-cased filter, as
      typed (not trimmed). */
  function FilterLeaderboard(entries: seq<Entry>, filter: string): (r: seq<Entry>)
    ensures IsSubsequence(r, entries) && |r| <= |entries|
  {
    if IsBlank(filter) then SubsequenceOfSelf(entries); entries else Filter(entries, TitleMatches(ToLower(filter)))
  }

  /** A filter that trims to nothing changes nothing. */
  lemma BlankFilterKeepsAll(entries: seq<Entry>, filter: string)
    requires Trim(filter) == ""
    ensures FilterLeaderboard(entries, filter) == entries
  {
    BlankIffTrimEmpty(filter);
  }

  /** A non-blank filter keeps exactly the entries whose title contains the
      filter, ignoring case, at some position. */
  lemma FilterKeepsExactlyMatches(entries: seq<Entry>, filter: string)
    requires !IsBlank(filter)
    ensures forall i :: 0 <= i < |FilterLeaderboard(entries, filter)| ==>
      var e := FilterLeaderboard(entries, filter)[i];
      e in entries && exists k :: OccursAt(ToLower(e.quizTitle), ToLower(filter), k)
    ensures forall i :: 0 <= i < |entries| && (exists k :: OccursAt(ToLower(entries[i].quizTitle), ToLower(filter), k)) ==>
      entries[i] in FilterLeaderboard(entries, filter)
  {
    var r := FilterLeaderboard(entries, filter);
    forall i | 0 <= i < |r|
      ensures exists k :: OccursAt(ToLower(r[i].quizTitle), ToLower(filter), k)
    {
      ContainsIffOccurs(ToLower(r[i].quizTitle), ToLower(filter));
    }
    forall i | 0 <= i < |entries| && (exists k :: OccursAt(ToLower(entries[i].quizTitle), ToLower(filter), k))
      ensures entries[i] in r
    {
      ContainsIffOccurs(ToLower(entries[i].quizTitle), ToLower(filter));
    }
  }

  /** Upper-casing leaves white space where it was. */
  lemma UpperKeepsBlank(s: string)
    ensures IsBlank(ToUpper(s)) <==> IsBlank(s)
  {
    var u := ToUpper(s);
    forall i | 0 <= i < |s| ensures IsSpace(u[i]) <==> IsSpace(s[i]) {
      UpperCharKeepsSpace(s[i]);
    }
  }

  /** The case the filter is typed in does not matter. */
  lemma FilterIgnoresCase(entries: seq<Entry>, filter: string)
    ensures FilterLeaderboard(entries, ToUpper(filter)) == FilterLeaderboard(entries, filter)
  {
    UpperKeepsBlank(filter);
    LowerForgetsCase(filter);
  }

  /** The label of the entry at 0-based position `index`. */
  function RankLabel(index: nat): string {
    if index == 0 then "1st"
    else if index == 1 then "2nd"
    else if index == 2 then "3rd"
    else "#" + NatToString(index + 1)
  }

  /** Different positions get different labels. */
  lemma RankLabelInjective(i: nat, j: nat)
    requires RankLabel(i) == RankLabel(j)
    ensures i == j
  {
    RankPresentationAgrees(i);
    RankPresentationAgrees(j);
    if i >= 3 && j >= 3 {
      assert RankLabel(i)[1..] == NatToString(i + 1);
      assert RankLabel(j)[1..] == NatToString(j + 1);
      NatToStringInjective(i + 1, j + 1);
    }
  }

  /** `getRankBadgeVariant`. */
  function RankBadgeVariant(index: nat): BadgeVariant {
    if index == 0 then Default else if index == 1 then Secondary else Outline
  }

  /** The first three positions are drawn highlighted. */
  predicate IsHighlighted(index: nat) {
    index < 3
  }

  /** Exactly the highlighted positions carry an ordinal label ('1st', '2nd',
      '3rd'); the others are numbered from '#4' on. Only the first two carry a
      badge other than 'outline', and both are highlighted. */
  lemma RankPresentationAgrees(index: nat)
    ensures IsHighlighted(index) <==> RankLabel(index)[0] != '#'
    ensures !IsHighlighted(index) ==> RankLabel(index) == "#" + NatToString(index + 1)
    ensures RankBadgeVariant(index) != Outline ==> IsHighlighted(index)
    ensures RankBadgeVariant(index) == Default <==> index == 0
  {
    if index >= 3 {
      assert RankLabel(index)[0] == '#';
    }
  }
}
