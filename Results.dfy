/** The student results page of `src/app/student/results/page.tsx`: the
    reshaping of fetched rows, the `m:ss` rendering of a duration, and the
    two score bands (text colour and badge) drawn at 80% and 60%. */
module Results {
  import opened Wrappers
  import opened Text
  import opened Badges

  // ---------------------------------------------------------------------
  // Rows

  /** A row as the results query returns it: the session's columns and the
      quiz's title and description side by side. */
  datatype ResultRow = ResultRow(
    id: string, quizId: string, score: int, totalQuestions: int, timeTaken: int,
    completedAt: string, title: string, description: string)

  datatype QuizSummary = QuizSummary(title: string, description: string)

  /** A result as the page keeps it, with the quiz's columns nested. */
  datatype QuizResult = QuizResult(
    id: string, quizId: string, score: int, totalQuestions: int, timeTaken: int,
    completedAt: string, quiz: QuizSummary)

  function ToResult(row: ResultRow): QuizResult {
    QuizResult(row.id, row.quizId, row.score, row.totalQuestions, row.timeTaken, row.completedAt,
               QuizSummary(row.title, row.description))
  }

  /** `resultsData.map(...)`: one result per row, in row order. */
  function ToResults(rows: seq<ResultRow>): (r: seq<QuizResult>)
    ensures |r| == |rows|
    ensures forall i :: 0 <= i < |rows| ==> r[i] == ToResult(rows[i])
  {
    seq(|rows|, i requires 0 <= i < |rows| => ToResult(rows[i]))
  }

  /** The flat row a result came from. */
  function FromResult(r: QuizResult): ResultRow {
    ResultRow(r.id, r.quizId, r.score, r.totalQuestions, r.timeTaken, r.completedAt, r.quiz.title, r.quiz.description)
  }

  function FromResults(results: seq<QuizResult>): (r: seq<ResultRow>)
    ensures |r| == |results|
    ensures forall i :: 0 <= i < |results| ==> r[i] == FromResult(results[i])
  {
    seq(|results|, i requires 0 <= i < |results| => FromResult(results[i]))
  }

  /** The reshaping loses nothing and reorders nothing: flattening the results
      again gives back the rows. */
  lemma ResultsRoundTrip(rows: seq<ResultRow>)
    ensures FromResults(ToResults(rows)) == rows
  {
  }

  // ---------------------------------------------------------------------
  // Durations

  /** JavaScript's `a % b` for `b > 0`: the remainder takes the sign of `a`. */
  function JsRem(a: int, b: int): (r: int)
    requires b > 0
    ensures a >= 0 ==> 0 <= r < b
    ensures a < 0 ==> -b < r <= 0
    ensures a - r == b * (if a >= 0 then a / b else -((-a) / b))
  {
    if a >= 0 then a % b else -((-a) % b)
  }

  /** `formatTime`: `Math.floor(seconds / 60)`, a colon, and `seconds % 60`
      padded to two characters with '0'. */
  function FormatTime(seconds: int): string {
    IntToString(seconds / 60) + ":" + PadStart2(IntToString(JsRem(seconds, 60)))
  }

  /** The position of the first ':' in `t`, or `|t|` when there is none. */
  function IndexOfColon(t: string): (k: nat)
    ensures k <= |t|
    ensures k < |t| ==> t[k] == ':'
    ensures forall i :: 0 <= i < k ==> t[i] != ':'
  {
    if t == [] then 0
    else if t[0] == ':' then 0
    else 1 + IndexOfColon(t[1..])
  }

  /** Minutes and a two-digit seconds field read back to seconds. */
  function ParseFields(mins: string, secs: string): Option<int> {
    if mins != [] && AllDigits(mins) && |secs| == 2 && AllDigits(secs)
    then Some(60 * ParseDigits(mins) + ParseDigits(secs))
    else None
  }

  /** Reading an `m:ss` duration back to seconds. */
  function ParseTime(t: string): Option<int> {
    var k := IndexOfColon(t);
    if k == |t| then None else ParseFields(t[..k], t[k + 1..])
  }

  /** A leading '0' does not change the value of a digit string. */
  lemma {:induction false} ParseLeadingZero(s: string)
    requires AllDigits(s)
    ensures AllDigits("0" + s) && ParseDigits("0" + s) == ParseDigits(s)
  {
    if s != [] {
      ParseLeadingZero(s[..|s| - 1]);
      assert ("0" + s)[..|s|] == "0" + s[..|s| - 1];
    }
  }

  /** The two-character seconds field of a non-negative duration. */
  lemma {:induction false} SecondsField(secs: nat)
    requires secs < 60
    ensures var f := PadStart2(NatToString(secs));
      |f| == 2 && AllDigits(f) && ParseDigits(f) == secs
  {
    var d := NatToString(secs);
    ParseNatToString(secs);
    if secs < 10 {
      assert PadStart2(d) == "0" + d;
      ParseLeadingZero(d);
    } else {
      assert |d| == 2;
    }
  }

  /** The first colon of `mins + ":" + rest` is the one after `mins` when
      `mins` holds none. */
  lemma {:induction false} ColonAfterField(mins: string, rest: string)
    requires forall i :: 0 <= i < |mins| ==> mins[i] != ':'
    ensures IndexOfColon(mins + ":" + rest) == |mins|
  {
    if mins != [] {
      ColonAfterField(mins[1..], rest);
      assert (mins + ":" + rest)[1..] == mins[1..] + ":" + rest;
    }
  }

  /** Reading back minutes, a colon and a two-digit seconds field. */
  lemma {:induction false} ParseTimeOfFields(mins: string, secs: string)
    requires mins != [] && AllDigits(mins) && |secs| == 2 && AllDigits(secs)
    ensures ParseTime(mins + ":" + secs) == Some(60 * ParseDigits(mins) + ParseDigits(secs))
  {
    var t := mins + ":" + secs;
    assert ParseTime(t) == ParseFields(mins, secs) by {
      ColonAfterField(mins, secs);
      assert t[..|mins|] == mins;
      assert t[|mins| + 1..] == secs;
    }
  }

  /** For a non-negative duration the text is the whole minutes, a colon and
      two digits of seconds below 60, and reading it back gives the
      duration. */
  lemma {:induction false} FormatTimeRoundTrip(seconds: int)
    requires seconds >= 0
    ensures FormatTime(seconds) == NatToString(seconds / 60) + ":" + PadStart2(NatToString(seconds % 60))
    ensures 60 * (seconds / 60) + seconds % 60 == seconds && seconds % 60 < 60
    ensures ParseTime(FormatTime(seconds)) == Some(seconds)
  {
    var m := NatToString(seconds / 60);
    var f := PadStart2(NatToString(seconds % 60));
    assert FormatTime(seconds) == m + ":" + f by {
      assert IntToString(seconds / 60) == m;
      assert JsRem(seconds, 60) == seconds % 60;
    }
    assert ParseTime(m + ":" + f) == Some(seconds) by {
      SecondsField(seconds % 60);
      ParseNatToString(seconds / 60);
      ParseTimeOfFields(m, f);
    }
  }

  // ---------------------------------------------------------------------
  // Score bands

  /** `(score / total) * 100`, exactly. */
  function ScorePercent(score: int, total: int): real
    requires total > 0
  {
    (score as real / total as real) * 100.0
  }

  /** The percentage reaches `bound` exactly when `100 * score` reaches
      `bound * total`. */
  lemma PercentAtLeast(score: int, total: int, bound: int)
    requires total > 0
    ensures ScorePercent(score, total) >= bound as real <==> 100 * score >= bound * total
  {
    var p := score as real / total as real;
    assert p * total as real == score as real;
    assert ScorePercent(score, total) * total as real == 100.0 * score as real;
  }

  const Green := "text-green-600"
  const Yellow := "text-yellow-600"
  const Red := "text-red-600"

  /** `getScoreColor`. A total of 0 is excluded: the source divides by it. */
  function ScoreColor(score: int, total: int): (r: string)
    requires total > 0
    ensures r == Green <==> 100 * score >= 80 * total
    ensures r == Yellow <==> 60 * total <= 100 * score < 80 * total
    ensures r == Red <==> 100 * score < 60 * total
  {
    PercentAtLeast(score, total, 80);
    PercentAtLeast(score, total, 60);
    var percentage := ScorePercent(score, total);
    if percentage >= 80.0 then Green
    else if percentage >= 60.0 then Yellow
    else Red
  }

  /** `getScoreBadgeVariant`. */
  function ScoreBadgeVariant(score: int, total: int): (r: BadgeVariant)
    requires total > 0
    ensures r == Default <==> 100 * score >= 80 * total
    ensures r == Secondary <==> 60 * total <= 100 * score < 80 * total
    ensures r == Destructive <==> 100 * score < 60 * total
  {
    PercentAtLeast(score, total, 80);
    PercentAtLeast(score, total, 60);
    var percentage := ScorePercent(score, total);
    if percentage >= 80.0 then Default
    else if percentage >= 60.0 then Secondary
    else Destructive
  }

  /** The colour and the badge of a score always fall in the same band. */
  lemma ColorAndBadgeAgree(score: int, total: int)
    requires total > 0
    ensures ScoreColor(score, total) == Green <==> ScoreBadgeVariant(score, total) == Default
    ensures ScoreColor(score, total) == Yellow <==> ScoreBadgeVariant(score, total) == Secondary
    ensures ScoreColor(score, total) == Red <==> ScoreBadgeVariant(score, total) == Destructive
  {
  }

  /** A better score never falls in a lower band. */
  lemma BandsAreMonotone(score: int, better: int, total: int)
    requires total > 0 && score <= better
    ensures ScoreColor(score, total) == Green ==> ScoreColor(better, total) == Green
    ensures ScoreColor(better, total) == Red ==> ScoreColor(score, total) == Red
  {
  }
}
