/**
 * The daily summary message: today's per-class counts read from the store
 * with a default of 0, their total, and the text sent to LINE.
 */
module DailySummary {
  import opened Common
  import opened Strings
  import opened DetectionStore

  /** The three counts the message names, and the total over every class. */
  datatype SummaryCounts = SummaryCounts(chige: nat, motsu: nat, other: nat, total: nat)

  /** The three class names the message reports on. */
  predicate IsNamedClass(c: string) {
    c == "chige" || c == "motsu" || c == "other"
  }

  /** `stats.get(name, 0)` for the three names and `sum(stats.values())`. */
  function Counts(stats: Stats): (c: SummaryCounts)
    ensures c.chige == (if Lookup(stats, "chige").Some? then Lookup(stats, "chige").value else 0)
    ensures c.motsu == (if Lookup(stats, "motsu").Some? then Lookup(stats, "motsu").value else 0)
    ensures c.other == (if Lookup(stats, "other").Some? then Lookup(stats, "other").value else 0)
    ensures stats == [] ==> c == SummaryCounts(0, 0, 0, 0)
  {
    SummaryCounts(GetOr(stats, "chige", 0), GetOr(stats, "motsu", 0), GetOr(stats, "other", 0), SumValues(stats))
  }

  /** The sum of the values of the classes the message does not name. */
  function SumUnnamed(stats: Stats): nat {
    if stats == [] then 0
    else (if IsNamedClass(stats[0].0) then 0 else stats[0].1) + SumUnnamed(stats[1..])
  }

  /** The total is the three named counts plus every other class's count. */
  lemma {:induction false} TotalSplitsByName(stats: Stats)
    requires DistinctKeys(stats)
    ensures var c := Counts(stats);
            c.total == c.chige + c.motsu + c.other + SumUnnamed(stats)
  {
    if stats != [] {
      var tail := stats[1..];
      TotalSplitsByName(tail);
    }
  }

  /** `SumUnnamed` is zero exactly when every unnamed class has a zero count. */
  lemma {:induction false} SumUnnamedZero(stats: Stats)
    ensures SumUnnamed(stats) == 0 <==>
              forall i :: 0 <= i < |stats| && !IsNamedClass(stats[i].0) ==> stats[i].1 == 0
  {
    if stats != [] {
      SumUnnamedZero(stats[1..]);
      assert forall i :: 1 <= i < |stats| ==> stats[i] == stats[1..][i - 1];
    }
  }

  /** The total is at least chige + motsu + other. */
  lemma TotalCoversNamedCounts(stats: Stats)
    requires DistinctKeys(stats)
    ensures var c := Counts(stats); c.total >= c.chige + c.motsu + c.other
  {
    TotalSplitsByName(stats);
  }

  /** When chige, motsu and other are the only classes, the total is their sum. */
  lemma OnlyNamedClassesTotal(stats: Stats)
    requires DistinctKeys(stats)
    requires forall i :: 0 <= i < |stats| ==> IsNamedClass(stats[i].0)
    ensures var c := Counts(stats); c.total == c.chige + c.motsu + c.other
  {
    TotalSplitsByName(stats);
    SumUnnamedZero(stats);
  }

  /**
   * With positive counts, as the store reports them, a total equal to
   * chige + motsu + other means there is no other class.
   */
  lemma NamedSumMeansOnlyNamedClasses(stats: Stats)
    requires DistinctKeys(stats)
    requires forall i :: 0 <= i < |stats| ==> stats[i].1 > 0
    requires var c := Counts(stats); c.total == c.chige + c.motsu + c.other
    ensures forall i :: 0 <= i < |stats| ==> IsNamedClass(stats[i].0)
  {
    TotalSplitsByName(stats);
    SumUnnamedZero(stats);
  }

  /** `"\n".join(lines)`. */
  function JoinLines(lines: seq<string>): (s: string)
    ensures lines != [] ==> StartsWith(s, lines[0])
  {
    if lines == [] then []
    else if |lines| == 1 then lines[0]
    else
      var s := lines[0] + "\n" + JoinLines(lines[1..]);
      assert s[..|lines[0]|] == lines[0];
      s
  }

  /** Every line appears in the joined text. */
  lemma {:induction false} JoinLinesContainsLine(lines: seq<string>, i: nat)
    requires i < |lines|
    ensures Contains(JoinLines(lines), lines[i])
  {
    var s := JoinLines(lines);
    if i == 0 {
      assert OccursAt(s, lines[0], 0);
    } else {
      var tail := JoinLines(lines[1..]);
      JoinLinesContainsLine(lines[1..], i - 1);
      var k: nat :| OccursAt(tail, lines[i], k);
      var offset := |lines[0]| + 1;
      assert s == lines[0] + "\n" + tail;
      assert s[offset + k..offset + k + |lines[i]|] == tail[k..k + |lines[i]|];
      assert OccursAt(s, lines[i], offset + k);
    }
  }

  const ChigeLabel: string := "🐈 三毛猫（ちげ）: "
  const MotsuLabel: string := "🐈‍⬛ 白黒猫（もつ）: "
  const OtherLabel: string := "❓ その他: "
  const TotalLabel: string := "📈 合計検出数: "
  const TimesSuffix: string := "回"

  /** One count line: caption, decimal count, "回". */
  function CountLine(caption: string, n: nat): string {
    caption + NatToString(n) + TimesSuffix
  }

  /**
   * The lines of the summary message: a header, the timestamp, a blank
   * line, the chige, motsu, other and total lines in that order, a blank
   * line and the closing line.
   */
  function SummaryLines(stats: Stats, timestamp: string): (lines: seq<string>)
    ensures |lines| == 9
    ensures lines[3] == CountLine(ChigeLabel, GetOr(stats, "chige", 0))
    ensures lines[4] == CountLine(MotsuLabel, GetOr(stats, "motsu", 0))
    ensures lines[5] == CountLine(OtherLabel, GetOr(stats, "other", 0))
    ensures lines[6] == CountLine(TotalLabel, SumValues(stats))
  {
    var c := Counts(stats);
    [ "📊 本日の検出サマリー",
      "📅 " + timestamp,
      "",
      CountLine(ChigeLabel, c.chige),
      CountLine(MotsuLabel, c.motsu),
      CountLine(OtherLabel, c.other),
      CountLine(TotalLabel, c.total),
      "",
      "本日の監視を終了します。おやすみなさい💤" ]
  }

  /** The message handed to `send_message`. */
  function SummaryMessage(stats: Stats, timestamp: string): (message: string)
    ensures Contains(message, CountLine(ChigeLabel, GetOr(stats, "chige", 0)))
    ensures Contains(message, CountLine(MotsuLabel, GetOr(stats, "motsu", 0)))
    ensures Contains(message, CountLine(OtherLabel, GetOr(stats, "other", 0)))
    ensures Contains(message, CountLine(TotalLabel, SumValues(stats)))
  {
    var lines := SummaryLines(stats, timestamp);
    JoinLinesContainsLine(lines, 3);
    JoinLinesContainsLine(lines, 4);
    JoinLinesContainsLine(lines, 5);
    JoinLinesContainsLine(lines, 6);
    JoinLines(lines)
  }

  /** The number printed on a count line reads back as that count. */
  lemma CountLineReadsBack(caption: string, n: nat)
    ensures var line := CountLine(caption, n);
            ParseInt(line[|caption|..|line| - |TimesSuffix|]) == Some(n)
  {
    var line := CountLine(caption, n);
    assert line[|caption|..|line| - |TimesSuffix|] == NatToString(n);
    ParseIntOfNatToString(n);
  }
}
