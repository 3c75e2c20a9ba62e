/**
 * `GameReviewFormatter`: the text of a game review, one line per graded
 * ply under a five-line header. Numbers with decimals are rendered by
 * `String.format("%.2f", …)`, which is a parameter `fmt` here.
 */
module GameReviewFormatter {
  import opened Wrappers
  import opened Text
  import opened GameAnalyzer

  // ---------------------------------------------------------------------------
  // Tag labels
  // ---------------------------------------------------------------------------

  /**
   * `Character.isWhitespace`: the space, line and paragraph separators other
   * than the three non-breaking spaces, and the control characters tab to
   * carriage return and the four information separators.
   */
  predicate IsWhitespace(c: char)
  {
    ('\t' <= c <= '\r') || ('\U{1C}' <= c <= ' ')
    || c == '\U{1680}' || ('\U{2000}' <= c <= '\U{2006}') || ('\U{2008}' <= c <= '\U{200A}')
    || c == '\U{2028}' || c == '\U{2029}' || c == '\U{205F}' || c == '\U{3000}'
  }

  /** `String.isBlank`: empty or whitespace only. */
  predicate IsBlank(s: string)
  {
    forall i :: 0 <= i < |s| ==> IsWhitespace(s[i])
  }

  /** The ten tags `labelFor` decorates. */
  const KnownTags: seq<string> :=
    ["Brilliant", "Great", "Best", "Excellent", "Good", "Inaccuracy", "Mistake", "Severe Mistake", "Blunder", "Mate"]

  /** Their labels, in the same order. */
  const KnownLabels: seq<string> :=
    ["\U{1F48E} Brilliant", "✨ Great", "✔ Best", "\U{1F44D} Excellent", "\U{1F642} Good",
     "?! Inaccuracy", "?? Mistake", "☡ Severe mistake", "☠ Blunder (lost ≥7 pawns)",
     "♛ Forced Mate"]

  /** The label of a missing or blank tag. */
  const UnknownLabel: string := "• Unknown"

  /** `labelFor`: a tag (`None` for `null`) as the report shows it. */
  function LabelFor(tag: Option<string>): string
  {
    if tag.None? || IsBlank(tag.value) then UnknownLabel else LabelFrom(tag.value, 0)
  }

  /** The `switch` of `labelFor` from its `k`th case on: the label of the first known tag equal to `t`, else `t`. */
  function LabelFrom(t: string, k: nat): string
    requires k <= |KnownTags|
    decreases |KnownTags| - k
  {
    if k == |KnownTags| then t
    else if t == KnownTags[k] then KnownLabels[k]
    else LabelFrom(t, k + 1)
  }

  /** From case `k` on, a known tag at index `m` gets label `m`; a tag not among cases `k` on is shown as it is. */
  lemma {:induction false} LabelFromTable(t: string, k: nat)
    requires k <= |KnownTags|
    ensures forall m :: k <= m < |KnownTags| && t == KnownTags[m] ==> LabelFrom(t, k) == KnownLabels[m]
    ensures (forall m :: k <= m < |KnownTags| ==> t != KnownTags[m]) ==> LabelFrom(t, k) == t
    decreases |KnownTags| - k
  {
    if k < |KnownTags| {
      LabelFromTable(t, k + 1);
      if t == KnownTags[k] {
        KnownTagsDistinct();
      }
    }
  }

  /** No tag appears twice among the cases. */
  lemma KnownTagsDistinct()
    ensures forall j, k :: 0 <= j < k < |KnownTags| ==> KnownTags[j] != KnownTags[k]
  {
    forall j, k | 0 <= j < k < |KnownTags|
      ensures KnownTags[j] != KnownTags[k]
    {
      assert |KnownTags[j]| != |KnownTags[k]| || KnownTags[j][0] != KnownTags[k][0];
    }
  }

  /**
   * The label table: the `k`th known tag gets the `k`th known label, a
   * missing or blank tag reads `Unknown`, and any other tag is shown as it is.
   */
  lemma LabelForTable(tag: Option<string>)
    ensures tag.None? || IsBlank(tag.value) ==> LabelFor(tag) == UnknownLabel
    ensures forall k :: 0 <= k < |KnownTags| && tag == Some(KnownTags[k]) ==> LabelFor(tag) == KnownLabels[k]
    ensures tag.Some? && !IsBlank(tag.value) && tag.value !in KnownTags ==> LabelFor(tag) == tag.value
  {
    if tag.Some? {
      LabelFromTable(tag.value, 0);
      if tag.value in KnownTags {
        assert !IsBlank(tag.value) by {
          assert !IsWhitespace(tag.value[0]);
        }
      }
    }
  }

  /** The known labels differ from each other and from the `Unknown` label. */
  lemma KnownLabelsDistinct()
    ensures forall j, k :: 0 <= j < k < |KnownLabels| ==> KnownLabels[j] != KnownLabels[k]
    ensures UnknownLabel !in KnownLabels
  {
    forall j, k | 0 <= j < k < |KnownLabels|
      ensures KnownLabels[j] != KnownLabels[k]
    {
      assert KnownLabels[j][0] != KnownLabels[k][0] || KnownLabels[j][1] != KnownLabels[k][1];
    }
  }

  /** Every tag the analyzer hands out is one of the known ones, so it always gets its label. */
  lemma QualityTagKnown(playedBest: bool, loss: real, improvement: real, severity: string)
    ensures QualityTag(playedBest, loss, improvement, severity) in KnownTags
  {
  }

  // ---------------------------------------------------------------------------
  // One line per ply
  // ---------------------------------------------------------------------------

  /** `limitPv`: at most the first `max` moves of a principal variation. */
  function LimitPv(pv: seq<string>, max: nat): (r: seq<string>)
    ensures |r| == if |pv| <= max then |pv| else max
    ensures r == pv[..|r|]
  {
    if |pv| <= max then pv else pv[..max]
  }

  /** The move a label shows: the SAN of that ply when there is one and it is not `null`, else the move as played. */
  function ShownMove(plyIndex: nat, entry: Entry, sanMoves: seq<Option<string>>): string
  {
    var san := if plyIndex < |sanMoves| then sanMoves[plyIndex] else Some(entry.playedMove);
    if san.None? then entry.playedMove else san.value
  }

  /** `buildMoveLabel`: the move number, a dot for White or three for Black, and the move shown. */
  function BuildMoveLabel(plyIndex: nat, entry: Entry, sanMoves: seq<Option<string>>): string
  {
    var moveNumber := plyIndex / 2 + 1;
    NatString(moveNumber) + (if entry.isWhite then ". " else "... ") + ShownMove(plyIndex, entry, sanMoves)
  }

  /**
   * A move label reads back: it opens with the digits of the move number
   * `plyIndex / 2 + 1`, then a dot; a space follows that dot exactly for
   * White; and the label ends with the move shown.
   */
  lemma MoveLabelReadBack(plyIndex: nat, entry: Entry, sanMoves: seq<Option<string>>)
    ensures var text := BuildMoveLabel(plyIndex, entry, sanMoves);
      var k := |NatString(plyIndex / 2 + 1)|;
      && k + 2 <= |text|
      && (forall i :: 0 <= i < k ==> '0' <= text[i] <= '9')
      && DecimalValue(text[..k]) == plyIndex / 2 + 1
      && text[k] == '.'
      && (text[k + 1] == ' ' <==> entry.isWhite)
      && text[|text| - |ShownMove(plyIndex, entry, sanMoves)|..] == ShownMove(plyIndex, entry, sanMoves)
  {
    var d := NatString(plyIndex / 2 + 1);
    var sep := if entry.isWhite then ". " else "... ";
    var text := BuildMoveLabel(plyIndex, entry, sanMoves);
    NatStringValue(plyIndex / 2 + 1);
    assert text == d + sep + ShownMove(plyIndex, entry, sanMoves);
    assert text[..|d|] == d;
    assert text[|d|] == sep[0] && text[|d| + 1] == sep[1];
  }

  /** The `(loss …)` part of a line: left out for a mate. */
  function LossSegment(entry: Entry, fmt: real -> string): (s: string)
    ensures s == "" <==> StartsWith(entry.severity, "Mate")
  {
    if !StartsWith(entry.severity, "Mate") then " (loss " + fmt(entry.loss) + ")" else ""
  }

  /** The `| Best:` part of a line: `n/a` without a best move. */
  function BestSegment(entry: Entry): string
  {
    " | Best: " + (if entry.bestMove.None? then "n/a" else entry.bestMove.value)
  }

  /** The `| Line:` part of a line: up to six moves of the best line, and nothing without one. */
  function LineSegment(entry: Entry): (s: string)
    ensures s == "" <==> |entry.bestLine| == 0
  {
    if |entry.bestLine| > 0 then " | Line: " + Join(" ", LimitPv(entry.bestLine, 6)) else ""
  }

  /**
   * The report line of the `i`th entry, in the order `buildReport` appends
   * its parts: label, arrow and tag label, then the loss, best-move and
   * best-line parts.
   */
  function EntryLine(i: nat, entry: Entry, sanMoves: seq<Option<string>>, fmt: real -> string): string
  {
    BuildMoveLabel(i, entry, sanMoves) + " → " + LabelFor(Some(entry.qualityTag))
      + LossSegment(entry, fmt) + BestSegment(entry) + LineSegment(entry)
  }

  /** An entry's line opens with a digit of its move number. */
  lemma EntryLineOpensWithDigit(i: nat, entry: Entry, sanMoves: seq<Option<string>>, fmt: real -> string)
    ensures |EntryLine(i, entry, sanMoves, fmt)| > 0 && '0' <= EntryLine(i, entry, sanMoves, fmt)[0] <= '9'
  {
    var d := NatString(i / 2 + 1);
    assert EntryLine(i, entry, sanMoves, fmt)[0] == d[0];
  }

  /**
   * What follows the tag label: the loss part exactly when the severity is
   * not a mate, and the best-move part straight away for a mate.
   */
  lemma LineTail(entry: Entry, fmt: real -> string)
    ensures var tail := LossSegment(entry, fmt) + BestSegment(entry) + LineSegment(entry);
      && (StartsWith(tail, " (loss ") <==> !StartsWith(entry.severity, "Mate"))
      && (StartsWith(entry.severity, "Mate") ==> StartsWith(tail, " | Best: "))
  {
    var tail := LossSegment(entry, fmt) + BestSegment(entry) + LineSegment(entry);
    if StartsWith(entry.severity, "Mate") {
      assert tail[..9] == " | Best: ";
      assert tail[1] != " (loss "[1];
    } else {
      assert tail[..7] == " (loss ";
    }
  }

  // ---------------------------------------------------------------------------
  // The report
  // ---------------------------------------------------------------------------

  /** The five header lines: title, accuracies, error counts, losses and a rule. */
  function Header(summary: Summary, fmt: real -> string): seq<string>
  {
    ["Game Review powered by Stockfish",
     "Accuracy: White " + fmt(summary.whiteAccuracy) + "% | Black " + fmt(summary.blackAccuracy) + "%",
     "Blunders: " + NatString(summary.blunders) + ", Mistakes: " + NatString(summary.mistakes)
       + ", Inaccuracies: " + NatString(summary.inaccuracies),
     "Avg loss: " + fmt(summary.avgLoss) + " pawns | Max loss: " + fmt(summary.maxLoss),
     "---"]
  }

  /** The header, then `line(j, entries[j])` for each of the first `k` entries. */
  function ReportLines(summary: Summary, fmt: real -> string, line: (nat, Entry) -> string, k: nat): (ls: seq<string>)
    requires k <= |summary.entries|
    ensures |ls| == 5 + k && ls[..5] == Header(summary, fmt)
  {
    if k == 0 then Header(summary, fmt)
    else ReportLines(summary, fmt, line, k - 1) + [line(k - 1, summary.entries[k - 1])]
  }

  /** After the header, line `j` is the line of entry `j`. */
  lemma {:induction false} ReportLinesAt(summary: Summary, fmt: real -> string, line: (nat, Entry) -> string, k: nat, j: nat)
    requires j < k <= |summary.entries|
    ensures ReportLines(summary, fmt, line, k)[5 + j] == line(j, summary.entries[j])
  {
    if j < k - 1 {
      ReportLinesAt(summary, fmt, line, k - 1, j);
    }
  }

  /** `EntryLine` with the report's SAN moves and number format. */
  function LineOf(sanMoves: seq<Option<string>>, fmt: real -> string): (nat, Entry) -> string
  {
    (i: nat, entry: Entry) => EntryLine(i, entry, sanMoves, fmt)
  }

  /** The report `buildReport` returns. */
  function Report(summary: Summary, sanMoves: seq<Option<string>>, fmt: real -> string): seq<string>
  {
    ReportLines(summary, fmt, LineOf(sanMoves, fmt), |summary.entries|)
      + (if |summary.entries| == 0 then ["No moves to analyze."] else [])
  }

  /**
   * The report's shape: the five header lines, then exactly one line per
   * entry, in order, then `No moves to analyze.` exactly when there are no entries.
   */
  lemma ReportShape(summary: Summary, sanMoves: seq<Option<string>>, fmt: real -> string)
    ensures var r := Report(summary, sanMoves, fmt);
      var n := |summary.entries|;
      && |r| == 5 + n + (if n == 0 then 1 else 0)
      && r[..5] == Header(summary, fmt)
      && (forall i :: 0 <= i < n ==> r[5 + i] == EntryLine(i, summary.entries[i], sanMoves, fmt))
      && (r[|r| - 1] == "No moves to analyze." <==> n == 0)
  {
    var n := |summary.entries|;
    var ls := ReportLines(summary, fmt, LineOf(sanMoves, fmt), n);
    forall i | 0 <= i < n
      ensures Report(summary, sanMoves, fmt)[5 + i] == EntryLine(i, summary.entries[i], sanMoves, fmt)
    {
      ReportLinesAt(summary, fmt, LineOf(sanMoves, fmt), n, i);
    }
    if n > 0 {
      EntryLineOpensWithDigit(n - 1, summary.entries[n - 1], sanMoves, fmt);
      assert ls[5 + (n - 1)] != "No moves to analyze.";
    } else {
      assert Report(summary, sanMoves, fmt)[..5] == ls[..5];
    }
  }

  /** `buildReport`: the header, then one line per entry built part by part, then the note for an empty game. */
  method BuildReport(summary: Summary, sanMoves: seq<Option<string>>, fmt: real -> string) returns (lines: seq<string>)
    ensures lines == Report(summary, sanMoves, fmt)
  {
    lines := [];
    lines := lines + ["Game Review powered by Stockfish"];
    lines := lines + ["Accuracy: White " + fmt(summary.whiteAccuracy) + "% | Black " + fmt(summary.blackAccuracy) + "%"];
    lines := lines + ["Blunders: " + NatString(summary.blunders) + ", Mistakes: " + NatString(summary.mistakes)
                        + ", Inaccuracies: " + NatString(summary.inaccuracies)];
    lines := lines + ["Avg loss: " + fmt(summary.avgLoss) + " pawns | Max loss: " + fmt(summary.maxLoss)];
    lines := lines + ["---"];

    var entries := summary.entries;
    var i := 0;
    while i < |entries|
      invariant 0 <= i <= |entries|
      invariant lines == ReportLines(summary, fmt, LineOf(sanMoves, fmt), i)
    {
      var entry := entries[i];
      var moveLabel := BuildMoveLabel(i, entry, sanMoves);
      var sb := moveLabel + " → " + LabelFor(Some(entry.qualityTag));
      sb := sb + LossSegment(entry, fmt);
      sb := sb + BestSegment(entry);
      sb := sb + LineSegment(entry);
      lines := lines + [sb];
      i := i + 1;
    }
    if |entries| == 0 {
      lines := lines + ["No moves to analyze."];
    }
  }
}
