/**
 * `GameAnalyzer`: a finished game is replayed through the engine one ply at
 * a time. Each move is graded by the evaluation it gave away, and the grades
 * are summed up for the game and for each side. Evaluations are in pawns and
 * are modelled as exact `real`s.
 */
module GameAnalyzer {
  import opened Wrappers
  import opened Text

  /** The engine's answer about a position: score in centipawns, mate distance, best move and principal variation. */
  datatype EngineResult = EngineResult(scoreCp: int, mate: Option<int>, bestMove: Option<string>, pv: seq<string>)

  /**
   * The engine as the analyzer sees it: from the moves played so far to its
   * answer, or `None` when the call fails with an I/O error (`analyze` then
   * throws). The analyzer hands the engine those moves joined by spaces; the
   * engine depends on nothing else, so it is modelled as a function of the list.
   */
  type Engine = seq<string> -> Option<EngineResult>

  /** One graded ply. */
  datatype Entry = Entry(plyIndex: nat, isWhite: bool, playedMove: string, bestMove: Option<string>,
                         bestLine: seq<string>, evalBefore: real, evalAfter: real, loss: real,
                         severity: string, qualityTag: string)

  /** The aggregate `Summary` builds from the entries. */
  datatype Summary = Summary(avgLoss: real, inaccuracies: nat, mistakes: nat, blunders: nat, bestCount: nat,
                             accuracyScore: real, maxLoss: real, minLoss: real, whiteAccuracy: real,
                             blackAccuracy: real, totalMoves: nat, entries: seq<Entry>)

  /** `Math.max(0, x)`. */
  function Clamp(x: real): (r: real)
    ensures r >= 0.0 && r >= x && (r == x || r == 0.0)
  {
    if x < 0.0 then 0.0 else x
  }

  // ---------------------------------------------------------------------------
  // Grading one move
  // ---------------------------------------------------------------------------

  /** `classify`: the severity of a loss in pawns; a gain counts as no loss. */
  function Classify(loss: real): string
  {
    var delta := Clamp(loss);
    if delta >= 7.0 then "Blunder"
    else if delta >= 4.0 then "Mistake"
    else if delta >= 2.0 then "Inaccuracy"
    else "Good"
  }

  /** The position of a severity on the ladder from `Good` to `Blunder`. */
  function SeverityRank(severity: string): nat
  {
    if severity == "Good" then 0
    else if severity == "Inaccuracy" then 1
    else if severity == "Mistake" then 2
    else 3
  }

  /** The four bands of `classify`, each an interval of the loss. */
  lemma ClassifyBands(loss: real)
    ensures Classify(loss) == "Blunder" <==> loss >= 7.0
    ensures Classify(loss) == "Mistake" <==> 4.0 <= loss < 7.0
    ensures Classify(loss) == "Inaccuracy" <==> 2.0 <= loss < 4.0
    ensures Classify(loss) == "Good" <==> loss < 2.0
  {
  }

  /** A larger loss is never classified as less severe. */
  lemma ClassifyMonotone(a: real, b: real)
    requires a <= b
    ensures SeverityRank(Classify(a)) <= SeverityRank(Classify(b))
  {
  }

  /** `isTopTier`. */
  predicate IsTopTier(tag: string)
  {
    tag == "Brilliant" || tag == "Great" || tag == "Best" || tag == "Excellent"
  }

  /** `determineQualityTag`: the finer-grained tag of a move. */
  function QualityTag(playedBest: bool, loss: real, improvement: real, severity: string): string
  {
    if StartsWith(severity, "Mate") then "Mate"
    else
      var absLoss := Clamp(loss);
      var absGain := Clamp(improvement);
      if playedBest && absGain >= 1.5 then "Brilliant"
      else if playedBest && absGain >= 0.5 then "Great"
      else if playedBest then "Best"
      else if absLoss < 0.15 then "Excellent"
      else if absLoss < 0.5 then "Good"
      else if absLoss < 1.5 then "Inaccuracy"
      else if absLoss < 4.0 then "Mistake"
      else if absLoss < 7.0 then "Severe Mistake"
      else "Blunder"
  }

  /** The position of a quality tag of a move other than the engine's best, from `Excellent` to `Blunder`. */
  function QualityRank(tag: string): nat
  {
    if tag == "Excellent" then 0
    else if tag == "Good" then 1
    else if tag == "Inaccuracy" then 2
    else if tag == "Mistake" then 3
    else if tag == "Severe Mistake" then 4
    else 5
  }

  /**
   * The tag is `Mate` exactly for a mate severity; otherwise the three
   * best-move tags are given exactly when the best move was played, and a
   * top-tier tag exactly when the best move was played or almost nothing was lost.
   */
  lemma QualityTagCases(playedBest: bool, loss: real, improvement: real, severity: string)
    ensures var tag := QualityTag(playedBest, loss, improvement, severity);
      && (tag == "Mate" <==> StartsWith(severity, "Mate"))
      && (!StartsWith(severity, "Mate") ==>
            && (tag in {"Brilliant", "Great", "Best"} <==> playedBest)
            && (IsTopTier(tag) <==> playedBest || loss < 0.15))
  {
  }

  /** For a move other than the engine's best, a larger loss never earns a better tag. */
  lemma QualityTagMonotone(loss1: real, loss2: real, improvement1: real, improvement2: real, severity: string)
    requires loss1 <= loss2 && !StartsWith(severity, "Mate")
    ensures QualityRank(QualityTag(false, loss1, improvement1, severity))
         <= QualityRank(QualityTag(false, loss2, improvement2, severity))
  {
  }

  /** The severity an entry records: `Mate in N` when the engine saw a mate before the move, else the class of the loss. */
  function Severity(loss: real, before: EngineResult): string
  {
    if before.mate.Some? then "Mate in " + IntString(before.mate.value) else Classify(loss)
  }

  /** A change of evaluation seen from the mover's side: multiplied by 1 for White and by -1 for Black. */
  function Signed(change: real, white: bool): real
  {
    if white then change else -change
  }

  /** The entry for ply `i`: `move` is played from the position `before` describes into the one `after` describes. */
  function Grade(i: nat, move: string, before: EngineResult, after: EngineResult): Entry
  {
    var evalBefore := before.scoreCp as real / 100.0;
    var evalAfter := after.scoreCp as real / 100.0;
    var white := i % 2 == 0;
    var loss := -Signed(evalAfter - evalBefore, white);
    var severity := Severity(loss, before);
    Entry(i, white, move, before.bestMove, before.pv, evalBefore, evalAfter, loss, severity,
          QualityTag(before.bestMove == Some(move), loss, -loss, severity))
  }

  /**
   * What a graded entry says: even plies are White's; the loss is the drop
   * of the mover's evaluation; the severity and the tag say `Mate` exactly
   * when the engine reported a mate before the move; a best-move tag only
   * for the engine's best move, and `Brilliant` only when it gained at least
   * 1.5 pawns.
   */
  lemma GradeMeaning(i: nat, move: string, before: EngineResult, after: EngineResult)
    ensures var e := Grade(i, move, before, after);
      && e.plyIndex == i && e.isWhite == (i % 2 == 0) && e.playedMove == move
      && e.bestMove == before.bestMove && e.bestLine == before.pv
      && e.loss * 100.0 == (if i % 2 == 0 then before.scoreCp - after.scoreCp else after.scoreCp - before.scoreCp) as real
      && (StartsWith(e.severity, "Mate") <==> before.mate.Some?)
      && (e.qualityTag == "Mate" <==> before.mate.Some?)
      && (e.qualityTag in {"Brilliant", "Great", "Best"} ==> before.bestMove == Some(move))
      && (e.qualityTag == "Brilliant" ==> e.loss <= -1.5)
  {
    var e := Grade(i, move, before, after);
    if before.mate.Some? {
      assert e.severity[..4] == "Mate";
    } else {
      ClassifyNotMate(e.loss);
    }
    QualityTagCases(before.bestMove == Some(move), e.loss, -e.loss, e.severity);
  }

  /** No class of a loss reads as a mate. */
  lemma ClassifyNotMate(loss: real)
    ensures !StartsWith(Classify(loss), "Mate")
  {
    var c := Classify(loss);
    assert |c| >= 4 && c[1] != "Mate"[1];
  }

  /** The evaluations and the mover's colour of a graded entry. */
  lemma GradeEvaluations(i: nat, move: string, before: EngineResult, after: EngineResult)
    ensures Grade(i, move, before, after).evalBefore == before.scoreCp as real / 100.0
    ensures Grade(i, move, before, after).evalAfter == after.scoreCp as real / 100.0
    ensures Grade(i, move, before, after).isWhite == (i % 2 == 0)
  {
  }

  /** Two consecutive plies graded through the shared answer `b`. */
  lemma GradeChain(i: nat, move1: string, move2: string, a: EngineResult, b: EngineResult, c: EngineResult)
    ensures Grade(i, move1, a, b).evalAfter == Grade(i + 1, move2, b, c).evalBefore
    ensures Grade(i, move1, a, b).isWhite != Grade(i + 1, move2, b, c).isWhite
  {
    GradeEvaluations(i, move1, a, b);
    GradeEvaluations(i + 1, move2, b, c);
  }

  // ---------------------------------------------------------------------------
  // Replaying the game
  // ---------------------------------------------------------------------------

  /** The engine's answer about the position after the first `n` moves. */
  function Answer(engine: Engine, moves: seq<string>, n: nat): Option<EngineResult>
    requires n <= |moves|
  {
    engine(moves[..n])
  }

  /** The engine answered about the starting position and the position after each of the first `k` moves. */
  predicate AnsweredThrough(engine: Engine, moves: seq<string>, k: nat)
    requires k <= |moves|
  {
    Answer(engine, moves, k).Some? && (k == 0 || AnsweredThrough(engine, moves, k - 1))
  }

  /** The engine answered about every position of the game, the starting one included. */
  predicate Answered(engine: Engine, moves: seq<string>)
  {
    AnsweredThrough(engine, moves, |moves|)
  }

  /** Answering through position `k` is answering about each position up to `k`. */
  lemma {:induction false} AnsweredThroughMeans(engine: Engine, moves: seq<string>, k: nat)
    requires k <= |moves|
    ensures AnsweredThrough(engine, moves, k) <==> forall n :: 0 <= n <= k ==> Answer(engine, moves, n).Some?
  {
    if k > 0 {
      AnsweredThroughMeans(engine, moves, k - 1);
    }
  }

  /** The entry of ply `i`, graded from the answers before and after it. */
  function GradeAt(engine: Engine, moves: seq<string>, i: nat): Entry
    requires i < |moves| && AnsweredThrough(engine, moves, i + 1)
  {
    assert AnsweredThrough(engine, moves, i);
    Grade(i, moves[i], Answer(engine, moves, i).value, Answer(engine, moves, i + 1).value)
  }

  /** The entries of the first `k` plies: ply `i` graded from the answers about positions `i` and `i + 1`. */
  function Graded(engine: Engine, moves: seq<string>, k: nat): (es: seq<Entry>)
    requires k <= |moves| && AnsweredThrough(engine, moves, k)
    ensures |es| == k
  {
    if k == 0 then [] else Graded(engine, moves, k - 1) + [GradeAt(engine, moves, k - 1)]
  }

  /** Entry `i` of the first `k` is ply `i` graded from the answers about positions `i` and `i + 1`. */
  lemma {:induction false} GradedAt(engine: Engine, moves: seq<string>, k: nat, i: nat)
    requires k <= |moves| && AnsweredThrough(engine, moves, k) && i < k
    ensures AnsweredThrough(engine, moves, i + 1) && Graded(engine, moves, k)[i] == GradeAt(engine, moves, i)
  {
    if i < k - 1 {
      GradedAt(engine, moves, k - 1, i);
    }
  }

  /** The entries of a game the engine answered about throughout: one per move, in order. */
  function Entries(engine: Engine, moves: seq<string>): seq<Entry>
    requires Answered(engine, moves)
  {
    Graded(engine, moves, |moves|)
  }

  /**
   * Consecutive entries share a position: the evaluation after ply `i` is
   * the evaluation before ply `i + 1`, and the plies alternate colours.
   */
  lemma EntriesChain(engine: Engine, moves: seq<string>, i: nat)
    requires Answered(engine, moves) && i + 1 < |moves|
    ensures Entries(engine, moves)[i].evalAfter == Entries(engine, moves)[i + 1].evalBefore
    ensures Entries(engine, moves)[i].isWhite != Entries(engine, moves)[i + 1].isWhite
  {
    GradedAt(engine, moves, |moves|, i);
    GradedAt(engine, moves, |moves|, i + 1);
    GradeChain(i, moves[i], moves[i + 1],
               Answer(engine, moves, i).value, Answer(engine, moves, i + 1).value, Answer(engine, moves, i + 2).value);
  }

  /**
   * `analyze`. Without an engine the summary has no entries. Otherwise the
   * engine is asked about the starting position and then about the position
   * after each move; an I/O error on any call ends the analysis with no
   * summary, and when every call succeeds the summary is built from one
   * graded entry per move.
   */
  method Analyze(engine: Engine, engineConfigured: bool, moves: seq<string>) returns (r: Option<Summary>)
    ensures !engineConfigured ==> r == Some(NewSummary([]))
    ensures engineConfigured ==> (r.Some? <==> Answered(engine, moves))
    ensures engineConfigured && r.Some? ==> r.value == NewSummary(Entries(engine, moves))
  {
    var result: seq<Entry> := [];
    if !engineConfigured {
      return Some(NewSummary(result));
    }
    var before := engine([]);
    assert moves[..0] == [] && before == Answer(engine, moves, 0);
    if before.None? {
      AnsweredThroughMeans(engine, moves, |moves|);
      return None;
    }
    var i := 0;
    while i < |moves|
      invariant 0 <= i <= |moves|
      invariant before == Answer(engine, moves, i) && AnsweredThrough(engine, moves, i)
      invariant result == Graded(engine, moves, i)
    {
      var move := moves[i];
      // the moves played so far, `history` in `analyze`
      var after := engine(moves[..i + 1]);
      assert after == Answer(engine, moves, i + 1);
      if after.None? {
        AnsweredThroughMeans(engine, moves, |moves|);
        return None;
      }
      var entry := Grade(i, move, before.value, after.value);
      result := result + [entry];
      before := after;
      i := i + 1;
    }
    return Some(NewSummary(result));
  }

  // ---------------------------------------------------------------------------
  // The summary
  // ---------------------------------------------------------------------------

  /** The sum of the clamped losses. */
  function LossSum(es: seq<Entry>): (r: real)
    ensures r >= 0.0
  {
    if |es| == 0 then 0.0 else Clamp(es[0].loss) + LossSum(es[1..])
  }

  /** The largest clamped loss, 0 when there is none. */
  function MaxLoss(es: seq<Entry>): (r: real)
    ensures r >= 0.0
  {
    if |es| == 0 then 0.0
    else if Clamp(es[0].loss) >= MaxLoss(es[1..]) then Clamp(es[0].loss)
    else MaxLoss(es[1..])
  }

  /** The smallest clamped loss, 0 when there is none. */
  function MinLoss(es: seq<Entry>): (r: real)
    ensures r >= 0.0
  {
    if |es| == 0 then 0.0
    else if |es| == 1 || Clamp(es[0].loss) <= MinLoss(es[1..]) then Clamp(es[0].loss)
    else MinLoss(es[1..])
  }

  /** The number of entries of the given severity. */
  function CountSeverity(es: seq<Entry>, severity: string): (n: nat)
    ensures n <= |es|
  {
    if |es| == 0 then 0 else (if es[0].severity == severity then 1 else 0) + CountSeverity(es[1..], severity)
  }

  /** The number of entries with a top-tier quality tag. */
  function CountTopTier(es: seq<Entry>): (n: nat)
    ensures n <= |es|
  {
    if |es| == 0 then 0 else (if IsTopTier(es[0].qualityTag) then 1 else 0) + CountTopTier(es[1..])
  }

  /** The entries of one side's moves, in order. */
  function Side(es: seq<Entry>, white: bool): (s: seq<Entry>)
    ensures |s| <= |es|
    ensures forall e :: e in s <==> e in es && e.isWhite == white
  {
    if |es| == 0 then [] else (if es[0].isWhite == white then [es[0]] else []) + Side(es[1..], white)
  }

  /** The accuracy of a run of moves: 100 without moves, else 100 less a fifth of the average clamped loss, not below 0. */
  function Accuracy(es: seq<Entry>): real
  {
    if |es| == 0 then 100.0 else Clamp(100.0 - (LossSum(es) / (|es| as real * 500.0)) * 100.0)
  }

  /** The average clamped loss, 0 when there are no entries. */
  function AverageLoss(es: seq<Entry>): real
  {
    if |es| == 0 then 0.0 else LossSum(es) / |es| as real
  }

  /** The `Summary` constructor; `computeSideAccuracy` is `Accuracy` of one side's entries. */
  function NewSummary(es: seq<Entry>): Summary
  {
    Summary(AverageLoss(es), CountSeverity(es, "Inaccuracy"), CountSeverity(es, "Mistake"),
            CountSeverity(es, "Blunder"), CountTopTier(es), Accuracy(es), MaxLoss(es), MinLoss(es),
            Accuracy(Side(es, true)), Accuracy(Side(es, false)), |es|, es)
  }

  /** `n` copies of `a` added up: a product kept linear for the solver. */
  function Repeat(a: real, n: nat): real
  {
    if n == 0 then 0.0 else a + Repeat(a, n - 1)
  }

  lemma {:induction false} RepeatIsProduct(a: real, n: nat)
    ensures Repeat(a, n) == a * n as real
  {
    if n > 0 {
      RepeatIsProduct(a, n - 1);
    }
  }

  lemma {:induction false} RepeatMonotone(a: real, b: real, n: nat)
    requires a <= b
    ensures Repeat(a, n) <= Repeat(b, n)
  {
    if n > 0 {
      RepeatMonotone(a, b, n - 1);
    }
  }

  /** The clamped losses add up to between `n` times the smallest and `n` times the largest. */
  lemma {:induction false} LossSumBetween(es: seq<Entry>)
    requires |es| > 0
    ensures Repeat(MinLoss(es), |es|) <= LossSum(es) <= Repeat(MaxLoss(es), |es|)
  {
    var x, rest := Clamp(es[0].loss), es[1..];
    if |rest| == 0 {
      assert LossSum(rest) == 0.0 && MaxLoss(rest) == 0.0;
    } else {
      LossSumBetween(rest);
      RepeatMonotone(MinLoss(es), MinLoss(rest), |rest|);
      RepeatMonotone(MaxLoss(rest), MaxLoss(es), |rest|);
    }
  }

  /** A sum between `n` times two bounds has its mean between them. */
  lemma MeanBetween(lo: real, sum: real, hi: real, n: nat)
    requires n > 0 && Repeat(lo, n) <= sum <= Repeat(hi, n)
    ensures lo <= sum / n as real <= hi
  {
    RepeatIsProduct(lo, n);
    RepeatIsProduct(hi, n);
    ProductMean(lo, sum, hi, n as real);
  }

  lemma ProductMean(lo: real, sum: real, hi: real, m: real)
    requires m > 0.0 && lo * m <= sum <= hi * m
    ensures lo <= sum / m <= hi
  {
    assert lo == lo * m / m;
    assert hi == hi * m / m;
  }

  /** The summary's losses are ordered: 0 <= min <= average <= max, and all three are 0 without entries. */
  lemma SummaryLossOrder(es: seq<Entry>)
    ensures var s := NewSummary(es);
      && 0.0 <= s.minLoss <= s.avgLoss <= s.maxLoss
      && (|es| == 0 ==> s.minLoss == s.avgLoss == s.maxLoss == 0.0)
  {
    LossOrder(es);
  }

  lemma LossOrder(es: seq<Entry>)
    ensures 0.0 <= MinLoss(es) <= AverageLoss(es) <= MaxLoss(es)
    ensures |es| == 0 ==> MinLoss(es) == AverageLoss(es) == MaxLoss(es) == 0.0
  {
    if |es| > 0 {
      LossSumBetween(es);
      MeanBetween(MinLoss(es), LossSum(es), MaxLoss(es), |es|);
    }
  }

  /** An accuracy lies between 0 and 100. */
  lemma AccuracyRange(es: seq<Entry>)
    ensures 0.0 <= Accuracy(es) <= 100.0
  {
    if |es| > 0 {
      var d := |es| as real * 500.0;
      assert LossSum(es) / d >= 0.0;
    }
  }

  /** The clamped losses sum to 0 exactly when no entry lost anything. */
  lemma {:induction false} LossSumZero(es: seq<Entry>)
    ensures LossSum(es) == 0.0 <==> forall i :: 0 <= i < |es| ==> es[i].loss <= 0.0
  {
    if |es| > 0 {
      LossSumZero(es[1..]);
      assert forall i :: 1 <= i < |es| ==> es[i] == es[1..][i - 1];
    }
  }

  /** A run of moves is 100% accurate exactly when none of its moves lost anything. */
  lemma AccuracyPerfect(es: seq<Entry>)
    ensures Accuracy(es) == 100.0 <==> forall i :: 0 <= i < |es| ==> es[i].loss <= 0.0
  {
    LossSumZero(es);
    if |es| > 0 {
      var d := |es| as real * 500.0;
      if LossSum(es) > 0.0 {
        assert LossSum(es) / d > 0.0;
      }
    }
  }

  /** The two sides' entries share out the entries and their losses. */
  lemma {:induction false} SidesPartition(es: seq<Entry>)
    ensures |Side(es, true)| + |Side(es, false)| == |es|
    ensures LossSum(Side(es, true)) + LossSum(Side(es, false)) == LossSum(es)
  {
    if |es| > 0 {
      SidesPartition(es[1..]);
      LossSumAppend(if es[0].isWhite then [es[0]] else [], Side(es[1..], true));
      LossSumAppend(if es[0].isWhite then [] else [es[0]], Side(es[1..], false));
    }
  }

  lemma {:induction false} LossSumAppend(a: seq<Entry>, b: seq<Entry>)
    ensures LossSum(a + b) == LossSum(a) + LossSum(b)
  {
    if |a| > 0 {
      LossSumAppend(a[1..], b);
      assert (a + b)[1..] == a[1..] + b;
    } else {
      assert a + b == b;
    }
  }

  /** The three counted severities are distinct, so together they count at most every move; so does the top-tier count. */
  lemma {:induction false} SummaryCounts(es: seq<Entry>)
    ensures var s := NewSummary(es);
      && s.inaccuracies + s.mistakes + s.blunders <= s.totalMoves
      && s.bestCount <= s.totalMoves
      && s.totalMoves == |s.entries|
  {
    if |es| > 0 {
      SummaryCounts(es[1..]);
    }
  }

  /** Both sides' accuracies, and the game's, lie between 0 and 100; a side without moves scores 100. */
  lemma SummaryAccuracies(es: seq<Entry>)
    ensures var s := NewSummary(es);
      && 0.0 <= s.accuracyScore <= 100.0
      && 0.0 <= s.whiteAccuracy <= 100.0
      && 0.0 <= s.blackAccuracy <= 100.0
      && (|Side(es, true)| == 0 ==> s.whiteAccuracy == 100.0)
      && (|Side(es, false)| == 0 ==> s.blackAccuracy == 100.0)
  {
    AccuracyRange(es);
    AccuracyRange(Side(es, true));
    AccuracyRange(Side(es, false));
  }
}
