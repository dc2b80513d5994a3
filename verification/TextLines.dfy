/** Text files of blank-separated words, and what a crash can leave of one. */
module TextLines {
  import opened StatisticsTypes

  datatype Key =
    | MagicV1 | MagicV2 | MagicV3 | CheckpointMagic
    | SpecFingerprint | Plan | Schema | Step | Time | SampleSteps
    | EpochStartStep | EpochDevelopmentSteps | EpochSamplingStartStep | EpochDiscardedSamples
    | EpochResetReason | EpochSourceManifest
    | ProfileSize | CenterlineSize | ProfileEntry | CenterlineEntry
    | RestartGeneration | StatisticsFile | AccumulatorFile
    | End

  /** The files of a run directory: those a checkpoint names by its zero-padded step, and any other. */
  datatype FileName = StatisticsOf(step: nat) | AccumulatorOf(step: nat) | OtherFile(id: nat)

  /** A number printed with 17 digits is read back as the same number, so a printed number is one word. */
  datatype Token = Keyword(key: Key) | Count(n: nat) | Real(v: real) | Reason(r: ResetReason) | NoneWord
                 | Text(s: string) | File(name: FileName) | Blanks

  /** The words of a line. An empty line has none; a line that holds only blanks is the single word Blanks. */
  type Line = seq<Token>

  /** What a crash can leave of a line: a proper part of its words, the last possibly cut to any other word. No other
      keyword begins like the last line's. */
  ghost predicate CutLine(whole: Line, cut: Line) {
    && 0 < |cut| <= |whole| && cut != whole
    && cut[..|cut| - 1] == whole[..|cut| - 1]
    && (cut == [Keyword(End)] ==> whole[0] == Keyword(End))
  }

  /** A proper prefix of the file, possibly followed by one cut line. */
  ghost predicate Torn(whole: seq<Line>, torn: seq<Line>) {
    exists k :: 0 <= k < |whole| && TornAt(whole, k, torn)
  }

  ghost predicate TornAt(whole: seq<Line>, k: nat, torn: seq<Line>)
    requires k < |whole|
  {
    || torn == whole[..k]
    || (|torn| == k + 1 && torn[..k] == whole[..k] && CutLine(whole[k], torn[k]))
  }

  predicate NoEndLine(lines: seq<Line>) {
    forall i :: 0 <= i < |lines| && |lines[i]| > 0 ==> lines[i][0] != Keyword(End)
  }

  predicate EndsOnce(whole: seq<Line>) {
    && |whole| > 0 && whole[|whole| - 1] == [Keyword(End)]
    && forall i :: 0 <= i < |whole| - 1 ==> |whole[i]| > 0 && whole[i][0] != Keyword(End)
  }

  lemma TornHasNoEnd(whole: seq<Line>, torn: seq<Line>)
    requires EndsOnce(whole) && Torn(whole, torn)
    ensures NoEndLine(torn)
  {
    var k :| 0 <= k < |whole| && TornAt(whole, k, torn);
    if torn != whole[..k] {
      var cut := torn[k];
      assert cut != whole[k];
      forall i | 0 <= i < |torn| && |torn[i]| > 0
        ensures torn[i][0] != Keyword(End)
      {
        if i < k {
          assert torn[..k][i] == whole[..k][i];
        } else if |cut| == 1 {
          assert cut == [cut[0]] && (k == |whole| - 1 ==> cut != [Keyword(End)]);
        } else {
          assert cut[..|cut| - 1][0] == whole[k][..|cut| - 1][0];
        }
      }
    }
  }
}
