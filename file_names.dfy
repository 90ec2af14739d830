/** The per-file decision of `validationFileNameRaw`
    (Prediction_Raw_Data_Validation/predictionDataValidation.py): a file
    whose name matches the pattern is split on `.csv` and then on `_`;
    piece 1 must have the date-stamp length and piece 2 the time-stamp
    length. `and` short-circuits, so piece 2 is only looked at when piece 1
    fits, and a missing piece raises `IndexError`. */
module FileNames {
  import opened Common
  import opened Text
  import opened NamePattern

  /** The staging folder a batch file is copied into. */
  datatype Verdict = Good | Bad

  function NameVerdict(name: string, dateLen: int, timeLen: int): Result<Verdict>
  {
    if !Matches(name) then Ok(Bad)
    else
      var segs := Split(Stem(name), '_');
      if |segs| < 2 then Err(IndexError)
      else if |segs[1]| != dateLen then Ok(Bad)
      else if |segs| < 3 then Err(IndexError)
      else if |segs[2]| == timeLen then Ok(Good)
      else Ok(Bad)
  }

  /** Piece 1 of the stem has the date length and piece 2 the time length;
      further pieces are not looked at. */
  predicate StampsFit(stem: string, dateLen: int, timeLen: int)
  {
    var segs := Split(stem, '_');
    |segs| >= 3 && |segs[1]| == dateLen && |segs[2]| == timeLen
  }

  /** Indexing the pieces runs past the end before a length mismatch is seen. */
  predicate StampMissing(stem: string, dateLen: int)
  {
    var segs := Split(stem, '_');
    |segs| < 2 || (|segs[1]| == dateLen && |segs| < 3)
  }

  /** A file goes to Good exactly when its name follows the pattern and the
      text before `.csv` has stamps of the configured lengths. */
  lemma GoodIff(name: string, dateLen: int, timeLen: int)
    ensures NameVerdict(name, dateLen, timeLen) == Ok(Good)
        <==> exists i, j, k :: MatchesWith(name, i, j, k) && StampsFit(name[..k], dateLen, timeLen)
  {
    MatchesCorrect(name);
    if NameVerdict(name, dateLen, timeLen) == Ok(Good) {
      var i, j, k :| MatchesWith(name, i, j, k);
      StemOfMatch(name, i, j, k);
    }
    if exists i, j, k :: MatchesWith(name, i, j, k) && StampsFit(name[..k], dateLen, timeLen) {
      var i, j, k :| MatchesWith(name, i, j, k) && StampsFit(name[..k], dateLen, timeLen);
      StemOfMatch(name, i, j, k);
    }
  }

  /** Classification raises, and then always `IndexError`, exactly when the
      name follows the pattern but its stem lacks a piece the check reads. */
  lemma RaisesIff(name: string, dateLen: int, timeLen: int)
    ensures NameVerdict(name, dateLen, timeLen).Err?
        <==> exists i, j, k :: MatchesWith(name, i, j, k) && StampMissing(name[..k], dateLen)
    ensures NameVerdict(name, dateLen, timeLen).Err? ==> NameVerdict(name, dateLen, timeLen).error == IndexError
  {
    MatchesCorrect(name);
    if NameVerdict(name, dateLen, timeLen).Err? {
      var i, j, k :| MatchesWith(name, i, j, k);
      StemOfMatch(name, i, j, k);
    }
    if exists i, j, k :: MatchesWith(name, i, j, k) && StampMissing(name[..k], dateLen) {
      var i, j, k :| MatchesWith(name, i, j, k) && StampMissing(name[..k], dateLen);
      StemOfMatch(name, i, j, k);
    }
  }

  /** A name the pattern rejects goes to Bad whatever the stamp lengths. */
  lemma UnmatchedIsBad(name: string, dateLen: int, timeLen: int)
    requires !FollowsPattern(name)
    ensures NameVerdict(name, dateLen, timeLen) == Ok(Bad)
  {
    MatchesCorrect(name);
  }

  /** For a matching name, the verdict is read off the pieces of the text
      before `.csv`. */
  lemma VerdictOfPieces(name: string, i: int, j: int, k: int, segs: seq<string>)
    requires MatchesWith(name, i, j, k)
    requires Split(name[..k], '_') == segs
    ensures Matches(name) && Split(Stem(name), '_') == segs
  {
    MatchesCorrect(name);
    StemOfMatch(name, i, j, k);
  }

  /** A well-formed name is Good with the configured stamp lengths and Bad
      with another date length. */
  lemma ExampleWellFormed()
    ensures NameVerdict("phising_20230101_120000.csv", 8, 6) == Ok(Good)
    ensures NameVerdict("phising_20230101_120000.csv", 6, 6) == Ok(Bad)
  {
    var s := "phising_20230101_120000.csv";
    var segs := ["phising", "20230101", "120000"];
    assert MatchesWith(s, 7, 8, 23);
    assert s[..23] == Join(segs, '_');
    SplitJoin(segs, '_');
    VerdictOfPieces(s, 7, 8, 23, segs);
  }

  /** A name without the `_` pieces fails the pattern and is Bad. */
  lemma ExampleNoStamps(d: int, t: int)
    ensures NameVerdict("random.csv", d, t) == Ok(Bad)
  {
  }

  /** A name with a date piece but no time piece raises when the date piece
      fits and is Bad when it does not. */
  lemma ExampleMissingTime(t: int)
    ensures NameVerdict("phising_20230101.csv", 8, t) == Err(IndexError)
    ensures NameVerdict("phising_20230101.csv", 6, t) == Ok(Bad)
  {
    var u := "phising_20230101.csv";
    var segs := ["phising", "20230101"];
    assert MatchesWith(u, 7, 8, 16);
    assert u[..16] == Join(segs, '_');
    SplitJoin(segs, '_');
    VerdictOfPieces(u, 7, 8, 16, segs);
  }

  /** The separator run may be an apostrophe alone; such a name matches but
      has no `_` piece at all, so classification raises. */
  lemma ExampleApostrophe(d: int, t: int)
    ensures NameVerdict("p'12.csv", d, t) == Err(IndexError)
  {
    var w := "p'12.csv";
    assert MatchesWith(w, 1, 2, 4);
    SplitNone(w[..4], '_');
    VerdictOfPieces(w, 1, 2, 4, [w[..4]]);
  }
}
