/**
  The score store: one best score per difficulty, replaced only by a result
  that is lexicographically better (fewer attempts, or as many attempts in
  strictly less time). "No record yet" and "unsolved" are the value Inf of
  the extended naturals; times are in hundredths of a second.
 */
module HighScores {
  import opened Wrappers
  import opened Extended
  import opened GuessingGame

  datatype Score = Score(attempts: ENat, time: ENat)

  /** The entry of a difficulty nobody has played yet. */
  const Unrecorded := Score(Inf, Inf)

  /** The candidate beats the stored score: fewer attempts, or as many
      attempts and strictly less time. */
  predicate Improves(candidate: Score, stored: Score)
  {
    || Less(candidate.attempts, stored.attempts)
    || (candidate.attempts == stored.attempts && Less(candidate.time, stored.time))
  }

  /** Lexicographic "at least as good as". */
  predicate NoWorse(a: Score, b: Score)
  {
    !Improves(b, a)
  }

  /** Improvement is a strict total order on scores: irreflexive, transitive,
      and it orders any two distinct scores one way or the other. */
  lemma ImprovesIsStrictTotalOrder(a: Score, b: Score, c: Score)
    ensures !Improves(a, a)
    ensures Improves(a, b) && Improves(b, c) ==> Improves(a, c)
    ensures a != b ==> (Improves(a, b) <==> !Improves(b, a))
  {
  }

  /** "At least as good as" is a total order: reflexive, total, transitive
      and antisymmetric. */
  lemma NoWorseIsTotalOrder(a: Score, b: Score, c: Score)
    ensures NoWorse(a, a)
    ensures NoWorse(a, b) || NoWorse(b, a)
    ensures NoWorse(a, b) && NoWorse(b, c) ==> NoWorse(a, c)
    ensures NoWorse(a, b) && NoWorse(b, a) ==> a == b
  {
  }

  /** The stored entry after offering `candidate` for it. */
  function Merge(stored: Score, candidate: Score): (r: Score)
    ensures r == candidate || r == stored
    ensures NoWorse(r, stored) && NoWorse(r, candidate)
  {
    if Improves(candidate, stored) then candidate else stored
  }

  /** Offering the same result twice: the second offer improves nothing and
      leaves the entry as the first one did. */
  lemma RepeatedOfferIsNoImprovement(stored: Score, candidate: Score)
    ensures !Improves(candidate, Merge(stored, candidate))
    ensures Merge(Merge(stored, candidate), candidate) == Merge(stored, candidate)
  {
  }

  /** The entry kept does not depend on the order two results are offered in. */
  lemma MergeOrderIrrelevant(stored: Score, a: Score, b: Score)
    ensures Merge(Merge(stored, a), b) == Merge(Merge(stored, b), a)
  {
  }

  /** The entry after offering `rounds`, in order, starting from `start`. */
  function BestOf(start: Score, rounds: seq<Score>): Score
  {
    if rounds == [] then start
    else Merge(BestOf(start, rounds[..|rounds| - 1]), rounds[|rounds| - 1])
  }

  /** The kept entry is at least as good as the starting entry and as every
      result offered, and it is one of them. */
  lemma {:induction false} BestOfIsBest(start: Score, rounds: seq<Score>)
    ensures NoWorse(BestOf(start, rounds), start)
    ensures forall k :: 0 <= k < |rounds| ==> NoWorse(BestOf(start, rounds), rounds[k])
    ensures BestOf(start, rounds) in [start] + rounds
  {
    if rounds != [] {
      var init, last := rounds[..|rounds| - 1], rounds[|rounds| - 1];
      BestOfIsBest(start, init);
      var before := BestOf(start, init);
      var after := BestOf(start, rounds);
      assert after == Merge(before, last);
      NoWorseIsTotalOrder(after, before, start);
      forall k | 0 <= k < |rounds|
        ensures NoWorse(after, rounds[k])
      {
        if k < |rounds| - 1 {
          assert rounds[k] == init[k];
          NoWorseIsTotalOrder(after, before, init[k]);
        }
      }
      assert rounds == init + [last];
    }
  }

  /** The table a missing record file stands for: no difficulty has a record. */
  function DefaultScores(): (m: map<Difficulty, Score>)
    ensures forall d: Difficulty :: d in m && m[d] == Unrecorded
  {
    var m := map[Easy := Unrecorded, Medium := Unrecorded, Hard := Unrecorded];
    assert forall d: Difficulty :: d in m by {
      forall d: Difficulty ensures d in m {
        EveryLevelIsListed(d);
      }
    }
    m
  }

  /** Any result with a finite attempt count beats an unset record. */
  lemma AnyResultImprovesUnrecorded(attempts: nat, time: ENat)
    ensures Improves(Score(Fin(attempts), time), Unrecorded)
    ensures Merge(Unrecorded, Score(Fin(attempts), time)) == Score(Fin(attempts), time)
  {
  }

  /** The time handed to the score store for a finished round: the measured
      time, except that a lost round and a time of zero (which is falsy) both
      become Inf. */
  function TimeOrInf(time: Option<nat>): (e: ENat)
    ensures e == Inf <==> time.None? || time == Some(0)
    ensures e.Fin? ==> time == Some(e.n)
  {
    match time
    case Some(t) => if t == 0 then Inf else Fin(t)
    case None => Inf
  }

  /** The score a finished round is offered as: its attempts, with the time
      of a win in positive time kept and any other time turned into Inf. */
  function Candidate(r: RoundResult): (s: Score)
    ensures s.attempts.Fin? && s.attempts.n == r.attempts
    ensures (match r.time
             case Some(t) => t > 0 ==> s.time == Fin(t)
             case None => s.time == Inf)
    ensures r.time == Some(0) ==> s.time == Inf
  {
    Score(Fin(r.attempts), TimeOrInf(r.time))
  }

  /** A lost round never replaces a record of at most as many attempts; in
      particular a lost round never replaces another lost round at the same
      difficulty. It does fill an unset record. */
  lemma LostRoundReplacesOnlyUnsetOrWorse(maxAttempts: nat, stored: Score)
    ensures Improves(Candidate(RoundResult(maxAttempts, None)), stored) <==>
              Less(Fin(maxAttempts), stored.attempts)
    ensures Improves(Candidate(RoundResult(maxAttempts, None)), Unrecorded)
  {
  }

  /** Of two rounds with the same attempt count, one won in positive time
      beats one that was lost, and not the other way round. */
  lemma WonRoundBeatsLostRound(attempts: nat, time: nat)
    requires time > 0
    ensures Improves(Candidate(RoundResult(attempts, Some(time))), Candidate(RoundResult(attempts, None)))
    ensures !Improves(Candidate(RoundResult(attempts, None)), Candidate(RoundResult(attempts, Some(time))))
  {
  }

  /** A round won in zero hundredths is offered exactly like a lost round with
      the same attempt count. */
  lemma ZeroTimeIsOfferedAsUnsolved(attempts: nat)
    ensures Candidate(RoundResult(attempts, Some(0))) == Candidate(RoundResult(attempts, None))
  {
  }

  /**
    The best-score table. `highScores` is the in-memory table; the ghost
    `saved` is the content of the record file (None while no file has been
    written) and the ghost `reported` is every result offered per difficulty.
   */
  class HighScoreManager {
    var highScores: map<Difficulty, Score>
    ghost var saved: Option<map<Difficulty, Score>>
    ghost var reported: map<Difficulty, seq<Score>>

    /** Every difficulty has an entry, that entry is the best of all results
        offered for it, and the record file, once written, holds the table. */
    ghost predicate Valid()
      reads this
    {
      && (forall d: Difficulty :: d in highScores && d in reported
            && highScores[d] == BestOf(Unrecorded, reported[d]))
      && (saved.None? ==> highScores == DefaultScores())
      && (saved.Some? ==> saved.value == highScores)
    }

    /** A manager whose record file does not exist starts from the default table. */
    constructor ()
      ensures Valid()
      ensures highScores == DefaultScores() && saved == None
      ensures forall d: Difficulty :: d in reported && reported[d] == []
    {
      highScores := DefaultScores();
      saved := None;
      reported := map[Easy := [], Medium := [], Hard := []];
    }

    /** The stored entry for `d` is at least as good as every result offered for it. */
    lemma EntryBeatsEveryReport(d: Difficulty, k: nat)
      requires Valid()
      requires k < |reported[d]|
      ensures NoWorse(highScores[d], reported[d][k])
    {
      BestOfIsBest(Unrecorded, reported[d]);
    }

    /**
      Offers (attempts, time) for `d`. Returns true and replaces that entry,
      then writes the whole table to the record file, exactly when the
      candidate improves on the stored entry; otherwise nothing changes.
     */
    method UpdateHighScore(d: Difficulty, attempts: nat, time: ENat) returns (improved: bool)
      requires Valid()
      modifies this
      ensures Valid()
      ensures improved <==> Improves(Score(Fin(attempts), time), old(highScores[d]))
      ensures improved ==> highScores == old(highScores)[d := Score(Fin(attempts), time)]
      ensures improved ==> saved == Some(highScores)
      ensures !improved ==> highScores == old(highScores) && saved == old(saved)
      ensures highScores[d] == Merge(old(highScores[d]), Score(Fin(attempts), time))
      ensures NoWorse(highScores[d], old(highScores[d])) && NoWorse(highScores[d], Score(Fin(attempts), time))
      ensures forall e: Difficulty :: e != d ==> highScores[e] == old(highScores[e])
      ensures reported == old(reported)[d := old(reported[d]) + [Score(Fin(attempts), time)]]
    {
      var current := highScores[d];
      var candidate := Score(Fin(attempts), time);
      ghost var offered := reported[d] + [candidate];
      assert offered[..|offered| - 1] == reported[d];
      reported := reported[d := offered];
      if Less(candidate.attempts, current.attempts)
         || (candidate.attempts == current.attempts && Less(candidate.time, current.time))
      {
        highScores := highScores[d := candidate];
        saved := Some(highScores);
        return true;
      }
      return false;
    }
  }

  /** Hands a finished round to the score store, with a missing or zero time
      turned into Inf. */
  method RecordRound(manager: HighScoreManager, d: Difficulty, r: RoundResult) returns (improved: bool)
    requires manager.Valid()
    modifies manager
    ensures manager.Valid()
    ensures improved <==> Improves(Candidate(r), old(manager.highScores[d]))
    ensures manager.highScores == old(manager.highScores)[d := Merge(old(manager.highScores[d]), Candidate(r))]
    ensures improved ==> manager.saved == Some(manager.highScores)
    ensures !improved ==> manager.saved == old(manager.saved)
    ensures manager.reported == old(manager.reported)[d := old(manager.reported[d]) + [Candidate(r)]]
  {
    improved := manager.UpdateHighScore(d, r.attempts, TimeOrInf(r.time));
  }

  /** Offering the same result twice: the first offer on a fresh table
      improves, the second does not. */
  method RepeatedUpdateScenario()
  {
    var manager := new HighScoreManager();
    var first := manager.UpdateHighScore(Easy, 3, Fin(1250));
    assert first && manager.highScores[Easy] == Score(Fin(3), Fin(1250));
    var second := manager.UpdateHighScore(Easy, 3, Fin(1250));
    assert !second;
    var slower := manager.UpdateHighScore(Easy, 4, Fin(500));
    assert !slower && manager.highScores[Easy] == Score(Fin(3), Fin(1250));
    var hard := manager.UpdateHighScore(Hard, 2, Fin(800));
    assert hard && manager.saved == Some(manager.highScores);
    assert manager.highScores[Hard] == Score(Fin(2), Fin(800));
  }
}
