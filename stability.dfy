/**
 * The stable-detection streak of the face-capture loop
 * (`consecutiveDetections` in src/components/faceidcomponent/FaceId.jsx):
 * every processed detector result either raises it by one (the frame passed
 * the gate) or sets it to zero (no face, or a rejected frame).
 */
module Stability {
  import opened Alignment

  /** `requiredStableDetections`: the streak on which the loop captures. */
  const RequiredStable: nat := 3

  /** One update of the streak for one gate verdict. */
  function Next(streak: nat, v: Verdict): nat
  {
    if v == Pass then streak + 1 else 0
  }

  /** The streak after processing the verdicts of `history`, oldest first, from 0. */
  function Streak(history: seq<Verdict>): nat
  {
    if history == [] then 0 else Next(Streak(history[..|history| - 1]), history[|history| - 1])
  }

  /**
   * The streak is the length of the longest run of passes that ends the
   * history: every verdict in that run is a pass, and the one before it (if
   * there is one) is a rejection.
   */
  lemma {:induction false} StreakIsPassingSuffix(history: seq<Verdict>)
    ensures Streak(history) <= |history|
    ensures forall i :: |history| - Streak(history) <= i < |history| ==> history[i] == Pass
    ensures Streak(history) < |history| ==> history[|history| - Streak(history) - 1] != Pass
  {
    if history != [] {
      var init := history[..|history| - 1];
      StreakIsPassingSuffix(init);
      assert forall i :: 0 <= i < |init| ==> init[i] == history[i];
    }
  }

  /** Appending a rejected frame resets the streak, whatever it was. */
  lemma StreakAfterReject(history: seq<Verdict>, k: Reason)
    ensures Streak(history + [Reject(k)]) == 0
  {
    assert (history + [Reject(k)])[..|history|] == history;
  }

  /** Appending a passing frame raises the streak by exactly one. */
  lemma StreakAfterPass(history: seq<Verdict>)
    ensures Streak(history + [Pass]) == Streak(history) + 1
  {
    assert (history + [Pass])[..|history|] == history;
  }

  /** No proper prefix of the history had already reached the required streak. */
  predicate NotReachedBefore(history: seq<Verdict>)
  {
    forall n :: 0 <= n < |history| ==> Streak(history[..n]) < RequiredStable
  }

  /**
   * A verdict processed while the streak is still below the requirement keeps
   * the history free of an earlier point where the requirement was met.
   */
  lemma ExtendNotReachedBefore(history: seq<Verdict>, v: Verdict)
    requires NotReachedBefore(history) && Streak(history) < RequiredStable
    ensures NotReachedBefore(history + [v])
  {
    var h := history + [v];
    forall n | 0 <= n < |h| ensures Streak(h[..n]) < RequiredStable {
      if n < |history| {
        assert h[..n] == history[..n];
      } else {
        assert h[..n] == history;
      }
    }
  }
}
