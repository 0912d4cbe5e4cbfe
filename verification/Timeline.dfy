/** The timelines both runtimes record: a value is pushed only when it differs from the last one. */
module Timeline {
  function Push<T(==)>(timeline: seq<T>, value: T): seq<T> {
    if timeline == [] || timeline[|timeline| - 1] != value then timeline + [value] else timeline
  }

  /** A history with consecutive repeats removed. */
  function WithoutRepeats<T(==)>(history: seq<T>): (r: seq<T>)
    ensures history != [] ==> r != [] && r[|r| - 1] == history[|history| - 1]
    ensures history == [] ==> r == []
  {
    if |history| <= 1 then history
    else
      var n := |history| - 1;
      var before := WithoutRepeats(history[..n]);
      if history[n] == history[n - 1] then before else before + [history[n]]
  }

  /** Every two neighbours of a list without repeats are neighbours in the history, and differ. */
  lemma {:induction false} NeighboursComeFromHistory<T>(history: seq<T>, i: nat)
    requires i + 1 < |WithoutRepeats(history)|
    ensures var r := WithoutRepeats(history);
            r[i] != r[i + 1] && exists k: nat :: k + 1 < |history| && history[k] == r[i] && history[k + 1] == r[i + 1]
  {
    var n := |history| - 1;
    var before := WithoutRepeats(history[..n]);
    if i + 1 < |before| {
      NeighboursComeFromHistory(history[..n], i);
      var k: nat :| k + 1 < n && history[..n][k] == before[i] && history[..n][k + 1] == before[i + 1];
      assert history[k] == before[i] && history[k + 1] == before[i + 1];
    } else {
      assert before[|before| - 1] == history[..n][n - 1];
      assert history[n - 1 + 1] == history[n];
    }
  }

  /** If a value is only ever entered from one other, so it is on the list without repeats. */
  lemma EnteredFrom<T>(history: seq<T>, from: T, value: T)
    requires forall k: nat | k + 1 < |history| && history[k + 1] == value && history[k] != value :: history[k] == from
    ensures var r := WithoutRepeats(history);
            forall i: nat | i + 1 < |r| && r[i + 1] == value :: r[i] == from
  {
    var r := WithoutRepeats(history);
    forall i: nat | i + 1 < |r| && r[i + 1] == value
      ensures r[i] == from
    {
      NeighboursComeFromHistory(history, i);
    }
  }
}
