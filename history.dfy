/** The bounded chart histories of Monitors/SystemMonitor.swift: a series
    keeps at most the 60 most recent samples. */
module History {
  import opened MetricModels

  const MaxHistoryCount: nat := 60

  /** The last `n` elements of `s`, or all of them when there are fewer. */
  function Newest<T>(s: seq<T>, n: nat): (r: seq<T>)
    ensures |r| == if |s| < n then |s| else n
    ensures r == s[|s| - |r|..]
  {
    if |s| <= n then s else s[|s| - n..]
  }

  /** `appendSample`: append, then drop from the front down to 60. */
  function Appended(history: seq<MetricSample>, sample: MetricSample): (r: seq<MetricSample>)
    ensures |r| == if |history| < MaxHistoryCount then |history| + 1 else MaxHistoryCount
  {
    var grown := history + [sample];
    if |grown| > MaxHistoryCount then grown[|grown| - MaxHistoryCount..] else grown
  }

  /** `after` is `before` with `sample` added last: within the bound, one
      longer while there is room, and otherwise only the oldest samples of
      `before` dropped. */
  predicate Extends(before: seq<MetricSample>, after: seq<MetricSample>, sample: MetricSample) {
    0 < |after| <= MaxHistoryCount && |after| <= |before| + 1 &&
    (|before| < MaxHistoryCount ==> |after| == |before| + 1) &&
    after[|after| - 1] == sample && after[..|after| - 1] == before[|before| + 1 - |after|..]
  }

  /** The new sample is last, and what precedes it is the old history with
      only its oldest samples dropped. */
  lemma AppendedKeepsOrder(history: seq<MetricSample>, sample: MetricSample)
    ensures Extends(history, Appended(history, sample), sample)
  {
    var r := Appended(history, sample);
    var grown := history + [sample];
    if |grown| > MaxHistoryCount {
      assert r[..|r| - 1] == history[|history| + 1 - |r|..];
    } else {
      assert grown[..|grown| - 1] == history;
    }
  }

  /** Appending each of `samples` in turn. */
  function AppendedAll(history: seq<MetricSample>, samples: seq<MetricSample>): seq<MetricSample>
    decreases |samples|
  {
    if samples == [] then history
    else Appended(AppendedAll(history, samples[..|samples| - 1]), samples[|samples| - 1])
  }

  /** Appending one sample keeps the newest 60 of the old history plus it. */
  lemma AppendedIsNewest(history: seq<MetricSample>, sample: MetricSample)
    ensures Appended(history, sample) == Newest(history + [sample], MaxHistoryCount)
  {
  }

  /** Keeping the newest `n` before adding one more element changes nothing
      about which `n` are kept afterwards. */
  lemma NewestOfNewest<T>(s: seq<T>, x: T, n: nat)
    ensures Newest(Newest(s, n) + [x], n) == Newest(s + [x], n)
  {
    if |s| > n {
      var left := Newest(s[|s| - n..] + [x], n);
      var right := Newest(s + [x], n);
      assert |left| == |right| == n;
      forall i | 0 <= i < n ensures left[i] == right[i] {
        if i < n - 1 {
          assert left[i] == s[|s| - n + 1 + i];
        }
      }
    }
  }

  /** However many samples arrive, the history is the newest 60 of all of
      them in arrival order, provided it started within the bound. */
  lemma {:induction false} AppendedAllIsNewest(history: seq<MetricSample>, samples: seq<MetricSample>)
    requires |history| <= MaxHistoryCount
    ensures AppendedAll(history, samples) == Newest(history + samples, MaxHistoryCount)
    decreases |samples|
  {
    if samples == [] {
      assert history + samples == history;
    } else {
      var n := |samples| - 1;
      var before := history + samples[..n];
      AppendedAllIsNewest(history, samples[..n]);
      assert history + samples == before + [samples[n]];
      AppendedIsNewest(Newest(before, MaxHistoryCount), samples[n]);
      NewestOfNewest(before, samples[n], MaxHistoryCount);
    }
  }
}
