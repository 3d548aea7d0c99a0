/** Cutting a resolved URL list into task templates under a target count and a byte limit. */
module Batching {
  const MAX_TARGETS := 1000
  const MAX_CONFIG_LENGTH := 65536

  /** One URL target; `bytes` is what its entry adds to the JSON configuration, comma included. */
  datatype Url = Url(text: string, bytes: nat)

  datatype Result = NotReady | InvalidConfig | Batches(batches: seq<seq<Url>>)

  function Bytes(urls: seq<Url>): nat {
    if urls == [] then 0 else Bytes(urls[..|urls|-1]) + urls[|urls|-1].bytes
  }

  /** The length of the configuration: the options and the scope's other targets have a fixed
      length, and sorting the targets does not change it. */
  function ConfigLength(fixed: nat, urls: seq<Url>): nat {
    fixed + Bytes(urls)
  }

  predicate Fits(fixed: nat, urls: seq<Url>) {
    0 < |urls| <= MAX_TARGETS && ConfigLength(fixed, urls) <= MAX_CONFIG_LENGTH
  }

  function Concat(batches: seq<seq<Url>>): seq<Url> {
    if batches == [] then [] else batches[0] + Concat(batches[1..])
  }

  /** A way to cut `urls` into consecutive templates that all respect both limits. */
  predicate Partition(fixed: nat, urls: seq<Url>, batches: seq<seq<Url>>) {
    Concat(batches) == urls && forall i | 0 <= i < |batches| :: Fits(fixed, batches[i])
  }

  predicate AllFitAlone(fixed: nat, urls: seq<Url>) {
    forall i | 0 <= i < |urls| :: Fits(fixed, [urls[i]])
  }

  // ------------------------------------------------------------ byte counting

  lemma {:induction false} BytesAppend(a: seq<Url>, b: seq<Url>)
    ensures Bytes(a + b) == Bytes(a) + Bytes(b)
    decreases |b|
  {
    if b == [] {
      assert a + b == a;
    } else {
      BytesAppend(a, b[..|b|-1]);
      assert (a + b)[..|a + b|-1] == a + b[..|b|-1];
    }
  }

  /** Any non-empty piece of a fitting list fits. */
  lemma PieceFits(fixed: nat, urls: seq<Url>, low: nat, high: nat)
    requires Fits(fixed, urls) && low < high <= |urls|
    ensures Fits(fixed, urls[low..high])
  {
    BytesAppend(urls[..low], urls[low..high]);
    BytesAppend(urls[..high], urls[high..]);
    assert urls[..low] + urls[low..high] == urls[..high];
    assert urls[..high] + urls[high..] == urls;
  }

  lemma PrefixFits(fixed: nat, urls: seq<Url>, low: nat, high: nat)
    requires 0 < low <= high <= |urls|
    ensures Fits(fixed, urls[..high]) ==> Fits(fixed, urls[..low])
  {
    if Fits(fixed, urls[..high]) {
      PieceFits(fixed, urls[..high], 0, low);
      assert urls[..high][0..low] == urls[..low];
    }
  }

  // -------------------------------------------------------------- the greedy

  /** `n` is the longest prefix that fits. */
  ghost predicate Longest(fixed: nat, urls: seq<Url>, n: nat) {
    n <= |urls| && (n > 0 ==> Fits(fixed, urls[..n])) && forall m | n < m <= |urls| :: !Fits(fixed, urls[..m])
  }

  ghost function Greedy(fixed: nat, urls: seq<Url>): (batches: seq<seq<Url>>)
    requires AllFitAlone(fixed, urls)
    decreases |urls|
  {
    if urls == [] then []
    else
      var n := LongestOf(fixed, urls);
      [urls[..n]] + Greedy(fixed, urls[n..])
  }

  ghost function LongestOf(fixed: nat, urls: seq<Url>): (n: nat)
    requires urls != [] && Fits(fixed, [urls[0]])
    ensures Longest(fixed, urls, n) && n > 0
  {
    LongestExists(fixed, urls, |urls|);
    var n: nat :| Longest(fixed, urls, n) && n > 0; n
  }

  lemma {:induction false} LongestExists(fixed: nat, urls: seq<Url>, bound: nat)
    requires urls != [] && Fits(fixed, [urls[0]]) && 0 < bound <= |urls|
    requires forall m | bound < m <= |urls| :: !Fits(fixed, urls[..m])
    ensures exists n: nat :: Longest(fixed, urls, n) && n > 0
    decreases bound
  {
    if Fits(fixed, urls[..bound]) {
      assert Longest(fixed, urls, bound);
    } else {
      assert urls[..1] == [urls[0]];
      LongestExists(fixed, urls, bound - 1);
    }
  }

  lemma LongestUnique(fixed: nat, urls: seq<Url>, m: nat, n: nat)
    requires Longest(fixed, urls, m) && Longest(fixed, urls, n)
    ensures m == n
  {}

  /** The greedy cut is a partition. */
  lemma {:induction false} GreedyPartitions(fixed: nat, urls: seq<Url>)
    requires AllFitAlone(fixed, urls)
    ensures Partition(fixed, urls, Greedy(fixed, urls))
    decreases |urls|
  {
    if urls != [] {
      var n := LongestOf(fixed, urls);
      GreedyPartitions(fixed, urls[n..]);
      assert urls[..n] + urls[n..] == urls;
    }
  }

  /** A suffix never needs more batches than the whole list. */
  lemma {:induction false} SuffixNeedsNoMore(fixed: nat, urls: seq<Url>, k: nat)
    requires AllFitAlone(fixed, urls) && k <= |urls|
    ensures |Greedy(fixed, urls[k..])| <= |Greedy(fixed, urls)|
    decreases |urls|
  {
    var rest := urls[k..];
    if k > 0 && rest != [] {
      var n := LongestOf(fixed, urls);
      if k >= n {
        SuffixNeedsNoMore(fixed, urls[n..], k - n);
        assert urls[n..][k - n..] == rest;
      } else {
        var m := LongestOf(fixed, rest);
        PieceFits(fixed, urls[..n], k, n);
        assert urls[..n][k..n] == rest[..n - k];
        SuffixNeedsNoMore(fixed, urls[n..], m - (n - k));
        assert urls[n..][m - (n - k)..] == rest[m..];
      }
    } else if k == 0 {
      assert rest == urls;
    }
  }

  /** No consecutive cut that respects both limits uses fewer templates than the greedy one. */
  lemma {:induction false} GreedyIsOptimal(fixed: nat, urls: seq<Url>, batches: seq<seq<Url>>)
    requires Partition(fixed, urls, batches) && AllFitAlone(fixed, urls)
    ensures |Greedy(fixed, urls)| <= |batches|
    decreases |batches|
  {
    if urls != [] {
      var p := |batches[0]|;
      assert urls[..p] == batches[0] && urls[p..] == Concat(batches[1..]);
      GreedyIsOptimal(fixed, urls[p..], batches[1..]);
      var n := LongestOf(fixed, urls);
      assert Fits(fixed, urls[..p]);
      SuffixNeedsNoMore(fixed, urls[p..], n - p);
      assert urls[p..][n - p..] == urls[n..];
    }
  }

  /** A list can be cut at all exactly when every URL fits on its own. */
  lemma {:induction false} Cuttable(fixed: nat, urls: seq<Url>, batches: seq<seq<Url>>)
    requires Partition(fixed, urls, batches)
    ensures AllFitAlone(fixed, urls)
    decreases |batches|
  {
    if batches != [] {
      var p := |batches[0]|;
      assert urls[..p] == batches[0] && urls[p..] == Concat(batches[1..]);
      Cuttable(fixed, urls[p..], batches[1..]);
      forall i | 0 <= i < |urls| ensures Fits(fixed, [urls[i]]) {
        if i < p {
          PieceFits(fixed, batches[0], i, i + 1);
          assert batches[0][i..i + 1] == [urls[i]];
        } else {
          assert urls[p..][i - p] == urls[i];
        }
      }
    }
  }

  lemma EachFits(fixed: nat, urls: seq<Url>, offset: nat, fits: nat)
    requires offset + fits <= |urls| && AllFitAlone(fixed, urls[..offset]) && Fits(fixed, urls[offset..][..fits])
    ensures AllFitAlone(fixed, urls[..offset + fits])
  {
    var batch, done := urls[offset..][..fits], urls[..offset + fits];
    forall i | 0 <= i < |done| ensures Fits(fixed, [done[i]]) {
      if i < offset {
        assert urls[..offset][i] == done[i];
      } else {
        PieceFits(fixed, batch, i - offset, i - offset + 1);
        assert batch[i - offset..i - offset + 1] == [done[i]];
      }
    }
  }

  // ------------------------------------------------------------- the program

  /** The binary search over the size of the next batch. */
  method FittingPrefix(fixed: nat, urls: seq<Url>, offset: nat) returns (fits: nat)
    requires offset < |urls|
    ensures Longest(fixed, urls[offset..], fits)
  {
    ghost var rest := urls[offset..];
    var low, high := 1, if |urls| - offset < MAX_TARGETS then |urls| - offset else MAX_TARGETS;
    fits := 0;
    while low <= high
      invariant fits + 1 == low <= high + 1 && high <= |rest| && high <= MAX_TARGETS
      invariant fits > 0 ==> Fits(fixed, rest[..fits])
      invariant forall m | high < m <= |rest| :: !Fits(fixed, rest[..m])
    {
      var size := low + (high - low) / 2;
      var config := ConfigLength(fixed, urls[offset..offset + size]);
      assert urls[offset..offset + size] == rest[..size];
      if config <= MAX_CONFIG_LENGTH {
        fits, low := size, size + 1;
      } else {
        forall m | size <= m <= |rest| ensures Fits(fixed, rest[..m]) ==> Fits(fixed, rest[..size]) {
          PrefixFits(fixed, rest, size, m);
        }
        high := size - 1;
      }
    }
  }

  /** blueprintWebTargetBatches. */
  method BlueprintWebTargetBatches(fixed: nat, urls: seq<Url>) returns (r: Result)
    ensures r.NotReady? <==> urls == []
    ensures r.InvalidConfig? <==> urls != [] && !AllFitAlone(fixed, urls)
    ensures r.Batches? ==> AllFitAlone(fixed, urls) && r.batches == Greedy(fixed, urls)
  {
    if |urls| == 0 { return NotReady; }
    var batches: seq<seq<Url>> := [];
    var offset := 0;
    while offset < |urls|
      invariant offset <= |urls|
      invariant AllFitAlone(fixed, urls[..offset])
      invariant AllFitAlone(fixed, urls) ==> batches + Greedy(fixed, urls[offset..]) == Greedy(fixed, urls)
    {
      var fits := FittingPrefix(fixed, urls, offset);
      ghost var rest := urls[offset..];
      if fits == 0 {
        assert rest[..1] == [urls[offset]];
        return InvalidConfig;
      }
      EachFits(fixed, urls, offset, fits);
      assert AllFitAlone(fixed, urls) ==> AllFitAlone(fixed, rest);
      if AllFitAlone(fixed, urls) {
        LongestUnique(fixed, rest, LongestOf(fixed, rest), fits);
        assert rest[fits..] == urls[offset + fits..];
        assert urls[offset..offset + fits] == rest[..fits];
      }
      batches := batches + [urls[offset..offset + fits]];
      offset := offset + fits;
    }
    assert urls[..|urls|] == urls;
    return Batches(batches);
  }
}
