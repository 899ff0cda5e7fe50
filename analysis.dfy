/** The numerical engines behind the PCA and clustering tools, seen at their boundary,
    and the per-cluster counts the clustering tool reports.

    scikit-learn's PCA and KMeans are not modelled inside: each is a function that may
    fail (scikit-learn raises on a bad `n_components` or `n_clusters`), and what the
    session relies on is only the shape of what they return.
 */
module Analysis {
  import opened Common

  /** A matrix as its rows. */
  type Matrix = seq<seq<real>>

  /** `PCA(n_components).fit_transform(data)`. */
  type Reducer = (Matrix, int) -> Result<Matrix>

  /** `KMeans(n_clusters, random_state).fit_predict(data)`. */
  type Clusterer = (Matrix, int, int) -> Result<seq<int>>

  /** A reduction keeps one row per input row and has `n_components` columns. */
  ghost predicate KeepsRows(reduce: Reducer)
  {
    forall data, k :: reduce(data, k).Success? ==>
      && |reduce(data, k).value| == |data|
      && forall i :: 0 <= i < |data| ==> |reduce(data, k).value[i]| == k
  }

  /** A clustering gives one label per input row. */
  ghost predicate LabelsEveryRow(cluster: Clusterer)
  {
    forall data, n, seed :: cluster(data, n, seed).Success? ==> |cluster(data, n, seed).value| == |data|
  }

  /** The data the clustering tool feeds to KMeans: the PCA results when asked for and
      present, else the spectra when there are any, else nothing. KMeans is never handed
      an empty matrix as long as stored PCA results are never empty. */
  function ClusterSource(usePca: bool, pcaResults: Option<Matrix>, spectra: Matrix): (r: Option<Matrix>)
    ensures r.None? <==> !(usePca && pcaResults.Some?) && |spectra| == 0
    ensures usePca && pcaResults.Some? ==> r == pcaResults
    ensures !(usePca && pcaResults.Some?) && |spectra| > 0 ==> r == Some(spectra)
    ensures r.Some? && (pcaResults.Some? ==> |pcaResults.value| > 0) ==> |r.value| > 0
  {
    if usePca && pcaResults.Some? then pcaResults
    else if |spectra| > 0 then Some(spectra)
    else None
  }

  // ---------------------------------------------------------------------------
  // Per-cluster counts.

  /** `np.sum(labels == i)`: how many labels equal `i`. */
  function Occurrences(labels: seq<int>, i: int): (n: nat)
    ensures n == multiset(labels)[i]
  {
    if labels == [] then 0
    else
      var m := |labels| - 1;
      assert labels == labels[..m] + [labels[m]];
      Occurrences(labels[..m], i) + (if labels[m] == i then 1 else 0)
  }

  /** How many labels lie in [0, n). */
  function LabelsBelow(labels: seq<int>, n: int): (c: nat)
    ensures c <= |labels|
  {
    if labels == [] then 0
    else
      var m := |labels| - 1;
      LabelsBelow(labels[..m], n) + (if 0 <= labels[m] < n then 1 else 0)
  }

  function Total(counts: seq<nat>): nat
  {
    if counts == [] then 0 else Total(counts[..|counts| - 1]) + counts[|counts| - 1]
  }

  lemma {:induction false} LabelsBelowStep(labels: seq<int>, n: int)
    requires n > 0
    ensures LabelsBelow(labels, n) == LabelsBelow(labels, n - 1) + Occurrences(labels, n - 1)
  {
    if labels != [] {
      LabelsBelowStep(labels[..|labels| - 1], n);
    }
  }

  lemma {:induction false} LabelsBelowAll(labels: seq<int>, n: int)
    requires forall j :: 0 <= j < |labels| ==> 0 <= labels[j] < n
    ensures LabelsBelow(labels, n) == |labels|
  {
    if labels != [] {
      LabelsBelowAll(labels[..|labels| - 1], n);
    }
  }

  /** Counts taken for every cluster in [0, n) add up to the labels that lie in [0, n):
      every such row is counted once, in its own cluster. */
  lemma {:induction false} CountsCoverLabels(labels: seq<int>, counts: seq<nat>)
    requires forall i :: 0 <= i < |counts| ==> counts[i] == Occurrences(labels, i)
    ensures Total(counts) == LabelsBelow(labels, |counts|)
  {
    if counts != [] {
      var m := |counts| - 1;
      CountsCoverLabels(labels, counts[..m]);
      LabelsBelowStep(labels, |counts|);
    } else {
      LabelsBelowNone(labels);
    }
  }

  lemma {:induction false} LabelsBelowNone(labels: seq<int>)
    ensures LabelsBelow(labels, 0) == 0
  {
    if labels != [] {
      LabelsBelowNone(labels[..|labels| - 1]);
    }
  }

  /** The clustering tool's distribution: for i in range(n_clusters), the number of rows
      labelled i. When every label lies in that range the counts sum to the number of
      rows clustered; in any case they never exceed it. */
  method ClusterCounts(labels: seq<int>, nClusters: int) returns (counts: seq<nat>)
    ensures |counts| == RangeSize(nClusters)
    ensures forall i :: 0 <= i < |counts| ==> counts[i] == Occurrences(labels, i)
    ensures Total(counts) <= |labels|
    ensures (forall j :: 0 <= j < |labels| ==> 0 <= labels[j] < nClusters) ==> Total(counts) == |labels|
  {
    counts := [];
    var i := 0;
    while i < nClusters
      invariant 0 <= i && |counts| == i
      invariant i <= RangeSize(nClusters)
      invariant forall j :: 0 <= j < i ==> counts[j] == Occurrences(labels, j)
    {
      counts := counts + [Occurrences(labels, i)];
      i := i + 1;
    }
    CountsCoverLabels(labels, counts);
    if forall j :: 0 <= j < |labels| ==> 0 <= labels[j] < nClusters {
      LabelsBelowAll(labels, nClusters);
    }
  }
}
