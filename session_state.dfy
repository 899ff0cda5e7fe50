/** The analysis session's five facets as a value, and the two tools that only read them:
    the JSON export and the textual summary (here: which facets are reported, with the
    numbers the summary prints; the wording is presentation).
 */
module SessionState {
  import opened Common
  import opened WireBuffer
  import opened Grid
  import opened Analysis

  /** `_current_data`: spectra (one row per grid point), their grid locations, the
      overview image, the PCA results and the cluster labels. */
  datatype Snapshot = Snapshot(
    spectra: Matrix,
    locations: seq<Location>,
    overviewImage: Option<NdArray>,
    pcaResults: Option<Matrix>,
    clusters: Option<seq<int>>)

  /** The state at process start and after a reset. */
  const Empty := Snapshot([], [], None, None, None)

  /** What every transition keeps: spectra and locations run in parallel, the spectra are
      a proper two-dimensional array, a stored image has its stated shape, and stored PCA
      results are a non-empty matrix. Stored clusters and PCA results may be stale: a new
      grid collection does not touch them. */
  ghost predicate Consistent(s: Snapshot)
  {
    && |s.spectra| == |s.locations|
    && Rectangular(s.spectra)
    && (s.overviewImage.Some? ==> Fits(s.overviewImage.value.root, s.overviewImage.value.shape))
    && (s.pcaResults.Some? ==> |s.pcaResults.value| > 0 && Rectangular(s.pcaResults.value))
  }

  /** Second dimension of a matrix (`shape[1]`), read off its first row. */
  function Width(m: Matrix): nat
  {
    if m == [] then 0 else |m[0]|
  }

  // ---------------------------------------------------------------------------
  // Export.

  /** One entry of `cluster_map`. */
  datatype Assignment = Assignment(location: Location, cluster: int)

  /** `pca_summary`: the shape of the PCA results and their number of components. */
  datatype PcaSummary = PcaSummary(shape: seq<nat>, nComponents: nat)

  /** The exported object; a key that is absent is `None`. */
  datatype ExportData = ExportData(clusterMap: Option<seq<Assignment>>, pcaSummary: Option<PcaSummary>)

  /** `export_analysis_data`. The cluster map is built first, by walking the locations and
      looking up the label at the same index; a label list shorter than the locations
      raises, and the tool answers with that error. */
  function Export(s: Snapshot): (r: Outcome<ExportData>)
    ensures r.NoData? <==> (s.clusters.None? || |s.locations| == 0) && s.pcaResults.None?
    ensures r.Failed? <==> s.clusters.Some? && 0 < |s.locations| && |s.clusters.value| < |s.locations|
    ensures r.Failed? ==> r.error == IndexOutOfRange(|s.clusters.value|)
    ensures r.Done? ==> (r.value.clusterMap.Some? <==> s.clusters.Some? && |s.locations| > 0)
    ensures r.Done? ==> (r.value.pcaSummary.Some? <==> s.pcaResults.Some?)
    ensures r.Done? && r.value.clusterMap.Some? ==>
      && |r.value.clusterMap.value| == |s.locations|
      && forall i :: 0 <= i < |s.locations| ==>
           r.value.clusterMap.value[i] == Assignment(s.locations[i], s.clusters.value[i])
    ensures r.Done? && r.value.pcaSummary.Some? ==>
      && r.value.pcaSummary.value.nComponents == Width(s.pcaResults.value)
      && r.value.pcaSummary.value.shape == [|s.pcaResults.value|, Width(s.pcaResults.value)]
  {
    var locations := s.locations;
    if s.clusters.Some? && |locations| > 0 && |s.clusters.value| < |locations| then
      Failed(IndexOutOfRange(|s.clusters.value|))
    else
      var clusterMap :=
        if s.clusters.Some? && |locations| > 0 then
          var labels := s.clusters.value;
          Some(seq(|locations|, i requires 0 <= i < |locations| => Assignment(locations[i], labels[i])))
        else None;
      var pcaSummary :=
        if s.pcaResults.Some? then
          var pca := s.pcaResults.value;
          Some(PcaSummary([|pca|, Width(pca)], Width(pca)))
        else None;
      if clusterMap.None? && pcaSummary.None? then NoData
      else Done(ExportData(clusterMap, pcaSummary))
  }

  // ---------------------------------------------------------------------------
  // Summary.

  /** `np.unique(labels)` as a set: every label, once. */
  function Distinct(labels: seq<int>): (d: set<int>)
    ensures forall x :: x in d <==> x in labels
    ensures |d| <= |labels|
    ensures |d| == 0 <==> labels == []
  {
    if labels == [] then {}
    else
      var m := |labels| - 1;
      var front := Distinct(labels[..m]);
      assert labels == labels[..m] + [labels[m]];
      assert labels[m] in front + {labels[m]};
      front + {labels[m]}
  }

  datatype SpectraInfo = SpectraInfo(count: nat, length: nat, locationCount: nat)
  datatype ClusterInfo = ClusterInfo(clusterCount: nat, samples: nat)

  /** What `get_analysis_summary` reports, facet by facet; `None` is "not loaded",
      "no spectra collected" or "not performed". */
  datatype SummaryReport = SummaryReport(
    overviewShape: Option<seq<nat>>,
    spectra: Option<SpectraInfo>,
    pcaShape: Option<seq<nat>>,
    clustering: Option<ClusterInfo>)

  /** `get_analysis_summary`: each facet is reported exactly when it is present; the
      number of clusters is the number of distinct labels, at least one and at most the
      number of samples when any sample was clustered. */
  function Summary(s: Snapshot): (r: SummaryReport)
    ensures r.overviewShape.Some? <==> s.overviewImage.Some?
    ensures r.overviewShape.Some? ==> r.overviewShape.value == s.overviewImage.value.shape
    ensures r.spectra.Some? <==> |s.spectra| > 0
    ensures r.spectra.Some? ==> r.spectra.value.count == |s.spectra| && r.spectra.value.locationCount == |s.locations|
    ensures r.pcaShape.Some? <==> s.pcaResults.Some?
    ensures r.clustering.Some? <==> s.clusters.Some?
    ensures r.clustering.Some? ==>
      && r.clustering.value.samples == |s.clusters.value|
      && r.clustering.value.clusterCount <= r.clustering.value.samples
      && (r.clustering.value.clusterCount == 0 <==> r.clustering.value.samples == 0)
  {
    SummaryReport(
      if s.overviewImage.Some? then Some(s.overviewImage.value.shape) else None,
      if |s.spectra| > 0 then Some(SpectraInfo(|s.spectra|, Width(s.spectra), |s.locations|)) else None,
      if s.pcaResults.Some? then Some([|s.pcaResults.value|, Width(s.pcaResults.value)]) else None,
      if s.clusters.Some? then Some(ClusterInfo(|Distinct(s.clusters.value)|, |s.clusters.value|)) else None)
  }

  /** A fresh or reset session has nothing to export and reports every facet as absent. */
  lemma EmptyReportsNothing()
    ensures Export(Empty) == NoData
    ensures Summary(Empty) == SummaryReport(None, None, None, None)
  {
  }
}
