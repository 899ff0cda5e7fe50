/** The analysis session of the STEM server and the tools that change it.

    The server keeps one process-wide dictionary of five facets and each tool assigns
    some of them in place; here that dictionary is a `Session` object. The instrument's
    replies and the scikit-learn engines are parameters of the methods.
 */
module AnalysisSession {
  import opened Common
  import opened WireBuffer
  import opened Grid
  import opened Analysis
  import opened SessionState

  /** `get_point_spectrum`: reads one point and reports the length of the flattened
      spectrum, which is the number of values the instrument sent. Nothing is stored. */
  function PointSpectrumLength(reply: Result<RawBuffer>): (r: Result<nat>)
    ensures r.Success? <==> reply.Success? && |reply.value.values| == Product(reply.value.shape)
    ensures r.Success? ==> r.value == |reply.value.values|
    ensures reply.Failure? ==> r == Failure(reply.error)
  {
    match reply
    case Failure(e) => Failure(e)
    case Success(buf) =>
      match Reconstruct(buf)
      case Failure(e) => Failure(e)
      case Success(spectrum) => Success(|Flatten(spectrum)|)
  }

  class Session {
    var spectra: Matrix
    var locations: seq<Location>
    var overviewImage: Option<NdArray>
    var pcaResults: Option<Matrix>
    var clusters: Option<seq<int>>

    /** The five facets as one value. */
    function State(): Snapshot
      reads this
    {
      Snapshot(spectra, locations, overviewImage, pcaResults, clusters)
    }

    ghost predicate Valid()
      reads this
    {
      Consistent(State())
    }

    /** The session at process start. */
    constructor ()
      ensures Valid() && State() == Empty
    {
      spectra, locations := [], [];
      overviewImage, pcaResults, clusters := None, None, None;
    }

    /** `get_overview_image`: reshapes the instrument's reply and stores it; on a failed
        read or a shape mismatch the session is left as it was. */
    method GetOverviewImage(reply: Result<RawBuffer>) returns (r: Outcome<seq<nat>>)
      requires Valid()
      modifies this
      ensures Valid()
      ensures r.Done? <==> reply.Success? && |reply.value.values| == Product(reply.value.shape)
      ensures r.Done? ==>
        && r.value == reply.value.shape
        && overviewImage.Some?
        && overviewImage.value.shape == reply.value.shape
        && Flatten(overviewImage.value) == reply.value.values
        && State() == old(State()).(overviewImage := overviewImage)
      ensures !r.Done? ==> r.Failed? && State() == old(State())
      ensures reply.Failure? ==> r == Failed(reply.error)
    {
      if reply.Failure? {
        return Failed(reply.error);
      }
      var image := Reconstruct(reply.value);
      if image.Failure? {
        return Failed(image.error);
      }
      overviewImage := Some(image.value);
      r := Done(reply.value.shape);
    }

    /** `collect_grid_spectra`: x outer, y inner, one point read per location. The rows
        and locations are gathered in local lists and committed together only after every
        point has been read and the rows form a matrix; the first failure leaves the
        session exactly as it was. On success spectra and locations are replaced (not
        appended to) and the other three facets are untouched, even though PCA results
        and clusters may now describe an earlier grid. */
    method CollectGridSpectra(gridSizeX: int, gridSizeY: int, channel: string, read: PointReader)
      returns (r: Outcome<nat>)
      requires Valid()
      modifies this
      ensures Valid()
      ensures CollectGrid(read, channel, gridSizeX, gridSizeY).Success? ==>
        && r == Done(PointCount(gridSizeX, gridSizeY))
        && State() == old(State()).(spectra := CollectGrid(read, channel, gridSizeX, gridSizeY).value,
                                    locations := GridPoints(gridSizeX, gridSizeY))
      ensures CollectGrid(read, channel, gridSizeX, gridSizeY).Failure? ==>
        && r == Failed(CollectGrid(read, channel, gridSizeX, gridSizeY).error)
        && State() == old(State())
    {
      var walked, visited := WalkGrid(gridSizeX, gridSizeY, channel, read);
      if walked.Failure? {
        return Failed(walked.error);
      }
      var rows := walked.value;
      ReadRowsContents(read, channel, visited);
      if !Rectangular(rows) {
        return Failed(InhomogeneousRows);
      }
      spectra := rows;
      locations := visited;
      GridOrder(gridSizeX, gridSizeY);
      r := Done(|visited|);
    }

    /** `perform_pca_analysis`: without spectra, the "no spectra data" outcome and no
        change; otherwise only the PCA results are replaced, by a matrix with one row per
        spectrum and `n_components` columns. No local check of `n_components`: a bad value
        is the engine's failure, and the session is then unchanged. */
    method PerformPca(nComponents: int, reduce: Reducer) returns (r: Outcome<Matrix>)
      requires Valid() && KeepsRows(reduce)
      modifies this
      ensures Valid()
      ensures |old(spectra)| == 0 ==> r == NoData && State() == old(State())
      ensures |old(spectra)| > 0 && reduce(old(spectra), nComponents).Failure? ==>
        r == Failed(reduce(old(spectra), nComponents).error) && State() == old(State())
      ensures |old(spectra)| > 0 && reduce(old(spectra), nComponents).Success? ==>
        var reduced := reduce(old(spectra), nComponents).value;
        && r == Done(reduced)
        && State() == old(State()).(pcaResults := Some(reduced))
        && |reduced| == |spectra|
        && forall i :: 0 <= i < |reduced| ==> |reduced[i]| == nComponents
    {
      if |spectra| == 0 {
        return NoData;
      }
      var reduced := reduce(spectra, nComponents);
      if reduced.Failure? {
        return Failed(reduced.error);
      }
      pcaResults := Some(reduced.value);
      r := Done(reduced.value);
    }

    /** `perform_clustering`: clusters the PCA results when asked for and present, else
        the spectra, else answers "no data" without change. On success only the cluster
        labels are replaced, one per row clustered, and the answer is the count of rows in
        each cluster i for i in range(n_clusters). */
    method PerformClustering(nClusters: int, usePca: bool, randomState: int, cluster: Clusterer)
      returns (r: Outcome<seq<nat>>)
      requires Valid() && LabelsEveryRow(cluster)
      modifies this
      ensures Valid()
      ensures ClusterSource(usePca, old(pcaResults), old(spectra)).None? ==>
        r == NoData && State() == old(State())
      ensures ClusterSource(usePca, old(pcaResults), old(spectra)).Some? ==>
        var data := ClusterSource(usePca, old(pcaResults), old(spectra)).value;
        && |data| > 0
        && (cluster(data, nClusters, randomState).Failure? ==>
              r == Failed(cluster(data, nClusters, randomState).error) && State() == old(State()))
        && (cluster(data, nClusters, randomState).Success? ==>
              var labels := cluster(data, nClusters, randomState).value;
              && State() == old(State()).(clusters := Some(labels))
              && |labels| == |data|
              && r.Done?
              && |r.value| == RangeSize(nClusters)
              && (forall i :: 0 <= i < |r.value| ==> r.value[i] == Occurrences(labels, i))
              && ((forall j :: 0 <= j < |labels| ==> 0 <= labels[j] < nClusters) ==> Total(r.value) == |data|))
    {
      var data := ClusterSource(usePca, pcaResults, spectra);
      if data.None? {
        return NoData;
      }
      var labels := cluster(data.value, nClusters, randomState);
      if labels.Failure? {
        return Failed(labels.error);
      }
      clusters := Some(labels.value);
      var counts := ClusterCounts(labels.value, nClusters);
      r := Done(counts);
    }

    /** `reset_analysis`: every facet back to its initial value at once. The new state
        does not depend on the old one, so a second reset changes nothing. */
    method Reset()
      modifies this
      ensures Valid() && State() == Empty
    {
      spectra, locations := [], [];
      overviewImage, pcaResults, clusters := None, None, None;
    }
  }
}
