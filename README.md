# STEM analysis session — a Dafny model

The STEM microscope server exposes tools to an agent. The tools read spectra and images from a remote instrument, and they keep one process-wide analysis session in `_current_data`. That session has five facets: `spectra`, `locations`, `overview_image`, `pca_results` and `clusters`. This project models the session and the tools that move it between states:

- grid collection: x outer, y inner, all-or-nothing commit;
- overview capture;
- PCA and K-means: each has a "no data" outcome and writes only its own facet;
- export and summary, which only read the session;
- reset.

It also models the flat-buffer convention that every read relies on. The instrument sends flat values plus a shape. `np.array(values).reshape(shape)` rebuilds a row-major array, and `flatten` turns it back into a flat sequence.

Files and modules:

- `common.dfy` (`Common`): `Option`, `Result`, the `Outcome` of a tool (`NoData`, `Failed`, `Done`), the error kinds, and the length of Python's `range`.
- `wire_buffer.dfy` (`WireBuffer`): N-dimensional arrays as nested rows with a shape; reshape (`Nest`, `Reconstruct`) and flatten, proved inverse to each other in both directions.
- `grid.dfy` (`Grid`): the grid's visiting order, the point read as a function that may fail, the specification `CollectGrid` of a whole collection, and the loop method `WalkGrid` proved against it.
- `analysis.dfy` (`Analysis`): the PCA and KMeans engines at their boundary, the choice of data to cluster, and the per-cluster count loop.
- `session_state.dfy` (`SessionState`): the five facets as a value (`Snapshot`), the invariant the tools keep, and `Export` and `Summary`.
- `session.dfy` (`AnalysisSession`): the `Session` class holding the five facets, with one method per state-changing tool, and `get_point_spectrum`.

The remote instrument is not modelled. `get_point_data` is a function parameter `(channel, x, y) -> Result<RawBuffer>`. The overview read is a `Result<RawBuffer>` argument. scikit-learn's PCA and KMeans are function parameters too. The only things assumed of them are shape facts: PCA keeps one row per input row and has `n_components` columns, and KMeans gives one label per row. Because they are functions, equal inputs give equal labels.

How the code behaves at its edges, and how the model follows it:

- PCA and clustering do not check `n_components` or `n_clusters` themselves. A bad value makes scikit-learn raise, and the tool reports that error with the session unchanged. In the model this is the engine's `Failure`.
- PCA before any spectra were collected answers "No spectra data available" and changes nothing. That is the `NoData` outcome.
- Export walks the locations and looks up the label at the same index. A label list shorter than the locations raises `IndexError` while `cluster_map` is built, and the tool answers with an error. That is `Failed(IndexOutOfRange(..))`.
- Grid collection fills local lists and writes them into the session only after the loop (MCP_servers/stem_mcp_server.py:223-235), so a failing point commits nothing. `np.array(spectra)` also rejects rows of different lengths (numpy 1.24 and later), and then nothing is committed either.

## Model

| member | source | states |
|---|---|---|
| `WireBuffer.Reconstruct` | MCP_servers/stem_mcp_server.py:174 | reshaping succeeds exactly when the number of values equals the product of the shape; the result then has that shape and flattens back to the values; otherwise the error names the expected and actual counts |
| `WireBuffer.FlattenNest` | MCP_servers/stem_mcp_server.py:229-230 | flattening a reshaped buffer gives back the original values in the original order |
| `WireBuffer.NestFits` | MCP_servers/stem_mcp_server.py:174 | a reshaped buffer is laid out with exactly the requested shape |
| `WireBuffer.NestFlatten` | MCP_servers/stem_mcp_server.py:229-230 | an array of a given shape flattens to product-of-shape values, and reshaping them rebuilds the same array |
| `Grid.GridOrder` | MCP_servers/stem_mcp_server.py:226-231 | the grid walk visits max(x,0)*max(y,0) points, and entry k is (k div grid_size_y, k mod grid_size_y), x outer and y inner |
| `Grid.PointRow` | MCP_servers/stem_mcp_server.py:228-230 | one point's row exists exactly when the read succeeds and its values fit its shape, and the row is the values the instrument sent; a failed read passes its own error through, and a bad shape gives the reshape error with the expected and actual counts |
| `Grid.ReadRowsContents` | MCP_servers/stem_mcp_server.py:226-231 | a successful walk holds one row per point, in visiting order, each being that point's values |
| `Grid.ReadRowsSucceeds` | MCP_servers/stem_mcp_server.py:226-231 | if every point reads, the walk succeeds |
| `Grid.ReadRowsFirstFailure` | MCP_servers/stem_mcp_server.py:226-240 | the walk fails with the error of the first point that fails |
| `Grid.ReadRowsPrefixFailure` | MCP_servers/stem_mcp_server.py:226-231 | once a prefix of the points has failed, the whole walk has failed with the same error; later points are never read |
| `Grid.FailureEndsWalk` | MCP_servers/stem_mcp_server.py:228-240 | a point that fails inside the nested loops ends the whole collection with that point's error |
| `Grid.WalkGrid` | MCP_servers/stem_mcp_server.py:223-231 | the nested loops return the walk's specification, and on success their location list is the whole grid |
| `Grid.CollectGridRows` | MCP_servers/stem_mcp_server.py:226-235 | a successful collection has PointCount rows of equal length, and row k holds the values read at (k div grid_size_y, k mod grid_size_y) |
| `Grid.CollectGridFails` | MCP_servers/stem_mcp_server.py:226-240 | a collection fails exactly when some grid point fails or the rows differ in length |
| `Grid.ReportedTotalMiscounts` | MCP_servers/stem_mcp_server.py:237 | the reported count grid_size_x*grid_size_y equals the number of points visited exactly when neither size is negative or one of them is zero; with any negative size no point is collected, and with both negative the reported count is positive |
| `Analysis.ClusterSource` | MCP_servers/stem_mcp_server.py:294-301 | clustering uses the PCA results if asked for and present, else the spectra if non-empty, else nothing; the chosen matrix is never empty |
| `Analysis.Occurrences` | MCP_servers/stem_mcp_server.py:313 | the count for cluster i equals the multiplicity of i among the labels |
| `Analysis.CountsCoverLabels` | MCP_servers/stem_mcp_server.py:311-313 | counts taken for every i in [0, n) add up to the number of labels lying in [0, n) |
| `Analysis.ClusterCounts` | MCP_servers/stem_mcp_server.py:311-313 | one count per i in range(n_clusters), each the number of labels equal to i; they never exceed the row count, and they sum to it when every label lies in range |
| `SessionState.Export` | MCP_servers/stem_mcp_server.py:381-403 | cluster_map is present iff clusters are present and locations non-empty, and pairs locations[i] with clusters[i] in order; shorter clusters give the index error; pca_summary is present iff PCA results are, with their shape and column count; "no data" iff neither is present |
| `SessionState.Distinct` | MCP_servers/stem_mcp_server.py:362 | the distinct labels are exactly those occurring, there are no more of them than labels, and there are none only for an empty list |
| `SessionState.Summary` | MCP_servers/stem_mcp_server.py:335-369 | each facet is reported exactly when present, with its counts; the cluster count is at most the number of samples, and zero only when there are none |
| `SessionState.EmptyReportsNothing` | MCP_servers/stem_mcp_server.py:398-399 | a fresh or reset session exports the "no data" outcome and reports every facet absent |
| `AnalysisSession.PointSpectrumLength` | MCP_servers/stem_mcp_server.py:194-201 | a point read succeeds exactly when the read succeeds and its values fit its shape, and reports the number of values sent |
| `AnalysisSession.Session.constructor` | MCP_servers/stem_mcp_server.py:30-36 | the session starts with empty spectra and locations and no image, PCA results or clusters |
| `AnalysisSession.Session.GetOverviewImage` | MCP_servers/stem_mcp_server.py:169-179 | on success only the overview image changes, to an array of the sent shape that flattens to the sent values; a failed read or a shape mismatch changes nothing |
| `AnalysisSession.Session.CollectGridSpectra` | MCP_servers/stem_mcp_server.py:220-240 | on success spectra and locations are replaced wholesale by the collected rows and the grid in x-outer/y-inner order, the other facets are untouched, and the count of points is returned; on any failure the session is exactly as before |
| `AnalysisSession.Session.PerformPca` | MCP_servers/stem_mcp_server.py:253-273 | without spectra: the "no data" outcome and no change; on success only the PCA results change, with one row per spectrum and n_components columns; an engine failure changes nothing |
| `AnalysisSession.Session.PerformClustering` | MCP_servers/stem_mcp_server.py:292-325 | without data: the "no data" outcome and no change; on success only the clusters change, to one label per row clustered, and the answer holds the per-cluster counts; an engine failure changes nothing |
| `AnalysisSession.Session.Reset` | MCP_servers/stem_mcp_server.py:413-419 | all five facets return to their initial values together; the new state does not depend on the old one, so a second reset is a no-op |

## Left out

- Pyro5 proxy creation and caching (MCP_servers/stem_mcp_server.py:38-43) and every remote call: this is RPC plumbing. The point read and the overview read are inputs that may fail.
- `download_data_file`, `initialize_microscope` and `register_data_file` (MCP_servers/stem_mcp_server.py:49-158): these are HTTP, filesystem and RPC calls with no session state.
- The `dtype` of a reply: values are modelled as reals, so the element conversion done by `np.array(values, dtype)` and the error for an unknown dtype are not modelled.
- numpy's inferred dimension (`-1`) and negative dimensions in a reshape: shapes are sequences of natural numbers.
- The internals of PCA and KMeans, the explained-variance ratios, and the effect of `random_state` (MCP_servers/stem_mcp_server.py:257-269, 304-305): these are floating-point numerics inside scikit-learn. The engines are parameters with shape-only contracts.
- AnalysisSession.Session.PerformClustering: the per-cluster counts sum to the number of rows only under the condition that every label lies in [0, n_clusters). KMeans promises that range, but the model assumes only one label per row.
- Message texts, the JSON rendering of the export and the summary's wording (MCP_servers/stem_mcp_server.py:177, 238, 265-269, 315-323, 335-369, 401): these are presentation. The model keeps the values they report, except the grid count below.
- AnalysisSession.Session.CollectGridSpectra: returns the number of points visited, `PointCount`, not the product `grid_size_x * grid_size_y` that the reply at MCP_servers/stem_mcp_server.py:237-238 prints. The two differ when a size is negative. The printed product is modelled separately as `Grid.ReportedTotal`, and `Grid.ReportedTotalMiscounts` states when they differ (see Findings).
- The tools' default arguments (MCP_servers/stem_mcp_server.py:185, 208-210, 246, 280-282): the 10x10 grid, channel `"Channel_001"`, `n_components=2`, `n_clusters=3`, `use_pca=True` and `random_state=42`. Every model operation takes these as explicit parameters, because defaults belong to the tool registration.
- An exception raised while a message is formatted after a facet was assigned (e.g. after MCP_servers/stem_mcp_server.py:261): no modelled input reaches it.
- `AFM_DT.py`, `MCP_servers/particle_detector.py`, `MCP_servers/structure_property.py` and `MCP_servers/display_images.py` are not part of this model. They hold process startup, plotting and float statistics, or stub tools that return constant strings.
- MCP tool registration and the stdio transport: framework wiring.

## Findings

| source | as written | input that shows it | evidently intended | confidence | as-written member | corrected member |
|---|---|---|---|---|---|---|
| MCP_servers/stem_mcp_server.py:237 | the reply reports `grid_size_x * grid_size_y` spectra collected | grid_size_x = -2, grid_size_y = -3: `range` visits no point, nothing is read, yet the reply says 6 spectra were collected; (-2, 3) reports -6 | report the number of points visited, max(grid_size_x, 0) * max(grid_size_y, 0), which `CollectGridSpectra` returns | not executed; medium (negative sizes are unusual but accepted) | `Grid.ReportedTotalMiscounts` | `Grid.GridOrder` |
