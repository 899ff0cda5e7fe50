/** Grid collection, as a specification.

    `collect_grid_spectra` walks x in [0, grid_size_x) outer and y in [0, grid_size_y)
    inner, reads one point spectrum per location, reshapes and flattens it, and stops at
    the first point that fails. The point read is the instrument's `get_point_data`, a
    remote call, given here as a function that may fail.
 */
module Grid {
  import opened Common
  import opened WireBuffer

  /** A grid index (x, y). */
  datatype Location = Location(x: int, y: int)

  /** The instrument's `get_point_data(channel, x, y)`. */
  type PointReader = (string, int, int) -> Result<RawBuffer>

  /** The inner loop at one x: (x, 0), (x, 1), ..., (x, grid_size_y - 1). */
  function Column(x: int, gridSizeY: int): seq<Location>
  {
    seq(RangeSize(gridSizeY), y => Location(x, y))
  }

  /** The locations of the first `gridSizeX` outer iterations, in visiting order. */
  function GridPoints(gridSizeX: int, gridSizeY: int): seq<Location>
    decreases gridSizeX
  {
    if gridSizeX <= 0 then [] else GridPoints(gridSizeX - 1, gridSizeY) + Column(gridSizeX - 1, gridSizeY)
  }

  /** The number of points the two nested `range` loops visit. */
  function PointCount(gridSizeX: int, gridSizeY: int): nat
  {
    RangeSize(gridSizeX) * RangeSize(gridSizeY)
  }

  lemma DivModOf(k: int, q: int, r: int, d: int)
    requires d > 0 && 0 <= r < d && k == q * d + r
    ensures k / d == q && k % d == r
  {
    var q', r' := k / d, k % d;
    assert (q - q') * d == r' - r;
    if q > q' {
      MulAtLeast(q - q', d);
    } else if q < q' {
      MulAtLeast(q' - q, d);
    }
  }

  lemma MulAtLeast(a: int, d: int)
    requires a >= 1 && d > 0
    ensures a * d >= d
  {
  }

  /** The grid has one entry per visited point, and entry k is (k div grid_size_y,
      k mod grid_size_y): x outer, y inner. */
  lemma {:induction false} GridOrder(gridSizeX: int, gridSizeY: int)
    ensures |GridPoints(gridSizeX, gridSizeY)| == PointCount(gridSizeX, gridSizeY)
    ensures gridSizeX >= 0 && gridSizeY >= 0 ==> |GridPoints(gridSizeX, gridSizeY)| == gridSizeX * gridSizeY
    ensures forall k :: 0 <= k < |GridPoints(gridSizeX, gridSizeY)| ==>
      GridPoints(gridSizeX, gridSizeY)[k] == Location(k / gridSizeY, k % gridSizeY)
    decreases gridSizeX
  {
    if gridSizeX > 0 {
      var front := GridPoints(gridSizeX - 1, gridSizeY);
      var col := Column(gridSizeX - 1, gridSizeY);
      GridOrder(gridSizeX - 1, gridSizeY);
      var m := RangeSize(gridSizeY);
      assert |front| == (gridSizeX - 1) * m;
      assert gridSizeX * m == (gridSizeX - 1) * m + m;
      forall k | 0 <= k < |front| + |col|
        ensures (front + col)[k] == Location(k / gridSizeY, k % gridSizeY)
      {
        if k >= |front| {
          DivModOf(k, gridSizeX - 1, k - |front|, gridSizeY);
        }
      }
    }
  }

  /** One point: read it, reshape it, flatten it. */
  function PointRow(read: PointReader, channel: string, p: Location): (r: Result<seq<real>>)
    ensures r.Success? <==>
      read(channel, p.x, p.y).Success? &&
      |read(channel, p.x, p.y).value.values| == Product(read(channel, p.x, p.y).value.shape)
    ensures r.Success? ==> r.value == read(channel, p.x, p.y).value.values
    ensures read(channel, p.x, p.y).Failure? ==> r == Failure(read(channel, p.x, p.y).error)
    ensures read(channel, p.x, p.y).Success? && r.Failure? ==>
      r.error == ShapeMismatch(Product(read(channel, p.x, p.y).value.shape), |read(channel, p.x, p.y).value.values|)
  {
    match read(channel, p.x, p.y)
    case Failure(e) => Failure(e)
    case Success(buf) =>
      match Reconstruct(buf)
      case Failure(e) => Failure(e)
      case Success(a) => Success(Flatten(a))
  }

  /** Reads the points in order; the first failure ends the walk. */
  function ReadRows(read: PointReader, channel: string, points: seq<Location>): Result<seq<seq<real>>>
  {
    if points == [] then Success([])
    else
      match ReadRows(read, channel, points[..|points| - 1])
      case Failure(e) => Failure(e)
      case Success(rows) =>
        match PointRow(read, channel, points[|points| - 1])
        case Failure(e) => Failure(e)
        case Success(row) => Success(rows + [row])
  }

  /** A walk that succeeds holds one row per point, in order: the values the instrument
      sent for that point. */
  lemma {:induction false} ReadRowsContents(read: PointReader, channel: string, points: seq<Location>)
    requires ReadRows(read, channel, points).Success?
    ensures |ReadRows(read, channel, points).value| == |points|
    ensures forall k :: 0 <= k < |points| ==>
      && PointRow(read, channel, points[k]).Success?
      && ReadRows(read, channel, points).value[k] == read(channel, points[k].x, points[k].y).value.values
  {
    if points != [] {
      var m := |points| - 1;
      ReadRowsContents(read, channel, points[..m]);
    }
  }

  /** Reading one more point that succeeds adds its row at the end. */
  lemma ReadRowsAppend(read: PointReader, channel: string, points: seq<Location>, p: Location)
    requires ReadRows(read, channel, points).Success? && PointRow(read, channel, p).Success?
    ensures ReadRows(read, channel, points + [p]) ==
      Success(ReadRows(read, channel, points).value + [PointRow(read, channel, p).value])
  {
    var upTo := points + [p];
    assert upTo[..|upTo| - 1] == points;
  }

  /** Reading one more point that fails ends the walk with that point's error. */
  lemma ReadRowsFailAppend(read: PointReader, channel: string, points: seq<Location>, p: Location)
    requires ReadRows(read, channel, points).Success? && PointRow(read, channel, p).Failure?
    ensures ReadRows(read, channel, points + [p]) == Failure(PointRow(read, channel, p).error)
  {
    var upTo := points + [p];
    assert upTo[..|upTo| - 1] == points;
  }

  /** If every point reads, the walk succeeds. */
  lemma {:induction false} ReadRowsSucceeds(read: PointReader, channel: string, points: seq<Location>)
    requires forall k :: 0 <= k < |points| ==> PointRow(read, channel, points[k]).Success?
    ensures ReadRows(read, channel, points).Success?
  {
    if points != [] {
      ReadRowsSucceeds(read, channel, points[..|points| - 1]);
    }
  }

  /** The walk reports the error of the first failing point. */
  lemma {:induction false} ReadRowsFirstFailure(read: PointReader, channel: string, points: seq<Location>, k: nat)
    requires k < |points|
    requires forall j :: 0 <= j < k ==> PointRow(read, channel, points[j]).Success?
    requires PointRow(read, channel, points[k]).Failure?
    ensures ReadRows(read, channel, points) == Failure(PointRow(read, channel, points[k]).error)
  {
    var m := |points| - 1;
    if k == m {
      ReadRowsSucceeds(read, channel, points[..m]);
    } else {
      ReadRowsFirstFailure(read, channel, points[..m], k);
    }
  }

  /** A failure in a prefix is the failure of the whole walk: later points are never read. */
  lemma {:induction false} ReadRowsPrefixFailure(read: PointReader, channel: string, prefix: seq<Location>, points: seq<Location>)
    requires prefix <= points
    requires ReadRows(read, channel, prefix).Failure?
    ensures ReadRows(read, channel, points) == ReadRows(read, channel, prefix)
    decreases |points|
  {
    if |points| > |prefix| {
      var m := |points| - 1;
      assert prefix <= points[..m];
      ReadRowsPrefixFailure(read, channel, prefix, points[..m]);
    } else {
      assert prefix == points;
    }
  }

  /** The grid walked so far is a prefix of every larger grid. */
  lemma {:induction false} GridGrows(a: int, b: int, gridSizeY: int)
    requires 0 <= a <= b
    ensures GridPoints(a, gridSizeY) <= GridPoints(b, gridSizeY)
    decreases b
  {
    if a < b {
      GridGrows(a, b - 1, gridSizeY);
    }
  }

  /** The points visited before (x, y), and (x, y) itself, are a prefix of the whole grid. */
  lemma VisitedPrefix(x: int, y: int, gridSizeX: int, gridSizeY: int)
    requires 0 <= x < gridSizeX && 0 <= y < gridSizeY
    ensures GridPoints(x, gridSizeY) + Column(x, gridSizeY)[..y] + [Location(x, y)] <= GridPoints(gridSizeX, gridSizeY)
  {
    GridGrows(x + 1, gridSizeX, gridSizeY);
    var col := Column(x, gridSizeY);
    assert col[..y] + [Location(x, y)] <= col;
    assert GridPoints(x + 1, gridSizeY) == GridPoints(x, gridSizeY) + col;
  }

  /** A point that fails after the points before it were read ends the whole collection
      with its error. */
  lemma FailureEndsWalk(read: PointReader, channel: string, gridSizeX: int, gridSizeY: int,
                        x: int, y: int, visited: seq<Location>)
    requires 0 <= x < gridSizeX && 0 <= y < gridSizeY
    requires visited == GridPoints(x, gridSizeY) + Column(x, gridSizeY)[..y]
    requires ReadRows(read, channel, visited).Success?
    requires PointRow(read, channel, Location(x, y)).Failure?
    ensures ReadRows(read, channel, GridPoints(gridSizeX, gridSizeY)) == Failure(PointRow(read, channel, Location(x, y)).error)
  {
    var upTo := visited + [Location(x, y)];
    ReadRowsFailAppend(read, channel, visited, Location(x, y));
    VisitedPrefix(x, y, gridSizeX, gridSizeY);
    ReadRowsPrefixFailure(read, channel, upTo, GridPoints(gridSizeX, gridSizeY));
  }

  /** The nested loops of `collect_grid_spectra`: for x in range(grid_size_x), for y in
      range(grid_size_y), read the point, reshape and flatten it, and append the row and
      the location to local lists. The first failing point ends the walk with its error. */
  method WalkGrid(gridSizeX: int, gridSizeY: int, channel: string, read: PointReader)
    returns (r: Result<seq<seq<real>>>, visited: seq<Location>)
    ensures r == ReadRows(read, channel, GridPoints(gridSizeX, gridSizeY))
    ensures r.Success? ==> visited == GridPoints(gridSizeX, gridSizeY)
  {
    var rows: seq<seq<real>> := [];
    visited := [];
    var x := 0;
    while x < gridSizeX
      invariant 0 <= x <= RangeSize(gridSizeX)
      invariant visited == GridPoints(x, gridSizeY)
      invariant ReadRows(read, channel, visited) == Success(rows)
    {
      var y := 0;
      while y < gridSizeY
        invariant 0 <= y <= RangeSize(gridSizeY)
        invariant visited == GridPoints(x, gridSizeY) + Column(x, gridSizeY)[..y]
        invariant ReadRows(read, channel, visited) == Success(rows)
      {
        var spectrum := PointRow(read, channel, Location(x, y));
        if spectrum.Failure? {
          FailureEndsWalk(read, channel, gridSizeX, gridSizeY, x, y, visited);
          return Failure(spectrum.error), visited;
        }
        ReadRowsAppend(read, channel, visited, Location(x, y));
        assert Column(x, gridSizeY)[..y + 1] == Column(x, gridSizeY)[..y] + [Location(x, y)];
        rows := rows + [spectrum.value];
        visited := visited + [Location(x, y)];
        y := y + 1;
      }
      assert Column(x, gridSizeY)[..y] == Column(x, gridSizeY);
      x := x + 1;
    }
    r := Success(rows);
  }

  /** All rows have the length of the first one: what `np.array(rows)` needs to build a
      two-dimensional array (numpy 1.24 and later reject ragged rows). */
  predicate Rectangular(rows: seq<seq<real>>)
  {
    forall i :: 0 <= i < |rows| ==> |rows[i]| == |rows[0]|
  }

  /** The outcome of a whole grid collection: the spectra, one row per grid point in
      visiting order, or the first error. */
  function CollectGrid(read: PointReader, channel: string, gridSizeX: int, gridSizeY: int): Result<seq<seq<real>>>
  {
    match ReadRows(read, channel, GridPoints(gridSizeX, gridSizeY))
    case Failure(e) => Failure(e)
    case Success(rows) => if Rectangular(rows) then Success(rows) else Failure(InhomogeneousRows)
  }

  /** What a successful collection holds: one row per grid point, the row of point k being
      the values the instrument returned for (k div grid_size_y, k mod grid_size_y). */
  lemma CollectGridRows(read: PointReader, channel: string, gridSizeX: int, gridSizeY: int)
    requires CollectGrid(read, channel, gridSizeX, gridSizeY).Success?
    ensures var rows := CollectGrid(read, channel, gridSizeX, gridSizeY).value;
      && |rows| == PointCount(gridSizeX, gridSizeY)
      && Rectangular(rows)
      && forall k :: 0 <= k < |rows| ==>
           && read(channel, k / gridSizeY, k % gridSizeY).Success?
           && rows[k] == read(channel, k / gridSizeY, k % gridSizeY).value.values
  {
    var points := GridPoints(gridSizeX, gridSizeY);
    var rows := ReadRows(read, channel, points).value;
    ReadRowsContents(read, channel, points);
    GridOrder(gridSizeX, gridSizeY);
    forall k | 0 <= k < |rows|
      ensures read(channel, k / gridSizeY, k % gridSizeY).Success?
      ensures rows[k] == read(channel, k / gridSizeY, k % gridSizeY).value.values
    {
      assert points[k] == Location(k / gridSizeY, k % gridSizeY);
    }
  }

  /** A collection fails exactly when some point fails or the rows differ in length. */
  lemma CollectGridFails(read: PointReader, channel: string, gridSizeX: int, gridSizeY: int)
    ensures CollectGrid(read, channel, gridSizeX, gridSizeY).Failure? <==>
      || (exists k :: 0 <= k < |GridPoints(gridSizeX, gridSizeY)| && PointRow(read, channel, GridPoints(gridSizeX, gridSizeY)[k]).Failure?)
      || (ReadRows(read, channel, GridPoints(gridSizeX, gridSizeY)).Success? && !Rectangular(ReadRows(read, channel, GridPoints(gridSizeX, gridSizeY)).value))
  {
    var points := GridPoints(gridSizeX, gridSizeY);
    if ReadRows(read, channel, points).Success? {
      ReadRowsContents(read, channel, points);
    } else if forall k :: 0 <= k < |points| ==> PointRow(read, channel, points[k]).Success? {
      ReadRowsSucceeds(read, channel, points);
    }
  }

  // ---------------------------------------------------------------------------
  // The count in the tool's reply.

  /** The count the tool reports, `grid_size_x * grid_size_y`, as written. */
  function ReportedTotal(gridSizeX: int, gridSizeY: int): int
  {
    gridSizeX * gridSizeY
  }

  /** The reported count matches the points visited exactly when neither size is
      negative or one of them is zero. With one negative size the reply reports a
      negative count, (-2, 3) gives -6; with two it reports a positive one, (-2, -3)
      gives 6; in both cases no point was read. */
  lemma ReportedTotalMiscounts(gridSizeX: int, gridSizeY: int)
    ensures ReportedTotal(gridSizeX, gridSizeY) == |GridPoints(gridSizeX, gridSizeY)| <==>
      (0 <= gridSizeX && 0 <= gridSizeY) || gridSizeX == 0 || gridSizeY == 0
    ensures gridSizeX < 0 || gridSizeY < 0 ==> |GridPoints(gridSizeX, gridSizeY)| == 0
    ensures gridSizeX < 0 && gridSizeY < 0 ==> ReportedTotal(gridSizeX, gridSizeY) > 0
  {
    GridOrder(gridSizeX, gridSizeY);
    if gridSizeX < 0 && gridSizeY < 0 {
      assert gridSizeX * gridSizeY == (-gridSizeX) * (-gridSizeY);
    } else if gridSizeX < 0 && gridSizeY > 0 {
      assert gridSizeX * gridSizeY == -((-gridSizeX) * gridSizeY);
    } else if gridSizeX > 0 && gridSizeY < 0 {
      assert gridSizeX * gridSizeY == -(gridSizeX * (-gridSizeY));
    }
  }
}
