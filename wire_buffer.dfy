/** The flat-buffer convention of the instrument's replies.

    Every read returns a triple (flat value list, shape, dtype); the server rebuilds an
    array with `np.array(values, dtype).reshape(shape)` and, for spectra, flattens it
    again. An N-dimensional array is modelled as a `Tree` of nested rows together with
    its shape; reshaping is row-major (the last dimension varies fastest).
 */
module WireBuffer {
  import opened Common

  /** Nested rows: a `Cell` holds one element, a `Slab` one level of the array. */
  datatype Tree = Cell(value: real) | Slab(items: seq<Tree>)

  /** A numpy array: its shape and its nested contents. */
  datatype NdArray = NdArray(shape: seq<nat>, root: Tree)

  /** One reply of the instrument: the flat values and the shape to read them in. */
  datatype RawBuffer = RawBuffer(values: seq<real>, shape: seq<nat>)

  /** Number of elements an array of this shape holds (1 for the 0-d shape). */
  function Product(shape: seq<nat>): nat
  {
    if shape == [] then 1 else shape[0] * Product(shape[1..])
  }

  /** `t` is laid out as an array of shape `shape`. */
  ghost predicate Fits(t: Tree, shape: seq<nat>)
    decreases t
  {
    if shape == [] then t.Cell?
    else
      && t.Slab?
      && |t.items| == shape[0]
      && forall i :: 0 <= i < |t.items| ==> Fits(t.items[i], shape[1..])
  }

  /** Concatenation of a sequence of rows, in order. */
  function Concat(rows: seq<seq<real>>): seq<real>
  {
    if rows == [] then [] else Concat(rows[..|rows| - 1]) + rows[|rows| - 1]
  }

  /** The elements of `t` in row-major order (numpy's `flatten`). */
  function FlattenTree(t: Tree): seq<real>
    decreases t
  {
    match t
    case Cell(v) => [v]
    case Slab(items) => Concat(seq(|items|, i requires 0 <= i < |items| => FlattenTree(items[i])))
  }

  function Flatten(a: NdArray): seq<real>
  {
    FlattenTree(a.root)
  }

  lemma ChunkBounds(i: nat, n: nat, stride: nat)
    requires i < n
    ensures (i + 1) * stride <= n * stride
  {
  }

  /** The `i`-th block of `stride` consecutive values. */
  function Chunk(values: seq<real>, n: nat, stride: nat, i: nat): (c: seq<real>)
    requires |values| == n * stride && i < n
    ensures |c| == stride
  {
    ChunkBounds(i, n, stride);
    values[i * stride .. (i + 1) * stride]
  }

  /** Reads `values` row-major into nested rows of the given shape. */
  function Nest(values: seq<real>, shape: seq<nat>): Tree
    requires |values| == Product(shape)
    decreases |shape|
  {
    if shape == [] then Cell(values[0])
    else
      var stride := Product(shape[1..]);
      Slab(seq(shape[0], i requires 0 <= i < shape[0] => Nest(Chunk(values, shape[0], stride, i), shape[1..])))
  }

  /** `np.array(values).reshape(shape)`: succeeds exactly when the element count matches
      the shape; the array then has that shape and flattens back to `values`. */
  function Reconstruct(buf: RawBuffer): (r: Result<NdArray>)
    ensures r.Success? <==> |buf.values| == Product(buf.shape)
    ensures r.Success? ==> r.value.shape == buf.shape && Fits(r.value.root, buf.shape)
    ensures r.Success? ==> Flatten(r.value) == buf.values
    ensures r.Failure? ==> r.error == ShapeMismatch(Product(buf.shape), |buf.values|)
  {
    if |buf.values| != Product(buf.shape) then Failure(ShapeMismatch(Product(buf.shape), |buf.values|))
    else
      NestFits(buf.values, buf.shape);
      FlattenNest(buf.values, buf.shape);
      Success(NdArray(buf.shape, Nest(buf.values, buf.shape)))
  }

  // ---------------------------------------------------------------------------
  // Lemmas: reshape and flatten are inverse to each other.

  /** The first `k` blocks of `stride` values, concatenated, are the first `k * stride` values. */
  lemma {:induction false} ConcatChunksPrefix(values: seq<real>, n: nat, stride: nat, blocks: seq<seq<real>>, k: nat)
    requires |values| == n * stride && |blocks| == n && k <= n
    requires forall i :: 0 <= i < n ==> blocks[i] == Chunk(values, n, stride, i)
    ensures k * stride <= |values|
    ensures Concat(blocks[..k]) == values[..k * stride]
  {
    if k == 0 {
      assert blocks[..0] == [];
    } else {
      ConcatChunksPrefix(values, n, stride, blocks, k - 1);
      ChunkBounds(k - 1, n, stride);
      var lo, hi := (k - 1) * stride, k * stride;
      StepProduct(k, stride);
      assert blocks[..k][..k - 1] == blocks[..k - 1];
      assert blocks[..k][k - 1] == values[lo..hi];
      assert values[..lo] + values[lo..hi] == values[..hi];
    }
  }

  lemma StepProduct(k: nat, stride: nat)
    requires k > 0
    ensures k * stride == (k - 1) * stride + stride
  {
  }

  /** Round trip: flattening what was reshaped gives back the flat values in order. */
  lemma {:induction false} FlattenNest(values: seq<real>, shape: seq<nat>)
    requires |values| == Product(shape)
    ensures FlattenTree(Nest(values, shape)) == values
    decreases |shape|
  {
    if shape != [] {
      var n, stride := shape[0], Product(shape[1..]);
      var t := Nest(values, shape);
      var blocks := seq(n, i requires 0 <= i < n => Chunk(values, n, stride, i));
      forall i | 0 <= i < n
        ensures FlattenTree(t.items[i]) == blocks[i]
      {
        FlattenNest(Chunk(values, n, stride, i), shape[1..]);
      }
      assert seq(|t.items|, i requires 0 <= i < |t.items| => FlattenTree(t.items[i])) == blocks;
      ConcatChunksPrefix(values, n, stride, blocks, n);
      assert blocks[..n] == blocks;
    }
  }

  /** Reshaping yields an array of the requested shape. */
  lemma {:induction false} NestFits(values: seq<real>, shape: seq<nat>)
    requires |values| == Product(shape)
    ensures Fits(Nest(values, shape), shape)
    decreases |shape|
  {
    if shape != [] {
      var n, stride := shape[0], Product(shape[1..]);
      forall i | 0 <= i < n
        ensures Fits(Nest(values, shape).items[i], shape[1..])
      {
        NestFits(Chunk(values, n, stride, i), shape[1..]);
      }
    }
  }

  /** Concatenating rows of `stride` values each gives `|rows| * stride` values. */
  lemma {:induction false} ConcatLength(rows: seq<seq<real>>, stride: nat)
    requires forall i :: 0 <= i < |rows| ==> |rows[i]| == stride
    ensures |Concat(rows)| == |rows| * stride
  {
    if rows != [] {
      ConcatLength(rows[..|rows| - 1], stride);
      StepProduct(|rows|, stride);
    }
  }

  /** Row `i` of equal-length rows sits at block `i` of their concatenation. */
  lemma {:induction false} ConcatBlockAt(rows: seq<seq<real>>, stride: nat, i: nat)
    requires forall j :: 0 <= j < |rows| ==> |rows[j]| == stride
    requires i < |rows|
    ensures |Concat(rows)| == |rows| * stride
    ensures Chunk(Concat(rows), |rows|, stride, i) == rows[i]
  {
    var m := |rows| - 1;
    var front := rows[..m];
    ConcatLength(rows, stride);
    ConcatLength(front, stride);
    assert Concat(rows) == Concat(front) + rows[m];
    var lo, hi := i * stride, (i + 1) * stride;
    StepProduct(i + 1, stride);
    if i == m {
      assert Concat(rows)[lo..hi] == rows[m];
    } else {
      ConcatBlockAt(front, stride, i);
      ChunkBounds(i, m, stride);
      assert Concat(rows)[lo..hi] == Concat(front)[lo..hi];
    }
  }

  /** The other round trip: an array of a given shape flattens to exactly `Product(shape)`
      values, and reshaping those values rebuilds the same array. */
  lemma {:induction false} NestFlatten(t: Tree, shape: seq<nat>)
    requires Fits(t, shape)
    ensures |FlattenTree(t)| == Product(shape)
    ensures Nest(FlattenTree(t), shape) == t
    decreases t
  {
    if shape != [] {
      var n, stride := shape[0], Product(shape[1..]);
      var rows := seq(|t.items|, i requires 0 <= i < |t.items| => FlattenTree(t.items[i]));
      forall i | 0 <= i < n
        ensures |rows[i]| == stride && Nest(rows[i], shape[1..]) == t.items[i]
      {
        NestFlatten(t.items[i], shape[1..]);
      }
      ConcatLength(rows, stride);
      var flat := FlattenTree(t);
      assert flat == Concat(rows);
      var rebuilt := Nest(flat, shape);
      assert |rebuilt.items| == n;
      forall i | 0 <= i < n
        ensures rebuilt.items[i] == t.items[i]
      {
        ConcatBlockAt(rows, stride, i);
      }
      assert rebuilt.items == t.items;
    }
  }
}
