/** The NTM memory bank: an n_rows x n_cols matrix that is reset from a bias
    matrix at the start of every sequence, read by a weighting over rows,
    written by an erase-then-add update and addressed by content and location. */
module Memory {
  import opened Vectors
  import opened Matrices
  import opened Convolution
  import opened Addressing

  datatype Option<T> = None | Some(value: T)

  /** `_similarity` is supplied by the caller: from the memory matrix, the key
      and the key strength it yields the content weighting over rows. */
  type Similarity = (Matrix, seq<real>, real) -> seq<real>

  class NTMMemory {
    const nRows: nat
    const nCols: nat
    var mem: Matrix
    /** The memory before the most recent write; None until the first write. */
    var prevMem: Option<Matrix>
    var memBias: Matrix

    /** Every matrix the bank holds has the fixed shape nRows x nCols. */
    ghost predicate Valid()
      reads this
    {
      && IsMatrix(mem, nRows, nCols)
      && IsMatrix(memBias, nRows, nCols)
      && (prevMem.Some? ==> IsMatrix(prevMem.value, nRows, nCols))
    }

    /** A bank of the given shape: zero memory, no previous memory, and the
        given bias (which the source draws at random). */
    constructor (nRows: nat, nCols: nat, bias: Matrix)
      requires IsMatrix(bias, nRows, nCols)
      ensures Valid()
      ensures this.nRows == nRows && this.nCols == nCols
      ensures mem == Zeros(nRows, nCols) && prevMem == None && memBias == bias
    {
      this.nRows := nRows;
      this.nCols := nCols;
      prevMem := None;
      mem := Zeros(nRows, nCols);
      memBias := bias;
    }

    /** `reset`: the memory becomes a copy of the bias; nothing else changes. */
    method Reset()
      requires Valid()
      modifies this`mem
      ensures Valid()
      ensures mem == memBias
      ensures prevMem == old(prevMem) && memBias == old(memBias)
    {
      mem := memBias;
    }

    /** `read`: memory transposed times the weighting, i.e. the weighting's
        blend of the rows. A one-hot weighting reads exactly its row. */
    function Read(w: seq<real>): (r: seq<real>)
      reads this
      requires Valid() && |w| == nRows
      ensures |r| == nCols
      ensures forall i :: IsOneHotAt(w, i) ==> r == mem[i]
    {
      var r := MatVec(Transpose(mem, nRows, nCols), w);
      ReadOneHotAll(mem, nRows, nCols, w);
      r
    }

    /** `write`: record the memory as prevMem, then replace it by its
        erase-then-add update. Rows with zero weight keep their contents; a
        one-hot weighting with a full erase stores exactly `a` in its row, so
        a following read with the same weighting returns `a`. The bias is
        untouched. */
    method Write(w: seq<real>, e: seq<real>, a: seq<real>)
      requires Valid() && |w| == nRows && |e| == nCols && |a| == nCols
      modifies this`mem, this`prevMem
      ensures Valid()
      ensures prevMem == Some(old(mem)) && memBias == old(memBias)
      ensures mem == EraseAndAdd(old(mem), nRows, nCols, w, e, a)
      ensures forall i :: 0 <= i < nRows && w[i] == 0.0 ==> mem[i] == old(mem)[i]
      ensures forall i :: IsOneHotAt(w, i) && IsAllOnes(e) ==> mem[i] == a && Read(w) == a
    {
      prevMem := Some(mem);
      mem := EraseAndAdd(mem, nRows, nCols, w, e, a);
      WriteKeepsUnweightedRows(old(mem), nRows, nCols, w, e, a);
      forall i | IsOneHotAt(w, i) && IsAllOnes(e)
        ensures mem[i] == a
      {
        WriteOneHotStores(old(mem), nRows, nCols, w, e, a, i);
      }
    }

    /** `address`: content weighting from `similarity`, gated interpolation
        with wPrev, circular shift by s, sharpening by gamma. A shift vector
        of other than three entries is the error result; otherwise the
        weighting has one non-negative entry per row and mass below one, and
        positive mass when the content weighting, wPrev and s are
        distributions. The kernel [0, 1, 0] is the same as no shift at all. */
    function Address(similarity: Similarity, k: seq<real>, beta: real, g: real,
                     s: seq<real>, gamma: nat, wPrev: seq<real>): (r: Result<seq<real>>)
      reads this
      requires Valid() && nRows >= 1
      requires |similarity(mem, k, beta)| == nRows && NonNegative(similarity(mem, k, beta))
      requires |wPrev| == nRows && NonNegative(wPrev) && 0.0 <= g <= 1.0 && NonNegative(s)
      ensures r.Err? <==> |s| != 3
      ensures r.Ok? ==> |r.value| == nRows && NonNegative(r.value) && Sum(r.value) < 1.0
      ensures r.Ok? && IsDistribution(similarity(mem, k, beta)) && IsDistribution(wPrev) && IsDistribution(s)
        ==> 0.0 < Sum(r.value)
      ensures r.Ok? && gamma == 1 && IsDistribution(similarity(mem, k, beta)) && IsDistribution(wPrev) && IsDistribution(s)
        ==> Sum(r.value) == 1.0 / (1.0 + Epsilon)
      ensures s == [0.0, 1.0, 0.0] ==>
        r == Ok(Sharpen(Interpolate(wPrev, similarity(mem, k, beta), g), gamma))
    {
      var wc := similarity(mem, k, beta);
      var wg := Interpolate(wPrev, wc, g);
      InterpolateKeepsDistribution(wPrev, wc, g);
      var wHat := Shift(wg, s);
      if wHat.Err? then
        Err(wHat.error)
      else
        ConvolveIdentity(wg);
        SharpenUnitGamma(wHat.value);
        Ok(Sharpen(wHat.value, gamma))
    }
  }

  /** With the gate fully open and the identity shift, addressing only
      sharpens the content weighting, so a row the content step scores at
      least as high as another is weighted at least as much. */
  lemma {:induction false} ContentFocusKeepsOrder(m: NTMMemory, similarity: Similarity, k: seq<real>, beta: real,
                                                  gamma: nat, wPrev: seq<real>)
    requires m.Valid() && m.nRows >= 1
    requires |similarity(m.mem, k, beta)| == m.nRows && NonNegative(similarity(m.mem, k, beta))
    requires |wPrev| == m.nRows && NonNegative(wPrev)
    ensures m.Address(similarity, k, beta, 1.0, [0.0, 1.0, 0.0], gamma, wPrev)
      == Ok(Sharpen(similarity(m.mem, k, beta), gamma))
    ensures forall i, j ::
              0 <= i < m.nRows && 0 <= j < m.nRows && similarity(m.mem, k, beta)[i] <= similarity(m.mem, k, beta)[j] ==>
              Sharpen(similarity(m.mem, k, beta), gamma)[i] <= Sharpen(similarity(m.mem, k, beta), gamma)[j]
  {
    var wc := similarity(m.mem, k, beta);
    forall i, j | 0 <= i < m.nRows && 0 <= j < m.nRows && wc[i] <= wc[j]
      ensures Sharpen(wc, gamma)[i] <= Sharpen(wc, gamma)[j]
    {
      SharpenKeepsOrder(wc, gamma, i, j);
    }
  }

  /** The update `write` applies: m * (1 - w e^T) + w a^T, entry (i, j) being
      m[i][j] * (1 - w[i] * e[j]) + w[i] * a[j]. */
  function EraseAndAdd(m: Matrix, rows: nat, cols: nat, w: seq<real>, e: seq<real>, a: seq<real>): (r: Matrix)
    requires IsMatrix(m, rows, cols) && |w| == rows && |e| == cols && |a| == cols
    ensures IsMatrix(r, rows, cols)
    ensures forall i, j :: 0 <= i < rows && 0 <= j < cols ==>
      r[i][j] == m[i][j] * (1.0 - w[i] * e[j]) + w[i] * a[j]
  {
    Plus(Times(m, OneMinus(Outer(w, e), rows, cols), rows, cols), Outer(w, a), rows, cols)
  }

  /** A row the weighting gives no weight to is neither erased nor added to. */
  lemma {:induction false} WriteKeepsUnweightedRows(m: Matrix, rows: nat, cols: nat, w: seq<real>, e: seq<real>, a: seq<real>)
    requires IsMatrix(m, rows, cols) && |w| == rows && |e| == cols && |a| == cols
    ensures forall i :: 0 <= i < rows && w[i] == 0.0 ==> EraseAndAdd(m, rows, cols, w, e, a)[i] == m[i]
  {
    var r := EraseAndAdd(m, rows, cols, w, e, a);
    forall i | 0 <= i < rows && w[i] == 0.0
      ensures r[i] == m[i]
    {
      assert forall j :: 0 <= j < cols ==> r[i][j] == m[i][j];
    }
  }

  /** A one-hot weighting at row i with a full erase overwrites row i with `a`. */
  lemma {:induction false} WriteOneHotStores(m: Matrix, rows: nat, cols: nat, w: seq<real>, e: seq<real>, a: seq<real>, i: int)
    requires IsMatrix(m, rows, cols) && |w| == rows && |e| == cols && |a| == cols
    requires IsOneHotAt(w, i) && IsAllOnes(e)
    ensures EraseAndAdd(m, rows, cols, w, e, a)[i] == a
  {
    var r := EraseAndAdd(m, rows, cols, w, e, a);
    assert w[i] == 1.0;
    forall j | 0 <= j < cols
      ensures r[i][j] == a[j]
    {
      assert r[i][j] == m[i][j] * (1.0 - 1.0 * 1.0) + 1.0 * a[j];
    }
  }

  /** Writing with a one-hot weighting and a full erase, then reading with the
      same weighting, returns the add vector. */
  lemma {:induction false} WriteThenRead(m: Matrix, rows: nat, cols: nat, w: seq<real>, e: seq<real>, a: seq<real>, i: int)
    requires IsMatrix(m, rows, cols) && |w| == rows && |e| == cols && |a| == cols
    requires IsOneHotAt(w, i) && IsAllOnes(e)
    ensures MatVec(Transpose(EraseAndAdd(m, rows, cols, w, e, a), rows, cols), w) == a
  {
    WriteOneHotStores(m, rows, cols, w, e, a, i);
    ReadOneHot(EraseAndAdd(m, rows, cols, w, e, a), rows, cols, w, i);
  }

  /** With nothing erased and nothing added the memory is unchanged. */
  lemma {:induction false} WriteNothingIsIdentity(m: Matrix, rows: nat, cols: nat, w: seq<real>, e: seq<real>, a: seq<real>)
    requires IsMatrix(m, rows, cols) && |w| == rows && |e| == cols && |a| == cols
    requires forall j :: 0 <= j < cols ==> e[j] == 0.0 && a[j] == 0.0
    ensures EraseAndAdd(m, rows, cols, w, e, a) == m
  {
    var r := EraseAndAdd(m, rows, cols, w, e, a);
    forall i | 0 <= i < rows
      ensures r[i] == m[i]
    {
      assert forall j :: 0 <= j < cols ==> r[i][j] == m[i][j];
    }
  }

  /** ReadOneHot for every row at once. */
  lemma {:induction false} ReadOneHotAll(m: Matrix, rows: nat, cols: nat, w: seq<real>)
    requires IsMatrix(m, rows, cols) && |w| == rows
    ensures forall i :: IsOneHotAt(w, i) ==> MatVec(Transpose(m, rows, cols), w) == m[i]
  {
    forall i | IsOneHotAt(w, i)
      ensures MatVec(Transpose(m, rows, cols), w) == m[i]
    {
      ReadOneHot(m, rows, cols, w, i);
    }
  }
}
