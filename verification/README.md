# NTM memory bank

A Dafny model of the memory bank of a Neural Turing Machine (`src/tf/memory.py`).
The bank is an `n_rows x n_cols` matrix with these operations:

- it is reset from a bias matrix at the start of every sequence;
- it is read by a weighting over its rows (memory transposed times the weighting);
- it is written by an erase-then-add update;
- it is addressed by a four-step pipeline: content similarity, gated interpolation with the previous weighting, circular shift by a 3-entry kernel, and sharpening with renormalisation.

The project is split into modules:

- `Vectors`: sums, dot products, powers and distributions.
- `Matrices`: matrices as sequences of rows, plus the tensor operations that `read` and `write` use.
- `Convolution`: the circular convolution `_convolve`.
- `Addressing`: `_interpolate`, `_shift` and `_sharpen`, as pure functions.
- `Memory`: the class `NTMMemory`. Its `mem` and `prev_mem` fields are updated in place by `reset` and `write`.

Tensor entries are exact `real`s. The model proves these properties:

- A full erase with a one-hot weighting stores the add vector, and a read with the same weighting returns it.
- Rows with zero weight are never touched.
- The shift is a blend of the two one-place rotations. It keeps non-negativity and scales the mass by the kernel's mass. The kernels `[0,1,0]`, `[1,0,0]` and `[0,0,1]` are the identity, the right rotation and the left rotation.
- Sharpening keeps zeros and the order of the entries. Its mass is `S / (S + 1e-16)`, which is strictly below one and positive whenever its input has positive mass.
- `address` therefore returns a non-negative weighting with one entry per row and mass in (0, 1) when its inputs are distributions.

## Model

| member | source | states |
|---|---|---|
| Convolution.Convolve | src/tf/memory.py:8-15 | a shift vector of length other than 3 is the error result (the source's assertion); otherwise the result has the weighting's length |
| Convolution.ConvolveIsCircular | src/tf/memory.py:11-14 | entry i is w[(i-1) mod n]*s[0] + w[i]*s[1] + w[(i+1) mod n]*s[2]: the wrap-around padding plus the 3-tap valid window is a circular convolution |
| Convolution.ConvolveIsBlendOfRotations | src/tf/memory.py:11-14 | the result equals s[0]·(w rotated right) + s[1]·w + s[2]·(w rotated left) |
| Convolution.ConvolveIdentity | src/tf/memory.py:8-15 | the kernel [0,1,0] returns the weighting unchanged |
| Convolution.ConvolveRotatesRight | src/tf/memory.py:8-15 | the kernel [1,0,0] moves every entry one row down, the last wrapping to the first |
| Convolution.ConvolveRotatesLeft | src/tf/memory.py:8-15 | the kernel [0,0,1] moves every entry one row up, the first wrapping to the last |
| Convolution.ConvolvePreservesMass | src/tf/memory.py:8-15 | whenever the convolution succeeds its mass is mass(w)·mass(s), and with non-negative w and s the result is non-negative |
| Addressing.Interpolate | src/tf/memory.py:83-84 | gate 1 yields the content weighting, gate 0 the previous weighting, and a gate in [0,1] keeps non-negative inputs non-negative |
| Addressing.InterpolateKeepsDistribution | src/tf/memory.py:83-84 | the mass is g·mass(wc) + (1-g)·mass(w_prev), so two distributions blend into a distribution |
| Addressing.Shift | src/tf/memory.py:86-89 | error exactly when the kernel does not have 3 entries; the length is kept; non-negativity and distributions are preserved |
| Addressing.PowerMass | src/tf/memory.py:92-93 | the sum of the powers is non-negative, and positive when the input has positive mass |
| Addressing.Sharpen | src/tf/memory.py:91-94 | the result is non-negative with mass S/(S+1e-16) for S the sum of the powers; that mass is below 1 by exactly 1e-16/(S+1e-16), and positive when the input has positive mass |
| Addressing.SharpenKeepsZeros | src/tf/memory.py:91-94 | for gamma ≥ 1 a zero entry stays zero |
| Addressing.SharpenKeepsOrder | src/tf/memory.py:91-94 | a larger input entry never receives a smaller output entry |
| Addressing.SharpenUnitGamma | src/tf/memory.py:91-94 | with gamma = 1 sharpening only renormalises: each entry is divided by its input's mass plus 1e-16, so a distribution comes back with mass 1/(1+1e-16) |
| Memory.ContentFocusKeepsOrder | src/tf/memory.py:68-76 | for every bank, `address` with gate 1 and shift [0,1,0] returns exactly the sharpened content weighting, and a row the content step scores at least as high as another gets at least as much weight |
| Matrices.ReadOneHot | src/tf/memory.py:47-49 | reading with a one-hot weighting at row i returns row i |
| Matrices.ReadIsConvex | src/tf/memory.py:47-49 | reading with a distribution gives, in every column, a value between that column's least and greatest entries |
| Memory.EraseAndAdd | src/tf/memory.py:54-56 | entry (i,j) of the update is m[i][j]·(1 - w[i]·e[j]) + w[i]·a[j], and the shape is kept |
| Memory.WriteKeepsUnweightedRows | src/tf/memory.py:51-56 | rows with zero weight are left exactly as they were |
| Memory.WriteOneHotStores | src/tf/memory.py:51-56 | a one-hot weighting at row i with an all-ones erase vector replaces row i by the add vector |
| Memory.WriteThenRead | src/tf/memory.py:47-56 | after such a write, reading with the same weighting returns the add vector |
| Memory.WriteNothingIsIdentity | src/tf/memory.py:51-56 | a zero erase vector with a zero add vector leaves the memory unchanged |
| Memory.NTMMemory.constructor | src/tf/memory.py:20-38 | the bank has the given shape, zero memory, no previous memory, and the given bias |
| Memory.NTMMemory.Reset | src/tf/memory.py:40-42 | the memory becomes the bias; the previous memory and the bias are unchanged |
| Memory.NTMMemory.Read | src/tf/memory.py:47-49 | the result has one entry per column, and a one-hot weighting at row i reads exactly row i |
| Memory.NTMMemory.Write | src/tf/memory.py:51-56 | prev_mem becomes the old memory; the memory becomes its erase-then-add update; unweighted rows are unchanged; a one-hot full-erase write stores `a`, and reading it back returns `a` |
| Memory.NTMMemory.Address | src/tf/memory.py:58-76 | error exactly when the shift has other than 3 entries; otherwise one non-negative entry per row with mass below 1, and positive mass when the content weighting, w_prev and s are distributions, and with gamma = 1 that mass is exactly 1/(1+1e-16); the shift [0,1,0] is the same as no shift |

## Left out

- `_similarity` (src/tf/memory.py:78-81): cosine similarity, softmax and the 1e-16 offsets are not modelled. `Address` takes the content weighting function as a parameter and requires it to return a non-negative vector with one entry per row. Note that the source scores `1 - tf.keras.losses.cosine_similarity`, and Keras returns the negated cosine, so the score is 1 + cos rather than cos. Softmax does not change under a constant shift, so the weighting is the same.
- The random initialisation of the bias (src/tf/memory.py:37-38): the constructor takes the bias as an argument.
- `size` (src/tf/memory.py:44-45): it returns attributes `N` and `M`, which the class never sets, so it cannot succeed.
- Float32 arithmetic: every entry is an exact real, so rounding, overflow and NaN are out of scope. The 1e-16 in sharpening is kept as an exact constant.
- Automatic differentiation, the Keras `Model` base class and `tf.Variable` bookkeeping: they do not affect the forward values.
- Batching and TensorFlow broadcasting: mismatched shapes are excluded by preconditions rather than modelled as errors. The one shape check the source makes itself, the length-3 assertion in `_convolve`, is modelled as the error result.
- The dead store `result = tf.zeros(wg.shape)` in `_shift` (src/tf/memory.py:87): it is overwritten at once and has no effect.
- Convolution.Convolve: requires a weighting with at least one entry. The source pads from `w[-1:]` and `w[:1]`, which fail to produce a valid window for an empty weighting.
- Addressing.Sharpen: gamma is a natural number, and the input must be non-negative. The source accepts any real gamma; real powers of the exact entries are not modelled. With negative entries and an odd gamma the denominator (the sum of the powers plus 1e-16, src/tf/memory.py:93) can be zero, so the model keeps to the non-negative weightings that the earlier addressing steps produce.
- Memory.NTMMemory.Address: proves a mass strictly between 0 and 1 rather than "sums to one within tolerance". The sharpened mass is S/(S+1e-16), for S the sum of the powers. It is exactly 1/(1+1e-16) for gamma = 1, but for larger gamma S can be small enough that the mass is visibly below one.
- Memory.NTMMemory.Address: requires a gate in [0, 1] and a non-negative previous weighting and shift vector. The source does not check these (src/tf/memory.py:58-76). The design expects a gate in [0, 1], a previous weighting that is a distribution, and a softmax over the three shifts; without them the non-negativity and mass facts do not hold.
- Reading before the first `reset` is allowed: the bank then reads the zero matrix, as the source does.
- The training script and the controller that produces the addressing parameters are outside the memory bank.
