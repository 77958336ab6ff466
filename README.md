# TIPL convolutional network and colour maps, modelled in Dafny

This project models two headers of the TIPL image-processing library.

- `ml/cnn.hpp` is a small convolutional neural network. It has:
  - layers (fully connected, convolution, max-pooling, dropout, soft-max) with ReLU or identity activations;
  - a `network` that is described by a topology text such as `28,28,1|conv,relu,5|24,24,8|max_pooling,identity,2|12,12,8|full,relu|1,1,10`;
  - one flat activation buffer per network, addressed by prefix-sum offsets;
  - a trainer that builds a training order (optionally resampled per class) and walks it in minibatches;
  - `network_data::sample_test_from`, which splits off a test set class by class;
  - `iterate_cnn`, a best-first enumeration of candidate topologies ordered by cost.
- `vis/color_map.hpp` builds 256-entry colour tables (a spectrum, a two-colour ramp, or one read from a file) and maps values to colours through a clamped index.

Entities whose fields the source updates in place are classes:
- `Networks.Network`;
- `Datasets.Dataset`;
- `Training.Trainer`;
- `Colors.ColorMap`, `Colors.ColorMapRgb` and `Colors.ValueToColor`.

The layer kernels are methods that write a caller's `array<real>` in place. Each is proved equal, on its output segment, to a specification function, and the rest of the buffer is unchanged.

The topology parser, the serialiser, the buffer layout, the training order and the architecture search are pure functions, and each of them also has a method with the source's loop, proved against that function.

Numbers are Dafny `real` (the indexing is the point, not rounding), integers are unbounded, and bytes are `0..255`.

Things the code receives from outside become parameters:
- `exp` for soft-max;
- Bernoulli draws for dropout;
- shuffled orders for the samplers;
- parsed values for `load_from_file`.

Module layout:
- shape arithmetic: `Shapes`, `Arith`;
- sums and index helpers: `Vectors`, `Sums`, `Grids`, `Scatter`;
- the kernels: `Layers`, `Pooling`, `FullyConnected`, `Convolution`, `ConvolutionGradients`, `ConvolutionAdjoint` (the convolution's back pass as the adjoint of its forward pass), `Dropout`, `SoftMax`;
- topology text: `Text` (integer and rate printing and scanning, the `regex_token_iterator` split), `Topology` (the parser and `get_layer_text` on values), `Networks` (the `network` class);
- the buffer: `Arena`;
- training: `Datasets`, `Training`;
- search: `Architectures`;
- colours: `Colors`.

Where the code and its description differ, the model follows the code. There are two exceptions, both listed under Left out. The first is the network's back pass (`Arena.BackPropagation`): it is built from the corrected convolution and soft-max kernels of the Findings. The second is the parser's one-field `dropout` token (`Topology.DropoutRateField`, and through `Topology.LayerOf` every parse): it gets the default rate 0.9, where the code reads `list[1]` out of range, as the third Findings row shows.
- **Resampling.** A pile of size `n` is appended once per doubling of `count` while `count <= max`, that is `1 + floor(log2(max / n))` times. This does not make every class reach the majority count: `Training.MinorityStaysBelow` gives a pile of 1 against a pile of 3 that ends with 2 copies.
- **Spectrum plateau.** `color_spectrum_value` gives 255 up to and including a distance of 32, not only below 32, because at 32 the band formula also gives 255.
- **Batch advance.** `train_batch` advances by the full `batch_size` even for the last, shorter chunk. The loop test still ends it.
- **Search cut-off.** Nothing is ever evicted: a candidate is inserted only when it is strictly cheaper than the current largest key, and only once more than `max_list` candidates are live.
- **Full node text.** A full-node candidate's text already ends with `1,1,W|dropout,0.1|`. The next pop appends the node's own shape `1,1,W|` once more. The search text is modelled exactly so.
- **Unused enumerator.** `fully_dropout` in the search's enumeration is never used.
- **Search layer cost.** `layer_cost` is 0 throughout.
- **`color_map::operator[]`.** It indexes `color[255,index]`. That is a comma expression, so it reads `color[index]`.
- **`value_to_color::max_value`.** It is not initialised by the constructor; the model starts it at 0.
- **Failed reads.** A failed `istringstream >>` stores 0, as C++11 specifies.
- **Max-pooling with `pool_size <= 0`.** The model rejects it.
  - For 0, the source would divide by zero.
  - For a negative size, `in_dim.width()/pool_size` converts the size to unsigned, so both quotients are 0. The source's `init` then rejects, unless the output shape is `(0, 0, d)`. In that case it reads `o2i[0]` of an empty map.

## Model

| member | source | states |
|---|---|---|
| Shapes.Size | ml/cnn.hpp:155 | the size `w*h*d` of a shape is positive when all three dimensions are |
| Shapes.CDiv | ml/cnn.hpp:302 | C's truncating division: the Euclidean quotient for non-negative operands, and a remainder of the dividend's sign below the divisor's magnitude otherwise |
| Shapes.IndexDecode | ml/cnn.hpp:320 | the index `(c*h+y)*w+x` of a cell lies in the tensor, and column, row and channel are recovered from it by `%`, `/` |
| Shapes.IndexEncode | ml/cnn.hpp:320 | every index of a tensor is the index of its decoded (channel, row, column) |
| Shapes.IndexInRange | ml/cnn.hpp:378-392 | an in-bounds (c, y, x) addresses a slot below the shape's size |
| Layers.NewLayer | ml/cnn.hpp:66-528 | a new layer is in testing status, has no weights, biases or window maps, and dropout and soft-max layers are forced to the identity activation |
| Layers.Configure | ml/cnn.hpp:152-535 | init accepts exactly when the shapes are compatible (full: always; conv: `in_w-out_w+1 == k` and `in_h-out_h+1 == k`; max-pooling: `out == (in_w/p, in_h/p, in_d)`; dropout and soft-max: equal sizes); an accepted layer has `input_size`/`output_size` of the two shapes, `k*k*in_d*out_d` conv weights and `out_d` conv biases, `in*out` full weights and `out` full biases, none otherwise; a rejecting init leaves sizes and parameters as they were, except max-pooling, which records both sizes and empties its parameters before it checks; only an accepting max-pooling init rebuilds the window maps |
| Layers.Init | ml/cnn.hpp:251-261 | the init method, which builds the max-pooling maps with the loop of init_connection, gives exactly Configure's verdict and layer |
| Layers.ConfiguredIsReady | ml/cnn.hpp:152-354 | a freshly created layer that init accepts on positive shapes is ready to run: its parameters and maps have the sizes every kernel needs |
| Layers.FullIsReady | ml/cnn.hpp:152-158 | a full layer on positive shapes is always ready |
| Layers.ConvIsReady | ml/cnn.hpp:343-354 | a convolution whose shapes fit its kernel is ready |
| Layers.PoolIsReady | ml/cnn.hpp:251-261 | an accepted max-pooling layer is ready, its maps covering every output and input |
| Layers.ReluF | ml/cnn.hpp:38-41 | ReLU is non-negative, the identity on positive values and 0 elsewhere |
| Layers.ReluDf | ml/cnn.hpp:43-46 | the ReLU derivative is 1 exactly when the output is positive, else 0 |
| Layers.ActivatedIdempotent | ml/cnn.hpp:84-89 | applying an activation twice is applying it once; ReLU outputs are non-negative; identity changes nothing |
| Layers.GatedIsChainRule | ml/cnn.hpp:126-132 | back_af multiplies each error by the derivative at the output, which equals the derivative at the input for ReLU; identity passes the error through |
| Layers.ForwardAf | ml/cnn.hpp:84-89 | forward_af replaces the `n` outputs at the offset by their activations and touches nothing else |
| Layers.BackAf | ml/cnn.hpp:126-132 | back_af gates the `n` errors at the offset by the activation's derivative at the previous output and touches nothing else |
| Layers.ConfiguredCost | ml/cnn.hpp:133-456 | a configured layer costs `in*out` (full), `out_size*in_d*k*k` (conv), `out_size*p*p/10` (max-pooling), 0 otherwise |
| Pooling.WindowOwner | ml/cnn.hpp:305-325 | every index of window (c, y, x) is `(in_h*c + y*p+dy)*in_w + x*p+dx`, lies in the input, and is owned by output `(c*out_h+y)*out_w+x` |
| Pooling.OwnerWindow | ml/cnn.hpp:305-325 | an input that has an owner lies in the input, its owner is an output, and it is listed in the owner's window |
| Pooling.WindowIffOwner | ml/cnn.hpp:305-325 | an input is in window `o` exactly when `o` owns it |
| Pooling.InitConnection | ml/cnn.hpp:305-325 | the nested loops of init_connection produce exactly the maps ConnectO2I and ConnectI2O |
| Pooling.FreshConnection | ml/cnn.hpp:305-325 | from empty maps, `o2i` has one window per output listing its indices in dy-then-dx order, all within the input, and `i2o` maps each listed index back to `o` |
| Pooling.FreshOwners | ml/cnn.hpp:305-325 | from empty maps, every `i2o` entry names an output |
| Pooling.FirstMaxPosFacts | ml/cnn.hpp:263-275 | the scan with a strict `>` from the lowest float ends at the first position attaining the window maximum, which bounds every entry |
| Pooling.ArgMaxIffFirst | ml/cnn.hpp:276-299 | the recorded argmax is `i` exactly when `i` is in the window, attains the maximum, and every earlier window entry is strictly smaller |
| Pooling.Forward | ml/cnn.hpp:263-275 | forward writes the maximum of each window over the input, and nothing outside its segment |
| Pooling.Back | ml/cnn.hpp:276-299 | back writes, for each input, the error of its owner if it is that window's argmax and 0 otherwise, and nothing outside its segment |
| Pooling.BackRoutesToForwardMax | ml/cnn.hpp:263-299 | an input receives its owner's error (and is the argmax) exactly when it is the first index of its window attaining the maximum that forward wrote |
| Dropout.Kept | ml/cnn.hpp:508-517 | a kept value is never 0: a zero is replaced by the smallest normal float, anything else is kept |
| Dropout.Forward | ml/cnn.hpp:499-520 | forward copies the input in testing status, and in training status zeroes each plane whose draw is true and keeps the others (first value raised from 0) |
| Dropout.Back | ml/cnn.hpp:481-498 | back gives each plane 0 where the output's first value of the plane is 0 and the error otherwise |
| Dropout.BackPlaneEntry | ml/cnn.hpp:481-498 | entry t of plane i of the back pass is 0 when the output's plane starts with 0, else the error at `i*p+t` |
| Dropout.BackFollowsDraws | ml/cnn.hpp:481-520 | after a training forward, back zeroes exactly the dropped planes and passes the error on the kept ones, since a kept plane never starts with 0 |
| Dropout.ForwardValues | ml/cnn.hpp:499-520 | testing forward is the identity; training entry `i*p+t` is 0 for a dropped plane, the smallest float for a kept leading zero, the input otherwise |
| SoftMax.MaxOf | ml/cnn.hpp:538 | the maximum is an element and bounds every element |
| SoftMax.MaxElement | ml/cnn.hpp:538 | the scan of max_element returns that maximum |
| SoftMax.Forward | ml/cnn.hpp:536-544 | forward writes `exp(x_i - max)` divided by their sum when the sum is non-zero, and nothing outside its segment |
| SoftMax.SumToOne | ml/cnn.hpp:536-544 | whenever the sum is non-zero the outputs sum to 1 |
| SoftMax.Distribution | ml/cnn.hpp:536-544 | for a positive `exp` the outputs form a probability distribution: each in (0, 1], summing to 1 |
| SoftMax.ShiftInvariant | ml/cnn.hpp:536-544 | adding a constant to every input leaves the output unchanged |
| SoftMax.Back | ml/cnn.hpp:545-552 | back writes `(g_i - dot(g, prev)) * prev_i` for the `prev` it is handed |
| SoftMax.BackIsChainRule | ml/cnn.hpp:545-552 | handed the layer's output `y`, back is the chain rule through the soft-max Jacobian `y_j*(delta_ij - y_i)` |
| SoftMax.InputIsNotOutput | ml/cnn.hpp:1060-1062 | handed the input instead, the result differs: for input (0, 0) and error (1, 0) it gives (0, 0) where the chain rule gives (0.25, -0.25) |
| FullyConnected.Forward | ml/cnn.hpp:170-181 | forward writes `out[j] = bias[j] + sum_i weight[j*in+i]*data[i]` (the source's skipping of zero inputs changes no sum), and nothing outside its segment |
| FullyConnected.Back | ml/cnn.hpp:231-236 | back writes the transposed product `sum_j g[j]*weight[j*in+i]` |
| FullyConnected.CalculateDwDb | ml/cnn.hpp:182-191 | calculate_dwdb adds the outer product of error and input to `dw` and the error to `db` |
| FullyConnected.DwIsOuterProduct | ml/cnn.hpp:182-191 | entry `j*in+i` of the new `dw` is the old entry plus `g[j]*prev[i]` |
| FullyConnected.BackIsTranspose | ml/cnn.hpp:170-236 | back is the adjoint of forward's linear part: `sum_j g_j*(y_j - b_j) == sum_i back_i*x_i` |
| Convolution.ReadsInRange | ml/cnn.hpp:371-396 | every tap `((o*in_d+c)*k+wy)*k+wx` is a weight and every input it meets lies in the input |
| Convolution.ForwardSpecIndex | ml/cnn.hpp:371-396 | output cell (o, y, x) is the bias of o plus, over every input channel, the k-by-k correlation of the kernel (o, c) with the input at (y, x) |
| Convolution.Forward | ml/cnn.hpp:371-396 | forward writes that valid cross-correlation, and nothing outside its segment |
| ConvolutionGradients.Back | ml/cnn.hpp:429-452 | back, as written, adds every term `weight * error` onto what the input error segment already held |
| ConvolutionGradients.BackCleared | ml/cnn.hpp:429-452 | back run on a cleared segment performs the same additions on zeros |
| ConvolutionGradients.ClearedBackIsGathered | ml/cnn.hpp:429-452 | after the cleared pass each input slot is the sum of the terms aimed at it, and slots outside the segment are unchanged |
| ConvolutionGradients.StaleErrorLeaks | ml/cnn.hpp:429-452 | the as-written result is the stale value plus the intended error, so it differs wherever the stale value is non-zero |
| ConvolutionGradients.ClearedBackSegment | ml/cnn.hpp:429-452 | the cleared pass leaves exactly InputError in the segment and the rest of the buffer as it was |
| ConvolutionGradients.CalculateDwDb | ml/cnn.hpp:397-428 | calculate_dwdb adds the weight gradient to `dw` and the per-channel error sums to `db` |
| ConvolutionGradients.WeightGradientIndex | ml/cnn.hpp:403-420 | the gradient of tap (o, c, wy, wx) sits at its weight index and is the sum over output cells of error times the input the tap met there |
| ConvolutionAdjoint.BackIsAdjoint | ml/cnn.hpp:429-452 | the cleared error back pass (`InputError`) is the adjoint of the forward pass (`forward_propagation`, lines 371-396): for every input and output error, the sum of the error times the bias-free forward output equals the sum of the input error times the input |
| ConvolutionAdjoint.BiasShifts | ml/cnn.hpp:371-396 | the biases only add the bias of the cell's channel: each forward output cell is its bias-free value plus `bias[o]` |
| Text.IntToStringRoundTrip | ml/cnn.hpp:902-965 | printing an integer gives an optional sign and digits, the pattern the parser accepts, and `>>` reads back as the same integer |
| Text.ScanIntOfIntegerText | ml/cnn.hpp:895-904 | on text matching the integer pattern, `>>` reads its value |
| Text.Normalize | ml/cnn.hpp:984 | a rate has one canonical decimal form with the same value |
| Text.RateRoundTrip | ml/cnn.hpp:919-984 | a printed canonical rate is read back as the same rate |
| Text.Split | ml/cnn.hpp:883-892 | the token split is never empty and no piece holds the separator |
| Text.SplitOfJoin | ml/cnn.hpp:883-885 | splitting a join of separator-free pieces whose last piece is non-empty returns the pieces |
| Text.PiecesOfJoin | ml/cnn.hpp:883-885 | without dropping a trailing empty piece, splitting inverts joining |
| Text.Pieces | ml/cnn.hpp:883-885 | there is always at least one piece between separators, and no piece holds the separator |
| Text.SplitOfSepFree | ml/cnn.hpp:890-892 | a non-empty text without a separator is its own single piece |
| Topology.AddShape | ml/cnn.hpp:726-737 | add(geometry) succeeds iff there is no layer or the last layer's init accepts; on success `geo` gains `dim`, `data_size` grows by its size and `output_size` becomes it; on failure all three are unchanged |
| Topology.AddShapeKeepsTally | ml/cnn.hpp:726-737 | add(geometry) keeps `data_size` equal to the sum of the `geo` sizes and `output_size` equal to the last one |
| Topology.AddTextKeepsTally | ml/cnn.hpp:879-956 | so does add(string), for every text |
| Topology.AddListKeepsTally | ml/cnn.hpp:869-878 | so does add(vector) |
| Topology.ActivationOf | ml/cnn.hpp:926-933 | exactly `relu` and `identity` name activations |
| Topology.DropoutRateField | ml/cnn.hpp:916-922 | the rate is what `>>` reads from field 1, or 0.9 when there is none |
| Topology.ShapeTokenAddsShape | ml/cnn.hpp:890-907 | a token of three integer fields is add(geometry) of the shape it reads |
| Topology.LayerTokenPushes | ml/cnn.hpp:909-955 | any other token pushes exactly one layer and succeeds when it is `soft_max`, `dropout[,r]`, `full,af`, `max_pooling,af,n` or `conv,af,n` with `af` = relu or identity, and fails without change otherwise; the parameter is read by ScanInt or ScanRate (see Left out) |
| Topology.LayerNames | ml/cnn.hpp:911-954 | the pushed layer has the named kind, activation and parameter (read by ScanInt or ScanRate, see Left out), in testing status and without weights |
| Topology.EmptyTextFails | ml/cnn.hpp:909-925 | empty text fails and changes nothing |
| Topology.AddListAppend | ml/cnn.hpp:869-878 | a list is applied front to back and stops at the first failure |
| Topology.SingleFailure | ml/cnn.hpp:871-875 | a failing token is stored in `error_msg` |
| Topology.DropoutRateAsWritten | ml/cnn.hpp:918-919 | as written the rate is read from field 1, which only exists when the token has two fields |
| Topology.DropoutWithoutRate | ml/cnn.hpp:916-919 | `dropout` and `dropout,` split to the single field `dropout`, which is not a shape, so the read of field 1 is out of range |
| Topology.DropoutDefaultsRate | ml/cnn.hpp:918 | with the initialised default, `dropout` alone pushes a dropout layer of rate 0.9 |
| Topology.DropoutNameReads | ml/cnn.hpp:916-922 | the single field `dropout` reads as a new dropout layer with the default rate |
| Topology.ShapeTokenReads | ml/cnn.hpp:896-965 | a printed shape splits into three integer fields that read back as the shape |
| Topology.LayerFieldsRead | ml/cnn.hpp:911-985 | a printed layer is not a shape token and re-parses to a new layer of the same kind, activation and parameter |
| Topology.ConvFieldsRead | ml/cnn.hpp:941-977 | the printed fields `conv,af,k` are not a shape and read back as a new convolution with that activation and the size `>>` reads from the printed `k` |
| Topology.PoolFieldsRead | ml/cnn.hpp:941-981 | the printed fields `max_pooling,af,p` read back alike as a new max-pooling layer |
| Topology.FullFieldsRead | ml/cnn.hpp:935-973 | the printed fields `full,af` read back as a new full layer with that activation |
| Topology.TextIsTokens | ml/cnn.hpp:882-989 | parsing the layer text is adding its tokens in order |
| Topology.TextIgnoresMsg | ml/cnn.hpp:879-956 | a successful parse does not depend on the stored `error_msg`, which it keeps |
| Topology.ListIgnoresMsg | ml/cnn.hpp:869-878 | neither does a successful add(vector) |
| Topology.RoundTrip | ml/cnn.hpp:879-989 | parsing `get_layer_text` on an emptied network succeeds and rebuilds every shape and the kind, activation and parameter of every layer (freshly initialised) |
| Topology.RoundTripText | ml/cnn.hpp:685-1022 | the same for a network with at least one layer, as operator= and load_from_file use it |
| Topology.RebuiltPrintsSame | ml/cnn.hpp:958-989 | the rebuilt network prints the same text, keeps its sizes tallied and has the same layer kinds and activations |
| Networks.Network.State | ml/cnn.hpp:672-676 | the network's fields as a Topology value |
| Networks.Network.constructor | ml/cnn.hpp:678 | a new network has no layers or shapes, zero sizes and no message |
| Networks.Network.Reset | ml/cnn.hpp:679-684 | reset clears layers, shapes and `data_size`, and keeps `output_size` and `error_msg` |
| Networks.Network.AddShape | ml/cnn.hpp:726-737 | add(geometry) on the object does Topology.AddShape, keeping the tally and the shape-before-layer condition |
| Networks.Network.AddText | ml/cnn.hpp:879-956 | add(string) on the object does Topology.AddText |
| Networks.Network.AddList | ml/cnn.hpp:869-878 | add(vector) on the object does Topology.AddList, token by token |
| Networks.FromText | ml/cnn.hpp:678-956 | a network built from a text holds Topology.AddText of the empty network |
| Networks.Assign | ml/cnn.hpp:685-696 | operator= resets the target, re-parses the source's text and then copies the source's weight and bias into every rebuilt layer with non-empty weights: it succeeds, copies every shape, rebuilds each layer's kind, activation and parameter with those parameters (Assigned), keeps the target's message, and leaves the sizes tallied |
| Networks.CopyParams | ml/cnn.hpp:689-694 | the copy loop: each rebuilt layer with non-empty weights takes the weight and bias of the source layer at its position, and every other layer stays as rebuilt |
| Topology.AssignedRestores | ml/cnn.hpp:685-696 | on a network whose layers are the rebuilt layers apart from their trained parameters, operator= reproduces every layer exactly, weights and biases included |
| Arena.Layout | ml/cnn.hpp:1035-1046 | segment k starts after segments 0..k-1 and is as wide as layer k-1's output (segment 0: the input), all inside the buffer |
| Arena.OffsetGrows | ml/cnn.hpp:1035-1046 | later segments start after earlier ones end |
| Arena.LayerForward | ml/cnn.hpp:170-544 | the kernel dispatch writes the layer's output into its segment only |
| Arena.ForwardPropagation | ml/cnn.hpp:1035-1046 | after forward_propagation every segment holds its activations: the input, then each layer's activated output of the segment before |
| Arena.RunLayer | ml/cnn.hpp:1037-1045 | one pass of the loop extends the activations by one segment and keeps the earlier ones |
| Arena.ForwardStep | ml/cnn.hpp:1037-1045 | the activations to layer `k+1` are the activations to `k` followed by the activated output of layer `k` on the last segment |
| Arena.Predict | ml/cnn.hpp:1092-1098 | predict returns the last segment, of the last layer's output size |
| Arena.Seed | ml/cnn.hpp:1049-1056 | the output error is the output minus 0.9 for the label and 0.1 elsewhere |
| Arena.SubtractTargets | ml/cnn.hpp:1055-1056 | the in-place loop leaves the seeded error in its segment and the rest of the buffer unchanged |
| Arena.SeedOutput | ml/cnn.hpp:1049-1056 | the last error segment holds the seeded error |
| Arena.LayerBack | ml/cnn.hpp:1057-1065 | each layer's back_propagation writes the error of its input segment only; this is the corrected pass (a cleared convolution, and soft-max handed its output), see Left out |
| Arena.BackPropagation | ml/cnn.hpp:1047-1066 | after the corrected back pass every segment holds the error of that activation, gated by the activation of the layer that produced it (see Left out for how the code as written differs) |
| Arena.LayerDwDb | ml/cnn.hpp:1067-1079 | a parameterised layer adds its weight and bias gradients to its own accumulators |
| Arena.CalculateDwDb | ml/cnn.hpp:1067-1079 | every layer's accumulators receive the gradient from error segment k+1 and its input segment |
| Arena.TotalCostAppend | ml/cnn.hpp:738-744 | the cost of two layer lists is the sum of their costs |
| Arena.ComputationCost | ml/cnn.hpp:738-744 | computation_cost is the sum of the layer costs modulo 2^32 |
| Arena.WrapAdd | ml/cnn.hpp:740-742 | adding wrapped costs and wrapping is wrapping the sum |
| Datasets.Range | ml/cnn.hpp:1328-1333 | `0..n-1` in order |
| Datasets.Piles | ml/cnn.hpp:611-618 | one pile per class |
| Datasets.PileMembers | ml/cnn.hpp:611-618 | index `x` is in pile `c` exactly when its label is `c`; labels at or above the class count are in no pile |
| Datasets.PileIncreasing | ml/cnn.hpp:611-618 | every pile lists sample indices in increasing order |
| Datasets.PileDistinct | ml/cnn.hpp:611-618 | no pile repeats an index |
| Datasets.SampleCount | ml/cnn.hpp:633 | the per-class test count is at least 1 |
| Datasets.SampleCountValue | ml/cnn.hpp:633 | it is `max(1, floor(n*ratio))` |
| Datasets.SampleCountFits | ml/cnn.hpp:633 | for a ratio at most 1 the count never exceeds the pile size |
| Datasets.PicksDistinct | ml/cnn.hpp:628-643 | the picked indices of all classes are distinct |
| Datasets.PicksLabels | ml/cnn.hpp:628-643 | the picked samples carry, class by class, the sampled count of each label |
| Datasets.FreshPick | ml/cnn.hpp:636-638 | a pick is never already marked, so the `while` that skips marked samples never iterates |
| Datasets.ChosenLabels | ml/cnn.hpp:630-642 | the samples chosen from a class's shuffled pile all carry that class's label |
| Datasets.SwapPopMembers | ml/cnn.hpp:646-649 | one swap-and-pop removes exactly the element at the position and keeps the others distinct |
| Datasets.SweptPositions | ml/cnn.hpp:644-651 | the sweep keeps exactly the positions below `k` and the unmarked positions from `k` on, with no repeats |
| Datasets.Swept | ml/cnn.hpp:644-651 | the swap-and-pop sweep keeps the first `k` samples and the unmarked ones after them |
| Datasets.SweptSelect | ml/cnn.hpp:644-651 | the sweep of samples is the selection of the swept indices |
| Datasets.RemainingExactly | ml/cnn.hpp:644-651 | what remains is exactly the unpicked indices, each once |
| Datasets.TestSplit | ml/cnn.hpp:620-652 | the test set gets distinct picks with the sampled count of every class, and the training set keeps every unpicked sample exactly once |
| Datasets.Dataset.GetLabelPile | ml/cnn.hpp:611-618 | the method's loop builds Piles of the labels |
| Datasets.Dataset.SampleTestFrom | ml/cnn.hpp:620-652 | sample_test_from appends the picked samples and labels to this set and leaves the other set holding the remaining ones |
| Datasets.Dataset.TakeClass | ml/cnn.hpp:630-642 | one class's loop appends its chosen samples and marks them |
| Datasets.Dataset.TakeAll | ml/cnn.hpp:628-643 | the loop over classes appends the picks of every class in class order and marks exactly them |
| Datasets.Dataset.TakeSample | ml/cnn.hpp:639-640 | one pick appends the sample and its label and changes nothing else |
| Datasets.Dataset.RemoveMarked | ml/cnn.hpp:644-651 | the swap-and-pop loop leaves Swept of samples and labels |
| Training.CopiesLog | ml/cnn.hpp:1318-1326 | a pile of size `n <= max` is appended `c >= 1` times with `n*2^(c-1) <= max < n*2^c` |
| Training.DoublingsFacts | ml/cnn.hpp:1322-1325 | the doubling loop stops at the first count above `max`, and its previous count was not above |
| Training.LargestOnce | ml/cnn.hpp:1318-1326 | the largest pile is appended exactly once |
| Training.ResampledOccurrences | ml/cnn.hpp:1311-1326 | in the resampled order each sample of a known class appears Copies(its pile size, the largest size) times, and any other index never appears |
| Training.RepeatCount | ml/cnn.hpp:1322-1324 | appending a pile `k` times multiplies every sample's occurrences by `k` |
| Training.PileCount | ml/cnn.hpp:611-618 | a sample occurs once in its own pile and in no other |
| Training.MinorityStaysBelow | ml/cnn.hpp:1318-1326 | with piles of 1 and 3 the minority appears only twice |
| Training.BatchesCover | ml/cnn.hpp:1243-1245 | the minibatches are consecutive chunks of size `min(batch_size, remaining)` covering the order exactly |
| Training.FirstMaxIsFirst | ml/cnn.hpp:1250 | the predicted class is the first position of the largest output |
| Training.MaxElement | ml/cnn.hpp:1250 | the scan of max_element returns it |
| Training.ErrorShare | ml/cnn.hpp:1200-1203 | the training error is a percentage in [0, 100], 0 exactly when there are no errors |
| Training.MistakesBound | ml/cnn.hpp:1249-1264 | mistakes never exceed the samples seen |
| Training.ConfusionCounts | ml/cnn.hpp:1249-1264 | entry `truth*n+predicted` of the error table counts the samples of that truth predicted as that class |
| Training.Trainer.Reset | ml/cnn.hpp:1192-1198 | reset zeroes both counters and keeps the error table |
| Training.Trainer.TrainingError | ml/cnn.hpp:1200-1203 | the reported error is that percentage of the counters |
| Training.Trainer.Record | ml/cnn.hpp:1249-1264 | one sample adds one to the count, one to the errors when mispredicted, and one to its table entry when that lies inside the table |
| Training.Trainer.TrainBatch | ml/cnn.hpp:1231-1303 | train_batch visits the minibatches in order, ends with the count of the whole order, its mistakes and its confusion table |
| Training.Trainer.VisitBatch | ml/cnn.hpp:1246-1264 | one minibatch advances the counters and the table from the first `start` samples of the order to the first `stop` |
| Training.TrainingSequence | ml/cnn.hpp:1309-1333 | the training order is the resampled piles, or `0..N-1` without resampling |
| Training.LargestPile | ml/cnn.hpp:1313-1316 | the maximum loop finds the largest pile size |
| Training.AppendCopies | ml/cnn.hpp:1318-1326 | the doubling loop appends the pile Copies times |
| Architectures.UpperBound | ml/cnn.hpp:1385 | the multimap's insertion point: after every key not above the new key, before every larger one |
| Architectures.Insert | ml/cnn.hpp:1414 | insertion keeps the keys sorted, one longer, and places the entry at the upper bound |
| Architectures.InsertAllKeys | ml/cnn.hpp:1414-1448 | inserting entries no cheaper than a bound keeps every key above it |
| Architectures.Cut | ml/cnn.hpp:1413-1447 | an extension is inserted exactly when strictly cheaper than `max_cost` |
| Architectures.Arrived | ml/cnn.hpp:1391-1401 | a popped candidate is one layer deeper and its text gains its own shape token and a bar separator, nothing else changes |
| Architectures.Finished | ml/cnn.hpp:1452-1461 | closing a candidate keeps the results ordered by cost |
| Architectures.FinishedClosed | ml/cnn.hpp:1452-1461 | a closed text is complete: it starts with the input shape, ends with the `full,relu` token and the output shape, and has at least five tokens before the closing; only a candidate of depth 3 or more (`cur.depth > 2`) has that many |
| Architectures.StartLive | ml/cnn.hpp:1379-1385 | the search starts from the input shape alone, at cost 0, in a sound state |
| Architectures.PoolAdmitted | ml/cnn.hpp:1404-1415 | the pooling extension, when inserted, is cheaper than `max_cost`, no cheaper than the popped key, and well-formed |
| Architectures.ConvAdmitted | ml/cnn.hpp:1416-1436 | so are the convolution extensions |
| Architectures.FullAdmitted | ml/cnn.hpp:1437-1449 | so is the fully connected extension |
| Architectures.ChildrenAdmitted | ml/cnn.hpp:1402-1450 | every inserted extension costs at least the popped candidate, is below `max_cost`, and is a well-formed topology within `max_depth` and `max_conv` |
| Architectures.ChildKinds | ml/cnn.hpp:1405-1449 | a pooling only follows a convolution and keeps the shape above the output; a convolution only while `num_conv < max_conv` on a shape at least 4 by 4; a full layer never directly after the input |
| Architectures.ConvFromKinds | ml/cnn.hpp:1416-1436 | every convolution extension of kernel `k` adds one convolution to a shape at least `k+1` wide and high |
| Architectures.StepLive | ml/cnn.hpp:1386-1462 | one pop keeps the candidates sorted and well-formed, no cheaper than the popped key, and keeps the other candidates |
| Architectures.CutOff | ml/cnn.hpp:1388-1390 | `max_cost` is the largest live key once more than `max_list` candidates are live and INT_MAX otherwise, and every new candidate is strictly below it; nothing is evicted |
| Architectures.RunLive | ml/cnn.hpp:1386-1462 | the `list_size` loop keeps the invariant and pops at most `max_list` times |
| Architectures.PopsAscending | ml/cnn.hpp:1386-1462 | the popped costs come out in non-decreasing order |
| Architectures.WidthsClosed | ml/cnn.hpp:1377-1462 | over the widths 20, 40, 80 every result is a complete topology and at most `max_list` are added per width |
| Architectures.EnumeratedFacts | ml/cnn.hpp:1452-1465 | the results are ordered by cost, each starts with the input shape, has at least five tokens (the input shape and two layer-and-shape pairs, so depth above 2) before the closing `full,relu` token and output shape, and there are at most `3*max_list` |
| Architectures.IterateCnn | ml/cnn.hpp:1366-1466 | iterate_cnn appends exactly the enumerated topologies, in cost order |
| Architectures.SearchWidth | ml/cnn.hpp:1379-1462 | the pop loop for one width is Run from the start node |
| Architectures.Close | ml/cnn.hpp:1452-1461 | the end block inserts the text closed by `full,relu` and the output shape at cost `size*out_size + out_size` exactly when Finished does |
| Architectures.AddPool | ml/cnn.hpp:1404-1415 | the pooling block inserts exactly PoolChild |
| Architectures.ConvStep | ml/cnn.hpp:1418-1435 | one fitting kernel inserts its extension and leaves the rest to the next kernel |
| Architectures.AddFull | ml/cnn.hpp:1437-1449 | the fully connected block inserts exactly FullChild |
| Architectures.PopStep | ml/cnn.hpp:1387-1461 | one pass of the method's loop is one Step |
| Architectures.Expand | ml/cnn.hpp:1402-1450 | the three extension blocks insert exactly Children |
| Architectures.AddConvs | ml/cnn.hpp:1416-1436 | the kernel loop inserts the convolution extensions of kernels 3 and 5, stopping at the first that does not fit |
| Colors.SpectrumValue | vis/color_map.hpp:10-19 | 255 exactly when the distance is at most 32, 0 exactly when it is at least 96, `255 - 4*(distance-32)` in between |
| Colors.Distance | vis/color_map.hpp:12 | the distance is the absolute difference of value and centre |
| Colors.SpectrumBand | vis/color_map.hpp:15-18 | strictly inside the band the value lies in [3, 251] |
| Colors.SpectrumSymmetric | vis/color_map.hpp:12 | the value is symmetric in centre and value |
| Colors.SpectrumFalls | vis/color_map.hpp:10-19 | the value never grows with distance |
| Colors.SpectrumTable | vis/color_map.hpp:101-109 | the spectrum has 256 entries, entry `i` being `(f(64,i), f(128,i), f(192,i))` |
| Colors.RampEnds | vis/color_map.hpp:92-100 | a channel ramp starts at `from`, ends at `to`, and stays between them |
| Colors.RampBound | vis/color_map.hpp:95-98 | the weighted sum `to*index + from*(255-index)` lies in `[0, 255*255]`, so the stored quotient is a byte |
| Colors.TwoColorTable | vis/color_map.hpp:92-100 | the two-colour table has 256 ramp entries |
| Colors.TwoColorEnds | vis/color_map.hpp:92-100 | its entry 0 is `from` and entry 255 is `to` |
| Colors.Triples | vis/color_map.hpp:124-131 | `n` values group into `floor(n/3)` entries, entry k being `(v[3k], v[3k+1], v[3k+2])` |
| Colors.ShortTableAfterLoad | vis/color_map.hpp:124-131 | three values give a one-entry table, shorter than the 256 that spectrum and two_color write |
| Colors.ColorMap.constructor | vis/color_map.hpp:56 | a new float colour map has 256 entries |
| Colors.ColorMap.At | vis/color_map.hpp:58 | `color[255,index]` reads `color[index]` |
| Colors.ColorMap.Spectrum | vis/color_map.hpp:71-80 | spectrum resizes to 256 and stores each byte spectrum entry divided by 255, in reversed channel order |
| Colors.SpectraMirror | vis/color_map.hpp:71-109 | the float map's entry is the byte map's entry with red and blue swapped, scaled to [0, 1] |
| Colors.ColorMapRgb.constructor | vis/color_map.hpp:87 | a new byte colour map has 256 black entries |
| Colors.ColorMapRgb.At | vis/color_map.hpp:89 | indexing reads the entry |
| Colors.ColorMapRgb.MinColor | vis/color_map.hpp:90 | the first entry |
| Colors.ColorMapRgb.MaxColor | vis/color_map.hpp:91 | the last entry |
| Colors.ColorMapRgb.SpectrumAsWritten | vis/color_map.hpp:101-109 | as written, spectrum overwrites the first 256 entries of a table that already has them and keeps any beyond |
| Colors.ColorMapRgb.Spectrum | vis/color_map.hpp:101-109 | with the table resized to 256 first, spectrum leaves exactly SpectrumTable |
| Colors.ColorMapRgb.TwoColorAsWritten | vis/color_map.hpp:92-100 | as written, two_color overwrites the first 256 entries of a table that already has them |
| Colors.ColorMapRgb.TwoColor | vis/color_map.hpp:92-100 | with the resize, two_color leaves exactly TwoColorTable |
| Colors.ColorMapRgb.LoadFromFile | vis/color_map.hpp:110-132 | load succeeds exactly when the file opens and holds at least 3 values; it then holds their triples, and otherwise `color` is unchanged |
| Colors.Scale | vis/color_map.hpp:150-156 | a zero span scales by 1, otherwise by `size/span` |
| Colors.Clamp | vis/color_map.hpp:168-171 | the index is kept when in range, raised to 0 below, lowered to `size-1` above |
| Colors.ValueToColor.constructor | vis/color_map.hpp:141 | `min_value` 0, `r` 1, a 256-entry black map |
| Colors.ValueToColor.SetRange | vis/color_map.hpp:145-151 | set_range stores both bounds and the scale of the map size over the span (1 for a zero span) |
| Colors.ValueToColor.SetColorMap | vis/color_map.hpp:152-157 | set_color_map copies the map and rescales to its size, keeping the bounds |
| Colors.ValueToColor.TwoColor | vis/color_map.hpp:158-161 | two_color delegates to color_map_rgb::two_color as written: entries 0..255 become TwoColorTable, a longer table keeps its length and its entries beyond 255, and range and scale are kept |
| Colors.ValueToColor.IndexOf | vis/color_map.hpp:163-173 | the lookup index always lies in `[0, map.size()-1]` |
| Colors.ValueToColor.Get | vis/color_map.hpp:163-173 | operator[] returns the entry at that index |
| Colors.ValueToColor.Convert | vis/color_map.hpp:174-180 | convert maps every value through operator[], keeping the length |
| Colors.RangeIndex | vis/color_map.hpp:145-173 | after set_range(lo, hi), values at or below lo take entry 0, values at or above hi the last entry, and values in between `floor((v-lo)*size/(hi-lo))` |
| Colors.IndexMonotone | vis/color_map.hpp:163-173 | larger values never take an earlier entry |

## Left out

- Floating point: values are exact reals.
  - This covers float rounding and `expf` (exp is a parameter).
  - It covers the `numeric_limits<float>` constants (modelled as their exact values).
  - It covers the `color_map::two_color` float ramp, the `max < 2` rescale in `color_map_rgb::load_from_file`, and the float arithmetic of `value_to_color` and of the error percentage.
- Integer overflow of costs, sizes, counters and cost keys in `iterate_cnn`, except the unsigned sum of `computation_cost`, which is modelled modulo 2^32. Negative shape dimensions are not wrapped to unsigned; the search lemmas require non-negative input dimensions instead.
- Concurrency:
  - `par_for` in `train_batch`, `test`, `normalize_data` and `get_layer_images`;
  - the unsynchronised `++training_count`;
  - the `terminated` flag.
  All loops are modelled sequentially.
- Weight updates: `update`, momentum, rate decay and calibration, weight caps, `initialize_weight`, `init_weights`/`reinit_weights`, and the `svd` call. They are floating-point numerics.
- Randomness: the Bernoulli generator, the `mt19937` shuffles and `rotate_permute`. Their results enter as parameters (`drops`, `order`, `orders`).
- File I/O:
  - `load_from_file`/`save_to_file` of networks and data sets, and the label-width asymmetry between them;
  - the stream reading of `color_map_rgb::load_from_file`, which enters as a `readable` flag and the values already converted to bytes;
  - the dereference of `max_element` on an empty file, which happens before the size check.
- Rendering: `to_image`, `color_bar`, `get_layer_images`, `get_min_max`.
- Inference and evaluation: `predict_label`, `test` and `test_error`.
- `FullyConnected.Back`: `left_vector_product` is a library routine that is not part of this model; the model assumes it is the transposed product.
- Layer objects: layers are values inside the network, so the `shared_ptr` sharing and the virtual dispatch are not modelled.
- `Networks.Assign`: requires a consistent source network, for which the re-parse always succeeds. Otherwise the source's copy loop would index `layers[i]` beyond the rebuilt layers. Layers built in training status come back in testing status, as the rebuilt layers do.
- `Text.ScanInt`: does not skip leading white space, as `>>` does, so `conv,relu, 5` reads kernel 0 where the source reads 5. It does not store `INT_MAX` or `INT_MIN` on overflow; the value is unbounded.
- `Text.ScanRate`: reads only unsigned plain decimals. `>> float` also skips leading white space and reads a sign and an exponent, so `dropout,-0.5` gives rate -0.5 in the source and 0 here, and `dropout,1e-1` gives 0.1 in the source and 1 here. The rounding to a 32-bit float is not modelled.
- `Topology.LayerTokenPushes`, `Topology.LayerNames`: the layer parameter they state is the one read by `Text.ScanInt` and `Text.ScanRate`, so they share those two gaps. The round-trip lemmas are not affected, because printed parameters contain no blanks, signs on rates or exponents.
- `Arena.InputError`, `Arena.LayerBack`, `Arena.BackPropagation`: these model the corrected back pass, not the code as written. The code as written differs in two ways.
  - It hands every layer its input segment as `prev_out` (cnn.hpp:1060-1062). Soft-max then computes with its input instead of its output: the second Findings row and `SoftMax.InputIsNotOutput`.
  - Its convolution adds into an error segment that is never cleared between samples. The result then depends on the buffer's old contents whenever a convolution sits at layer index 1 or above: the first Findings row and `ConvolutionGradients.StaleErrorLeaks`.
  Each kernel's as-written form is modelled, with its counterexample lemma. The network pass built from the as-written kernels is not.
- `Pooling.FirstMaxPosFacts`, `Pooling.ArgMaxIffFirst`, `Pooling.BackRoutesToForwardMax`: stated only for windows whose values all lie above the lowest float. A value equal to `lowest()` is never recorded, and a window of only such values keeps index 0. `Pooling.WindowArgMax` models that too, but these lemmas do not describe it.
- `Topology.AddShape`: requires a shape in `geo` whenever a layer exists, because the source reads `geo.back()` unchecked. `Topology.AddToken` returns `Undefined` for that case instead.
- `Architectures.ChildrenAdmitted`, `Architectures.StepLive`, `Architectures.CutOff`, `Architectures.RunLive`, `Architectures.PopsAscending`, `Architectures.WidthsClosed`, `Architectures.EnumeratedFacts`: stated for input shapes with non-negative dimensions. The source's unsigned dimensions cannot be negative.
- `Topology.DropoutRateField`: gives a one-field `dropout` token the default rate 0.9. The code (cnn.hpp:918-919) reads `list[1]` out of range instead. `Topology.LayerOf`, and through it `Topology.AddText`, `Networks.Network.AddText`, `Networks.Network.AddList`, `Networks.FromText` and `Networks.Assign`, use this corrected value. `Topology.DropoutWithoutRate` and the third Findings row show the code as written.
- `Training.Trainer.TrainBatch`: requires `batch_size > 0`. In the code a zero `batch_size` never advances `i`, so the loop does not end for a non-empty order. A negative one runs one pass with a negative minibatch size, and `par_for2` with a negative count is library code that is not part of this model. Then `i` turns negative and the `int`/`size_t` comparison ends the loop, so the counters and the error table are only zeroed. The layers' `status = training` assignment (cnn.hpp:1234-1235) is not modelled either.
- `Networks.Network.AddShape`: requires a shape in `geo` whenever a layer exists, because the source reads `geo.back()` unchecked.
- `Networks.Network.AddText` and `Networks.Network.AddList`: require the same condition of every shape token reached, through `Outcome?`.
- `Colors.ColorMap`: `two_color`, `size`, `min_color` and `max_color` of the float map are not modelled (float ramp, trivial accessors).
- `reg/bfnorm.hpp` (the basis-function registration solver) is not part of this model.

## Findings

| source | as written | input that shows it | evidently intended | confidence | as-written member | corrected member |
|---|---|---|---|---|---|---|
| ml/cnn.hpp:429-452 | convolution back_propagation adds into the input error segment without clearing it, and nothing else clears that segment between samples | any sample after the first whose segment still holds a non-zero error from the previous sample | the segment is set to the gathered error of this sample alone | not executed | ConvolutionGradients.StaleErrorLeaks | ConvolutionGradients.ClearedBackSegment |
| ml/cnn.hpp:1060-1062 | back_propagation hands a layer its input segment as `prev_out`; dropout adds `dim.size()` to reach its output, soft-max does not | soft-max on input (0, 0), output (0.5, 0.5), error (1, 0): gives (0, 0) | the Jacobian of the output: (0.25, -0.25) | not executed | SoftMax.InputIsNotOutput | SoftMax.BackIsChainRule |
| ml/cnn.hpp:916-920 | the dropout branch reads `list[1]` unconditionally | the token `dropout` (or `dropout,`), which splits to one field | the initialised default rate 0.9 | not executed | Topology.DropoutWithoutRate | Topology.DropoutDefaultsRate |
| vis/color_map.hpp:92-109 | color_map_rgb spectrum and two_color write 256 entries without a resize | load_from_file with 3 values leaves one entry, then spectrum writes entry 1 | resize to 256 first, as color_map does | not executed | Colors.ColorMapRgb.SpectrumAsWritten | Colors.ColorMapRgb.Spectrum |
