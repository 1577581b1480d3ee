# Verified models of KV-cached GPT-2, a message-passing network and a gate-level datapath

Three parts of the repository are modelled in Dafny and proved correct for all inputs.

**GPT-2 generation** (`KV_Cache/model.py`). `generate_with_metadata` can recompute the whole
transformer for every token, or run it once and then push one row per token through the blocks,
reading keys and values from one preallocated tensor. `main.py --compare-kv-cache` warns when the
two texts differ. Here the two loops are one method, proved to return the tokens of the recomputing
run in both modes. The proof goes through these steps:

1. the causal mask followed by softmax and the product with all value rows is the unmasked softmax
   and product over the visible rows (`MaskedSoftmax`);
2. hence a row of masked multi-head attention is what the one-row form computes (`Attention`);
3. hence `decode` of one block is a row of `prefill`, and a block is causal (`Transformer`);
4. hence the stack is causal, and a cache filled for a prefix serves every continuation (`Gpt2`);
5. hence the loop invariant: the cache holds the rows a full recompute on all tokens would give
   (`Generation`).

Both sides of those equations share their tensor expressions, so laws that do not mention the bodies
say what these compute: `BlockLaws` for layer norm, the linear maps and the two halves of a block,
`LogitsLaws` for the embeddings and the output head, `Attention.AttentionIsSoftmaxAverage` for
attention and `Generation.DrawSamplesSoftmax` for the draw.

The cache is an `array2` of rows indexed by position and layer, written in place. Its initial
contents are arbitrary and need not even have the right width, so the proofs also show that every
row `decode` reads was written before. The random generator's state is threaded through the run.

**Message passing** (`Graph_Neural_Network/GNN_Message_Passing.ipynb`). The gather-and-sum layer is
applied twice, then softmax along each row. Proved: what a layer computes, permutation symmetry as
`Graph_Neural_Network/README.md` claims it, the `(A + I) X` form, and two-hop locality.

**Datapath** (`CPU/datapath.v` and what it instantiates). A ripple-carry adder of gates, a
subtracter, the ALU, clocked registers in two banks, and the writeback mux. Proved: over every
sequence of clock edges the registers are those of a machine on numbers modulo 2^16.

## Modelling choices

- Tensors are sequences of reals. `exp`, `sqrt` and `gelu` are parameters: `exp` is positive
  everywhere and `sqrt` on positive arguments; nothing is asked of `gelu`. Softmax needs no shift by
  the maximum over the reals.
- Tensor expressions are functions (`Transformer.PrefillBlock`, `Transformer.DecodeBlock`,
  `Gpt2.Logits`, `MessagePassing.Layer`); the code that writes in place or loops is a method proved
  against them (`Transformer.Prefill`, `Transformer.Decode`, `Gpt2.Prefill`, `Gpt2.Decode`,
  `Generation.Generate`, `MessagePassing.MessagePass`, the `PosEdge` methods).
- The `(1, d)` tensors of `decode` are single rows. `Valid()` of a model lists the shapes its
  weights have.
- `multinomial` is any function of the probabilities and the generator's state that gives an index
  of the distribution. A prompt is not empty (`KV_Cache/main.py:31`).
- `max_new_tokens` may be negative, as the command line allows. If the total is negative, the cached
  run fails in `torch.empty` and the uncached one returns the prompt. This is the only difference
  between the modes, and `Generate` and `CompareKvCache` say exactly when it occurs.
- A message-passing layer on no nodes fails in `torch.stack`; this is the `StackError` result.
- Words are bits, least significant first. An opcode must have a case arm only in a cycle that
  writes the ALU's output to a register; otherwise the output kept by the ALU is arbitrary.
- `CPU/README.md` lists MUL and CMP, but `CPU/alu.v` has no case arm for them. The model follows
  `CPU/alu.v`.

## Model

| member | source | states |
|---|---|---|
| MaskedSoftmax.SoftmaxIsDistribution | KV_Cache/model.py:212 | softmax weights are non-negative and sum to 1, whatever is masked, as long as one position is visible |
| MaskedSoftmax.SoftmaxIsProportional | KV_Cache/model.py:211-212 | masked positions get weight 0 and visible ones are in the ratio of their exponentials, which with the sum fixes the weights |
| MaskedSoftmax.SoftmaxIsUnique | KV_Cache/model.py:212 | softmax of a row is the one distribution in the ratio of the row's exponentials |
| MaskedSoftmax.MaskedSoftmaxIsPrefixSoftmax | KV_Cache/model.py:205-212 | the masked softmax of row i is the softmax of its first i + 1 scores, followed by zeros |
| MaskedSoftmax.MaskedAverageIsPrefixAverage | KV_Cache/model.py:205-213 | averaging all n values under the mask equals the unmasked average of the first i + 1 |
| Attention.MergeOfSplit | KV_Cache/model.py:200-216 | splitting into heads and merging back is the identity for any number of rows |
| Attention.SplitOfMerge | KV_Cache/model.py:215-216 | merging heads and splitting again gives back each head, and the merged width is heads times head width |
| Attention.CausalHeadRow | KV_Cache/model.py:204-213 | for one head, masked attention of row i over all rows is unmasked attention of that query over rows 0..i |
| Attention.CausalRow | KV_Cache/model.py:200-216 | the same through the head split and merge: prefill's attention row is decode's |
| Attention.HeadsAreIndependent | KV_Cache/model.py:200-216 | the merged columns of a head depend on that head's columns of q, k and v only |
| Attention.AttentionIsConvex | KV_Cache/model.py:204-216 | each output coordinate lies between any bounds of that coordinate over the value rows visible to the query, in both forms |
| Attention.ScoresAreScaled | KV_Cache/model.py:204 | a score has the sign of the dot product of query and key, and its square times the head width is the square of that product |
| Attention.AttentionIsSoftmaxAverage | KV_Cache/model.py:204-216 | each output coordinate is the average of the visible value rows, weighted by the one distribution in the ratio of the exponentials of the scores, in both forms |
| Transformer.NormalizeStandardizes | KV_Cache/model.py:26-31 | layer norm without its affine part has mean 0 and turns variance v into v / (v + eps) |
| BlockLaws.NormalizeIsAffineInDeviation | KV_Cache/model.py:26-31 | from any numbers that are the row's mean and variance: weight times deviation over sqrt(variance + 0.00001), plus bias |
| BlockLaws.AffineOfUnitColumn | KV_Cache/model.py:195 | a unit weight column reads one input coordinate and adds its bias |
| BlockLaws.AffineOfCombination | KV_Cache/model.py:195 | an output less its bias is linear in its weight column |
| BlockLaws.ProjectOfUnitColumn | KV_Cache/model.py:194-195 | a unit column of the fused projection reads one coordinate of the first layer norm |
| BlockLaws.ZeroBlockIsIdentity | KV_Cache/model.py:217-226 | with both output projections zero, prefill and decode return their input: both residual connections |
| BlockLaws.AttentionHalf | KV_Cache/model.py:194-218 | without the MLP a row gains the projection of its merged attention row |
| BlockLaws.MlpHalf | KV_Cache/model.py:220-226 | without the attention projection a row gains the MLP of its second layer norm |
| BlockLaws.MlpOfOneUnit | KV_Cache/model.py:220-222 | through one hidden unit the MLP is the gelu of that unit's input, scaled, plus its bias |
| BlockLaws.BlockComposes | KV_Cache/model.py:217-226 | prefill of a block is its attention half followed by its MLP half |
| BlockLaws.DecodeComposes | KV_Cache/model.py:249-257 | the same of decode, on any cached rows |
| BlockLaws.ZeroValuesLeaveTheBias | KV_Cache/model.py:195-218 | with the last third of the fused projection zero, attention adds its output bias only, so that third is the value |
| Transformer.DecodeIsPrefillRow | KV_Cache/model.py:193-257 | one block: decode of row i on the cached K/V of rows 0..i is row i of prefill over all rows |
| Transformer.BlockIsCausal | KV_Cache/model.py:193-226 | the first n output rows of a block are those of the first n input rows alone |
| Transformer.Prefill | KV_Cache/model.py:193-226 | block prefill writes exactly its layer's first n cache rows when given a cache, none otherwise |
| Transformer.Decode | KV_Cache/model.py:228-257 | block decode writes exactly its layer's row at the position and attends over the rows read back |
| Gpt2.StackIsCausal | KV_Cache/model.py:61-67 | the rows entering any block for a prefix of the tokens are a prefix of those for all tokens |
| Gpt2.LogitsAreCausal | KV_Cache/model.py:61-78 | appending tokens changes no earlier logits row |
| LogitsLaws.LogitOfConstantHead | KV_Cache/model.py:69-76 | with a plain final layer norm a constant head row gives the logit 0 |
| LogitsLaws.LogitOfUnitHead | KV_Cache/model.py:69-76 | a unit head row reads its coordinate of the final layer norm |
| LogitsLaws.LogitsAreLinearInHead | KV_Cache/model.py:76 | logits are linear in the head rows |
| LogitsLaws.PositionsAlone | KV_Cache/model.py:62-64 | without token embeddings the first block sees the first rows of the position table |
| LogitsLaws.TokensAlone | KV_Cache/model.py:62-64 | without positions the first block sees the table row of each token |
| Gpt2.KvIsCausal | KV_Cache/model.py:61-67 | appending tokens changes no earlier K/V row of any layer |
| Gpt2.CacheServesContinuations | KV_Cache/model.py:133-136 | a cache holding the rows of a prefix holds the rows of every continuation |
| Gpt2.Prefill | KV_Cache/model.py:61-78 | the logits of all tokens; a given cache then holds every layer's rows and later positions are untouched; every row goes through every block |
| Gpt2.Decode | KV_Cache/model.py:80-97 | on a cache holding rows 0..t-1, the one-token pass gives the last logits row of a full recompute, extends the cache to row t, changes no other position, and sends one row through each block |
| Generation.DrawSamplesSoftmax | KV_Cache/model.py:58 | token and next generator state are those `multinomial` gives on the one distribution in the ratio of the row's exponentials |
| Generation.PollSamplesLastRow | KV_Cache/model.py:55-58 | the same for the last row of the logits |
| Generation.RunProperties | KV_Cache/model.py:108-150 | the prompt is a prefix of the result, the limit is kept, EOS occurs among generated tokens only last, a run below the limit ends in EOS, a prompt at the limit comes back unchanged |
| Generation.LimitOnlyTruncates | KV_Cache/model.py:108-150 | a run with a lower limit is a prefix of the run with a higher one |
| Generation.OnePassExplainsRun | KV_Cache/model.py:124-150 | every generated token is drawn by `multinomial` from the softmax distribution of the previous row of a single pass over the finished text, with one chain of generator states |
| Generation.RunDelivers | KV_Cache/model.py:106-150 | nothing is generated without room or wish; otherwise at least one and at most `max_new_tokens` tokens are, all explained by one pass, and a text below both limits ends in EOS |
| Generation.RecomputedRowsClosedForm | KV_Cache/model.py:139-142 | generating k tokens from p without a cache pushes k p + k (k - 1) / 2 rows through the blocks |
| Generation.ModelCall | KV_Cache/model.py:125-142 | the model call of any iteration gives the last logits row of a full recompute and keeps the cache invariant; it is a decode exactly when a cache is in use and tokens were generated |
| Generation.Generate | KV_Cache/model.py:106-159 | both modes return the tokens of the recomputing run, with what `RunDelivers` states; call counts add up to the k tokens generated; from p prompt tokens the cached run makes one prefill call and sends p + k - 1 rows through every block, the uncached one k p + k (k - 1) / 2; only a negative total with the cache fails |
| Generation.CompareKvCache | KV_Cache/main.py:78-107 | under one seed the comparison never warns, for every model, sampler, prompt and limit; it crashes exactly on a negative total |
| MessagePassing.MessagePass | Graph_Neural_Network/GNN_Message_Passing.ipynb:157-168 | the loop over nodes computes the layer, or fails exactly on an empty graph |
| MessagePassing.Forward | Graph_Neural_Network/GNN_Message_Passing.ipynb:170-177 | the softmax of the rows the two loops compute is the prediction of each node, a distribution in the ratio of the exponentials of its embedding; it fails exactly on an empty graph |
| MessagePassing.NeighborsCount | Graph_Neural_Network/GNN_Message_Passing.ipynb:161 | node j is gathered for node i once for every edge from i to j |
| MessagePassing.PoolPermutation | Graph_Neural_Network/GNN_Message_Passing.ipynb:163 | the sum depends on how often each node is gathered, not on the order |
| MessagePassing.NeighborsOfRenamed | Graph_Neural_Network/GNN_Message_Passing.ipynb:161 | renaming nodes by a bijection renames the gathered neighbours in place |
| MessagePassing.LayerIsEquivariant | Graph_Neural_Network/GNN_Message_Passing.ipynb:157-168 | a layer commutes with renaming the nodes and reordering the edges |
| MessagePassing.ForwardIsEquivariant | Graph_Neural_Network/GNN_Message_Passing.ipynb:170-177 | renaming the nodes by any bijection and reordering the edge list permutes the predictions by that bijection |
| MessagePassing.PoolIsMatrixForm | Graph_Neural_Network/GNN_Message_Passing.ipynb:161-163 | gather-and-sum of node i is row i of (A + I) X with A counting edges, duplicates and self-loops included |
| MessagePassing.ApplyOfUnitRow | Graph_Neural_Network/GNN_Message_Passing.ipynb:164 | a unit weight row of a linear layer reads one coordinate and adds its bias |
| MessagePassing.ApplyOfCombination | Graph_Neural_Network/GNN_Message_Passing.ipynb:164 | an output less its bias is linear in its weight row |
| MessagePassing.LayerIsNonNegative | Graph_Neural_Network/GNN_Message_Passing.ipynb:167 | every output of a layer is non-negative |
| MessagePassing.LayerOfUnitRows | Graph_Neural_Network/GNN_Message_Passing.ipynb:157-168 | through unit rows an output is the coordinate of (A + I) X, scaled, shifted and cut off below zero, twice |
| MessagePassing.LayerOfIdentities | Graph_Neural_Network/GNN_Message_Passing.ipynb:157-168 | with identity layers and non-negative features a layer is (A + I) X |
| MessagePassing.LayerOfMinusIdentity | Graph_Neural_Network/GNN_Message_Passing.ipynb:157-168 | with minus the identity in the pooling such a layer is zero |
| MessagePassing.LayerIsLocal | Graph_Neural_Network/GNN_Message_Passing.ipynb:157-168 | a layer's row depends on the node's out-edges and on the rows they lead to |
| MessagePassing.ForwardIsTwoHopLocal | Graph_Neural_Network/GNN_Message_Passing.ipynb:170-177 | a prediction depends on the out-edges of the node and its out-neighbours and on features at most two hops away; all else may change |
| Bits.ShiftLeftMultiplies | CPU/alu.v:37 | shifting left multiplies by 2^k modulo the width, and gives 0 from the width on |
| Bits.ShiftRightDivides | CPU/alu.v:38 | shifting right divides by 2^k rounding down, and gives 0 from the width on |
| Bits.BitwiseValue | CPU/alu.v:34-36 | bitwise operations on words are those on numbers taken bit by bit |
| Alu.HalfAdder | CPU/adder.v:6-22 | output and carry are the two-bit sum |
| Alu.FullAdder | CPU/adder.v:24-54 | output and carry are the sum of three bits, so merging the half carries with XOR is sound |
| Alu.ChainAdds | CPU/adder.v:61-75 | after n stages the low n output bits plus the carry at its place are the sum of the low n bits of both operands |
| Alu.AdderAdds | CPU/adder.v:56-77 | out + 2^N carry = a + b at every width N, and the dropped carry is set exactly when the sum does not fit |
| Alu.SubtracterSubtracts | CPU/alu.v:44-62 | complement, add one and add give a - b, plus 2^N exactly when a < b; b = 0 included |
| Alu.LogicOpcodes | CPU/alu.v:34-36 | by literal opcode: OR and AND add up to a + b, XOR and twice AND as well, and AND and OR are bit by bit |
| Alu.ArithmeticOpcodes | CPU/alu.v:32-38 | by literal opcode: sum and difference modulo 2^16, shifts by one double and halve, shifts of 16 or more give 0 |
| Alu.AluComputes | CPU/alu.v:30-40 | the seven implemented operations are the numeric ones of a reference with its own bit operations and literal opcodes |
| Registers.Register.PosEdge | CPU/register.v:14-17 | at an edge reset beats write enable, and otherwise the value is kept |
| Registers.SelectIsOneHot | CPU/register_file.v:25 | the shifted select raises exactly the addressed wire, and none without write enable |
| Registers.RegisterFileStep | CPU/register_file.v:24-92 | a reset clears all registers even during a write; a write changes the addressed register only |
| Registers.HoldsLastWriteStep | CPU/register.v:14-17 | one more edge keeps the last-write property of a register |
| Registers.RegisterFileHoldsLastWrite | CPU/register_file.v:24-92 | after any run each register holds the last write not followed by a reset, or 0 |
| Registers.MemoryHoldsLastWrite | CPU/ram.v:11-29 | after any run each memory word holds the last write to its address, or 0 |
| Registers.RegisterFile.StepInstances | CPU/register_file.v:30-92 | the eight register instances step together, each by its own select wire |
| Registers.RegisterFile.PosEdge | CPU/register_file.v:24-92 | one edge of the eight instances clears all registers or changes the addressed one only; after any history of edges each holds its last write not followed by a reset, or 0 |
| Registers.RegisterFile.Read | CPU/register_file.v:26-28 | a read port gives the last write to the address not followed by a reset, or 0 |
| Registers.Memory.PosEdge | CPU/ram.v:11-29 | one edge of the 512 instances changes the addressed word only; after any history of edges each holds its last write, or 0 |
| Registers.Memory.Read | CPU/ram.v:13 | the read port gives the last write to the address, or 0 |
| Datapath.StepRefines | CPU/datapath.v:21-41 | one edge of the circuit is one step of the machine on numbers, with operands read before the edge |
| Datapath.RunRefines | CPU/datapath.v:21-41 | from power-up, every sequence of inputs leaves the reference machine's eight registers |
| Datapath.Datapath.PosEdge | CPU/datapath.v:4-43 | after every edge of any history the registers and write_reg_data are those of the reference machine |

## Left out

- Floating-point rounding, dtypes, devices and `no_grad`: the equalities are over the reals, so texts may still differ by rounding.
- Tokenizer, weight loading and the distribution of `multinomial`: tokens are naturals and the draw is a parameter.
- Wall-clock times and averages in `KV_Cache/metrics.py`: only the call counts are kept.
- `KV_Cache/server.py`, `KV_Cache/hf_server.py`, `KV_Cache/config.py` and argument parsing: plumbing with easy claims.
- The one-dimensional case of `poll_token_from_logits`: both model passes return matrices.
- Negative node indices and edges to missing nodes: edge lists are well formed, as the graph library guarantees.
- GNN training, loss, plotting, the unused `linear4`, and `GNNs.ipynb`, which pools once.
- ALU opcodes without a case arm: their kept output is arbitrary and must not be written to a register.
- The CPU above the datapath (`cpu.v`, `control_unit.v`, `program_counter.v`, `chip.v`): the code leaves its signals undriven or one bit wide, so whole programs have no defined behaviour.
- `CPU/decoder.v` and `CPU/control_fsm.v`: finite tables with easy claims.
- Settling inside a clock cycle: wires have their final values at the edge.
