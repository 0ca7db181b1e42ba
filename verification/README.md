# denoize: verified models of its export passes, stream, listening protocol and metrics

This project models the algorithms of denoize that carry a promise beyond a single function, and proves what they
promise for all inputs. It has five parts.

**The ONNX export** (`Tensors`, `TensorRewrites`, `Names`, `Graphs`, `Passes`, `PassProofs`, `Pipeline`, `BoolPads`,
`Pruning`, `Assignment`, `Survival`, `SharedNames`, `KeptNames`, `LiveRuns`, `Export`, `Completeness`,
`ExportExamples`). A tensor is a shape and its elements at every index; a graph is a list of nodes, initializers and
outputs; running it folds the nodes over an environment of named tensors. The operators the passes read or generate
(Pad, Slice, Concat, Unsqueeze, Mul, Einsum, Cast, Constant) have their ONNX meaning, all others are a parameter.
Class `Export.Model` holds the graph that the passes rewrite in place. Every pass is proved against a function on node
lists, every rewrite against the tensors it computes, and the passes together against the run of the graph: they keep
its tensors, its outputs and its single assignment exactly when a condition on the graph and the run holds.
`Completeness` says what the result has nothing of, in terms of what the graph itself says about its constants: no
negative pads, no matching Einsum, no empty Concat input.

**The overlap-add stream** (`Stream`, `StreamSteps`). The Fourier transform followed by its inverse is the identity
around an arbitrary network with a state of any type; the window is any sequence of reals. The in-place loop refines
the direct formula; reconstruction, causality and length follow from the formula. So does the output frame by frame:
what the first frame emits, and how the rest of the input goes on from the state it leaves.

**Blind listening** (`Listening`, `Preparation`, `Recovery`, `RoundTrip`, `Validation`, `Scoring`, `ScoreProperties`,
`KeyComparison`, `UniformBallots`, `KeyRoles`, `KeyExamples`, `Soundness`, `Selection`). The scripts that choose the
cases, prepare a bundle, recover its key, validate a key and score the ballots, each proved exact (it succeeds exactly
when its result exists), and the theorems across them. Digests and keyed hashes are functions of which nothing is
assumed, except that a trial id is 24 hexadecimal digits.

**Quality metrics** (`Reals`, `Frames`, `Projection`, `Artifacts`, `ArtifactReport`, `Detection`, `Reporting`). Real
arithmetic; the transform, the square root, the magnitude of a complex number and the logarithm are parameters.
`Detection` and `Reporting` give every artifact score in closed form: when it is positive, when it is greatest, and
which frames and bins it comes from.

**Canonical documents** (`Json`, `Canonical`, `Acceptance`, `Coverage`, `Texts`, `Sorting`, `Inventory`, `Renaming`).
Matrix normalization on JSON trees, run-length mask coverage, and inventory renaming.

What the scripts are for holds under conditions that they do not check. Each condition is proved exact, and an example
shows the failure:

- Cropping and then padding a negative Pad needs the crops to fit the dimension (`TensorRewrites.OverCropDiffers`).
- A bool Pad through float needs a false fill, none, or nothing to fill (`TensorRewrites.TrueFillIsLost`).
- A float32 zero as the fill of a Pad that has none needs float data (`ExportExamples.IntegerFillFails`).
- Dropping a Concat input needs it to be empty along the axis of that Concat (`TensorRewrites.EmptyOnAnotherAxisDiffers`).
- Pruning loses an output that is an initializer no kept node reads (`Pruning.PruneLosesInitializerOutput`); after the
  rewrites that includes the pads of a split Pad (`ExportExamples.PadsOutputIsLost`).
- The exported graph assigns every name once, as a valid one must, only if no split Pad on a dependency path reads the
  tensor of an earlier one (`ExportExamples.SharedCropIsRefused`), the compatible one only if no two bool Pads share one
  (`ExportExamples.SharedFloatIsRefused`).
- The normal form of an inventory depends on no order only if rows that get one reference get the same children, which
  two source files with different dependencies do not (`Inventory.TwoSourcesKeepTheirOrder`).
- The groups of the case selection are the strata only while no noise but the two recordings has a name that begins like
  theirs; a case with another such noise is in two groups (`Selection.GroupsClassifyIff`).
- The padding of the stream keeps the exact source length, as its comments say, only for alignments whose remainder fits
  in the padding of the last hop (`Stream.OneSampleAlignmentIsShort`).

The recovered key calls the smaller of two trial ids the core trial, which the prepared key need not do. The two keys
of a bundle score all ballots alike, and reach the same verdict on all ballots, exactly when in every chosen directory
the id of the core trial is the smaller one (`KeyRoles.BundleAlikeIff`), which can be checked before any ballot
exists. Otherwise the overall preferences are apart by a twelfth for every directory where it is not, up to a sixth,
and no more (`KeyRoles.BundleLimit`). `KeyExamples.RecoveredKeyDiffers` is a bundle that is prepared and recovered and
whose valid keys differ in score and verdict.

The mask check accepts an empty run behind the last frame only; the mask schema rules out empty runs altogether.

## Model

| member | source | states |
|---|---|---|
| TensorRewrites.CropThenPadIsPad | scripts/export-mossformer2.py:187-223 | Slice by the generated starts and ends, then a non-negative Pad, is the original Pad at every rank and mix of signs, exactly when the crops fit every dimension |
| TensorRewrites.CropRange | scripts/export-mossformer2.py:192-200 | On every axis the generated crop selects what is left between the removed ends, all axes together |
| TensorRewrites.OverCropDiffers | scripts/export-mossformer2.py:187-223 | A concrete tensor whose crops overlap: the split Pad has another shape than the Pad |
| TensorRewrites.CastPadCastIsPad | scripts/export-mossformer2.py:76-101 | Cast, float Pad with zero and Cast back is the bool Pad exactly when its fill is false or nothing is filled |
| TensorRewrites.TrueFillIsLost | scripts/export-mossformer2.py:76-101 | A bool Pad with a true fill changes its value |
| TensorRewrites.UnsqueezeMulIsEinsum | scripts/export-mossformer2.py:137-150 | Unsqueeze before the last axis and a broadcasting Mul compute the Einsum element by element at every rank |
| TensorRewrites.EqualEndsAreEmpty | scripts/export-mossformer2.py:163-171 | A Slice with equal start and end and a positive step is empty along that axis for every extent |
| TensorRewrites.DropInputsIsConcat | scripts/export-mossformer2.py:172-177 | Concat of the kept inputs is the Concat of all exactly when the dropped ones have extent zero on its axis |
| TensorRewrites.EmptyOnAnotherAxisDiffers | scripts/export-mossformer2.py:170-177 | An input that is empty on another axis than the Concat's changes the result when dropped |
| Names.GeneratedNameInjective | scripts/export-mossformer2.py:206-220 | Different node positions or parts give different generated names |
| Names.GeneratedNameEnd | scripts/export-mossformer2.py:206-220 | No generated name ends like the temporaries of the passes |
| Graphs.Simulation | scripts/export-mossformer2.py:282-290 | A node list whose nodes are each replaced by a block runs to an extension of the original run exactly when every block computes what its node computes |
| Graphs.ReadsAreBound | scripts/export-mossformer2.py:287-291 | In a run under single assignment every name a node reads or writes is bound at the end |
| PassProofs.EinsumRefines | scripts/export-mossformer2.py:137-150 | The lowered Einsum computes the node's outputs wherever the run reaches it |
| PassProofs.SplitRefines | scripts/export-mossformer2.py:184-223 | Slice and Pad by the generated constants compute the outputs of the split Pad exactly when the crops fit the data that the run gives it |
| PassProofs.ConcatRefines | scripts/export-mossformer2.py:172-177 | A shortened Concat computes the node's outputs exactly when the inputs it lost are empty along its axis in the run |
| Pipeline.LoweringKeepsConstants | scripts/export-mossformer2.py:130-157 | The Einsum pass leaves the table of constants that the next pass reads unchanged |
| Pipeline.LoweringKeepsEmptyOutputs | scripts/export-mossformer2.py:130-171 | The Einsum pass leaves the set of empty Slice outputs unchanged |
| Pipeline.TrimmingKeepsConstants | scripts/export-mossformer2.py:157-181 | Dropping Concat inputs leaves the table of constants that the split pass reads unchanged |
| Pipeline.PassesAreBlocks | scripts/export-mossformer2.py:286-289 | The three passes in order replace every original node by one block, in order |
| Pipeline.GeneratedHolds | scripts/export-mossformer2.py:201-222 | After all Pads are split, the initializers still hold each Pad's own parameters |
| Pipeline.ConstantsHold | scripts/export-mossformer2.py:46-53 | The table of constants holds the values that the run computes |
| Pipeline.RewritingPreserves | scripts/export-mossformer2.py:286-289 | Given that the generated names are new and the split Pads constant-mode, the three rewriting passes keep every tensor of a run exactly when every crop fits its data and every dropped Concat input is empty along its Concat's axis |
| BoolPads.FillArguments | scripts/export-mossformer2.py:68-78 | A Pad without a fill that gets a float32 zero is the same Pad if its data are floats, and undefined if not |
| BoolPads.BoolRefines | scripts/export-mossformer2.py:76-101 | Cast, Pad and Cast compute the outputs of a bool Pad exactly when its fill is false, missing, or unused |
| BoolPads.FillRefines | scripts/export-mossformer2.py:68-78 | A constant-mode Pad with an explicit float zero computes the outputs of the Pad without a fill exactly when its data are floats in the run |
| BoolPads.CompatiblePreserves | scripts/export-mossformer2.py:56-103 | Given new names, constant-mode Pads and a shape inference that calls bool only what is bool, the pass keeps every tensor of a run exactly when every Pad that gets a float fill has float data and every bool Pad a false fill, none, or nothing to fill |
| Pruning.PruneKeepsExactlyThePaths | scripts/export-mossformer2.py:228-237 | The kept nodes are, in order, exactly those on a dependency path to an output |
| Pruning.PruneKeepsTheReadInitializers | scripts/export-mossformer2.py:238-241 | The kept initializers are, in order, exactly those that a node on a dependency path reads |
| Pruning.PruneTwice | scripts/export-mossformer2.py:228-241 | Pruning a pruned graph changes nothing |
| Pruning.PrunePreserves | scripts/export-mossformer2.py:228-241 | Every graph output keeps its value exactly when each output that is an initializer is an input of a node on a dependency path |
| Pruning.PruneLosesInitializerOutput | scripts/export-mossformer2.py:229-241 | A graph whose only output is an initializer no longer runs after pruning |
| Assignment.BlocksAssignOnce | scripts/export-mossformer2.py:130-225 | A list of blocks in place of single-assignment nodes assigns every name once exactly when every block does and no two share a temporary |
| SharedNames.RewrittenAssignsOnce | scripts/export-mossformer2.py:286-288 | The rewritten graph assigns every name once exactly when no two split Pads read one tensor |
| SharedNames.CompatibleAssignsOnce | scripts/export-mossformer2.py:76-101 | The compatible graph assigns every name once exactly when no two bool Pads share a tensor that they read as data or write, and none writes what it reads |
| KeptNames.ExportAssignsOnce | scripts/export-mossformer2.py:286-291 | The pruned rewritten graph assigns every name once, as the final model check demands, exactly when no split Pad on a dependency path reads the tensor of an earlier one |
| Survival.SurviveIff | scripts/export-mossformer2.py:172-241 | After the passes every initializer output is read exactly when, in the given graph, a node on a dependency path reads it other than as the pads of a split Pad or a lost Concat input |
| Export.Model.constructor | scripts/export-mossformer2.py:281-286 | The model holds the graph it is made from |
| Export.Model.ConstantTable | scripts/export-mossformer2.py:46-53 | The table maps initializers, then Constant nodes, to their values, later ones winning |
| Export.Model.RewriteEinsum | scripts/export-mossformer2.py:130-154 | The node list becomes the lowered one; nothing else changes |
| Export.Model.RemoveEmptyConcatInputs | scripts/export-mossformer2.py:157-177 | Every Concat loses its empty inputs unless none would be left; nothing else changes |
| Export.Model.EmptySliceOutputs | scripts/export-mossformer2.py:158-171 | Collects the outputs of the Slices with constant parameters that select nothing |
| Export.Model.SplitNegativePadding | scripts/export-mossformer2.py:180-225 | Node list and initializers become those of the split pass, in order, which leaves no negative pads (`Completeness.NoNegativePadsLeft`) |
| Export.CropLists | scripts/export-mossformer2.py:191-200 | One entry of axis, start and end for every axis with a negative pad |
| Export.Model.AddCrops | scripts/export-mossformer2.py:201-221 | Appends the five named constants of one Pad in order |
| Export.Model.Prune | scripts/export-mossformer2.py:228-241 | Nodes and initializers become those of the pruned graph |
| Export.Model.MakePadTractCompatible | scripts/export-mossformer2.py:56-103 | Node list and initializers become those of the compatible graph |
| Export.Model.Optimize | scripts/export-mossformer2.py:286-290 | The four passes in order leave the pruned rewritten graph |
| Export.OptimizePreserves | scripts/export-mossformer2.py:286-291 | Given new generated names, constant-mode split Pads, and on dependency paths crops that fit and dropped Concat inputs that are empty along the axis, the four passes keep every graph output of a run exactly when every initializer output is still read, a condition on the given graph; a graph without such outputs always keeps them. The result assigns every name once exactly when no split Pad on a dependency path reads the tensor of an earlier one |
| Completeness.TableKnows | scripts/export-mossformer2.py:46-53 | In a graph that gives every name one value, the table of constants has every initializer and every constant that the graph has |
| Completeness.TableIsSaid | scripts/export-mossformer2.py:46-53 | The table has nothing else |
| Completeness.NoNegativePadsLeft | scripts/export-mossformer2.py:180-225 | After the split pass, and after the three rewriting passes, no Pad, with or without a fill, has pads of which the graph says that one is negative |
| Completeness.NoOuterEinsumLeft | scripts/export-mossformer2.py:130-154 | No Einsum with the equation of the outer product is left |
| Completeness.NoEmptyInputsLeft | scripts/export-mossformer2.py:157-177 | Every Concat has lost exactly the inputs that come from a Slice whose constant parameters have an equal start and end and a positive step, unless that were all |
| Completeness.NothingLeft | scripts/export-mossformer2.py:286-290 | The exported graph has none of the three |
| Completeness.NothingRewritten | scripts/export-mossformer2.py:286-289 | A graph that has none of the three is not changed by the rewriting passes |
| Completeness.EveryPadIsFilled | scripts/export-mossformer2.py:64-75 | After the first pass every Pad has a fill and none pads a tensor that shape inference calls bool |
| Completeness.BoolPadIsCast | scripts/export-mossformer2.py:76-101 | Every Pad of a bool tensor becomes a cast to element type 1, a Pad with its pads, and a cast to element type 9 |
| Export.ConstantSliceIsEmpty | scripts/export-mossformer2.py:161-171 | A constant Slice that selects nothing on the Concat's own axis, listed or by default, meets the condition for dropping it, whatever the data |
| ExportExamples.SharedCropIsRefused | scripts/export-mossformer2.py:180-225 | Two Pads that crop one tensor: the valid graph becomes one that assigns a name twice, also after pruning |
| ExportExamples.SharedFloatIsRefused | scripts/export-mossformer2.py:76-101 | Two bool Pads of one tensor: the valid graph becomes one that assigns a name twice |
| ExportExamples.PadsOutputIsLost | scripts/export-mossformer2.py:222-241 | A graph with the pads of its Pad as an output keeps it under pruning alone, and loses it when the Pad is split first |
| ExportExamples.IntegerFillFails | scripts/export-mossformer2.py:68-78 | A graph that pads data other than floats runs before the pass and not after it |
| Stream.Overlapper.ProcessFrame | scripts/validate-dpdfnet-poc.py:83-100 | One frame: the new state, the emitted hop and the shifted overlap buffer |
| Stream.Enhance | scripts/validate-dpdfnet-poc.py:72-109 | The loop over the pending samples produces the overlap-add of consecutive frames, the last one padded with zeros (`StreamSteps.FrameIsCut`), cut to the length of the input |
| Stream.Reconstructs | scripts/validate-dpdfnet-poc.py:73-109 | With a pass-through network and a power-complementary window, every emitted sample from the second hop on is the input sample, also in the padded last frame |
| Stream.Causal | scripts/validate-dpdfnet-poc.py:102-109 | Inputs that agree on the first j + 2 hops give outputs that agree on the first j + 1, for every network |
| StreamSteps.FrameIsCut | scripts/validate-dpdfnet-poc.py:102-106 | Every frame is cut out of the input followed by zeros |
| StreamSteps.ZerosKeepOutput | scripts/validate-dpdfnet-poc.py:102-109 | For every network, appending zeros to the input keeps every sample that was emitted |
| StreamSteps.ShortInput | scripts/validate-dpdfnet-poc.py:105-109 | Input of less than a frame is one frame padded with zeros, of which at most a hop is emitted |
| StreamSteps.LongInput | scripts/validate-dpdfnet-poc.py:83-104 | For every network, the first frame emits its first half, its second half is added to the first hop of what the rest of the input gives from the state it left, and all later hops are those of the rest |
| Stream.AlignedReference | scripts/validate-dpdfnet-poc.py:123-141 | The aligned samples, and that there are as many as the source has exactly when the remainder of the alignment fits in the padding |
| Stream.OneSampleAlignmentIsShort | scripts/validate-dpdfnet-poc.py:130-141 | One hop of input with an alignment of one sample comes out one sample short |
| Texts.LessTotal | scripts/recover-dpdfnet-blind-answer-key.py:258-263 | The order on trial ids is total and has no ties |
| Texts.LessTransitive | scripts/recover-dpdfnet-blind-answer-key.py:258-263 | The order on trial ids is transitive |
| Texts.LessIff | scripts/recover-dpdfnet-blind-answer-key.py:258-263 | A string comes before another exactly when it is a proper prefix of it or has the smaller character at the first difference |
| Preparation.SelectCases | scripts/prepare-dpdfnet-blind-listening.py:197-205 | Every directory gets the stratum of its case; it fails only on an unknown or unsupported case |
| Preparation.CountStratum | scripts/prepare-dpdfnet-blind-listening.py:206-206 | Counts the directories of a stratum |
| Preparation.ChooseRepeat | scripts/prepare-dpdfnet-blind-listening.py:211-214 | The first directory of the stratum with the smallest duplicate key |
| Preparation.ChosenOnce | scripts/prepare-dpdfnet-blind-listening.py:211-214 | A stratum has one chosen directory |
| Preparation.DrawSpecs | scripts/prepare-dpdfnet-blind-listening.py:216-229 | A core trial for every directory, a repeat for every chosen one, and nothing else |
| Preparation.SortSpecs | scripts/prepare-dpdfnet-blind-listening.py:230-230 | The same trials in the order of their order keys |
| Preparation.Emit | scripts/prepare-dpdfnet-blind-listening.py:239-277 | The public and the private record of every trial; it fails only on missing audio or a repeated id |
| Preparation.Prepare | scripts/prepare-dpdfnet-blind-listening.py:175-320 | It leaves a bundle exactly when there is one: twelve directories in the expected strata, sixteen distinct ordered trials, sides by the swap bit |
| Soundness.ClassifyIff | scripts/prepare-dpdfnet-blind-listening.py:54-64 | The stratum of every case, for every noise and for none |
| Soundness.LastCaseWins | scripts/prepare-dpdfnet-blind-listening.py:197-197 | Of several cases with one id the last one is found |
| Soundness.ChosenIff | scripts/prepare-dpdfnet-blind-listening.py:211-214 | The repeated directory has the smallest duplicate key of its stratum, and comes first among equals |
| Soundness.PlanIsOrdered | scripts/prepare-dpdfnet-blind-listening.py:216-275 | The trials of a bundle are in the order of their order keys; their ids, and the trials that repeats name, are the keyed ids of their cases |
| Soundness.PreparedIsRight | scripts/prepare-dpdfnet-blind-listening.py:239-277 | Every trial of a bundle plays the clean and noisy files of its case, and on each side the output of the model that the key names; the first model is on side A unless the key swaps the sides |
| Recovery.CandidateRecords | scripts/recover-dpdfnet-blind-answer-key.py:151-197 | The fingerprint table, accepted exactly when the twelve candidates can be told apart |
| Recovery.MatchTrials | scripts/recover-dpdfnet-blind-answer-key.py:212-248 | Every trial is matched by its input fingerprints and its sides are named by their output fingerprints; it fails only when no matching exists |
| Recovery.DraftsUnique | scripts/recover-dpdfnet-blind-answer-key.py:217-246 | There is only one matching |
| Recovery.GroupByCase | scripts/recover-dpdfnet-blind-answer-key.py:212-248 | The trials of every case in protocol order |
| Recovery.CheckGeometry | scripts/recover-dpdfnet-blind-answer-key.py:250-257 | Every candidate is played, eight once and four twice |
| Recovery.AssignRoles | scripts/recover-dpdfnet-blind-answer-key.py:258-263 | In every case the smallest id is the core trial and the other one repeats it |
| Recovery.Recover | scripts/recover-dpdfnet-blind-answer-key.py:200-278 | It returns the recovered key, and fails exactly when there is none |
| Soundness.RecoveredIsRight | scripts/recover-dpdfnet-blind-answer-key.py:212-248 | A recovered key is right about the case, the stratum and the model behind each side of every trial, by the digests of the files |
| Soundness.CaseIdIff | scripts/recover-dpdfnet-blind-answer-key.py:22-22 | The case ids are the texts of one to 128 letters, digits and the four marks |
| Soundness.HexIff | scripts/score-dpdfnet-blind-listening.py:127-127 | A trial id is 24 hexadecimal digits in lower case |
| Soundness.ClosedIff | scripts/recover-dpdfnet-blind-answer-key.py:167-192 | A candidate directory is accepted exactly when no required file is missing, no other file is there, all are playable and of one length, and the two outputs differ |
| Soundness.RefusedFor | scripts/recover-dpdfnet-blind-answer-key.py:137-197 | No key is recovered from a protocol with an unplayable trial or an ill-formed id, a matrix with an ill-formed or repeated id, a flawed directory, or two directories with the same inputs |
| RoundTrip.PreparedKeyIsValid | scripts/prepare-dpdfnet-blind-listening.py:266-302 | The prepared key passes the validation exactly when the case ids are well formed |
| RoundTrip.DraftOfTrial | scripts/recover-dpdfnet-blind-answer-key.py:212-246 | A trial matches the directory it was made from and its sides get the models they were given |
| RoundTrip.FourChosen | scripts/prepare-dpdfnet-blind-listening.py:210-230 | The trials that are not core trials repeat as many directories |
| RoundTrip.RecoverableIff | scripts/recover-dpdfnet-blind-answer-key.py:200-278 | A prepared bundle has a recovered key exactly when its candidates can be told apart |
| RoundTrip.RecoveryAgrees | scripts/recover-dpdfnet-blind-answer-key.py:212-278 | The recovered key names the case, stratum and models of the prepared key for all sixteen trials, and both keys are valid |
| Validation.CheckTrials | scripts/score-dpdfnet-blind-listening.py:228-287 | Accepts exactly the answers that belong to different public trials with the right stratum, models, digests and roles |
| Validation.CheckCounts | scripts/score-dpdfnet-blind-listening.py:269-289 | Accepts exactly twelve core and four repeat trials with the expected core strata |
| Validation.CheckRepeats | scripts/score-dpdfnet-blind-listening.py:290-304 | Accepts exactly when every repeat names a core trial of its case and stratum, each a different one |
| Validation.CheckCases | scripts/score-dpdfnet-blind-listening.py:305-324 | Accepts exactly twelve cases, eight single and four paired, with the smallest id as the core |
| Validation.ValidateKey | scripts/score-dpdfnet-blind-listening.py:162-325 | Accepts exactly the valid keys of either version |
| Soundness.ValidKeysAgree | scripts/score-dpdfnet-blind-listening.py:162-289 | Two valid keys of one version for one protocol agree on all digests, and on every trial in the stratum and the output digests; each names the two models on its sides |
| Scoring.CanonicalChoices | scripts/score-dpdfnet-blind-listening.py:341-344 | The model a listener chose in every trial |
| Scoring.CountInconsistencies | scripts/score-dpdfnet-blind-listening.py:430-436 | The repeats whose choice differs from that of the trial they repeat |
| Scoring.CoreScores | scripts/score-dpdfnet-blind-listening.py:437-443 | One, one half or zero for every core trial |
| Scoring.Screen | scripts/score-dpdfnet-blind-listening.py:444-477 | The counts, their total, and the listeners with at most two inconsistencies |
| Scoring.OverallMean | scripts/score-dpdfnet-blind-listening.py:453-456 | The mean of the retained listeners' means is the mean over all their core ratings |
| Scoring.StratumMean | scripts/score-dpdfnet-blind-listening.py:463-466 | The mean over all ratings of the stratum by the retained listeners |
| Scoring.Score | scripts/score-dpdfnet-blind-listening.py:419-477 | The outcome of the ballots; it fails exactly when no listener is retained |
| ScoreProperties.OverallIsWeightedMean | scripts/score-dpdfnet-blind-listening.py:453-474 | The overall preference is the mean of the strata weighted by their core trials, so the four stratum gates put it at 0.4625 or higher |
| ScoreProperties.StrataAverage | scripts/score-dpdfnet-blind-listening.py:463-466 | Each stratum score is the average over the ratings of its own core trials by the retained listeners |
| ScoreProperties.AggregateIsShare | scripts/score-dpdfnet-blind-listening.py:475-477 | The aggregate is the share of inconsistent answers among the four repeats of all listeners |
| ScoreProperties.LimitsAreSharp | scripts/score-dpdfnet-blind-listening.py:479-519 | The policy accepts at its limits and refuses below any one of them |
| ScoreProperties.SidesDoNotMatter | scripts/score-dpdfnet-blind-listening.py:341-344 | Exchanging the sides of any set of trials in the key and in all ballots leaves the whole outcome unchanged |
| ScoreProperties.ModelsExchange | scripts/score-dpdfnet-blind-listening.py:430-474 | Exchanging the two models in the key sends the overall and every stratum score to its complement and keeps the screen |
| ScoreProperties.OneModelIsPromoted | scripts/score-dpdfnet-blind-listening.py:479-521 | The same ballots never pass all checks for both models |
| KeyComparison.InconsistenciesAreSplitCases | scripts/score-dpdfnet-blind-listening.py:430-436 | The inconsistency count is the number of cases that the listener answered in two ways |
| KeyComparison.KeysScoreAlike | scripts/score-dpdfnet-blind-listening.py:430-477 | Two keys with the same names give the same counts, screen and aggregate, overall preferences a twelfth apart at most for every case whose roles they exchange and a sixth at most in all, and equal scores when every retained listener is consistent |
| KeyComparison.BundleScoresAlike | scripts/score-dpdfnet-blind-listening.py:412-477 | The same for the prepared key and the recovered key of one bundle |
| KeyRoles.RolesDecide | scripts/score-dpdfnet-blind-listening.py:430-477 | Two keys that name the same cases and the two models give every set of ballots the same outcome exactly when they call the same trials the repeats |
| KeyRoles.RolesDecideVerdicts | scripts/score-dpdfnet-blind-listening.py:479-521 | They reach the same verdict on every set of ballots exactly under the same condition |
| KeyRoles.LimitAttained | scripts/score-dpdfnet-blind-listening.py:453-456 | One ballot gets overall preferences as far apart as the bound allows, for any two such keys |
| KeyRoles.VerdictChanges | scripts/score-dpdfnet-blind-listening.py:479-521 | For every exchanged case, ballots of twenty listeners that pass every check with the key in which the trial is a core trial and fail with the other |
| KeyRoles.BundleAlikeIff | scripts/recover-dpdfnet-blind-answer-key.py:258-263 | The prepared and the recovered key of a bundle always score alike, and always reach one verdict, exactly when in every chosen directory the core trial has the smaller id |
| KeyRoles.BundleLimit | scripts/recover-dpdfnet-blind-answer-key.py:258-263 | Their overall preferences are at most as many twelfths apart, up to two, as there are chosen directories whose repeat has the smaller id, and some ballot gets there |
| KeyRoles.InvertedBundleDiffers | scripts/recover-dpdfnet-blind-answer-key.py:258-263 | With two such directories both keys are valid, some ballots score a sixth apart, and some pass with the prepared key and fail with the recovered one |
| KeyExamples.RecoveredKeyDiffers | scripts/recover-dpdfnet-blind-answer-key.py:200-278 | Twelve directories and trial ids for which this happens: a bundle the scripts prepare and recover |
| Selection.Extrema | scripts/run-dpdfnet-gtcrn-evaluation.py:716-731 | The first ids of the considered cases; it fails exactly when the group has too few |
| Selection.ExtremaRank | scripts/run-dpdfnet-gtcrn-evaluation.py:717-731 | One chosen id is that of a case of least difference, from two on also of least absolute difference, from three of greatest difference, from four of the median of the ranking; the others follow the ranking |
| Selection.RankingIsUnique | scripts/run-dpdfnet-gtcrn-evaluation.py:717-717 | With unique ids the cases have one ranking by difference and id |
| Selection.RanksIff | scripts/run-dpdfnet-gtcrn-evaluation.py:717-717 | A ranking is the cases by increasing difference, ties by id |
| Selection.BalancedIff | scripts/run-dpdfnet-gtcrn-evaluation.py:720-720 | The most balanced case has the difference nearest to zero on either side, ties by id |
| Selection.ExtremaAreDistinct | scripts/run-dpdfnet-gtcrn-evaluation.py:724-730 | The chosen ids are different ids of the group |
| Selection.GroupsClassify | scripts/run-dpdfnet-gtcrn-evaluation.py:733-739 | A case is in a group exactly when it classifies as that stratum, if no noise but the two recordings has a name that begins like theirs |
| Selection.GroupsClassifyIff | scripts/run-dpdfnet-gtcrn-evaluation.py:733-739 | The groups are the strata for exactly these cases; any other is in two groups |
| Selection.NoiseNamesAreKnown | scripts/run-dpdfnet-gtcrn-evaluation.py:31-39 | The seven noises of an evaluation matrix are such names |
| Selection.ChooseListeningCases | scripts/run-dpdfnet-gtcrn-evaluation.py:702-748 | The choice of all four groups; with unique ids and known noises it succeeds exactly when every group is large enough |
| Selection.ChoiceHoldsExtremes | scripts/run-dpdfnet-gtcrn-evaluation.py:740-745 | The chosen clean cases include the extremes of the enhanced quality, the others those of the improvement |
| Selection.ChoiceIsDistinct | scripts/run-dpdfnet-gtcrn-evaluation.py:740-748 | The choice has twelve distinct ids |
| Selection.ChoiceFitsStrata | scripts/prepare-dpdfnet-blind-listening.py:54-64 | Directories for the chosen ids have exactly the strata that preparing a bundle demands |
| Frames.FrameSizeIsPower | src/benchmark.rs:434-438 | The frame size is a power of two in [64, 1024], the smallest that holds all samples when one does |
| Frames.FrameStarts | src/benchmark.rs:440-451 | Multiples of the hop; the loop always ends by its break, with the closed-form count and the last frame reaching the end |
| Frames.FramesCover | src/benchmark.rs:440-451 | Every sample lies in a frame |
| Frames.CapacityHolds | src/benchmark.rs:441-441 | The count never exceeds the reserved capacity |
| Projection.EnergiesAddUp | src/benchmark.rs:600-613 | Target and noise energy add up to the energy of the estimate exactly when the reference is not below the floor or is orthogonal to it |
| Projection.SiSdrIs | src/benchmark.rs:600-613 | With reference and noise above the floor the metric is ten times the logarithm of the squared inner product over what it lacks to the product of the energies |
| Projection.SiSnrIs | src/benchmark.rs:616-623 | The centred metric is the metric of the two signals shifted to sum to zero |
| Projection.ScaleIsOptimal | src/benchmark.rs:606-612 | Any other scale leaves more noise, by the square of the difference times the reference energy |
| Projection.GainScalesEnergies | src/benchmark.rs:600-613 | A gain on the estimate scales both energies by its square |
| Projection.GainKeepsRatioIff | src/benchmark.rs:600-613 | A gain keeps the floored ratio exactly when there is no target, when its square is one, or when the noise energy is not below the floor before and after; the metric changes in all other cases if the logarithm is injective |
| Projection.GainDoesNotMatter | src/benchmark.rs:600-613 | A gain on the estimate leaves the metric unchanged when the noise energy is not below the floor before and after |
| Projection.OffsetDoesNotMatter | src/benchmark.rs:616-623 | Adding a constant to either signal leaves the centred metric unchanged |
| Projection.CauchySchwarz | src/benchmark.rs:647-652 | The square of the inner product is at most the product of the energies |
| Projection.CorrelationIsBounded | src/benchmark.rs:647-652 | A correlation lies between minus one and one |
| Projection.CorrelationIsSymmetric | src/benchmark.rs:647-652 | The correlation is symmetric |
| Projection.CorrelationIs | src/benchmark.rs:647-652 | Above the floor its square is the squared inner product over the product of the energies, and its sign that of the inner product |
| Projection.GainCorrelates | src/benchmark.rs:647-652 | A signal and a gain of it have the correlation one or minus one, by the sign of the gain |
| Artifacts.MusicalWithin | src/benchmark.rs:396-406 | The musical excess of a frame is at most its energy, and zero against itself |
| Artifacts.PhaseErrorForFrame | src/benchmark.rs:500-525 | The sums of error and weight over the audible bins |
| Artifacts.PhaseWithin | src/benchmark.rs:500-532 | The phase error is at most its weight, and zero against itself |
| Artifacts.CosineIsQuotient | src/benchmark.rs:500-525 | With true magnitudes the phase quotient lies between minus one and one, so its clamp never acts |
| Artifacts.TransientLossScore | src/benchmark.rs:574-587 | The loss over the weight of the frames above the threshold, which `Detection.LossIsLost` gives in closed form |
| Artifacts.LossWithin | src/benchmark.rs:574-587 | The weighted loss is at most the weight, and zero against itself |
| Artifacts.PumpingScore | src/benchmark.rs:543-572 | The mean change of the level gain between consecutive loud frames |
| Artifacts.NoPumpingScore | src/benchmark.rs:543-572 | Equal levels give zero |
| Artifacts.ClampIsIdle | src/benchmark.rs:535-541 | A part of its total is never clamped |
| Detection.ExcessIs | src/benchmark.rs:394-403 | A bin is musical noise exactly when its power exceeds 1.15 times the reference and its surroundings; from five times the surroundings on the whole difference counts, below it a linear share |
| Detection.ToneIsMusical | src/benchmark.rs:394-404 | A lone tone that the reference lacks is all musical noise |
| Detection.CrossIgnoresCommonPhase | src/benchmark.rs:527-533 | Turning both channels alike keeps the angle between them |
| Detection.CrossIsAngle | src/benchmark.rs:527-533 | The cross spectrum of a channel and its turned copy is the energy turned back |
| Detection.PhaseBinIs | src/benchmark.rs:508-524 | A bin audible in both weighs the smaller magnitude; its error is nothing exactly for one direction and the weight exactly for opposite ones |
| Detection.InversionIsTotal | src/benchmark.rs:500-525 | With an inverted channel the phase error of a frame is its weight |
| Detection.PhaseIff | src/benchmark.rs:500-525 | A frame has a phase error exactly when one of its inner bins has, and a weight when one is audible |
| Detection.FluxIs | src/benchmark.rs:477-485 | The flux is the rise over the sum of the frame before, at most a hundred, and positive exactly when a bin rises |
| Detection.LossIsLost | src/benchmark.rs:574-587 | The loss adds up what the frames with at least 0.05 and 0.15 of the greatest flux lost, the weight their flux |
| Detection.TransientLossIff | src/benchmark.rs:574-587 | The transient score is positive exactly when such a frame lost flux |
| Detection.AllTransientsLost | src/benchmark.rs:574-587 | It is one exactly when there are such frames and nothing is left of any |
| Detection.GainIs | src/benchmark.rs:560-560 | The gain is twenty times the logarithm of the quotient of the levels over the floor, within sixty decibels |
| Detection.PumpIs | src/benchmark.rs:552-567 | The loop with its remembered gain sums over neighbouring loud frames |
| Detection.PumpingIs | src/benchmark.rs:543-572 | The pumping score is the mean gain change over twelve decibels, at most one, and positive exactly when two loud neighbours differ |
| Detection.OneStep | src/benchmark.rs:543-572 | One step of g decibels between two loud frames scores g / 12, at most one |
| Detection.SilenceDoesNotPump | src/benchmark.rs:544-550 | A silent reference scores zero |
| ArtifactReport.FrameExcess | src/benchmark.rs:394-407 | The musical excess and the energy of a frame, bin by bin |
| ArtifactReport.Collect | src/benchmark.rs:335-432 | One pass over all frame starts adds up the observations, with no flux in the first frame |
| ArtifactReport.Compare | src/benchmark.rs:107-136 | The report of a pair, refused exactly when the pair is invalid |
| ArtifactReport.SharesHold | src/benchmark.rs:394-427 | Over all frames the excess is part of the energy and the phase error part of its weight |
| ArtifactReport.ScoresAreShares | src/benchmark.rs:112-136 | Musical noise, transient loss and phase distortion are plain quotients: their clamps never act |
| ArtifactReport.SelfComparisonIsZero | src/benchmark.rs:107-136 | A recording compared with itself scores zero everywhere |
| Reporting.WindowedAt | src/benchmark.rs:459-468 | Every sample of a frame by its window weight, silence past the end |
| Reporting.DownmixAt | src/benchmark.rs:589-593 | A sample of the downmix times the number of channels is the sum of their samples |
| Reporting.LevelIs | src/benchmark.rs:487-498 | The squared level of a frame times its samples is their sum of squares |
| Reporting.ViewIs | src/benchmark.rs:368-390 | Of each mix its own magnitudes and level are read |
| Reporting.ObservedSums | src/benchmark.rs:394-428 | Excess, energy, phase error and weight are summed over all frames |
| Reporting.ObservedFlux | src/benchmark.rs:375-386 | Each recording has the flux of a frame over its own frame before, the first frame none |
| Reporting.MusicalScoreIff | src/benchmark.rs:394-404 | The musical score is positive exactly when an inner bin of a frame has an excess |
| Reporting.PhaseScoreIff | src/benchmark.rs:406-428 | The phase score is positive exactly when in an inner bin of a frame the angle between the channels turned |
| Reporting.InversionScoresOne | src/benchmark.rs:406-428 | With one channel inverted the phase score is one, unless nothing is audible |
| Reporting.ValidIff | src/benchmark.rs:271-320 | A pair is valid exactly when the rates are equal and positive and the channels as many and of one positive length |
| Json.ReservedPathsAreFound | scripts/verify-dpdfnet-objective-equivalence.py:88-99 | The recursion finds exactly the paths that end in a reserved name |
| Json.NoneLeft | scripts/verify-dpdfnet-objective-equivalence.py:88-99 | A stripped document has no reserved field at any depth |
| Json.PartsDetermine | scripts/verify-dpdfnet-objective-equivalence.py:200-209 | A document is determined by its stripped form and the removed fields |
| Json.DeleteShape | scripts/verify-dpdfnet-objective-equivalence.py:201-208 | Deleting a field removes what lies at or below its path and nothing else |
| Json.RemovedIsStripped | scripts/verify-dpdfnet-objective-equivalence.py:200-209 | Deleting every reserved path, in any order, strips the document |
| Canonical.CheckCases | scripts/verify-dpdfnet-objective-equivalence.py:147-183 | Accepts exactly well-formed cases with unique ids and collects their allowed fields |
| Canonical.NormalizeMatrix | scripts/verify-dpdfnet-objective-equivalence.py:102-209 | Accepts exactly the matrices that meet the contract, which `Acceptance.AcceptedIff` gives by paths, and returns them without the fields of the six names |
| Canonical.DeletionsFind | scripts/verify-dpdfnet-objective-equivalence.py:200-208 | No deletion misses its field, whichever of the others are already gone |
| Canonical.EquivalentIff | scripts/verify-dpdfnet-objective-equivalence.py:297-304 | Two accepted matrices have equal normal forms exactly when they differ at the six excluded field patterns only |
| Acceptance.AcceptedIff | scripts/verify-dpdfnet-objective-equivalence.py:102-197 | A matrix is accepted exactly when it has the demanded shape, said by paths, and the fields of the six names stand at the allowed places and nowhere else |
| Acceptance.SampleIsAccepted | scripts/verify-dpdfnet-objective-equivalence.py:102-209 | A concrete matrix that is accepted |
| Acceptance.NormalFormShows | scripts/verify-dpdfnet-objective-equivalence.py:199-209 | The normal form is the one document in which every path free of the six names shows what it showed before, and no other path shows anything |
| Coverage.ExactCoverage | scripts/test-restoration-schemas.py:94-108 | The check with its cursor list decides acceptance |
| Coverage.CoverageIsTiling | scripts/test-restoration-schemas.py:94-108 | Acceptance is an ordered tiling in bounds, with every frame in exactly one run, whose empty runs stand behind the last frame; for runs of positive length it is that tiling |
| Coverage.EmptyRunIsRefused | scripts/test-restoration-schemas.py:97-107 | An empty run before the last frame refuses any mask, a tiling among them |
| Coverage.LengthsAddUp | scripts/test-restoration-schemas.py:107-108 | The run lengths add up to channels times frames |
| Inventory.CollectRefs | scripts/generate-release-evidence.py:126-139 | Collects exactly the references the document mentions |
| Inventory.BuildMap | scripts/generate-release-evidence.py:140-147 | Every reference is hashed and those of source files share the one of the lock file |
| Inventory.NormalizeRows | scripts/generate-release-evidence.py:162-174 | Every other row is renamed with its children sorted; the top rows give the direct references |
| Inventory.NormalizedInventory | scripts/generate-release-evidence.py:117-186 | The normal form of the document, whose components, rows and direct references `Renaming` gives by the reference hash alone |
| Inventory.EdgesAreRenamed | scripts/generate-release-evidence.py:162-186 | The edges are exactly the renamed edges outside the top row, and no edge is lost |
| Renaming.ComponentsAreRenamed | scripts/generate-release-evidence.py:149-160 | Every component stands in the normal form once, under the hash of its reference or of the lock file, with its kind and rest, and its name unless it is a file; nothing else does, and the dumps ascend |
| Renaming.ReferencesStay | scripts/generate-release-evidence.py:149-186 | What the reference of a component becomes, as an edge end or a direct reference too, is the reference of a component of the normal form |
| Renaming.RowsAreRenamed | scripts/generate-release-evidence.py:162-175 | Every row with a reference that is not the top one stands in it once, with renamed children in order, and the references ascend |
| Renaming.DirectAreRenamed | scripts/generate-release-evidence.py:168-186 | The direct references are the renamed dependencies of the top component, or of all components if it has none |
| Inventory.OrderDoesNotMatter | scripts/generate-release-evidence.py:117-186 | Reordering components, rows or children leaves the normal form alone when rows that get one reference get the same children |
| Inventory.OrderFreeIff | scripts/generate-release-evidence.py:117-186 | Every reordering of a document has its normal form exactly when rows that get one reference get the same children |
| Inventory.TiedRowsKeepTheirOrder | scripts/generate-release-evidence.py:175-175 | In any document, exchanging two rows with one reference and different children changes the normal form |
| Inventory.TwoSourcesKeepTheirOrder | scripts/generate-release-evidence.py:140-175 | Two source files with one different dependency each: both rows get the lock file's reference, and a reordering has another normal form |

## Left out

- File, network and process access, argument parsing, HTML and Markdown output, and everything that writes reports.
- The Fourier transform, the networks, shape inference and the ONNX Runtime optimizer: identities or parameters.
- SHA-256, HMAC and the reference hash: parameters; nothing is proved about secrecy.
- Rounding, overflow, NaN and infinities: metrics, window and scores are reals; a non-finite sample, which the analysis replaces by zero, does not occur in the model.
- The sine window: the power-complementary identity is a hypothesis of `Stream.Reconstructs`.
- Node names and the Squeeze pass (scripts/export-mossformer2.py:106-112): no operator the model gives a meaning depends on them.
- Subgraph operators, Pad modes other than constant, and initializers overridden by graph inputs.
- The parameters of a Slice are one-dimensional tensors, as ONNX demands; `ravel` of other shapes is not modelled.
- Nodes are values: `Export.Model` updates the node list in place, and two lists that share one node object are not modelled.
- Pipeline.RewritingPreserves: says nothing about runs in which a generated name is already taken or a split Pad has another mode than constant.
- BoolPads.CompatiblePreserves: says nothing about runs in which a name of the pass is already taken, a Pad it changes has another mode than constant, or shape inference calls a tensor bool that is not.
- Completeness.NoNegativePadsLeft: says nothing about graphs in which a name has two values or a generated name is already taken; the other members of `Completeness` about constants need one value for each name as well.
- Reporting.InversionScoresOne: takes the transform of a negated signal to be the negated transform, which holds for any linear one.
- Export.OptimizePreserves: says nothing about runs in which a rewrite on a dependency path changes a value; whether the change reaches an output is up to the operators behind it.
- The JSON field lists, format strings and policy block of the listening documents, and entries of the audio directory that are not directories: the listing is the directories in name order.
- The response files: a ballot is already a choice for every trial; duplicate listener ids are refused before.
- The bootstrap interval: its lower end is a parameter of `ScoreProperties.Accepted`.
- Segmental SNR, plain SNR, stereo side metrics and STOI: each is one expression over the same sums.
- A division that the source never makes by zero, in `Artifacts.Flux`, `Artifacts.GainDb` and `Artifacts.Cosine`, has the value zero.
- `combine_inventories` concatenates and sorts; `model_inventory` and the entries of an inventory that are not objects are not modelled.
- Timings, resident-set sizes, version sequencing, the mobile lifecycle and the evidence generators.
