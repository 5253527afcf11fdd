# Generator adapters and sample sorts, modelled in Dafny

This project models two independent pieces of the huggingface-vscode-endpoint-server
repository.

**`generators.dfy` (module `Generators`)** models `generators_ms.py`: a uniform
`generate(query, parameters) -> text` interface over three code-generation backends.

- `GeneratorBase.generate` always raises `NotImplementedError`.
- `__call__` forwards to `generate`, with `parameters` defaulting to `None`.
- `StarCoder` uses a text-generation pipeline. Its baseline is the model's pretrained
  generation configuration, with `pad_token_id` set in place to the pipeline
  tokenizer's `eos_token_id`.
- `SantaCoder` uses a tokenizer and a model. Its baseline comes from the model's own
  configuration, with the same padding override.
- `ReplitCode` uses a tokenizer and a model, with hard-coded sampling defaults.

On each call, the caller's parameters are overlaid on the baseline, and the caller wins
on every key. `ReplitCode` reads `None` as `{}` and drops a `'stop'` key before calling
the model. The other two adapters unpack `**parameters` directly, so a call without
parameters raises `TypeError`. Only element 0 of the backend's answer is read.

Option maps are `map<string, Value>`, and `Value` is an opaque datatype. Floats are kept
as their decimal literals. The backend objects are datatypes whose operations are
arbitrary total functions, handed to the constructors. So every property holds for every
deterministic backend; sampling is not modelled (see "Left out"). The model covers these
exceptions:
- `NotImplementedError`, as `NotImplemented`;
- `TypeError` from `**None`, as `NotAMapping`;
- `IndexError` from `[0]`, as `IndexOutOfRange`;
- `KeyError` from `['generated_text']`, as `MissingKey`.

**`sorting.dfy` (module `Sorting`)** models the four complete sorts of
`llm_vscode_test.py`. Each is an in-place method on an `array<int>` that keeps the
original loops and indices and returns the same array. Each is proved to leave the array
sorted and a permutation of its input. The merge phase of merge sort is proved against a
functional merge, `MergeSeq`. A uniqueness lemma shows that all four sorts compute the
same result.

`GeneratorBase.__call__` (generators_ms.py:10-11) passes `parameters=None` through, so
`StarCoder(q)` and `SantaCoder(q)` raise `TypeError` at `**parameters`. The model fails the
same way.

## Model

| member | source | states |
|---|---|---|
| `Generators.Overlay` | generators_ms.py:24-27 | The merged key set is the union of both key sets. Every caller key takes the caller's value. Every other baseline key keeps its baseline value. |
| `Generators.OverlayIsUnique` | generators_ms.py:24-27 | Any option map that obeys the precedence rule equals the overlay, so the rule fixes the merged options completely. |
| `Generators.OverlayOfNothing` | generators_ms.py:44-47 | Overlaying `{}` gives back the baseline unchanged. |
| `Generators.Unpacked` | generators_ms.py:44-47 | `{**base, **parameters}` fails with a TypeError exactly when `parameters` is None. Otherwise its result obeys the precedence rule. |
| `Generators.WithoutStop` | generators_ms.py:68-69 | The result holds the input's keys minus `'stop'`, and every other value is unchanged. |
| `Generators.ReplitOptions` | generators_ms.py:67-69 | The options sent to the model never hold `'stop'`. Caller values win, defaults survive elsewhere, and the key set is the union minus `'stop'`. None counts as no overrides. |
| `Generators.ReplitNoneIsEmpty` | generators_ms.py:65-67 | `parameters=None` and `parameters={}` give the same options. When the defaults have no `'stop'`, these are exactly the defaults. |
| `Generators.ReplitStopStripped` | generators_ms.py:67-70 | A caller's `'stop'` has no effect on what the model receives. |
| `Generators.GeneratedTextOf` | generators_ms.py:28-29 | The text is element 0's `'generated_text'`. An empty answer raises IndexError, and a missing key raises KeyError. |
| `Generators.FirstSequenceText` | generators_ms.py:49-50 | The text is the decoding of output row 0. There is no text exactly when the output is empty (IndexError). |
| `Generators.OnlyFirstSequenceRead` | generators_ms.py:71-72 | Outputs that agree on row 0 give the same text, so later rows are discarded. |
| `Generators.GeneratorBase.Generate` | generators_ms.py:7-8 | Always fails with NotImplementedError. |
| `Generators.GeneratorBase.Call` | generators_ms.py:10-11 | `__call__` on the base contract is an error too. |
| `Generators.StarCoder.constructor` | generators_ms.py:15-21 | The pipeline comes from the loader. The baseline is the pretrained generation config with `pad_token_id` set to the pipeline tokenizer's `eos_token_id`. |
| `Generators.StarCoder.Generate` | generators_ms.py:23-30 | With no parameters it fails with TypeError. Otherwise it returns element 0's generated text from a pipeline run on the caller's parameters over the baseline. It reads the baseline and never writes it. |
| `Generators.StarCoder.Call` | generators_ms.py:10-11 | `__call__` equals `generate` with parameters defaulting to None, so a call without parameters fails. |
| `Generators.SantaCoder.constructor` | generators_ms.py:34-40 | Model and tokenizer come from the loaders. The baseline is the model-config-derived generation config with `pad_token_id` set to the tokenizer's `eos_token_id`. |
| `Generators.SantaCoder.Generate` | generators_ms.py:42-51 | With no parameters it fails with TypeError. Otherwise it decodes output row 0 of the model run on the encoded query with the caller's parameters over the baseline. It never writes the baseline. |
| `Generators.SantaCoder.Call` | generators_ms.py:10-11 | `__call__` equals `generate` with parameters defaulting to None, so a call without parameters fails. |
| `Generators.ReplitDefaults` | generators_ms.py:60-63 | The defaults are exactly these seven keys: `do_sample=True`, `top_p=0.95`, `top_k=4`, `temperature=0.2` and `num_return_sequences=1`, plus `pad_token_id` and `eos_token_id`, both set to the tokenizer's EOS id. None of the keys is `'stop'`. |
| `Generators.ReplitCode.constructor` | generators_ms.py:55-63 | Model and tokenizer come from the loaders, and the defaults are `ReplitDefaults` of the tokenizer's EOS id. |
| `Generators.ReplitCode.Generate` | generators_ms.py:65-73 | A fresh option map is built and `'stop'` is popped from it. The result is the decoding of output row 0 of the model run on the encoded query with `ReplitOptions`. The defaults are never written. |
| `Generators.ReplitCode.Call` | generators_ms.py:10-11 | `__call__` equals `generate`, with None allowed. |
| `Generators.ReplitOverridesDoNotLeak` | generators_ms.py:65-70 | After a call with any overrides, a call with `{}` generates with exactly the defaults, and so does a call without parameters. |
| `Generators.StarCoderEmptyOverridesUseBaseline` | generators_ms.py:23-28 | A call with `{}` runs the pipeline on the stored baseline itself. |
| `Generators.SantaCoderEmptyOverridesUseBaseline` | generators_ms.py:42-48 | A call with `{}` runs the model on the stored baseline itself. |
| `Sorting.BubbleSort` | llm_vscode_test.py:2-7 | Returns the same array, now sorted and a permutation of the input. After pass `i`, the last `i` elements are sorted and no smaller than the rest. |
| `Sorting.BubblePass` | llm_vscode_test.py:4-6 | One inner pass carries the largest element of the unsorted prefix to its end and keeps the sorted tail. It only permutes the array. |
| `Sorting.CompareSwap` | llm_vscode_test.py:5-6 | The step keeps the length and the multiset, leaves the pair at `j` in order and every other position unchanged. A pair already in order, equal values included, is left as it is; an out-of-order pair is exchanged. |
| `Sorting.CompareSwapStep` | llm_vscode_test.py:5-6 | A compare-and-swap that exchanges a pair only when the left element is strictly greater keeps the pass invariant and the multiset. |
| `Sorting.SelectionSort` | llm_vscode_test.py:10-17 | Returns the same array, sorted and a permutation. After iteration `i`, the prefix is sorted and no element of it exceeds any later element. |
| `Sorting.SelectionStep` | llm_vscode_test.py:16 | Swapping a least element of the unsorted suffix into position `i` extends the sorted, partitioned prefix by one and only permutes the array. |
| `Sorting.InsertionSort` | llm_vscode_test.py:20-26 | Returns the same array, sorted and a permutation. The prefix `arr[0..i)` is sorted at each outer step, and the inner loop stays in bounds. |
| `Sorting.InsertStep` | llm_vscode_test.py:23-25 | Swapping `arr[j]` with a strictly greater left neighbour keeps the inner-loop invariant at `j - 1` and only permutes the array. |
| `Sorting.MergeSort` | llm_vscode_test.py:29-57 | Returns the same array. A length of at most 1 leaves it unchanged. Otherwise it ends sorted and a permutation of the input. |
| `Sorting.Merge` | llm_vscode_test.py:38-56 | Overwrites `arr` with the merge of `left` and `right`: the first loop, then the rest of `left`, then the rest of `right`. Its body proves `k == i + j` after each loop, and that `i`, `j` and `k` end at the lengths of `left`, `right` and `arr`. |
| `Sorting.MergeHeads` | llm_vscode_test.py:38-46 | The first loop ends with one side exhausted and `k == i + j`. The first `k` cells hold the start of the merge, and the merge of what remains of both sides is the rest of it. |
| `Sorting.MergeSeqRest` | llm_vscode_test.py:48-56 | Once one side is exhausted, the rest of the merge is the rest of `left` followed by the rest of `right`. |
| `Sorting.CopyRest` | llm_vscode_test.py:48-56 | Copies the rest of one side into `arr[k..]`, advancing `i` and `k` together. It ends with `i` at that side's length and changes nothing before or after the copied part. |
| `Sorting.MergeSeqTakesLeft` | llm_vscode_test.py:39-42 | When `left[i] < right[j]`, or `right` is exhausted, the next merged element is `left[i]`. |
| `Sorting.MergeSeqTakesRight` | llm_vscode_test.py:43-45 | Otherwise the next merged element is `right[j]`. |
| `Sorting.MergeSeqPermutation` | llm_vscode_test.py:38-56 | The merge's elements are exactly those of both halves, as a multiset. |
| `Sorting.MergeSeq` | llm_vscode_test.py:38-56 | The functional merge that the three loops compute: the left head is taken only when strictly smaller, so ties take from `right`. Its length is the sum of both lengths, so the loops fill `arr` exactly. |
| `Sorting.MergeSeqSorted` | llm_vscode_test.py:38-56 | Merging two sorted sequences gives a sorted sequence. |
| `Sorting.SortedPermutationsEqual` | llm_vscode_test.py:2-57 | Two sorted sequences with the same multiset are equal, so a sorted permutation is unique. |
| `Sorting.SortsAgree` | llm_vscode_test.py:2-57 | Bubble, selection, insertion and merge sort, each run on its own copy of a list, give one and the same sorted permutation of it. |

## Left out

- Model, tokenizer and pipeline loading, and mirror resolution, are foreign library calls. They are represented by the arbitrary functions of `Hub`.
- Sampling and random-number state are not modelled: `model.generate` and the pipeline run are deterministic functions of their input ids (or prompt) and options, although ReplitCode's own defaults set `do_sample=True`. Statements that two calls give the same text, as in `Generators.ReplitOverridesDoNotLeak`, hold in the model because both calls hand the backend the same inputs and options.
- `GenerationConfig.to_dict` and `from_dict` are taken as the identity on option maps.
- `model.generate` is one arbitrary function, so the two call conventions are not told apart: ReplitCode expands the options as keyword arguments, and SantaCoder passes one configuration object.
- The decode flags `skip_special_tokens` and `clean_up_tokenization_spaces` are not modelled; `decode` is arbitrary, so nothing is proved about control tokens or spacing.
- Tensors and `return_tensors='ms'` are not modelled; token ids are `seq<int>`.
- Exceptions raised inside the backend are not modelled, because the backend functions are total. The adapters catch nothing, so such exceptions would reach the caller unchanged.
- Float option values are opaque literals, because the adapters only store and pass them on.
- Concurrency is not modelled: the adapters assume one call at a time.
- Python inheritance of `__call__` is not modelled: without traits, each adapter gets its own `Call` that forwards to its `Generate`.
- The exact text and length produced by a backend are not modelled: the backend is arbitrary, so the end-to-end "prompt plus at most 10 tokens" scenario cannot be stated.
- `quick_sort` (llm_vscode_test.py:60-66) is left out because it is unfinished: it discards `middle` and `right` and only recurses on `left`, so no sorting contract holds.
- `heap_sort` (llm_vscode_test.py:69-79) is left out because the code is truncated mid-statement.
- `tests_ms.py` is left out: it is a unit-test harness that downloads a model and only prints output.
- Sorting.BubbleSort: does not state that equal neighbours are never exchanged. Integers carry no identity, so the model cannot observe it. The guard `arr[j] > arr[j+1]` is kept as written in `BubblePass`, and its mirror on sequences, `CompareSwap`, states that an in-order pair is left as it is.
- Sorting.Merge: the three loops of the merge phase are helper methods rather than inline loops: `MergeHeads` is the first loop, and `CopyRest`, called twice, is the second and third. Each loop keeps its guard and updates as written.
- Python lists are modelled as `array<int>`; the sorts compare only integers, not arbitrary comparable elements.
