# SpotFindingResults, modelled in Dafny

This project models `SpotFindingResults` from starfish, the container in which a spot
detector leaves the spots (`SpotAttributes`) it found on each tile of an in-situ
sequencing image, keyed by the tile's (round, channel) pair. Writes and reads take an
axis-typed index mapping (`{Axes.ROUND: r, Axes.CH: c, Axes.ZPLANE: z}`) that is
projected, in the fixed order `AXES_ORDER = (ROUND, CH)`, onto the key `(r, c)`;
any other axes are ignored. The store is a Python dict, so the model keeps both its
entries and its insertion order, which is the order `keys()` and `values()` enumerate.
`round_labels` and `ch_labels` are recomputed from the current keys on each call as the
sorted, duplicate-free rounds and channels.

Files:

- `axes.dfy` (module `Axes`): the axis enumeration and index mappings `map<Axis, int>`.
- `dicts.dfy` (module `Dicts`): a Python dict value (`Dict`: entries plus insertion order),
  item assignment (`Put`), the dict comprehension (`Comprehension`), `keys()` and `values()`.
- `sorted_sets.dfy` (module `SortedSets`): `sorted(set(xs))` on integers.
- `spot_finding_results.dfy` (module `SpotFindingResults`): `AXES_ORDER`, the key projection,
  reading (`Lookup`) and writing (`Store`) through an index mapping, the two label lists,
  the lemmas relating them, and the class `SpotFindingResults` whose field `results` is
  the dict. The class's constructor and `SetItem` change the field; `GetItem`, `Keys`,
  `Values`, `RoundLabels` and `ChLabels` read it through the module-level functions
  `Lookup`, `Dicts.Keys`, `Dicts.Values`, `RoundLabelsOf` and `ChLabelsOf`, which carry
  the contracts.

Python's `KeyError`s become the `Err` case of a `Result`: `MissingAxis(axis)` when the
mapping lacks ROUND or CH (ROUND is looked up first, as the generator over `AXES_ORDER`
does), and `KeyNotFound(key)` when the pair was never stored. `SpotAttributes` is a type
parameter: its contents are not part of this model.

Unlike `__setitem__` (line 43), `__init__` (lines 27-30) does not project its keys through
`AXES_ORDER`; the model takes each pair's key as given.

## Model

| member | source | states |
|---|---|---|
| SpotFindingResults.Project | starfish/core/types/_spot_finding_results.py:43 | `tuple(indices[i] for i in axes)` succeeds exactly when every axis is present; its i-th component is the mapping's value on the i-th axis; otherwise the error names the first missing axis |
| SpotFindingResults.RoundChIndex | starfish/core/types/_spot_finding_results.py:5 | the key is exactly `(indices[Round], indices[Ch])`, in that order, whatever other axes the mapping has; without Round the error is MissingAxis(Round), else without Ch it is MissingAxis(Ch) |
| SpotFindingResults.Lookup | starfish/core/types/_spot_finding_results.py:46-60 | reading fails on a missing axis, fails with KeyNotFound when the pair was never stored, and otherwise returns the value stored under `(indices[Round], indices[Ch])`; no default value |
| SpotFindingResults.Store | starfish/core/types/_spot_finding_results.py:32-44 | writing succeeds exactly when Round and Ch are present, raising before any change otherwise; the new dict is the old one with the projected key assigned |
| SpotFindingResults.StoreThenLookup | starfish/core/types/_spot_finding_results.py:43-60 | after a write, a read with any mapping having the same round and channel (other axes ignored) returns the written spots |
| SpotFindingResults.StoreKeepsOtherEntries | starfish/core/types/_spot_finding_results.py:44 | a write changes only its own key: every read under a different key, or failing on a missing axis, gives the same result as before |
| SpotFindingResults.StoreOverwrites | starfish/core/types/_spot_finding_results.py:44 | overwriting an existing pair keeps the key set, the number of keys, the key order and both label lists |
| SpotFindingResults.LastWriteWins | starfish/core/types/_spot_finding_results.py:44 | two writes to the same pair leave only the second value readable and the same keys as after one write; the first write leaves no trace, the result equals the second write alone |
| SpotFindingResults.RoundLabelsOf | starfish/core/types/_spot_finding_results.py:74-79 | `round_labels` is strictly increasing and holds exactly the rounds of the stored keys |
| SpotFindingResults.ChLabelsOf | starfish/core/types/_spot_finding_results.py:81-86 | `ch_labels` is strictly increasing and holds exactly the channels of the stored keys |
| SpotFindingResults.LabelsDependOnKeySet | starfish/core/types/_spot_finding_results.py:79-86 | both label lists are determined by the set of stored keys, independent of insertion order |
| SpotFindingResults.LabelsAfterStore | starfish/core/types/_spot_finding_results.py:74-86 | labels are never stale: after a write they are the previous labels with the written round (channel) inserted in order |
| SpotFindingResults.SpotFindingResults.constructor | starfish/core/types/_spot_finding_results.py:15-30 | no list or an empty list gives an empty store; otherwise the store is the dict comprehension over the pairs, keys taken as given |
| SpotFindingResults.SpotFindingResults.SetItem | starfish/core/types/_spot_finding_results.py:32-44 | the field becomes the result of Store on the old dict; on a missing axis nothing changes and the error is returned |
| SortedSets.SortedSet | starfish/core/types/_spot_finding_results.py:79 | `sorted(set(xs))` is strictly increasing and has exactly the elements of `xs` |
| SortedSets.InsertSorted | starfish/core/types/_spot_finding_results.py:79 | inserting into a strictly increasing list keeps it strictly increasing and adds exactly the new element |
| SortedSets.StrictlyIncreasingUnique | starfish/core/types/_spot_finding_results.py:79 | two strictly increasing lists with the same elements are equal, so "sorted, duplicate-free" determines the labels |
| SortedSets.SortedSetOfSameElements | starfish/core/types/_spot_finding_results.py:79 | `sorted(set(xs))` depends only on which values occur in `xs` |
| Dicts.Put | starfish/core/types/_spot_finding_results.py:44 | item assignment: the key maps to the new value, every other key keeps its value, an existing key keeps its place and a new key is appended |
| Dicts.Comprehension | starfish/core/types/_spot_finding_results.py:27-30 | the comprehension yields a well-formed dict (each key once in the order) |
| Dicts.ComprehensionKeys | starfish/core/types/_spot_finding_results.py:27-30 | the keys of the built dict are exactly the keys occurring in the list |
| Dicts.ComprehensionLastWins | starfish/core/types/_spot_finding_results.py:27-30 | each key maps to the value of its last occurrence in the list |
| Dicts.ComprehensionSize | starfish/core/types/_spot_finding_results.py:27-30 | the built dict has as many entries as the list has distinct keys |
| Dicts.Keys | starfish/core/types/_spot_finding_results.py:62-66 | `keys()` lists every stored key exactly once, and nothing else |
| Dicts.Values | starfish/core/types/_spot_finding_results.py:68-72 | `values()` has one value per key, the i-th being the value stored under the i-th key |
| Dicts.ValuesAreStored | starfish/core/types/_spot_finding_results.py:68-72 | a value is enumerated by `values()` exactly when it is stored under some key |

## Left out

- Python's `keys()` and `values()` return live views of the dict; the model returns the sequence of keys or values in the current state, computed again on each call.
- The constructor accepts, in Python, any hashable first component; the model types it as a (round, channel) pair of integers, as the documented list of `((r, channel), SpotAttributes)` tuples has.
- Exceptions are modelled as `Err` results; the `KeyError` message text is not modelled.
- The contents of `SpotAttributes` (spot coordinates and intensities) are not part of this model: its definition lies outside the core file.
- Per-round-max decoding (`decode_per_round_max`) is called by notebooks/py/ISS.py:190, but its implementation is not part of this model.
- notebooks/py/ISS.py: orchestration of image I/O, filtering, registration, spot detection, segmentation and plotting in external libraries.
- starfish/core/image/Filter/gaussian_high_pass.py: floating-point image filtering through external libraries, run in parallel processes.
- starfish/io.py: file and URL reading, and version parsing by an external library.
- starfish/experiment/builder/providers.py: interface stubs without behaviour.
