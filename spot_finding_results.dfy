/**
 The results of a spot detector: the spots it found on each (round, channel) tile,
 keyed by the pair (round, channel) and read and written through axis-typed index
 mappings.
 */
module SpotFindingResults {
  import opened Axes
  import opened Dicts
  import opened SortedSets

  /** A (round, channel) pair. */
  type Key = (int, int)

  datatype Option<T> = None | Some(value: T)

  /** The `KeyError`s the store raises: an index mapping without a needed axis, or an unknown pair. */
  datatype Error = MissingAxis(axis: Axis) | KeyNotFound(key: Key)

  datatype Result<T> = Ok(value: T) | Err(error: Error)

  /** The axes a key is made of, in key order. */
  const AxesOrder: seq<Axis> := [Round, Ch]

  /** `axes[k]` is the first of `axes` that `indices` lacks. */
  ghost predicate FirstMissing(indices: Indices, axes: seq<Axis>, k: int)
  {
    0 <= k < |axes| && axes[k] !in indices && forall j :: 0 <= j < k ==> axes[j] in indices
  }

  /**
   `tuple(indices[a] for a in axes)`: the positions of `indices` on `axes`, in the order of
   `axes`; the first axis of `axes` that `indices` lacks raises a `KeyError`.
   */
  function Project(indices: Indices, axes: seq<Axis>): (r: Result<seq<int>>)
    ensures r.Ok? <==> forall a :: a in axes ==> a in indices
    ensures r.Ok? ==> |r.value| == |axes| && forall k :: 0 <= k < |axes| ==> r.value[k] == indices[axes[k]]
    ensures r.Err? ==> r.error.MissingAxis? && exists k :: FirstMissing(indices, axes, k) && axes[k] == r.error.axis
  {
    if axes == [] then Ok([])
    else if axes[0] !in indices then Err(MissingAxis(axes[0]))
    else
      match Project(indices, axes[1..])
      case Ok(rest) => Ok([indices[axes[0]]] + rest)
      case Err(e) =>
        assert exists k :: FirstMissing(indices, axes, k) && axes[k] == e.axis by {
          var k :| FirstMissing(indices, axes[1..], k) && axes[1..][k] == e.axis;
          forall j | 0 <= j < k + 1 ensures axes[j] in indices {
            if j > 0 { assert axes[j] == axes[1..][j - 1]; }
          }
          assert FirstMissing(indices, axes, k + 1);
        }
        Err(e)
  }

  /**
   The key an index mapping stands for: exactly `(indices[Round], indices[Ch])`, whatever
   other axes the mapping carries; a mapping without Round (checked first) or without Ch
   is an error.
   */
  function RoundChIndex(indices: Indices): (r: Result<Key>)
    ensures r.Ok? <==> Round in indices && Ch in indices
    ensures r.Ok? ==> r.value == (indices[Round], indices[Ch])
    ensures r.Err? ==> r.error == MissingAxis(if Round !in indices then Round else Ch)
  {
    match Project(indices, AxesOrder)
    case Ok(vs) => Ok((vs[0], vs[1]))
    case Err(e) => Err(e)
  }

  /**
   `results[indices]`: the spots stored under the mapping's (round, channel) pair; a missing
   axis or a pair never stored is an error, and there is no default value.
   */
  function Lookup<SpotAttributes>(results: Dict<Key, SpotAttributes>, indices: Indices): (r: Result<SpotAttributes>)
    ensures Round !in indices ==> r == Err(MissingAxis(Round))
    ensures Round in indices && Ch !in indices ==> r == Err(MissingAxis(Ch))
    ensures Round in indices && Ch in indices ==>
      var key := (indices[Round], indices[Ch]);
      (r.Ok? <==> key in results.entries) &&
      (r.Ok? ==> r.value == results.entries[key]) &&
      (r.Err? ==> r.error == KeyNotFound(key))
  {
    match RoundChIndex(indices)
    case Err(e) => Err(e)
    case Ok(key) => if key in results.entries then Ok(results.entries[key]) else Err(KeyNotFound(key))
  }

  /**
   `results[indices] = spots`: the dict after storing `spots` under the mapping's
   (round, channel) pair; a missing axis is an error raised before anything is stored.
   */
  function Store<SpotAttributes>(results: Dict<Key, SpotAttributes>, indices: Indices, spots: SpotAttributes): (r: Result<Dict<Key, SpotAttributes>>)
    ensures r.Ok? <==> Round in indices && Ch in indices
    ensures r.Err? ==> r.error == MissingAxis(if Round !in indices then Round else Ch)
    ensures r.Ok? ==> r.value == Put(results, (indices[Round], indices[Ch]), spots)
  {
    match RoundChIndex(indices)
    case Err(e) => Err(e)
    case Ok(key) => Ok(Put(results, key, spots))
  }

  /** The round of each key, in key order (with repetitions): exactly the rounds that occur in `keys`. */
  function KeyRounds(keys: seq<Key>): (r: seq<int>)
    ensures forall x :: x in r <==> exists k :: k in keys && k.0 == x
  {
    var projected := seq(|keys|, i requires 0 <= i < |keys| => keys[i].0);
    assert forall x :: x in projected <==> exists k :: k in keys && k.0 == x by {
      forall x | exists k :: k in keys && k.0 == x ensures x in projected {
        var k :| k in keys && k.0 == x;
        var i :| 0 <= i < |keys| && keys[i] == k;
        assert projected[i] == x;
      }
    }
    projected
  }

  /** The channel of each key, in key order (with repetitions): exactly the channels that occur in `keys`. */
  function KeyChannels(keys: seq<Key>): (r: seq<int>)
    ensures forall x :: x in r <==> exists k :: k in keys && k.1 == x
  {
    var projected := seq(|keys|, i requires 0 <= i < |keys| => keys[i].1);
    assert forall x :: x in projected <==> exists k :: k in keys && k.1 == x by {
      forall x | exists k :: k in keys && k.1 == x ensures x in projected {
        var k :| k in keys && k.1 == x;
        var i :| 0 <= i < |keys| && keys[i] == k;
        assert projected[i] == x;
      }
    }
    projected
  }

  /** `round_labels`: the distinct rounds of the current keys, ascending. */
  function RoundLabelsOf<SpotAttributes>(results: Dict<Key, SpotAttributes>): (r: seq<int>)
    requires Dicts.Valid(results)
    ensures StrictlyIncreasing(r)
    ensures forall x :: x in r <==> exists k :: k in results.entries && k.0 == x
  {
    var rounds := KeyRounds(Dicts.Keys(results));
    SortedSet(rounds)
  }

  /** `ch_labels`: the distinct channels of the current keys, ascending. */
  function ChLabelsOf<SpotAttributes>(results: Dict<Key, SpotAttributes>): (r: seq<int>)
    requires Dicts.Valid(results)
    ensures StrictlyIncreasing(r)
    ensures forall x :: x in r <==> exists k :: k in results.entries && k.1 == x
  {
    var channels := KeyChannels(Dicts.Keys(results));
    SortedSet(channels)
  }

  /** Reading back with any mapping that has the same round and channel gives the stored spots; other axes are ignored. */
  lemma StoreThenLookup<SpotAttributes>(results: Dict<Key, SpotAttributes>, indices: Indices, other: Indices, spots: SpotAttributes)
    requires Round in indices && Ch in indices
    requires Round in other && Ch in other && other[Round] == indices[Round] && other[Ch] == indices[Ch]
    ensures Store(results, indices, spots).Ok?
    ensures Lookup(Store(results, indices, spots).value, other) == Ok(spots)
  {
  }

  /** A write changes only its own key: a read of any other pair, or a read that fails on a missing axis, is unaffected. */
  lemma StoreKeepsOtherEntries<SpotAttributes>(results: Dict<Key, SpotAttributes>, indices: Indices, spots: SpotAttributes, other: Indices)
    requires Round in indices && Ch in indices
    requires RoundChIndex(other) != RoundChIndex(indices)
    ensures Lookup(Store(results, indices, spots).value, other) == Lookup(results, other)
  {
  }

  /** Overwriting a stored pair keeps the key set, the key order, the size and both label lists. */
  lemma StoreOverwrites<SpotAttributes>(results: Dict<Key, SpotAttributes>, indices: Indices, spots: SpotAttributes)
    requires Dicts.Valid(results)
    requires Round in indices && Ch in indices && (indices[Round], indices[Ch]) in results.entries
    ensures var after := Store(results, indices, spots).value;
      && after.entries.Keys == results.entries.Keys
      && |after.entries| == |results.entries|
      && Dicts.Keys(after) == Dicts.Keys(results)
      && RoundLabelsOf(after) == RoundLabelsOf(results)
      && ChLabelsOf(after) == ChLabelsOf(results)
  {
  }

  /** Two writes to the same pair leave only the second value readable, and as many keys as one write does: the first write leaves no trace. */
  lemma LastWriteWins<SpotAttributes>(results: Dict<Key, SpotAttributes>, first: Indices, second: Indices, s1: SpotAttributes, s2: SpotAttributes)
    requires Round in first && Ch in first
    requires Round in second && Ch in second && second[Round] == first[Round] && second[Ch] == first[Ch]
    ensures var once := Store(results, first, s1).value;
      var twice := Store(once, second, s2).value;
      && Lookup(twice, first) == Ok(s2)
      && twice.entries.Keys == once.entries.Keys
      && twice.order == once.order
    ensures Store(Store(results, first, s1).value, second, s2).value == Store(results, second, s2).value
  {
  }

  /** The labels depend only on the set of stored keys, not on insertion order. */
  lemma LabelsDependOnKeySet<SpotAttributes>(a: Dict<Key, SpotAttributes>, b: Dict<Key, SpotAttributes>)
    requires Dicts.Valid(a) && Dicts.Valid(b)
    requires a.entries.Keys == b.entries.Keys
    ensures RoundLabelsOf(a) == RoundLabelsOf(b)
    ensures ChLabelsOf(a) == ChLabelsOf(b)
  {
    StrictlyIncreasingUnique(RoundLabelsOf(a), RoundLabelsOf(b));
    StrictlyIncreasingUnique(ChLabelsOf(a), ChLabelsOf(b));
  }

  /** The labels are never stale: after a write they are the old labels with the written round (channel) added. */
  lemma LabelsAfterStore<SpotAttributes>(results: Dict<Key, SpotAttributes>, indices: Indices, spots: SpotAttributes)
    requires Dicts.Valid(results)
    requires Round in indices && Ch in indices
    ensures var after := Store(results, indices, spots).value;
      && RoundLabelsOf(after) == InsertSorted(RoundLabelsOf(results), indices[Round])
      && ChLabelsOf(after) == InsertSorted(ChLabelsOf(results), indices[Ch])
  {
    var key := (indices[Round], indices[Ch]);
    var after := Store(results, indices, spots).value;
    assert key in after.entries;
    StrictlyIncreasingUnique(RoundLabelsOf(after), InsertSorted(RoundLabelsOf(results), key.0));
    StrictlyIncreasingUnique(ChLabelsOf(after), InsertSorted(ChLabelsOf(results), key.1));
  }

  /** The spot-finding results: a dict from (round, channel) to the spots found on that tile. */
  class SpotFindingResults<SpotAttributes> {
    var results: Dict<Key, SpotAttributes>

    ghost predicate Valid()
      reads this
    {
      Dicts.Valid(results)
    }

    /**
     Builds the dict from `((round, ch), spots)` pairs, taking each pair's key as given;
     a later pair with the same key overwrites an earlier one. No list, or an empty one,
     gives an empty store.
     */
    constructor (spotAttributesList: Option<seq<(Key, SpotAttributes)>>)
      ensures Valid()
      ensures results == Comprehension(if spotAttributesList.Some? then spotAttributesList.value else [])
    {
      var pairs := if spotAttributesList.Some? then spotAttributesList.value else [];
      var d := Empty();
      for i := 0 to |pairs|
        invariant d == Comprehension(pairs[..i])
      {
        assert pairs[..i + 1][..i] == pairs[..i];
        d := Put(d, pairs[i].0, pairs[i].1);
      }
      assert pairs[..|pairs|] == pairs;
      results := d;
    }

    /**
     `self[indices] = spots`: stores `spots` under the mapping's (round, channel) pair,
     replacing what was there; a mapping without Round or Ch changes nothing and is an error.
     */
    method SetItem(indices: Indices, spots: SpotAttributes) returns (outcome: Result<()>)
      requires Valid()
      modifies this
      ensures Valid()
      ensures match Store(old(results), indices, spots)
        case Ok(d) => outcome == Ok(()) && results == d
        case Err(e) => outcome == Err(e) && results == old(results)
    {
      var key := RoundChIndex(indices);
      match key
      case Err(e) =>
        outcome := Err(e);
      case Ok(k) =>
        results := Put(results, k, spots);
        outcome := Ok(());
    }

    /** `self[indices]`. */
    function GetItem(indices: Indices): Result<SpotAttributes>
      reads this
    {
      Lookup(results, indices)
    }

    /** `keys()`: the stored (round, channel) pairs in insertion order. */
    function Keys(): seq<Key>
      reads this
      requires Valid()
    {
      Dicts.Keys(results)
    }

    /** `values()`: the stored spots, in the order of `Keys()`. */
    function Values(): seq<SpotAttributes>
      reads this
      requires Valid()
    {
      Dicts.Values(results)
    }

    /** `round_labels`, computed from the current keys on every call. */
    function RoundLabels(): seq<int>
      reads this
      requires Valid()
    {
      RoundLabelsOf(results)
    }

    /** `ch_labels`, computed from the current keys on every call. */
    function ChLabels(): seq<int>
      reads this
      requires Valid()
    {
      ChLabelsOf(results)
    }
  }
}
