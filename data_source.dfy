/** data_source.py: the DataSource that owns a frame, the set of brushed
    (selected) row positions shared by all plots, the selection mode that
    decides how a new brush combines with the old one, and the lazily
    recomputed brushed rows. */
module DataSources {
  import opened Results
  import opened Seqs
  import opened Columns
  import Validation

  /** `SelectionType`: how a new brush combines with the current selection. */
  datatype SelectionType = Standard | Additive | Subtractive

  /** The `sample` argument: none, or a row count (the fraction form is not modelled). */
  datatype Sample = NoSample | Count(n: int)

  /** The values of one row; the model never looks inside them. */
  type Row = seq<string>

  /** A data frame: its columns, with their kinds, and its rows in position order. */
  datatype Frame = Frame(columns: seq<Column>, rows: seq<Row>)

  /** `set(range(n))`. */
  function Range(n: nat): (r: set<int>)
    ensures forall i :: i in r <==> 0 <= i < n
  {
    if n == 0 then {} else Range(n - 1) + {n - 1}
  }

  /** The selection the `brushed_indices` setter stores: the given ids, the old
      selection with them added, or the old selection with them removed. The
      ids are not checked against the frame. */
  function Combine(mode: SelectionType, brushed: set<int>, ids: seq<int>): (r: set<int>)
    ensures mode.Standard? ==> r == Elems(ids)
    ensures mode.Additive? ==> r == brushed + Elems(ids)
    ensures mode.Subtractive? ==> r == brushed - Elems(ids)
  {
    match mode
    case Standard => Elems(ids)
    case Additive => brushed + Elems(ids)
    case Subtractive => brushed - Elems(ids)
  }

  /** Whether a selection stays within the frame's positions after the setter:
      a subtractive brush always keeps it there; a standard or additive brush
      keeps it there exactly when every given id is a position of the frame. */
  lemma CombineStaysInRange(mode: SelectionType, brushed: set<int>, ids: seq<int>, n: nat)
    requires brushed <= Range(n)
    ensures mode.Subtractive? ==> Combine(mode, brushed, ids) <= Range(n)
    ensures !mode.Subtractive? ==> (Combine(mode, brushed, ids) <= Range(n) <==> Elems(ids) <= Range(n))
  {
  }

  /** Brushing ids additively and then subtractively leaves the selection
      without them; the other way round it ends up with them. */
  lemma AddThenSubtract(brushed: set<int>, ids: seq<int>)
    ensures Combine(Subtractive, Combine(Additive, brushed, ids), ids) == brushed - Elems(ids)
    ensures Combine(Additive, Combine(Subtractive, brushed, ids), ids) == brushed + Elems(ids)
  {
  }

  /** `iloc`'s reading of an integer position: a negative one counts from the end. */
  function Position(id: int, n: nat): (p: int)
    ensures -(n as int) <= id < n ==> 0 <= p < n
    ensures 0 <= id ==> p == id
  {
    if id < 0 then id + n else id
  }

  /** Whether `iloc` can read position `id` of a frame of `n` rows. */
  predicate InFrame(id: int, n: nat) {
    -(n as int) <= id < n
  }

  /** The ids whose rows a cache holds, in the cache's order, are the selection,
      each once, and each cache entry is the row at that id. */
  ghost predicate Coherent(rows: seq<Row>, brushed: set<int>, ids: seq<int>, cache: seq<Row>) {
    && NoDup(ids) && Elems(ids) == brushed && |cache| == |ids|
    && forall k | 0 <= k < |ids| :: InFrame(ids[k], |rows|) && cache[k] == rows[Position(ids[k], |rows|)]
  }

  /** A coherent cache holds one row per selected id. */
  lemma CoherentLength(rows: seq<Row>, brushed: set<int>, ids: seq<int>, cache: seq<Row>)
    requires Coherent(rows, brushed, ids, cache)
    ensures |cache| == |brushed|
  {
    NoDupCard(ids);
  }

  /** The rows of a sample: row `picks[k]` of the frame becomes row `k`. */
  function Pick(rows: seq<Row>, picks: seq<nat>): (r: seq<Row>)
    requires forall k | 0 <= k < |picks| :: picks[k] < |rows|
    ensures |r| == |picks|
    ensures forall k | 0 <= k < |picks| :: r[k] == rows[picks[k]]
  {
    seq(|picks|, k requires 0 <= k < |picks| => rows[picks[k]])
  }

  class DataSource {
    /** The frame after sampling: its rows in position order (`_df`). */
    const rows: seq<Row>
    /** `columns`: the frame's column names. */
    const columns: seq<string>
    const store: ColumnStore
    const numericalColumns: seq<string>
    const timeColumns: seq<string>
    const categoricalColumns: seq<string>
    /** `len` / `__len__`: the number of rows. */
    const length: nat
    /** `indices`: every row position. */
    const indices: set<int>
    const fewNumCols: bool
    const fewCatCols: bool

    var selectionType: SelectionType
    /** `brushed_indices`. */
    var brushed: set<int>
    /** `brushed_data_invalidated`. */
    var invalidated: bool
    /** `_brushed_data`, valid only while `invalidated` is false. */
    var cache: seq<Row>
    /** The ids of the cached rows, in the cache's order. */
    ghost var cacheIds: seq<int>
    /** What `on_indices_changed.send` was called with, in order: the selection
        at the moment of each notification. */
    ghost var notified: seq<set<int>>

    /** The frame-derived constants agree with the rows. */
    ghost predicate Shape()
      reads this
    {
      length == |rows| && indices == Range(length)
    }

    ghost predicate Valid()
      reads this
    {
      Shape() && (!invalidated ==> Coherent(rows, brushed, cacheIds, cache))
    }

    /** The state `__init__` leaves once its checks have passed. */
    constructor (rows: seq<Row>, columns: seq<string>, store: ColumnStore, p: Partition)
      ensures Valid()
      ensures this.rows == rows && this.columns == columns && this.store == store
      ensures numericalColumns == p.numerical && timeColumns == p.time && categoricalColumns == p.categorical
      ensures length == |rows| && indices == Range(|rows|) && brushed == indices
      ensures selectionType == Standard && invalidated && notified == []
      ensures fewNumCols == (|p.numerical| < 2) && fewCatCols == (|p.categorical| < 2)
    {
      this.rows := rows;
      this.columns := columns;
      this.store := store;
      numericalColumns := p.numerical;
      timeColumns := p.time;
      categoricalColumns := p.categorical;
      length := |rows|;
      indices := Range(|rows|);
      selectionType := Standard;
      brushed := Range(|rows|);
      invalidated := true;
      cache := [];
      cacheIds := [];
      notified := [];
      fewNumCols := |p.numerical| < 2;
      fewCatCols := |p.categorical| < 2;
    }

    /** `DataSource(df, categorical_columns, sample, seed)`. The checks run in
        the source's order: the seed, then the sample count, then the column
        partition, then the column count. An integer sample keeps an arbitrary
        choice of that many distinct rows. */
    static method Create(df: Frame, categorical: CategoricalSpec, sample: Sample, seed: Option<int>) returns (r: Result<DataSource>)
      ensures Validation.ValidateSeed(seed).Fail? ==> r == Err(ValueError)
      ensures Validation.ValidateSeed(seed).Pass? && sample.Count? && !(0 <= sample.n <= |df.rows|) ==> r == Err(ValueError)
      ensures Validation.ValidateSeed(seed).Pass? && (sample.NoSample? || 0 <= sample.n <= |df.rows|) ==>
        && (Classify(df.columns, categorical).Err? ==> r == Err(Classify(df.columns, categorical).error))
        && (Classify(df.columns, categorical).Ok? ==> (r.Ok? <==> |df.columns| >= 2))
        && (Classify(df.columns, categorical).Ok? && r.Err? ==> r.error == ValueError)
      ensures r.Ok? ==>
        && fresh(r.value) && r.value.Valid()
        && r.value.columns == Names(df.columns)
        && Classify(df.columns, categorical) == Ok(Partition(r.value.numericalColumns, r.value.timeColumns, r.value.categoricalColumns))
        && (sample.Count? ==> r.value.length == sample.n)
        && (sample.NoSample? ==> r.value.rows == df.rows && r.value.length == |df.rows|)
        && (forall i | 0 <= i < |r.value.rows| :: r.value.rows[i] in df.rows)
        && r.value.indices == Range(r.value.length) && r.value.brushed == r.value.indices
        && r.value.selectionType == Standard && r.value.invalidated && r.value.notified == []
        && r.value.fewNumCols == (|r.value.numericalColumns| < 2)
        && r.value.fewCatCols == (|r.value.categoricalColumns| < 2)
      ensures r.Ok? ==> var st := r.value.store;
        && fresh(st) && fresh(st.numericalIterator) && fresh(st.timeIterator) && fresh(st.categoricalIterator)
        && st.Valid() && st.columns == r.value.columns
        && st.numericalColumns == r.value.numericalColumns
        && st.timeColumns == r.value.timeColumns
        && st.categoricalColumns == r.value.categoricalColumns
        && st.NumericalFirst() == Cursors(0, 0, 0)
    {
      if Validation.ValidateSeed(seed).Fail? {
        return Err(ValueError);
      }
      var rows := df.rows;
      if sample.Count? {
        if sample.n < 0 || sample.n > |df.rows| {
          return Err(ValueError);
        }
        ghost var picks;
        rows, picks := SampleRows(df.rows, sample.n);
      }
      var columns := Names(df.columns);
      var p :- Classify(df.columns, categorical);
      var store := new ColumnStore(columns, p);
      if |columns| < 2 {
        return Err(ValueError);
      }
      var ds := new DataSource(rows, columns, store, p);
      r := Ok(ds);
    }

    /** `brushed_indices`. */
    function BrushedIndices(): (s: set<int>)
      reads this
      ensures s == brushed
    {
      brushed
    }

    /** `len` and `__len__`. */
    function Len(): (n: nat)
      reads this
      requires Valid()
      ensures n == |rows|
    {
      length
    }

    /** `indices`. */
    function Indices(): (s: set<int>)
      reads this
      requires Valid()
      ensures forall i :: i in s <==> 0 <= i < Len()
    {
      indices
    }

    /** `data`: the frame after sampling. */
    function Data(): (d: seq<Row>)
      reads this
      requires Valid()
      ensures |d| == Len()
    {
      rows
    }

    /** `notify_indices_changed`: marks the cache stale and sends one
        notification carrying the current selection. */
    method NotifyIndicesChanged()
      requires Shape()
      modifies this
      ensures Valid()
      ensures invalidated && notified == old(notified) + [brushed]
      ensures brushed == old(brushed) && selectionType == old(selectionType)
      ensures cache == old(cache) && cacheIds == old(cacheIds)
    {
      invalidated := true;
      notified := notified + [brushed];
    }

    /** `reset_selection`: selects every row whatever the mode, then notifies. */
    method ResetSelection()
      requires Valid()
      modifies this
      ensures Valid()
      ensures brushed == indices && brushed <= Range(length)
      ensures invalidated && notified == old(notified) + [indices]
      ensures selectionType == old(selectionType) && cache == old(cache) && cacheIds == old(cacheIds)
    {
      brushed := indices;
      NotifyIndicesChanged();
    }

    /** The `brushed_indices` setter: combines the ids with the selection as
        the current mode says, stores the result, then notifies. */
    method SetBrushedIndices(ids: seq<int>)
      requires Valid()
      modifies this
      ensures Valid()
      ensures brushed == Combine(old(selectionType), old(brushed), ids)
      ensures invalidated && notified == old(notified) + [brushed]
      ensures selectionType == old(selectionType) && cache == old(cache) && cacheIds == old(cacheIds)
    {
      match selectionType {
        case Standard => brushed := Elems(ids);
        case Additive => brushed := brushed + Elems(ids);
        case Subtractive => brushed := brushed - Elems(ids);
      }
      NotifyIndicesChanged();
    }

    /** Assigning `selection_type`: nothing else changes and nobody is notified. */
    method SetSelectionType(t: SelectionType)
      requires Valid()
      modifies this
      ensures Valid()
      ensures selectionType == t
      ensures brushed == old(brushed) && invalidated == old(invalidated) && notified == old(notified)
      ensures cache == old(cache) && cacheIds == old(cacheIds)
    {
      selectionType := t;
    }

    /** `brushed_data`. A fresh cache is returned as it is, without reading the
        frame. A stale one is rebuilt from the rows at the selected ids, each
        once and in an order the model leaves open (the source lists a set),
        and the flag is cleared; a selected id outside the frame makes `iloc`
        raise IndexError and leaves everything as it was. */
    method BrushedData() returns (r: Result<seq<Row>>)
      requires Valid()
      modifies this
      ensures Valid()
      ensures brushed == old(brushed) && selectionType == old(selectionType) && notified == old(notified)
      ensures !old(invalidated) ==> r == Ok(old(cache)) && !invalidated && cache == old(cache) && cacheIds == old(cacheIds)
      ensures old(invalidated) ==> (r.Ok? <==> forall id | id in brushed :: InFrame(id, length))
      ensures r.Err? ==> r.error == IndexError && invalidated && cache == old(cache) && cacheIds == old(cacheIds)
      ensures r.Ok? ==> !invalidated && r.value == cache && Coherent(rows, brushed, cacheIds, cache)
      ensures r.Ok? ==> |r.value| == |brushed|
    {
      if invalidated {
        if exists id | id in brushed :: !InFrame(id, length) {
          return Err(IndexError);
        }
        var out, ids := ReadRows(rows, brushed);
        cache := out;
        cacheIds := ids;
        invalidated := false;
      }
      CoherentLength(rows, brushed, cacheIds, cache);
      r := Ok(cache);
    }
  }

  /** `df.sample(n=n)`: `n` rows drawn from distinct positions, in an order
      the model leaves open. */
  method SampleRows(rows: seq<Row>, n: nat) returns (out: seq<Row>, ghost picks: seq<nat>)
    requires n <= |rows|
    ensures |out| == n && forall i | 0 <= i < n :: out[i] in rows
    ensures |picks| == n && NoDup(picks) && forall k | 0 <= k < n :: picks[k] < |rows|
    ensures out == Pick(rows, picks)
  {
    ghost var firstRows := seq(n, k => k);
    assert |firstRows| == n && NoDup(firstRows) && forall k | 0 <= k < n :: firstRows[k] < |rows|;
    var ps: seq<nat> :| |ps| == n && NoDup(ps) && forall k | 0 <= k < n :: ps[k] < |rows|;
    out, picks := Pick(rows, ps), ps;
  }

  /** `iloc[list(s), :]` on rows that hold every id of `s`: one row per id,
      paired with the ids in the order read. Python lists a set in hash order;
      the model reads the ids in increasing order. */
  method ReadRows(rows: seq<Row>, s: set<int>) returns (out: seq<Row>, ghost ids: seq<int>)
    requires forall id | id in s :: InFrame(id, |rows|)
    ensures Coherent(rows, s, ids, out)
    ensures |out| == |s|
    ensures forall k | 0 <= k < |out| :: out[k] in rows
    ensures forall id | id in s :: rows[Position(id, |rows|)] in out
  {
    var n := |rows|;
    out, ids := [], [];
    var id := -n;
    while id < n
      invariant -n <= id <= n
      invariant NoDup(ids) && |out| == |ids|
      invariant forall k | 0 <= k < |ids| :: -n <= ids[k] < id
      invariant forall x :: x in ids <==> x in s && x < id
      invariant forall k | 0 <= k < |ids| :: out[k] == rows[Position(ids[k], n)]
    {
      if id in s {
        out := out + [rows[Position(id, n)]];
        ids := ids + [id];
      }
      id := id + 1;
    }
    assert Elems(ids) == s;
    CoherentLength(rows, s, ids, out);
    forall x | x in s
      ensures rows[Position(x, n)] in out
    {
      var k :| 0 <= k < |ids| && ids[k] == x;
    }
  }

  /** The selections of the data source tests, as sets: a standard brush of
      1 and 2, an additive brush of 3, a subtractive brush of 1. */
  lemma BrushSequenceExample(start: set<int>)
    ensures Combine(Standard, start, [1, 2]) == {1, 2}
    ensures Combine(Additive, {1, 2}, [3]) == {1, 2, 3}
    ensures Combine(Subtractive, {1, 2, 3}, [1]) == {2, 3}
  {
    assert Elems([1, 2]) == {1, 2};
    assert Elems([3]) == {3};
    assert Elems([1]) == {1};
  }

  /** The selection test on a five-row source: the three brushes in turn. */
  method SelectionScenario(ds: DataSource)
    requires ds.Valid() && ds.length == 5
    modifies ds
    ensures ds.Valid() && ds.brushed == {2, 3} && ds.invalidated
  {
    BrushSequenceExample(ds.brushed);
    ds.SetSelectionType(Standard);
    ds.SetBrushedIndices([1, 2]);
    ds.SetSelectionType(Additive);
    ds.SetBrushedIndices([3]);
    ds.SetSelectionType(Subtractive);
    ds.SetBrushedIndices([1]);
  }

  /** Then: the two selected rows are read, and a reset selects every row. */
  method BrushedDataScenario(ds: DataSource)
    requires ds.Valid() && ds.length == 5 && ds.brushed == {2, 3} && ds.invalidated
    modifies ds
  {
    assert 2 in ds.brushed && 3 in ds.brushed;
    var data := ds.BrushedData();
    assert data.Ok? && |data.value| == 2;
    ds.ResetSelection();
    ds.ResetSelection();
    assert ds.brushed == Range(5) && |ds.notified| >= 2;
  }
}
