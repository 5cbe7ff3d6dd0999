/** utils/column_store.py: the partition of a frame's columns into numerical,
    time and categorical names, and the wrap-around cursors over them. */
module Columns {
  import opened Results
  import opened Seqs

  // ---------------------------------------------------------------------------
  // Column kinds and the partition
  // ---------------------------------------------------------------------------

  /** What pandas' `select_dtypes` sees of a column: a number, a date or
      time-zoned date, a time delta, or anything else (object, str, bool, category). */
  datatype Kind = Numeric | Temporal | Duration | Other

  /** The kinds `select_dtypes(include=["number"])` picks. numpy's
      `timedelta64` is a signed integer type, so time deltas are numbers too. */
  const NumberKinds: set<Kind> := {Numeric, Duration}

  /** The kinds `select_dtypes(include=["datetime", "timedelta", "datetimetz"])` picks. */
  const TimeKinds: set<Kind> := {Temporal, Duration}

  /** The kinds `select_dtypes(exclude=["number", "datetime", "timedelta", "datetimetz"])` picks. */
  const OtherKinds: set<Kind> := {Other}

  datatype Column = Column(name: string, kind: Kind)

  /** The `categorical_columns` argument: None, a list of names, or a value
      of another type. */
  datatype CategoricalSpec = Infer | Given(names: seq<string>) | NotAList

  /** The three name lists a ColumnStore exposes. */
  datatype Partition = Partition(numerical: seq<string>, time: seq<string>, categorical: seq<string>)

  function Names(cols: seq<Column>): (r: seq<string>)
    ensures |r| == |cols|
    ensures forall i | 0 <= i < |cols| :: r[i] == cols[i].name
  {
    if cols == [] then [] else [cols[0].name] + Names(cols[1..])
  }

  /** The names of the columns whose kind is one of `ks`. */
  function KindNames(cols: seq<Column>, ks: set<Kind>): set<string> {
    set c | c in cols && c.kind in ks :: c.name
  }

  /** `select_dtypes(...)`.columns: the names of the columns whose kind is one
      of `ks`, in column order. */
  function OfKinds(cols: seq<Column>, ks: set<Kind>): (r: seq<string>)
    ensures Elems(r) == KindNames(cols, ks)
    ensures |r| <= |cols|
    ensures ks == {} ==> r == []
  {
    if cols == [] then []
    else
      var rest := OfKinds(cols[1..], ks);
      assert KindNames(cols, ks) == (if cols[0].kind in ks then {cols[0].name} else {}) + KindNames(cols[1..], ks) by {
        assert cols == [cols[0]] + cols[1..];
      }
      if cols[0].kind in ks then [cols[0].name] + rest else rest
  }

  /** One flag per column: whether its kind is one of `ks`. */
  function KindMask(cols: seq<Column>, ks: set<Kind>): (m: seq<bool>)
    ensures |m| == |cols| && forall i | 0 <= i < |cols| :: m[i] == (cols[i].kind in ks)
  {
    seq(|cols|, i requires 0 <= i < |cols| => cols[i].kind in ks)
  }

  /** `OfKinds` lists the names at exactly the positions whose kind is in
      `ks`, in increasing position, that is, in the frame's column order. */
  lemma OfKindsInColumnOrder(cols: seq<Column>, ks: set<Kind>)
    ensures OfKinds(cols, ks) == At(Names(cols), WithValue(KindMask(cols, ks), Positions(|cols|), true))
  {
    OfKindsFrom(cols, ks, 0);
    assert cols[0..] == cols;
  }

  lemma {:induction false} OfKindsFrom(cols: seq<Column>, ks: set<Kind>, i: nat)
    requires i <= |cols|
    ensures OfKinds(cols[i..], ks) == At(Names(cols), WithValue(KindMask(cols, ks), Span(i, |cols|), true))
    decreases |cols| - i
  {
    if i < |cols| {
      OfKindsFrom(cols, ks, i + 1);
      var m := KindMask(cols, ks);
      var rest := WithValue(m, Span(i + 1, |cols|), true);
      assert Span(i, |cols|) == [i] + Span(i + 1, |cols|);
      assert cols[i..][0] == cols[i] && cols[i..][1..] == cols[i + 1..];
      if m[i] {
        assert WithValue(m, Span(i, |cols|), true) == [i] + rest;
        AtCons(Names(cols), i, rest);
      } else {
        assert WithValue(m, Span(i, |cols|), true) == rest;
      }
    }
  }

  /** The names of `s` outside `ex`, in order. */
  function Outside(s: seq<string>, ex: set<string>): (r: seq<string>)
    ensures Elems(r) == Elems(s) - ex
  {
    if s == [] then []
    else
      assert s == [s[0]] + s[1..];
      assert Elems(s) == {s[0]} + Elems(s[1..]);
      var rest := Outside(s[1..], ex);
      if s[0] in ex then rest
      else
        assert Elems([s[0]] + rest) == {s[0]} + Elems(rest);
        [s[0]] + rest
  }

  /** `ColumnStore.__init__`'s partition. Without an override each list is one
      `select_dtypes` query in column order, so a time-delta column is both
      numerical and time. An override must name only existing columns and
      must include every column that is neither a number nor temporal (a
      temporal or numeric column may be promoted); time is then the temporal
      and time-delta columns not in it and numerical everything else, both
      built as `list(set(...))`, whose order the model fixes as column order. */
  function Classify(cols: seq<Column>, spec: CategoricalSpec): (r: Result<Partition>)
    ensures spec.NotAList? ==> r == Err(TypeError)
    ensures spec.Infer? ==> r.Ok?
    ensures spec.Infer? ==> Elems(r.value.numerical) == KindNames(cols, NumberKinds)
    ensures spec.Infer? ==> Elems(r.value.time) == KindNames(cols, TimeKinds)
    ensures spec.Infer? ==> Elems(r.value.categorical) == KindNames(cols, OtherKinds)
    ensures spec.Infer? ==>
      && r.value.numerical == At(Names(cols), WithValue(KindMask(cols, NumberKinds), Positions(|cols|), true))
      && r.value.time == At(Names(cols), WithValue(KindMask(cols, TimeKinds), Positions(|cols|), true))
      && r.value.categorical == At(Names(cols), WithValue(KindMask(cols, OtherKinds), Positions(|cols|), true))
    ensures spec.Given? ==>
      (r.Ok? <==> Elems(spec.names) <= Elems(Names(cols)) && KindNames(cols, OtherKinds) <= Elems(spec.names))
    ensures spec.Given? && r.Err? ==> r.error == ValueError
    ensures spec.Given? && r.Ok? ==>
      && r.value.categorical == spec.names
      && Elems(r.value.time) == KindNames(cols, TimeKinds) - Elems(spec.names)
      && Elems(r.value.numerical) == Elems(Names(cols)) - (Elems(spec.names) + Elems(r.value.time))
      && NoDup(r.value.time) && NoDup(r.value.numerical)
  {
    match spec
    case NotAList => Err(TypeError)
    case Infer =>
      OfKindsInColumnOrder(cols, NumberKinds);
      OfKindsInColumnOrder(cols, TimeKinds);
      OfKindsInColumnOrder(cols, OtherKinds);
      Ok(Partition(OfKinds(cols, NumberKinds), OfKinds(cols, TimeKinds), OfKinds(cols, OtherKinds)))
    case Given(cat) =>
      if !(Elems(cat) <= Elems(Names(cols))) then Err(ValueError)
      else if KindNames(cols, OtherKinds) - Elems(cat) != {} then Err(ValueError)
      else
        assert KindNames(cols, OtherKinds) <= Elems(cat) by {
          forall n | n in KindNames(cols, OtherKinds) ensures n in Elems(cat) {
            assert n !in KindNames(cols, OtherKinds) - Elems(cat);
          }
        }
        var time := Dedup(Outside(OfKinds(cols, TimeKinds), Elems(cat)));
        var numerical := Dedup(Outside(Names(cols), Elems(cat) + Elems(time)));
        Ok(Partition(numerical, time, cat))
  }

  lemma KindNamesWithin(cols: seq<Column>, ks: set<Kind>)
    ensures KindNames(cols, ks) <= Elems(Names(cols))
  {
    forall n | n in KindNames(cols, ks) ensures n in Elems(Names(cols)) {
      var c :| c in cols && c.kind in ks && c.name == n;
      var i :| 0 <= i < |cols| && cols[i] == c;
      assert Names(cols)[i] == n;
    }
  }

  lemma NamesHaveKinds(cols: seq<Column>)
    ensures Elems(Names(cols)) <= KindNames(cols, NumberKinds) + KindNames(cols, TimeKinds) + KindNames(cols, OtherKinds)
  {
    forall n | n in Elems(Names(cols))
      ensures n in KindNames(cols, NumberKinds) + KindNames(cols, TimeKinds) + KindNames(cols, OtherKinds)
    {
      var i := IndexOf(Names(cols), n);
      var c := cols[i];
      assert c in cols;
      match c.kind
      case Numeric => assert n in KindNames(cols, NumberKinds);
      case Duration => assert n in KindNames(cols, NumberKinds);
      case Temporal => assert n in KindNames(cols, TimeKinds);
      case Other => assert n in KindNames(cols, OtherKinds);
    }
  }

  /** With distinct names, a name picked by two queries belongs to one column,
      whose kind both queries pick. */
  lemma KindNamesMeet(cols: seq<Column>, ks1: set<Kind>, ks2: set<Kind>)
    requires NoDup(Names(cols))
    ensures KindNames(cols, ks1) * KindNames(cols, ks2) == KindNames(cols, ks1 * ks2)
  {
    forall n | n in KindNames(cols, ks1) * KindNames(cols, ks2) ensures n in KindNames(cols, ks1 * ks2) {
      var c1 :| c1 in cols && c1.kind in ks1 && c1.name == n;
      var c2 :| c2 in cols && c2.kind in ks2 && c2.name == n;
      var i :| 0 <= i < |cols| && cols[i] == c1;
      var j :| 0 <= j < |cols| && cols[j] == c2;
      NoDupSamePosition(Names(cols), i, j);
    }
  }

  /** Every column lands in one of the three lists, and the lists name only columns. */
  lemma PartitionCovers(cols: seq<Column>, spec: CategoricalSpec)
    requires Classify(cols, spec).Ok?
    ensures var p := Classify(cols, spec).value;
      Elems(p.numerical) + Elems(p.time) + Elems(p.categorical) == Elems(Names(cols))
  {
    KindNamesWithin(cols, NumberKinds);
    KindNamesWithin(cols, TimeKinds);
    KindNamesWithin(cols, OtherKinds);
    NamesHaveKinds(cols);
  }

  /** The categorical list shares no name with the other two. With an
      override neither do numerical and time; without one, they share exactly
      the time-delta columns. Without an override this needs each name to
      stand for one column. */
  lemma PartitionDisjoint(cols: seq<Column>, spec: CategoricalSpec)
    requires Classify(cols, spec).Ok?
    requires spec.Given? || NoDup(Names(cols))
    ensures var p := Classify(cols, spec).value;
      && (spec.Given? ==> Elems(p.numerical) !! Elems(p.time))
      && (spec.Infer? ==> Elems(p.numerical) * Elems(p.time) == KindNames(cols, {Duration}))
      && Elems(p.numerical) !! Elems(p.categorical)
      && Elems(p.time) !! Elems(p.categorical)
  {
    if spec.Infer? {
      InferOverlap(cols);
    }
  }

  lemma InferOverlap(cols: seq<Column>)
    requires NoDup(Names(cols))
    ensures KindNames(cols, NumberKinds) * KindNames(cols, TimeKinds) == KindNames(cols, {Duration})
    ensures KindNames(cols, NumberKinds) !! KindNames(cols, OtherKinds)
    ensures KindNames(cols, TimeKinds) !! KindNames(cols, OtherKinds)
  {
    assert NumberKinds * TimeKinds == {Duration};
    assert NumberKinds * OtherKinds == {} && TimeKinds * OtherKinds == {};
    KindNamesMeet(cols, NumberKinds, TimeKinds);
    KindNamesMeet(cols, NumberKinds, OtherKinds);
    KindNamesMeet(cols, TimeKinds, OtherKinds);
  }

  function IndexOf(s: seq<string>, x: string): (i: nat)
    requires x in s
    ensures i < |s| && s[i] == x
  {
    if s[0] == x then 0 else 1 + IndexOf(s[1..], x)
  }

  /** Without an override, the preferred-numerical list `numerical + time +
      categorical` holds every column once and each time-delta column once
      more: it is a rearrangement of the columns only when there is none. */
  lemma InferIsPermutation(cols: seq<Column>)
    ensures var p := Classify(cols, Infer).value;
      multiset(p.numerical + p.time + p.categorical) == multiset(Names(cols)) + multiset(OfKinds(cols, {Duration}))
  {
    assert NumberKinds * TimeKinds == {Duration};
    KindsCount(cols, NumberKinds, TimeKinds, OtherKinds);
  }

  /** Three queries that between them pick every kind, the third sharing no
      kind with the first two, list every column once, and once more each
      column whose kind the first two both pick. */
  lemma {:induction false} KindsCount(cols: seq<Column>, ks1: set<Kind>, ks2: set<Kind>, ks3: set<Kind>)
    requires ks1 !! ks3 && ks2 !! ks3
    requires ks1 + ks2 + ks3 == {Numeric, Temporal, Duration, Other}
    ensures multiset(OfKinds(cols, ks1) + OfKinds(cols, ks2) + OfKinds(cols, ks3))
         == multiset(Names(cols)) + multiset(OfKinds(cols, ks1 * ks2))
  {
    if cols != [] {
      var tail := cols[1..];
      var h := cols[0].kind;
      KindsCount(tail, ks1, ks2, ks3);
      OfKindsCons(cols, ks1);
      OfKindsCons(cols, ks2);
      OfKindsCons(cols, ks3);
      OfKindsCons(cols, ks1 * ks2);
      assert multiset(Names(cols)) == multiset{cols[0].name} + multiset(Names(tail)) by {
        assert Names(cols) == [cols[0].name] + Names(tail);
      }
      assert h in ks1 + ks2 + ks3 by {
        match h
        case Numeric => assert Numeric in {Numeric, Temporal, Duration, Other};
        case Temporal => assert Temporal in {Numeric, Temporal, Duration, Other};
        case Duration => assert Duration in {Numeric, Temporal, Duration, Other};
        case Other => assert Other in {Numeric, Temporal, Duration, Other};
      }
      HeadCount(multiset{cols[0].name}, h in ks1, h in ks2, h in ks3,
        multiset(OfKinds(tail, ks1)), multiset(OfKinds(tail, ks2)), multiset(OfKinds(tail, ks3)),
        multiset(OfKinds(tail, ks1 * ks2)), multiset(Names(tail)));
    }
  }

  /** The counting step of `KindsCount` for one head column, picked by the
      queries whose flags are set. */
  lemma HeadCount(first: multiset<string>, in1: bool, in2: bool, in3: bool,
                  m1: multiset<string>, m2: multiset<string>, m3: multiset<string>,
                  m12: multiset<string>, names: multiset<string>)
    requires (in1 || in2 || in3) && !(in1 && in3) && !(in2 && in3)
    requires m1 + m2 + m3 == names + m12
    ensures (if in1 then first else multiset{}) + m1 + ((if in2 then first else multiset{}) + m2)
            + ((if in3 then first else multiset{}) + m3)
         == first + names + ((if in1 && in2 then first else multiset{}) + m12)
  {
    var lhs := (if in1 then first else multiset{}) + m1 + ((if in2 then first else multiset{}) + m2)
               + ((if in3 then first else multiset{}) + m3);
    var rhs := first + names + ((if in1 && in2 then first else multiset{}) + m12);
    forall x ensures lhs[x] == rhs[x] {
      assert (m1 + m2 + m3)[x] == (names + m12)[x];
    }
  }

  /** `OfKinds` on a non-empty frame: the head's name, if picked, then the tail's. */
  lemma OfKindsCons(cols: seq<Column>, ks: set<Kind>)
    requires cols != []
    ensures multiset(OfKinds(cols, ks))
         == (if cols[0].kind in ks then multiset{cols[0].name} else multiset{}) + multiset(OfKinds(cols[1..], ks))
  {
    if cols[0].kind in ks {
      assert OfKinds(cols, ks) == [cols[0].name] + OfKinds(cols[1..], ks);
    }
  }

  /** The partition without an override that the class docstring and the
      design describe: every column in exactly one list, so a time delta is
      a time column only. */
  function InferIntended(cols: seq<Column>): (p: Partition)
    ensures Elems(p.numerical) == KindNames(cols, {Numeric})
    ensures p.time == Classify(cols, Infer).value.time
    ensures p.categorical == Classify(cols, Infer).value.categorical
  {
    Partition(OfKinds(cols, {Numeric}), OfKinds(cols, TimeKinds), OfKinds(cols, OtherKinds))
  }

  /** The intended lists are a rearrangement of the columns and, with
      distinct names, pairwise disjoint. */
  lemma InferIntendedPartitions(cols: seq<Column>)
    ensures var p := InferIntended(cols);
      multiset(p.numerical + p.time + p.categorical) == multiset(Names(cols))
    ensures var p := InferIntended(cols);
      NoDup(Names(cols)) ==>
        && Elems(p.numerical) !! Elems(p.time)
        && Elems(p.numerical) !! Elems(p.categorical)
        && Elems(p.time) !! Elems(p.categorical)
  {
    assert {Numeric} * TimeKinds == {};
    KindsCount(cols, {Numeric}, TimeKinds, OtherKinds);
    if NoDup(Names(cols)) {
      IntendedApart(cols);
    }
  }

  lemma IntendedApart(cols: seq<Column>)
    requires NoDup(Names(cols))
    ensures KindNames(cols, {Numeric}) !! KindNames(cols, TimeKinds)
    ensures KindNames(cols, {Numeric}) !! KindNames(cols, OtherKinds)
    ensures KindNames(cols, TimeKinds) !! KindNames(cols, OtherKinds)
  {
    assert {Numeric} * TimeKinds == {} && {Numeric} * OtherKinds == {} && TimeKinds * OtherKinds == {};
    KindNamesMeet(cols, {Numeric}, TimeKinds);
    KindNamesMeet(cols, {Numeric}, OtherKinds);
    KindNamesMeet(cols, TimeKinds, OtherKinds);
  }

  /** The lists as written and as intended agree exactly when the frame has
      no time-delta column; otherwise the numerical list is longer by one
      name per time delta. */
  lemma {:induction false} InferAgreesWithoutDurations(cols: seq<Column>)
    ensures |Classify(cols, Infer).value.numerical| == |InferIntended(cols).numerical| + |OfKinds(cols, {Duration})|
    ensures Classify(cols, Infer).value == InferIntended(cols) <==> OfKinds(cols, {Duration}) == []
  {
    NumberSplits(cols);
  }

  lemma {:induction false} NumberSplits(cols: seq<Column>)
    ensures |OfKinds(cols, NumberKinds)| == |OfKinds(cols, {Numeric})| + |OfKinds(cols, {Duration})|
    ensures OfKinds(cols, {Duration}) == [] ==> OfKinds(cols, NumberKinds) == OfKinds(cols, {Numeric})
  {
    if cols != [] {
      NumberSplits(cols[1..]);
    }
  }

  /** The frame of the source's tests: `a` integer, `b` text, `c` float,
      `d` a timestamp, `e` boolean. */
  function SmallFrame(): seq<Column> {
    [Column("a", Numeric), Column("b", Other), Column("c", Numeric), Column("d", Temporal), Column("e", Other)]
  }

  lemma SmallFrameKinds()
    ensures Names(SmallFrame()) == ["a", "b", "c", "d", "e"]
    ensures OfKinds(SmallFrame(), NumberKinds) == ["a", "c"]
    ensures OfKinds(SmallFrame(), TimeKinds) == ["d"]
    ensures OfKinds(SmallFrame(), OtherKinds) == ["b", "e"]
    ensures OfKinds(SmallFrame(), {Numeric}) == ["a", "c"]
    ensures KindNames(SmallFrame(), OtherKinds) == {"b", "e"}
  {
    var f := SmallFrame();
    assert f[1..][1..][1..][1..][1..] == [];
  }

  /** Without an override the test frame splits by kind. */
  lemma ClassifyInferExample()
    ensures Classify(SmallFrame(), Infer) == Ok(Partition(["a", "c"], ["d"], ["b", "e"]))
  {
    SmallFrameKinds();
  }

  /** The test frame with a time-delta column `f` added. */
  function DurationFrame(): seq<Column> {
    SmallFrame() + [Column("f", Duration)]
  }

  /** Without an override `f` is listed both as numerical and as time, so the
      preferred-numerical list reads it twice per lap; the intended partition
      lists it as time only. */
  lemma DurationCountedTwice()
    ensures Classify(DurationFrame(), Infer) == Ok(Partition(["a", "c", "f"], ["d", "f"], ["b", "e"]))
    ensures InferIntended(DurationFrame()) == Partition(["a", "c"], ["d", "f"], ["b", "e"])
  {
    DurationFrameKinds();
  }

  lemma DurationFrameKinds()
    ensures OfKinds(DurationFrame(), NumberKinds) == ["a", "c", "f"]
    ensures OfKinds(DurationFrame(), TimeKinds) == ["d", "f"]
    ensures OfKinds(DurationFrame(), OtherKinds) == ["b", "e"]
    ensures OfKinds(DurationFrame(), {Numeric}) == ["a", "c"]
  {
    var f := Column("f", Duration);
    SmallFrameKinds();
    assert [f][1..] == [];
    assert OfKinds(DurationFrame(), NumberKinds) == ["a", "c", "f"] by {
      OfKindsAppend(SmallFrame(), [f], NumberKinds);
    }
    assert OfKinds(DurationFrame(), TimeKinds) == ["d", "f"] by {
      OfKindsAppend(SmallFrame(), [f], TimeKinds);
    }
    assert OfKinds(DurationFrame(), OtherKinds) == ["b", "e"] by {
      OfKindsAppend(SmallFrame(), [f], OtherKinds);
    }
    assert OfKinds(DurationFrame(), {Numeric}) == ["a", "c"] by {
      OfKindsAppend(SmallFrame(), [f], {Numeric});
    }
  }

  /** `select_dtypes` on two frames side by side is the two results side by side. */
  lemma {:induction false} OfKindsAppend(a: seq<Column>, b: seq<Column>, ks: set<Kind>)
    ensures OfKinds(a + b, ks) == OfKinds(a, ks) + OfKinds(b, ks)
  {
    if a != [] {
      OfKindsAppend(a[1..], b, ks);
      assert (a + b)[0] == a[0] && (a + b)[1..] == a[1..] + b;
    }
    else {
      assert a + b == b;
    }
  }

  /** An override that names the text and boolean columns is taken as given,
      and the timestamp column stays a time column. */
  lemma ClassifyGivenExample()
    ensures Classify(SmallFrame(), Given(["b", "e"])).Ok?
  {
    var f, cat := SmallFrame(), ["b", "e"];
    var names := Names(f);
    assert names == ["a", "b", "c", "d", "e"] by { SmallFrameKinds(); }
    assert KindNames(f, OtherKinds) == {"b", "e"} by { SmallFrameKinds(); }
    assert Elems(cat) == {"b", "e"};
    assert names[1] == "b" && names[4] == "e";
  }

  /** The override may also promote the timestamp column to categorical. */
  lemma ClassifyPromotesTime()
    ensures Classify(SmallFrame(), Given(["b", "d", "e"])).Ok?
    ensures Classify(SmallFrame(), Given(["b", "d", "e"])).value.time == []
  {
    PromoteTimeFacts();
    assert Dedup<string>([]) == [];
  }

  lemma PromoteTimeFacts()
    ensures Elems(["b", "d", "e"]) <= Elems(Names(SmallFrame()))
    ensures KindNames(SmallFrame(), OtherKinds) <= Elems(["b", "d", "e"])
    ensures Outside(OfKinds(SmallFrame(), TimeKinds), Elems(["b", "d", "e"])) == []
  {
    var f: seq<Column>, cat: seq<string> := SmallFrame(), ["b", "d", "e"];
    assert Elems(cat) == {"b", "d", "e"} by {
      assert cat[0] == "b" && cat[1] == "d" && cat[2] == "e";
    }
    assert Elems(cat) <= Elems(Names(f)) by {
      assert Names(f) == ["a", "b", "c", "d", "e"] by { SmallFrameKinds(); }
      assert Names(f)[1] == "b" && Names(f)[3] == "d" && Names(f)[4] == "e";
    }
    assert KindNames(f, OtherKinds) <= Elems(cat) by {
      assert KindNames(f, OtherKinds) == {"b", "e"} by { SmallFrameKinds(); }
    }
    assert Outside(OfKinds(f, TimeKinds), Elems(cat)) == [] by {
      assert OfKinds(f, TimeKinds) == ["d"] by { SmallFrameKinds(); }
      assert ["d"][1..] == [];
    }
  }

  /** An override naming a column the frame lacks is refused, as is a value
      that is not a list. */
  lemma ClassifyRejectsUnknown()
    ensures Classify(SmallFrame(), Given(["unknown"])) == Err(ValueError)
    ensures Classify(SmallFrame(), NotAList) == Err(TypeError)
  {
    var names := Names(SmallFrame());
    assert names == ["a", "b", "c", "d", "e"] by { SmallFrameKinds(); }
    assert "unknown" !in names;
    assert "unknown" in Elems(["unknown"]) && "unknown" !in Elems(names);
  }

  /** An override that leaves out a text or boolean column is refused. */
  lemma ClassifyRejectsMissingText()
    ensures Classify(SmallFrame(), Given(["a"])) == Err(ValueError)
  {
    var f := SmallFrame();
    assert Elems(["a"]) <= Elems(Names(f)) by {
      assert Names(f)[0] == "a" by { SmallFrameKinds(); }
    }
    assert "b" in KindNames(f, OtherKinds) - Elems(["a"]) by {
      assert KindNames(f, OtherKinds) == {"b", "e"} by { SmallFrameKinds(); }
    }
  }

  /** Naming one of the two text columns is not enough either. */
  lemma ClassifyRejectsHalfText()
    ensures Classify(SmallFrame(), Given(["b"])) == Err(ValueError)
  {
    var f := SmallFrame();
    assert Elems(["b"]) <= Elems(Names(f)) by {
      assert Names(f)[1] == "b" by { SmallFrameKinds(); }
    }
    assert "e" in KindNames(f, OtherKinds) - Elems(["b"]) by {
      assert KindNames(f, OtherKinds) == {"b", "e"} by { SmallFrameKinds(); }
    }
  }

  // ---------------------------------------------------------------------------
  // One cursor: ColumnIterator.__next__ as a function of the list and index
  // ---------------------------------------------------------------------------

  /** `__next__`: `index := index % len`, read, `index := index + 1`; on an
      empty list the modulo raises ZeroDivisionError and nothing changes. */
  function NextOf(cols: seq<string>, index: nat): (out: (Result<string>, nat))
    ensures |cols| == 0 ==> out == (Err(ZeroDivisionError), index)
    ensures |cols| > 0 ==> out.0.Ok? && 1 <= out.1 <= |cols|
    ensures index < |cols| ==> out == (Ok(cols[index]), index + 1)
  {
    if |cols| == 0 then (Err(ZeroDivisionError), index)
    else
      // `index % len`, which is `index` itself below `len`
      var i := if index < |cols| then index else index % |cols|;
      (Ok(cols[i]), i + 1)
  }

  /** The values of `k` successive `__next__` calls from `index`, and the index after them. */
  function IterRun(cols: seq<string>, index: nat, k: nat): (out: (seq<Result<string>>, nat))
    ensures |out.0| == k
    ensures |cols| == 0 ==> out.1 == index && forall j | 0 <= j < k :: out.0[j] == Err(ZeroDivisionError)
    ensures index + k <= |cols| ==> out == (Oks(cols[index..index + k]), index + k)
    decreases k
  {
    if k == 0 then ([], index)
    else
      var step := NextOf(cols, index);
      var rest := IterRun(cols, step.1, k - 1);
      assert index + k <= |cols| ==> cols[index..index + k] == [cols[index]] + cols[index + 1..index + k];
      ([step.0] + rest.0, rest.1)
  }

  /** From any index up to the end, the remaining calls of a lap read the
      rest of the list in order and leave the cursor at the end. */
  lemma {:induction false} IterRunDrains(cols: seq<string>, index: nat)
    requires index <= |cols|
    ensures IterRun(cols, index, |cols| - index) == (Oks(cols[index..]), |cols|)
    decreases |cols| - index
  {
    if index < |cols| {
      IterRunDrains(cols, index + 1);
      assert cols[index..] == [cols[index]] + cols[index + 1..];
    }
  }

  /** A cursor at the end wraps around: the next call reads the first element again. */
  lemma IterWraps(cols: seq<string>)
    requires 0 < |cols|
    ensures NextOf(cols, |cols|) == (Ok(cols[0]), 1)
  {
  }

  /** A lap of `len` calls from a fresh cursor, or from one that has just
      finished a lap, reads the whole list in order and ends at the end again. */
  lemma {:induction false} IterLap(cols: seq<string>)
    ensures IterRun(cols, 0, |cols|) == (Oks(cols), |cols|)
    ensures 0 < |cols| ==> IterRun(cols, |cols|, |cols|) == (Oks(cols), |cols|)
  {
    IterRunDrains(cols, 0);
    assert cols[0..] == cols;
    if 0 < |cols| {
      IterWraps(cols);
      IterRunDrains(cols, 1);
      assert cols == [cols[0]] + cols[1..];
    }
  }

  lemma {:induction false} IteratorExample()
    ensures IterRun(["1", "2"], 0, 3).0 == [Ok("1"), Ok("2"), Ok("1")]
  {
    var cols := ["1", "2"];
    IterLap(cols);
    assert IterRun(cols, 0, 3) == ([Ok("1")] + IterRun(cols, 1, 2).0, IterRun(cols, 1, 2).1);
    assert IterRun(cols, 1, 2) == ([Ok("2")] + IterRun(cols, 2, 1).0, IterRun(cols, 2, 1).1);
    IterWraps(cols);
  }

  // ---------------------------------------------------------------------------
  // Three cursors chained: ColumnStore._next_prefer
  // ---------------------------------------------------------------------------

  /** The indices of the three cursors handed to `_next_prefer`, in preference order. */
  datatype Cursors = Cursors(i1: nat, i2: nat, i3: nat)

  predicate InBounds(l1: seq<string>, l2: seq<string>, l3: seq<string>, c: Cursors) {
    c.i1 <= |l1| && c.i2 <= |l2| && c.i3 <= |l3|
  }

  /** `_next_prefer`: advance the first cursor not at its end; when all three
      are, reset all three to 0 and advance the first, which raises
      ZeroDivisionError when the first list is empty. */
  function PreferStep(l1: seq<string>, l2: seq<string>, l3: seq<string>, c: Cursors): (out: (Result<string>, Cursors))
    requires InBounds(l1, l2, l3, c)
    ensures InBounds(l1, l2, l3, out.1)
    ensures out.0.Err? <==> c == Cursors(|l1|, |l2|, |l3|) && |l1| == 0
    ensures out.0.Err? ==> out == (Err(ZeroDivisionError), Cursors(0, 0, 0))
  {
    if c.i1 != |l1| then
      var (v, i) := NextOf(l1, c.i1); (v, c.(i1 := i))
    else if c.i2 != |l2| then
      var (v, i) := NextOf(l2, c.i2); (v, c.(i2 := i))
    else if c.i3 != |l3| then
      var (v, i) := NextOf(l3, c.i3); (v, c.(i3 := i))
    else
      var (v, i) := NextOf(l1, 0); (v, Cursors(i, 0, 0))
  }

  /** The values of `k` successive `_next_prefer` calls, and the cursors after them. */
  function PreferRun(l1: seq<string>, l2: seq<string>, l3: seq<string>, c: Cursors, k: nat): (out: (seq<Result<string>>, Cursors))
    requires InBounds(l1, l2, l3, c)
    ensures |out.0| == k && InBounds(l1, l2, l3, out.1)
    decreases k
  {
    if k == 0 then ([], c)
    else
      var step := PreferStep(l1, l2, l3, c);
      var rest := PreferRun(l1, l2, l3, step.1, k - 1);
      ([step.0] + rest.0, rest.1)
  }

  /** Every name of a list, as successful calls. */
  function Oks(s: seq<string>): (r: seq<Result<string>>)
    ensures |r| == |s|
    ensures forall i | 0 <= i < |s| :: r[i] == Ok(s[i])
  {
    if s == [] then [] else [Ok(s[0])] + Oks(s[1..])
  }

  lemma OksAppend(a: seq<string>, b: seq<string>)
    ensures Oks(a + b) == Oks(a) + Oks(b)
  {
  }

  /** A run of `a + b` calls is a run of `a` calls followed by a run of `b`. */
  lemma {:induction false} PreferRunSplit(l1: seq<string>, l2: seq<string>, l3: seq<string>, c: Cursors, a: nat, b: nat)
    requires InBounds(l1, l2, l3, c)
    ensures var ca := PreferRun(l1, l2, l3, c, a).1;
      PreferRun(l1, l2, l3, c, a + b)
        == (PreferRun(l1, l2, l3, c, a).0 + PreferRun(l1, l2, l3, ca, b).0, PreferRun(l1, l2, l3, ca, b).1)
    decreases a
  {
    if a > 0 {
      var step := PreferStep(l1, l2, l3, c);
      PreferRunSplit(l1, l2, l3, step.1, a - 1, b);
      var va' := PreferRun(l1, l2, l3, step.1, a - 1).0;
      var ca := PreferRun(l1, l2, l3, step.1, a - 1).1;
      assert PreferRun(l1, l2, l3, c, a) == ([step.0] + va', ca);
      assert PreferRun(l1, l2, l3, c, a + b).0 == [step.0] + PreferRun(l1, l2, l3, step.1, (a - 1) + b).0;
      assert [step.0] + (va' + PreferRun(l1, l2, l3, ca, b).0) == ([step.0] + va') + PreferRun(l1, l2, l3, ca, b).0;
    } else {
      assert [] + PreferRun(l1, l2, l3, c, b).0 == PreferRun(l1, l2, l3, c, b).0;
    }
  }

  /** While the first cursor has names left it alone is drawn from. */
  lemma {:induction false} DrainFirst(l1: seq<string>, l2: seq<string>, l3: seq<string>, i: nat, j: nat, k: nat)
    requires i <= |l1| && j <= |l2| && k <= |l3|
    ensures PreferRun(l1, l2, l3, Cursors(i, j, k), |l1| - i) == (Oks(l1[i..]), Cursors(|l1|, j, k))
    decreases |l1| - i
  {
    if i < |l1| {
      DrainFirst(l1, l2, l3, i + 1, j, k);
      assert l1[i..] == [l1[i]] + l1[i + 1..];
    }
  }

  /** Once the first is spent, the second is drawn from until it is spent too. */
  lemma {:induction false} DrainSecond(l1: seq<string>, l2: seq<string>, l3: seq<string>, j: nat, k: nat)
    requires j <= |l2| && k <= |l3|
    ensures PreferRun(l1, l2, l3, Cursors(|l1|, j, k), |l2| - j) == (Oks(l2[j..]), Cursors(|l1|, |l2|, k))
    decreases |l2| - j
  {
    if j < |l2| {
      DrainSecond(l1, l2, l3, j + 1, k);
      assert l2[j..] == [l2[j]] + l2[j + 1..];
    }
  }

  lemma {:induction false} DrainThird(l1: seq<string>, l2: seq<string>, l3: seq<string>, k: nat)
    requires k <= |l3|
    ensures PreferRun(l1, l2, l3, Cursors(|l1|, |l2|, k), |l3| - k) == (Oks(l3[k..]), Cursors(|l1|, |l2|, |l3|))
    decreases |l3| - k
  {
    if k < |l3| {
      DrainThird(l1, l2, l3, k + 1);
      assert l3[k..] == [l3[k]] + l3[k + 1..];
    }
  }

  /** Once the first cursor is spent, draining the other two yields the second
      list and then the third. */
  lemma {:induction false} DrainRest(l1: seq<string>, l2: seq<string>, l3: seq<string>)
    ensures PreferRun(l1, l2, l3, Cursors(|l1|, 0, 0), |l2| + |l3|) == (Oks(l2 + l3), Cursors(|l1|, |l2|, |l3|))
  {
    var c1, c2 := Cursors(|l1|, 0, 0), Cursors(|l1|, |l2|, 0);
    DrainSecond(l1, l2, l3, 0, 0);
    DrainThird(l1, l2, l3, 0);
    assert l2[0..] == l2 && l3[0..] == l3;
    PreferRunSplit(l1, l2, l3, c1, |l2|, |l3|);
    OksAppend(l2, l3);
  }

  /** From `Cursors(i, 0, 0)`, draining the three lists yields the rest of the
      first, then all of the second and of the third. */
  lemma {:induction false} DrainAll(l1: seq<string>, l2: seq<string>, l3: seq<string>, i: nat)
    requires i <= |l1|
    ensures PreferRun(l1, l2, l3, Cursors(i, 0, 0), |l1| - i + |l2| + |l3|)
         == (Oks(l1[i..] + l2 + l3), Cursors(|l1|, |l2|, |l3|))
  {
    var c0, n1, n23 := Cursors(i, 0, 0), |l1| - i, |l2| + |l3|;
    var first := PreferRun(l1, l2, l3, c0, n1);
    assert first == (Oks(l1[i..]), Cursors(|l1|, 0, 0)) by { DrainFirst(l1, l2, l3, i, 0, 0); }
    var rest := PreferRun(l1, l2, l3, first.1, n23);
    assert rest == (Oks(l2 + l3), Cursors(|l1|, |l2|, |l3|)) by { DrainRest(l1, l2, l3); }
    assert PreferRun(l1, l2, l3, c0, n1 + n23) == (first.0 + rest.0, rest.1) by {
      PreferRunSplit(l1, l2, l3, c0, n1, n23);
    }
    assert first.0 + rest.0 == Oks(l1[i..] + l2 + l3) by {
      OksAppend(l1[i..], l2 + l3);
      assert l1[i..] + (l2 + l3) == l1[i..] + l2 + l3;
    }
    assert n1 + n23 == |l1| - i + |l2| + |l3|;
  }

  /** From fresh cursors, a lap of one call per column yields the first list,
      then the second, then the third, and the next call starts over with the
      first list's head (or raises ZeroDivisionError when that list is empty). */
  lemma {:induction false} PreferLapFromFresh(l1: seq<string>, l2: seq<string>, l3: seq<string>)
    ensures PreferRun(l1, l2, l3, Cursors(0, 0, 0), |l1| + |l2| + |l3|)
         == (Oks(l1 + l2 + l3), Cursors(|l1|, |l2|, |l3|))
    ensures |l1| > 0 ==> PreferStep(l1, l2, l3, Cursors(|l1|, |l2|, |l3|)) == (Ok(l1[0]), Cursors(1, 0, 0))
    ensures |l1| == 0 ==> PreferStep(l1, l2, l3, Cursors(|l1|, |l2|, |l3|)) == (Err(ZeroDivisionError), Cursors(0, 0, 0))
  {
    DrainAll(l1, l2, l3, 0);
    assert l1[0..] == l1;
  }

  /** After the first restart the cursors come back to `Cursors(1, 0, 0)`
      after every lap, and each lap yields every name once, rotated by one. */
  lemma {:induction false} PreferLapAfterRestart(l1: seq<string>, l2: seq<string>, l3: seq<string>)
    requires |l1| > 0
    ensures PreferRun(l1, l2, l3, Cursors(1, 0, 0), |l1| + |l2| + |l3|)
         == (Oks(l1[1..] + l2 + l3 + [l1[0]]), Cursors(1, 0, 0))
    ensures multiset(l1[1..] + l2 + l3 + [l1[0]]) == multiset(l1 + l2 + l3)
  {
    var n := |l1| + |l2| + |l3|;
    DrainAll(l1, l2, l3, 1);
    PreferRunSplit(l1, l2, l3, Cursors(1, 0, 0), n - 1, 1);
    assert n - 1 + 1 == n;
    OksAppend(l1[1..] + l2 + l3, [l1[0]]);
    assert l1 == [l1[0]] + l1[1..];
  }

  lemma {:induction false} PreferNumericalExample()
    ensures PreferRun(["a", "c"], ["d"], ["b", "e"], Cursors(0, 0, 0), 5).0
         == [Ok("a"), Ok("c"), Ok("d"), Ok("b"), Ok("e")]
    ensures PreferStep(["a", "c"], ["d"], ["b", "e"], Cursors(2, 1, 2)).0 == Ok("a")
  {
    PreferLapFromFresh(["a", "c"], ["d"], ["b", "e"]);
    assert ["a", "c"] + ["d"] + ["b", "e"] == ["a", "c", "d", "b", "e"];
  }

  /** When nothing is numerical, `next_prefer_numerical` fails after one lap:
      the restart calls `next` on the empty numerical cursor. */
  lemma {:induction false} PreferOnEmptyFirstFails(l2: seq<string>, l3: seq<string>)
    ensures PreferRun([], l2, l3, Cursors(0, 0, 0), |l2| + |l3|).0 == Oks(l2 + l3)
    ensures PreferStep([], l2, l3, Cursors(0, |l2|, |l3|)).0 == Err(ZeroDivisionError)
  {
    var e: seq<string> := [];
    assert PreferRun(e, l2, l3, Cursors(0, 0, 0), |e| + |l2| + |l3|).0 == Oks(e + l2 + l3) by {
      PreferLapFromFresh(e, l2, l3);
    }
    assert e + l2 + l3 == l2 + l3;
  }

  // ---------------------------------------------------------------------------
  // The objects
  // ---------------------------------------------------------------------------

  /** `ColumnIterator`: a list and a cursor into it. */
  class ColumnIterator {
    const columns: seq<string>
    var index: nat

    ghost predicate Valid()
      reads this
    {
      index <= |columns|
    }

    constructor (columns: seq<string>)
      ensures Valid() && this.columns == columns && index == 0
    {
      this.columns := columns;
      index := 0;
    }

    /** `__iter__`: rewinds the cursor and returns the iterator itself. */
    method Iter() returns (it: ColumnIterator)
      modifies this
      ensures it == this && index == 0 && Valid()
    {
      index := 0;
      it := this;
    }

    /** `__next__`. */
    method Next() returns (r: Result<string>)
      requires Valid()
      modifies this
      ensures Valid()
      ensures (r, index) == NextOf(columns, old(index))
    {
      if |columns| == 0 {
        return Err(ZeroDivisionError);
      }
      index := index % |columns|;
      r := Ok(columns[index]);
      index := index + 1;
    }

    /** `__len__`. */
    function Len(): (n: nat)
      ensures n == |columns|
    {
      |columns|
    }
  }

  /** `ColumnStore`: the partition and its cursors. The three partition cursors
      are shared by `next_*` and `next_prefer_*`; the three `prefer_*`
      cursors are built but never advanced. */
  class ColumnStore {
    const columns: seq<string>
    const numericalColumns: seq<string>
    const timeColumns: seq<string>
    const categoricalColumns: seq<string>
    const numericalIterator: ColumnIterator
    const categoricalIterator: ColumnIterator
    const timeIterator: ColumnIterator
    const preferNumerical: ColumnIterator
    const preferCategorical: ColumnIterator
    const preferTime: ColumnIterator

    ghost predicate Valid()
      reads this, numericalIterator, categoricalIterator, timeIterator
    {
      && numericalIterator != categoricalIterator
      && numericalIterator != timeIterator
      && categoricalIterator != timeIterator
      && numericalIterator.columns == numericalColumns
      && categoricalIterator.columns == categoricalColumns
      && timeIterator.columns == timeColumns
      && numericalIterator.Valid() && categoricalIterator.Valid() && timeIterator.Valid()
    }

    /** The cursors `next_prefer_numerical` chains, in its order. */
    function NumericalFirst(): Cursors
      reads this, numericalIterator, timeIterator, categoricalIterator
    {
      Cursors(numericalIterator.index, timeIterator.index, categoricalIterator.index)
    }

    function CategoricalFirst(): Cursors
      reads this, numericalIterator, timeIterator, categoricalIterator
    {
      Cursors(categoricalIterator.index, timeIterator.index, numericalIterator.index)
    }

    function TimeFirst(): Cursors
      reads this, numericalIterator, timeIterator, categoricalIterator
    {
      Cursors(timeIterator.index, numericalIterator.index, categoricalIterator.index)
    }

    /** The iterators built at the end of `__init__` from a computed partition. */
    constructor (columns: seq<string>, p: Partition)
      ensures Valid()
      ensures this.columns == columns
      ensures numericalColumns == p.numerical && timeColumns == p.time && categoricalColumns == p.categorical
      ensures NumericalFirst() == Cursors(0, 0, 0)
      ensures fresh(numericalIterator) && fresh(categoricalIterator) && fresh(timeIterator)
      ensures preferNumerical.columns == p.numerical + p.time + p.categorical
      ensures preferCategorical.columns == p.categorical + p.time + p.numerical
      ensures preferTime.columns == p.time + p.numerical + p.categorical
    {
      this.columns := columns;
      numericalColumns := p.numerical;
      timeColumns := p.time;
      categoricalColumns := p.categorical;
      numericalIterator := new ColumnIterator(p.numerical);
      categoricalIterator := new ColumnIterator(p.categorical);
      timeIterator := new ColumnIterator(p.time);
      preferNumerical := new ColumnIterator(p.numerical + p.time + p.categorical);
      preferCategorical := new ColumnIterator(p.categorical + p.time + p.numerical);
      preferTime := new ColumnIterator(p.time + p.numerical + p.categorical);
    }

    method NextNumerical() returns (r: Result<string>)
      requires Valid()
      modifies numericalIterator
      ensures Valid()
      ensures (r, numericalIterator.index) == NextOf(numericalColumns, old(numericalIterator.index))
    {
      r := numericalIterator.Next();
    }

    method NextCategorical() returns (r: Result<string>)
      requires Valid()
      modifies categoricalIterator
      ensures Valid()
      ensures (r, categoricalIterator.index) == NextOf(categoricalColumns, old(categoricalIterator.index))
    {
      r := categoricalIterator.Next();
    }

    method NextTime() returns (r: Result<string>)
      requires Valid()
      modifies timeIterator
      ensures Valid()
      ensures (r, timeIterator.index) == NextOf(timeColumns, old(timeIterator.index))
    {
      r := timeIterator.Next();
    }

    method NextPreferNumerical() returns (r: Result<string>)
      requires Valid()
      modifies numericalIterator, timeIterator, categoricalIterator
      ensures Valid()
      ensures (r, NumericalFirst()) == PreferStep(numericalColumns, timeColumns, categoricalColumns, old(NumericalFirst()))
    {
      r := NextPrefer(numericalIterator, timeIterator, categoricalIterator);
    }

    method NextPreferCategorical() returns (r: Result<string>)
      requires Valid()
      modifies numericalIterator, timeIterator, categoricalIterator
      ensures Valid()
      ensures (r, CategoricalFirst()) == PreferStep(categoricalColumns, timeColumns, numericalColumns, old(CategoricalFirst()))
    {
      r := NextPrefer(categoricalIterator, timeIterator, numericalIterator);
    }

    method NextPreferTime() returns (r: Result<string>)
      requires Valid()
      modifies numericalIterator, timeIterator, categoricalIterator
      ensures Valid()
      ensures (r, TimeFirst()) == PreferStep(timeColumns, numericalColumns, categoricalColumns, old(TimeFirst()))
    {
      r := NextPrefer(timeIterator, numericalIterator, categoricalIterator);
    }

    /** `_next_prefer`. */
    static method NextPrefer(it1: ColumnIterator, it2: ColumnIterator, it3: ColumnIterator) returns (r: Result<string>)
      requires it1 != it2 && it1 != it3 && it2 != it3
      requires it1.Valid() && it2.Valid() && it3.Valid()
      modifies it1, it2, it3
      ensures it1.Valid() && it2.Valid() && it3.Valid()
      ensures (r, Cursors(it1.index, it2.index, it3.index))
           == PreferStep(it1.columns, it2.columns, it3.columns, Cursors(old(it1.index), old(it2.index), old(it3.index)))
    {
      if it1.index != it1.Len() {
        r := it1.Next();
      } else if it2.index != it2.Len() {
        r := it2.Next();
      } else if it3.index != it3.Len() {
        r := it3.Next();
      } else {
        it1.index := 0;
        it2.index := 0;
        it3.index := 0;
        r := it1.Next();
      }
    }
  }

  /** The iterator test: `next` on `["1", "2"]` gives "1", "2", "1", also after `iter`. */
  method IteratorScenario() {
    var it := new ColumnIterator(["1", "2"]);
    var a := it.Next();
    var b := it.Next();
    var c := it.Next();
    assert [a, b, c] == [Ok("1"), Ok("2"), Ok("1")];
    var it2 := it.Iter();
    var d := it2.Next();
    assert d == Ok("1");
  }
}
