/** widgets/helpers/multi_select.py: a list of checkboxes with a search field
    and select-all / deselect-all buttons, and the rule by which a widget
    decides to show one. */
module MultiSelect {
  import opened Results
  import opened Seqs
  import opened Util

  // ---------------------------------------------------------------------------
  // The initial selection
  // ---------------------------------------------------------------------------

  /** The number of options checked when no selection is given. */
  const DefaultCount: nat := 5

  /** The `selection` argument, with None replaced by the first
      `min(len(options), 5)` options. */
  function SelectionOf(options: seq<string>, selection: Option<seq<string>>): (sel: seq<string>)
    ensures selection.Some? ==> sel == selection.value
    ensures selection.None? ==> |sel| == if |options| < DefaultCount then |options| else DefaultCount
    ensures selection.None? ==> forall i | 0 <= i < |sel| :: sel[i] == options[i]
  {
    match selection
    case Some(s) => s
    case None => options[..if |options| < DefaultCount then |options| else DefaultCount]
  }

  /** The checkbox values: an option is checked exactly when it is in the selection. */
  function Marks(options: seq<string>, selection: seq<string>): (m: seq<bool>)
    ensures |m| == |options|
    ensures forall i | 0 <= i < |options| :: m[i] <==> options[i] in selection
  {
    if options == [] then [] else [options[0] in selection] + Marks(options[1..], selection)
  }

  /** `[cb.description for cb in options_widgets if cb.value]`: the checked
      options, in option order. */
  function CheckedNames(options: seq<string>, checks: seq<bool>): (r: seq<string>)
    requires |checks| == |options|
    ensures |r| <= |options|
    ensures forall x :: x in r <==> exists i | 0 <= i < |options| :: checks[i] && options[i] == x
    ensures NoDup(options) ==> NoDup(r)
  {
    if options == [] then []
    else
      var rest := CheckedNames(options[1..], checks[1..]);
      assert forall x :: x in rest <==> exists i | 1 <= i < |options| :: checks[i] && options[i] == x by {
        forall x ensures x in rest <==> exists i | 1 <= i < |options| :: checks[i] && options[i] == x {
          if x in rest {
            var i :| 0 <= i < |options| - 1 && checks[1..][i] && options[1..][i] == x;
            assert checks[i + 1] && options[i + 1] == x;
          }
          if exists i | 1 <= i < |options| :: checks[i] && options[i] == x {
            var i :| 1 <= i < |options| && checks[i] && options[i] == x;
            assert checks[1..][i - 1] && options[1..][i - 1] == x;
          }
        }
      }
      assert NoDup(options) ==> options[0] !in rest && NoDup(options[1..]);
      if checks[0] then [options[0]] + rest else rest
  }

  /** The checked names are the options at the checked positions, in option order. */
  lemma CheckedNamesInOrder(options: seq<string>, checks: seq<bool>)
    requires |checks| == |options|
    ensures CheckedNames(options, checks) == At(options, WithValue(checks, Positions(|options|), true))
  {
    CheckedNamesFrom(options, checks, 0);
    assert options[0..] == options && checks[0..] == checks;
  }

  lemma {:induction false} CheckedNamesFrom(options: seq<string>, checks: seq<bool>, i: nat)
    requires |checks| == |options| && i <= |options|
    ensures CheckedNames(options[i..], checks[i..]) == At(options, WithValue(checks, Span(i, |options|), true))
    decreases |options| - i
  {
    if i < |options| {
      CheckedNamesFrom(options, checks, i + 1);
      var rest := WithValue(checks, Span(i + 1, |options|), true);
      assert Span(i, |options|) == [i] + Span(i + 1, |options|);
      assert options[i..][1..] == options[i + 1..] && checks[i..][1..] == checks[i + 1..];
      if checks[i] {
        assert WithValue(checks, Span(i, |options|), true) == [i] + rest;
        AtCons(options, i, rest);
      } else {
        assert WithValue(checks, Span(i, |options|), true) == rest;
      }
    }
  }

  /** The `selected_options` the constructor ends with. */
  function InitialSelected(options: seq<string>, selection: seq<string>): (r: seq<string>)
    ensures forall x :: x in r <==> x in options && x in selection
    ensures NoDup(options) ==> NoDup(r)
  {
    var m := Marks(options, selection);
    assert forall x :: x in options && x in selection ==> exists i | 0 <= i < |options| :: m[i] && options[i] == x by {
      forall x | x in options && x in selection ensures exists i | 0 <= i < |options| :: m[i] && options[i] == x {
        var i :| 0 <= i < |options| && options[i] == x;
        assert m[i];
      }
    }
    CheckedNames(options, m)
  }

  /** The checked names of a list whose first `k` entries are the checked ones. */
  lemma {:induction false} CheckedPrefix(options: seq<string>, checks: seq<bool>, k: nat)
    requires |checks| == |options| && k <= |options|
    requires forall i | 0 <= i < |options| :: checks[i] <==> i < k
    ensures CheckedNames(options, checks) == options[..k]
  {
    if options != [] {
      var k' := if k == 0 then 0 else k - 1;
      assert forall i | 0 <= i < |options| - 1 :: checks[1..][i] <==> i < k';
      CheckedPrefix(options[1..], checks[1..], k');
      if k > 0 {
        assert options[..k] == [options[0]] + options[1..][..k'];
      }
    }
  }

  /** Selecting a prefix of distinct options leaves `selected_options` equal
      to that prefix, in the same order. */
  lemma PrefixSelection(options: seq<string>, k: nat)
    requires NoDup(options) && k <= |options|
    ensures InitialSelected(options, options[..k]) == options[..k]
  {
    var m := Marks(options, options[..k]);
    forall i | 0 <= i < |options| ensures m[i] <==> i < k {
      if m[i] {
        var j :| 0 <= j < k && options[..k][j] == options[i];
        assert options[j] == options[i];
      }
      if i < k {
        assert options[..k][i] == options[i];
      }
    }
    CheckedPrefix(options, m, k);
  }

  /** Without a selection, distinct options start with the first five (or all
      of them, when there are fewer) selected. */
  lemma DefaultSelection(options: seq<string>)
    requires NoDup(options)
    ensures var k := if |options| < DefaultCount then |options| else DefaultCount;
      InitialSelected(options, SelectionOf(options, None)) == options[..k]
  {
    var k := if |options| < DefaultCount then |options| else DefaultCount;
    assert SelectionOf(options, None) == options[..k];
    PrefixSelection(options, k);
  }

  /** Whatever the options, a non-empty list never starts with nothing selected. */
  lemma DefaultSelectsSomething(options: seq<string>)
    requires options != []
    ensures InitialSelected(options, SelectionOf(options, None)) != []
  {
    var sel := SelectionOf(options, None);
    assert options[0] in options && options[0] == sel[0];
    assert options[0] in InitialSelected(options, sel);
  }

  // ---------------------------------------------------------------------------
  // Checking and unchecking
  // ---------------------------------------------------------------------------

  /** The update `on_checkbox_change` makes to `selected_options`: a checked
      name is appended unless already there; an unchecked one is removed
      wherever it occurs. */
  function CheckChange(selected: seq<string>, name: string, checked: bool): (r: seq<string>)
    ensures checked && name in selected ==> r == selected
    ensures checked && name !in selected ==> r == selected + [name]
    ensures checked ==> Elems(r) == Elems(selected) + {name}
    ensures !checked ==> Elems(r) == Elems(selected) - {name}
    ensures !checked ==> multiset(r) == multiset(selected)[name := 0]
    ensures !checked ==> r == At(selected, WithValue(Differs(selected, name), Positions(|selected|), true))
    ensures NoDup(selected) ==> NoDup(r)
  {
    if checked then
      if name in selected then selected
      else
        assert Elems(selected + [name]) == Elems(selected) + {name};
        selected + [name]
    else
      WithoutInOrder(selected, name);
      WithoutCounts(selected, name);
      Without(selected, name)
  }

  lemma {:induction false} WithoutAppended(s: seq<string>, x: string)
    requires x !in s
    ensures Without(s + [x], x) == s
  {
    if s != [] {
      assert (s + [x])[1..] == s[1..] + [x];
      WithoutAppended(s[1..], x);
      assert s == [s[0]] + s[1..];
    } else {
      assert [x][1..] == [];
    }
  }

  lemma {:induction false} WithoutOneLess(s: seq<string>, x: string)
    requires NoDup(s) && x in s
    ensures |Without(s, x)| == |s| - 1
  {
    assert s == [s[0]] + s[1..];
    assert NoDup(s[1..]);
    if s[0] != x {
      WithoutOneLess(s[1..], x);
    }
  }

  /** Checking a name that was not selected and then unchecking it gives the
      selection back; on a list without duplicates each action moves the
      count shown in the label by one. */
  lemma CheckThenUncheck(selected: seq<string>, name: string)
    requires name !in selected
    ensures CheckChange(CheckChange(selected, name, true), name, false) == selected
    ensures |CheckChange(selected, name, true)| == |selected| + 1
  {
    WithoutAppended(selected, name);
  }

  lemma UncheckRemovesOne(selected: seq<string>, name: string)
    requires NoDup(selected) && name in selected
    ensures |CheckChange(selected, name, false)| == |selected| - 1
    ensures name !in CheckChange(selected, name, false)
  {
    WithoutOneLess(selected, name);
  }

  /** The selection agrees with the checkboxes: every checked option listed
      once and nothing else. */
  ghost predicate InSync(options: seq<string>, checks: seq<bool>, selected: seq<string>)
    requires |checks| == |options|
  {
    NoDup(options) && NoDup(selected) && Elems(selected) == Elems(CheckedNames(options, checks))
  }

  /** Toggling one checkbox and letting the observer update the selection
      keeps the selection in agreement with the checkboxes. */
  lemma ToggleKeepsSync(options: seq<string>, checks: seq<bool>, selected: seq<string>, i: nat, v: bool)
    requires |checks| == |options| && i < |options|
    requires InSync(options, checks, selected) && checks[i] != v
    ensures InSync(options, checks[i := v], CheckChange(selected, options[i], v))
  {
    var after := checks[i := v];
    var r := CheckChange(selected, options[i], v);
    var now := CheckedNames(options, after);
    forall x ensures x in Elems(r) <==> x in Elems(now) {
      if x == options[i] {
        if v {
          assert x in Elems(r);
          assert after[i] && options[i] == x;
        } else {
          assert x !in Elems(r);
          forall j | 0 <= j < |options| && options[j] == x ensures !after[j] {
            assert j == i;
          }
        }
      } else {
        assert x in Elems(r) <==> x in Elems(selected);
        assert x in Elems(selected) <==> exists j | 0 <= j < |options| :: checks[j] && options[j] == x;
        forall j | 0 <= j < |options| && options[j] == x ensures after[j] == checks[j] {
        }
      }
    }
  }

  lemma CheckedNamesAll(options: seq<string>)
    ensures CheckedNames(options, seq(|options|, _ => true)) == options
  {
    var all := seq(|options|, _ => true);
    assert forall i | 0 <= i < |options| :: all[i] <==> i < |options|;
    CheckedPrefix(options, all, |options|);
  }

  lemma CheckedNamesNone(options: seq<string>)
    ensures CheckedNames(options, seq(|options|, _ => false)) == []
  {
    var none := seq(|options|, _ => false);
    assert forall i | 0 <= i < |options| :: none[i] <==> i < 0;
    CheckedPrefix(options, none, 0);
  }

  // ---------------------------------------------------------------------------
  // The search filter
  // ---------------------------------------------------------------------------

  predicate OccursAt(t: string, p: string, k: int) {
    0 <= k && k + |p| <= |t| && t[k..k + |p|] == p
  }

  /** Python's `p in t` on strings. */
  function Contains(t: string, p: string): bool
    decreases |t|
  {
    if |p| > |t| then false else t[..|p|] == p || Contains(t[1..], p)
  }

  lemma {:induction false} ContainsMeansOccurs(t: string, p: string)
    ensures Contains(t, p) <==> exists k :: OccursAt(t, p, k)
    decreases |t|
  {
    if |p| > |t| {
      assert forall k :: !OccursAt(t, p, k);
    } else if t[..|p|] == p {
      assert OccursAt(t, p, 0);
    } else {
      assert t != [];
      ContainsMeansOccurs(t[1..], p);
      if exists k :: OccursAt(t[1..], p, k) {
        var k :| OccursAt(t[1..], p, k);
        assert t[k + 1..k + 1 + |p|] == t[1..][k..k + |p|];
        assert OccursAt(t, p, k + 1);
      }
      if exists k :: OccursAt(t, p, k) {
        var k :| OccursAt(t, p, k);
        assert k != 0;
        assert t[1..][k - 1..k - 1 + |p|] == t[k..k + |p|];
        assert OccursAt(t[1..], p, k - 1);
      }
    }
  }

  /** A one-character search matches exactly the texts holding that character. */
  lemma {:induction false} ContainsChar(t: string, c: char)
    ensures Contains(t, [c]) <==> c in t
    decreases |t|
  {
    if t != [] {
      ContainsChar(t[1..], c);
      assert t == [t[0]] + t[1..];
      assert t[..1] == [t[0]];
    }
  }

  /** The search test for one option: the lower-cased search text occurs in
      the lower-cased option (`strip("")` removes nothing). */
  predicate Matches(search: string, option: string) {
    Contains(Lower(option), Lower(search))
  }

  /** The positions of `ps`, in order, whose option matches the search. */
  function Matching(options: seq<string>, search: string, ps: seq<nat>): (r: seq<nat>)
    requires forall p | p in ps :: p < |options|
    ensures forall p :: p in r <==> p in ps && Matches(search, options[p])
    ensures Increasing(ps) ==> Increasing(r)
  {
    if ps == [] then []
    else
      assert ps[0] in ps && forall p | p in ps[1..] :: p in ps;
      var rest := Matching(options, search, ps[1..]);
      if Matches(search, options[ps[0]]) then
        assert Increasing(ps) ==> forall k | 0 <= k < |rest| :: ps[0] < rest[k] by {
          if Increasing(ps) {
            forall k | 0 <= k < |rest| ensures ps[0] < rest[k] {
              assert rest[k] in rest;
              var j :| 0 <= j < |ps[1..]| && ps[1..][j] == rest[k];
              assert ps[j + 1] == rest[k];
            }
          }
        }
        [ps[0]] + rest
      else rest
  }

  /** `sorted(matches, key=lambda x: x.value, reverse=True)`: a stable sort
      on the checkbox value that puts checked options first. */
  function CheckedFirst(checks: seq<bool>, ps: seq<nat>): seq<nat>
    requires forall p | p in ps :: p < |checks|
  {
    WithValue(checks, ps, true) + WithValue(checks, ps, false)
  }

  /** `on_text_change`: the option widgets shown for a search text, as
      positions in the option list. */
  function Visible(options: seq<string>, checks: seq<bool>, search: string): seq<nat>
    requires |checks| == |options|
  {
    if search == "" then Positions(|options|)
    else CheckedFirst(checks, Matching(options, search, Positions(|options|)))
  }

  /** The sort only reorders: the same positions, each as often. */
  lemma {:induction false} CheckedFirstPermutes(checks: seq<bool>, ps: seq<nat>)
    requires forall p | p in ps :: p < |checks|
    ensures multiset(CheckedFirst(checks, ps)) == multiset(ps)
  {
    if ps != [] {
      var tail := ps[1..];
      assert ps[0] in ps && forall p | p in tail :: p in ps;
      CheckedFirstPermutes(checks, tail);
      var t, f := WithValue(checks, tail, true), WithValue(checks, tail, false);
      assert multiset(t + f) == multiset(t) + multiset(f);
      assert ps == [ps[0]] + tail;
      if checks[ps[0]] {
        assert WithValue(checks, ps, true) == [ps[0]] + t;
        assert WithValue(checks, ps, false) == f;
      } else {
        assert WithValue(checks, ps, true) == t;
        assert WithValue(checks, ps, false) == [ps[0]] + f;
      }
    }
  }

  /** An empty search shows every option, in option order. */
  lemma EmptySearchShowsAll(options: seq<string>, checks: seq<bool>)
    requires |checks| == |options|
    ensures Visible(options, checks, "") == Positions(|options|)
    ensures |Visible(options, checks, "")| == |options|
  {
  }

  lemma CheckedFirstInRange(checks: seq<bool>, ps: seq<nat>)
    requires forall p | p in ps :: p < |checks|
    ensures var v := CheckedFirst(checks, ps);
      forall k | 0 <= k < |v| :: v[k] < |checks|
  {
    var t, f := WithValue(checks, ps, true), WithValue(checks, ps, false);
    forall k | 0 <= k < |t + f| ensures (t + f)[k] < |checks| {
      if k < |t| {
        assert t[k] in t;
      } else {
        assert f[k - |t|] in f;
      }
    }
  }

  /** The sort puts every checked position before every unchecked one, and
      keeps the order of an increasing list within each of the two groups. */
  lemma CheckedFirstOrder(checks: seq<bool>, ps: seq<nat>)
    requires forall p | p in ps :: p < |checks|
    requires Increasing(ps)
    ensures var v := CheckedFirst(checks, ps);
      && (forall k | 0 <= k < |v| :: v[k] < |checks|)
      && (forall a, b | 0 <= a < b < |v| :: checks[v[b]] ==> checks[v[a]])
      && (forall a, b | 0 <= a < b < |v| && checks[v[a]] == checks[v[b]] :: v[a] < v[b])
  {
    CheckedFirstInRange(checks, ps);
    CheckedBeforeUnchecked(checks, ps);
    CheckedFirstStable(checks, ps);
  }

  lemma CheckedBeforeUnchecked(checks: seq<bool>, ps: seq<nat>)
    requires forall p | p in ps :: p < |checks|
    requires forall k | 0 <= k < |CheckedFirst(checks, ps)| :: CheckedFirst(checks, ps)[k] < |checks|
    ensures var v := CheckedFirst(checks, ps);
      forall a, b | 0 <= a < b < |v| :: checks[v[b]] ==> checks[v[a]]
  {
    var t, f := WithValue(checks, ps, true), WithValue(checks, ps, false);
    var v := CheckedFirst(checks, ps);
    assert v == t + f;
    forall a, b | 0 <= a < b < |v| ensures checks[v[b]] ==> checks[v[a]] {
      if a < |t| {
        assert v[a] == t[a] && t[a] in t;
      } else {
        assert v[b] == f[b - |t|] && f[b - |t|] in f;
      }
    }
  }

  lemma CheckedFirstStable(checks: seq<bool>, ps: seq<nat>)
    requires forall p | p in ps :: p < |checks|
    requires Increasing(ps)
    requires forall k | 0 <= k < |CheckedFirst(checks, ps)| :: CheckedFirst(checks, ps)[k] < |checks|
    ensures var v := CheckedFirst(checks, ps);
      forall a, b | 0 <= a < b < |v| && checks[v[a]] == checks[v[b]] :: v[a] < v[b]
  {
    var t, f := WithValue(checks, ps, true), WithValue(checks, ps, false);
    var v := CheckedFirst(checks, ps);
    assert v == t + f;
    forall k | 0 <= k < |v| ensures checks[v[k]] <==> k < |t| {
      if k < |t| {
        assert v[k] == t[k] && t[k] in t;
      } else {
        assert v[k] == f[k - |t|] && f[k - |t|] in f;
      }
    }
    forall a, b | 0 <= a < b < |v| && checks[v[a]] == checks[v[b]] ensures v[a] < v[b] {
      if b < |t| {
        assert v[a] == t[a] && v[b] == t[b];
      } else if a >= |t| {
        assert v[a] == f[a - |t|] && v[b] == f[b - |t|];
      }
    }
  }

  /** Any other search shows exactly the matching options, each once; the
      checked ones come first, and within the checked and within the
      unchecked ones the options keep their order. */
  lemma SearchShowsMatches(options: seq<string>, checks: seq<bool>, search: string)
    requires |checks| == |options| && search != ""
    ensures var v := Visible(options, checks, search);
      && (forall p :: p in v <==> 0 <= p < |options| && Matches(search, options[p]))
      && multiset(v) == multiset(Matching(options, search, Positions(|options|)))
      && (forall k | 0 <= k < |v| :: v[k] < |checks|)
      && (forall a, b | 0 <= a < b < |v| :: checks[v[b]] ==> checks[v[a]])
      && (forall a, b | 0 <= a < b < |v| && checks[v[a]] == checks[v[b]] :: v[a] < v[b])
  {
    var ms := Matching(options, search, Positions(|options|));
    PositionsIncreasing(|options|);
    CheckedFirstPermutes(checks, ms);
    CheckedFirstOrder(checks, ms);
    var v := CheckedFirst(checks, ms);
    forall p ensures p in v <==> 0 <= p < |options| && Matches(search, options[p]) {
      assert p in v <==> p in WithValue(checks, ms, true) || p in WithValue(checks, ms, false);
    }
  }

  // ---------------------------------------------------------------------------
  // The widget
  // ---------------------------------------------------------------------------

  class MultiSelectWidget {
    const options: seq<string>
    /** The checkbox values, one per option. */
    const checkboxes: array<bool>
    var selectedOptions: seq<string>
    var enableSelectionChange: bool
    /** The option widgets the list shows, as positions in `options`. */
    var children: seq<nat>

    ghost predicate Valid()
      reads this
    {
      && checkboxes.Length == |options|
      && forall k | 0 <= k < |children| :: children[k] < |options|
    }

    /** The selection agrees with the checkboxes. */
    ghost predicate Synced()
      reads this, checkboxes
      requires Valid()
    {
      InSync(options, checkboxes[..], selectedOptions)
    }

    constructor (options: seq<string>, selection: seq<string>)
      ensures Valid() && fresh(checkboxes)
      ensures this.options == options && checkboxes[..] == Marks(options, selection)
      ensures selectedOptions == InitialSelected(options, selection)
      ensures enableSelectionChange && children == Positions(|options|)
    {
      var m := Marks(options, selection);
      this.options := options;
      checkboxes := new bool[|options|](i requires 0 <= i < |options| => m[i]);
      selectedOptions := CheckedNames(options, m);
      enableSelectionChange := true;
      children := Positions(|options|);
      new;
      assert checkboxes[..] == m;
    }

    /** `MultiSelectWidget(options, selection)`: checks the selected options
        (the first five when none are given) after making sure they all are
        options, and lists the checked ones. */
    static method Create(options: seq<string>, selection: Option<seq<string>>) returns (r: Result<MultiSelectWidget>)
      ensures var sel := SelectionOf(options, selection);
        && (r.Err? <==> !(Elems(sel) <= Elems(options)))
        && (r.Err? ==> r.error == ValueError)
        && (r.Ok? ==>
          && fresh(r.value) && fresh(r.value.checkboxes) && r.value.Valid()
          && r.value.options == options
          && r.value.checkboxes[..] == Marks(options, sel)
          && r.value.selectedOptions == InitialSelected(options, sel)
          && r.value.enableSelectionChange
          && r.value.children == Positions(|options|))
      ensures r.Ok? && NoDup(options) ==> r.value.Synced()
    {
      var sel := SelectionOf(options, selection);
      if !(Elems(sel) <= Elems(options)) {
        return Err(ValueError);
      }
      var w := new MultiSelectWidget(options, sel);
      r := Ok(w);
    }

    /** `on_checkbox_change`: ignored while the flag is off; otherwise the
        name is added to or removed from the selection. */
    method OnCheckboxChange(name: string, checked: bool)
      modifies this
      ensures !old(enableSelectionChange) ==> selectedOptions == old(selectedOptions)
      ensures old(enableSelectionChange) ==> selectedOptions == CheckChange(old(selectedOptions), name, checked)
      ensures enableSelectionChange == old(enableSelectionChange) && children == old(children)
    {
      if !enableSelectionChange {
        return;
      }
      if checked {
        if name !in selectedOptions {
          selectedOptions := selectedOptions + [name];
        }
      } else {
        selectedOptions := Without(selectedOptions, name);
      }
    }

    /** Assigning a checkbox's value: the observer runs only when the value
        changes. With the flag on, a click keeps the selection in sync. */
    method SetCheckbox(i: nat, v: bool)
      requires Valid() && i < |options|
      modifies this, checkboxes
      ensures Valid() && checkboxes[..] == old(checkboxes[..])[i := v]
      ensures selectedOptions == if old(checkboxes[i]) != v && old(enableSelectionChange)
        then CheckChange(old(selectedOptions), options[i], v) else old(selectedOptions)
      ensures enableSelectionChange == old(enableSelectionChange) && children == old(children)
      ensures old(Synced()) && enableSelectionChange ==> Synced()
    {
      var changed := checkboxes[i] != v;
      checkboxes[i] := v;
      if changed {
        if old(Synced()) {
          ToggleKeepsSync(options, old(checkboxes[..]), selectedOptions, i, v);
        }
        OnCheckboxChange(options[i], v);
      }
    }

    /** `on_select_all`: checks every box with the observer switched off,
        switches it back on and selects every option. */
    method OnSelectAll()
      requires Valid()
      modifies this, checkboxes
      ensures Valid() && checkboxes[..] == seq(|options|, _ => true)
      ensures selectedOptions == options && enableSelectionChange && children == old(children)
      ensures NoDup(options) ==> Synced()
    {
      enableSelectionChange := false;
      for i := 0 to checkboxes.Length
        invariant Valid() && !enableSelectionChange && selectedOptions == old(selectedOptions)
        invariant children == old(children)
        invariant forall k | 0 <= k < i :: checkboxes[k]
      {
        SetCheckbox(i, true);
      }
      enableSelectionChange := true;
      selectedOptions := options;
      assert checkboxes[..] == seq(|options|, _ => true);
      CheckedNamesAll(options);
    }

    /** `on_deselect_all`: the same with every box cleared and nothing selected. */
    method OnDeselectAll()
      requires Valid()
      modifies this, checkboxes
      ensures Valid() && checkboxes[..] == seq(|options|, _ => false)
      ensures selectedOptions == [] && enableSelectionChange && children == old(children)
      ensures NoDup(options) ==> Synced()
    {
      enableSelectionChange := false;
      for i := 0 to checkboxes.Length
        invariant Valid() && !enableSelectionChange && selectedOptions == old(selectedOptions)
        invariant children == old(children)
        invariant forall k | 0 <= k < i :: !checkboxes[k]
      {
        SetCheckbox(i, false);
      }
      enableSelectionChange := true;
      selectedOptions := [];
      assert checkboxes[..] == seq(|options|, _ => false);
      CheckedNamesNone(options);
    }

    /** `on_text_change`: shows the options the search selects. */
    method OnTextChange(search: string)
      requires Valid()
      modifies this
      ensures Valid() && children == Visible(options, checkboxes[..], search)
      ensures selectedOptions == old(selectedOptions) && enableSelectionChange == old(enableSelectionChange)
    {
      var v := Visible(options, checkboxes[..], search);
      if search != "" {
        SearchShowsMatches(options, checkboxes[..], search);
      }
      assert forall k | 0 <= k < |v| :: v[k] < |options| by {
        if search == "" {
          PositionsIncreasing(|options|);
        }
      }
      children := v;
    }
  }

  // ---------------------------------------------------------------------------
  // HasMultiSelect
  // ---------------------------------------------------------------------------

  /** `HasMultiSelect.__init__` for a threshold `int(15 * relative_size)`:
      with more columns than the threshold a multi-select starts with the
      first `threshold` columns selected and its selection is used; otherwise
      every column is. */
  class HasMultiSelect {
    const columns: seq<string>
    const selectThreshold: nat
    const useMultiSelect: bool
    const multiSelect: MultiSelectWidget?
    var selectedColumns: seq<string>

    constructor (columns: seq<string>, threshold: nat)
      ensures this.columns == columns && selectThreshold == threshold
      ensures useMultiSelect <==> |columns| > threshold
      ensures useMultiSelect ==> (
        && multiSelect != null && fresh(multiSelect) && multiSelect.Valid()
        && multiSelect.options == columns
        && selectedColumns == InitialSelected(columns, columns[..threshold]))
      ensures !useMultiSelect ==> multiSelect == null && selectedColumns == columns
    {
      this.columns := columns;
      selectThreshold := threshold;
      useMultiSelect := |columns| > threshold;
      if |columns| > threshold {
        var prefix := columns[..threshold];
        assert Elems(prefix) <= Elems(columns);
        var r := MultiSelectWidget.Create(columns, Some(prefix));
        multiSelect := r.value;
        selectedColumns := r.value.selectedOptions;
      } else {
        multiSelect := null;
        selectedColumns := columns;
      }
    }
  }

  /** With distinct column names a widget that uses the multi-select starts
      with exactly the first `threshold` columns, in order. */
  lemma ThresholdSelection(columns: seq<string>, threshold: nat)
    requires NoDup(columns) && |columns| > threshold
    ensures InitialSelected(columns, columns[..threshold]) == columns[..threshold]
  {
    PrefixSelection(columns, threshold);
  }

  // ---------------------------------------------------------------------------
  // The source's tests
  // ---------------------------------------------------------------------------

  /** `["Option" + str(i) for i in range(20)]`. */
  function SampleOptions(): seq<string> {
    ["Option0", "Option1", "Option2", "Option3", "Option4", "Option5", "Option6",
     "Option7", "Option8", "Option9", "Option10", "Option11", "Option12", "Option13",
     "Option14", "Option15", "Option16", "Option17", "Option18", "Option19"]
  }

  /** What the tests rely on about their option list. */
  lemma SampleOptionsFacts()
    ensures |SampleOptions()| == 20 && NoDup(SampleOptions())
    ensures SampleOptions()[3] == "Option3" && "some Option" !in SampleOptions()
  {
  }

  /** On the search text `3`, the option is one holding the digit 3. */
  lemma MatchesDigitThree(option: string)
    ensures Matches("3", option) <==> '3' in option
  {
    assert Lower("3") == "3";
    ContainsChar(Lower(option), '3');
    var l := Lower(option);
    if '3' in l {
      var i :| 0 <= i < |l| && l[i] == '3';
      assert option[i] == '3';
    }
    if '3' in option {
      var i :| 0 <= i < |option| && option[i] == '3';
      assert l[i] == '3';
    }
  }

  lemma SampleOptionsWithThree()
    ensures forall p | 0 <= p < |SampleOptions()| :: '3' in SampleOptions()[p] <==> p == 3 || p == 13
  {
  }

  lemma SampleMatchesThree(o: seq<string>)
    requires o == SampleOptions()
    ensures forall p | 0 <= p < |o| :: Matches("3", o[p]) <==> p in {3, 13}
  {
    forall p | 0 <= p < |o| ensures Matches("3", o[p]) <==> p in {3, 13} {
      MatchesDigitThree(o[p]);
      SampleOptionsWithThree();
    }
  }

  /** A search shows as many options as it matches. */
  lemma VisibleCount(options: seq<string>, checks: seq<bool>, search: string, hits: set<nat>)
    requires |checks| == |options| && search != ""
    requires forall p | 0 <= p < |options| :: Matches(search, options[p]) <==> p in hits
    requires forall p | p in hits :: p < |options|
    ensures |Visible(options, checks, search)| == |hits|
  {
    var ms := Matching(options, search, Positions(|options|));
    SearchShowsMatches(options, checks, search);
    PositionsIncreasing(|options|);
    assert Elems(ms) == hits;
    assert NoDup(ms);
    NoDupCard(ms);
    assert |multiset(Visible(options, checks, search))| == |multiset(ms)|;
  }

  /** The search test: `3` shows the two options `Option3` and `Option13`,
      whatever is checked. */
  lemma SearchThreeShowsTwo(checks: seq<bool>)
    requires |checks| == |SampleOptions()|
    ensures |Visible(SampleOptions(), checks, "3")| == 2
  {
    var o := SampleOptions();
    SampleMatchesThree(o);
    SampleOptionsFacts();
    TwoHitsShowTwo(o, checks, "3", 3, 13);
  }

  /** A search matching exactly two positions shows two options. */
  lemma TwoHitsShowTwo(options: seq<string>, checks: seq<bool>, search: string, p1: nat, p2: nat)
    requires |checks| == |options| && search != "" && p1 < p2 < |options|
    requires forall p | 0 <= p < |options| :: Matches(search, options[p]) <==> p in {p1, p2}
    ensures |Visible(options, checks, search)| == 2
  {
    VisibleCount(options, checks, search, {p1, p2});
  }

  lemma PrefixWithin(o: seq<string>, k: nat)
    requires k <= |o|
    ensures Elems(o[..k]) <= Elems(o)
  {
    forall x | x in Elems(o[..k]) ensures x in Elems(o) {
      var i :| 0 <= i < k && o[..k][i] == x;
      assert o[i] == x;
    }
  }

  /** The constructor tests, for the tests' list of options: a selection of
      the first three is accepted, and one naming an option the list lacks
      is a ValueError. */
  method CreateScenario(o: seq<string>, unknown: string)
    requires |o| >= 4 && unknown !in o
  {
    PrefixWithin(o, 3);
    var ok := MultiSelectWidget.Create(o, Some(o[..3]));
    assert ok.Ok?;
    assert unknown in Elems([o[3], unknown]) && unknown !in Elems(o);
    var bad := MultiSelectWidget.Create(o, Some([o[3], unknown]));
    assert bad == Err(ValueError);
  }

  /** The checkbox tests on five selected options of a list without
      duplicates: checking the sixth makes six, unchecking the first makes four. */
  method CheckboxScenario(o: seq<string>)
    requires |o| >= 6 && NoDup(o)
  {
    PrefixSelection(o, 5);
    PrefixWithin(o, 5);
    var r := MultiSelectWidget.Create(o, Some(o[..5]));
    var w := r.value;
    assert o[5] !in o[..5];
    CheckThenUncheck(o[..5], o[5]);
    w.OnCheckboxChange(o[5], true);
    assert |w.selectedOptions| == 6;
    var v := MultiSelectWidget.Create(o, Some(o[..5]));
    var w2 := v.value;
    assert o[0] in o[..5];
    UncheckRemovesOne(o[..5], o[0]);
    w2.OnCheckboxChange(o[0], false);
    assert |w2.selectedOptions| == 4;
  }

  /** The search and bulk-selection tests on the tests' options. */
  method SearchAndBulkScenario(o: seq<string>)
    requires o == SampleOptions()
  {
    PrefixWithin(o, 5);
    var r := MultiSelectWidget.Create(o, Some(o[..5]));
    var w := r.value;
    w.OnTextChange("3");
    SearchThreeShowsTwo(w.checkboxes[..]);
    assert |w.children| == 2;
    w.OnTextChange("");
    assert |w.children| == |o|;
    w.OnSelectAll();
    assert |w.selectedOptions| == |o|;
    w.OnDeselectAll();
    assert |w.selectedOptions| == 0;
  }

  /** The tests' list meets what the scenarios above ask of it. */
  method SampleScenarios() {
    var o := SampleOptions();
    SampleOptionsFacts();
    CreateScenario(o, "some Option");
    CheckboxScenario(o);
    SearchAndBulkScenario(o);
  }
}
