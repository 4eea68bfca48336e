/** Bringing a cached query up to date from what /queryChanges answers (section 5.6 of RFC 8620). */
module QueryChanges {

  type Id = string

  datatype AddedItem = AddedItem(id: Id, index: nat)

  datatype Outcome = Spliced(ids: seq<Id>) | NotAscending | PastTheEnd(item: AddedItem)

  predicate Ascending(added: seq<AddedItem>) {
    forall i, j | 0 <= i < j < |added| :: added[i].index <= added[j].index
  }

  /** The rows of cached no removed id names, holes among them. */
  function Kept(cached: seq<Id>, removed: seq<Id>): seq<Id> {
    if cached == [] then []
    else
      var last := cached[|cached| - 1];
      Kept(cached[..|cached| - 1], removed) + if last in removed then [] else [last]
  }

  function Inserted(out: seq<Id>, item: AddedItem): seq<Id>
    requires item.index <= |out|
  {
    out[..item.index] + [item.id] + out[item.index..]
  }

  /** Every item of added inserted into out in turn, or the first that lies past the end. */
  function InsertAll(out: seq<Id>, added: seq<AddedItem>): Outcome {
    if added == [] then Spliced(out)
    else
      var n := |added| - 1;
      match InsertAll(out, added[..n])
      case Spliced(ids) => if added[n].index > |ids| then PastTheEnd(added[n]) else Spliced(Inserted(ids, added[n]))
      case failed => failed
  }

  lemma InsertOne(out: seq<Id>, added: seq<AddedItem>, item: AddedItem)
    ensures InsertAll(out, added + [item]) ==
            match InsertAll(out, added)
            case Spliced(ids) => if item.index > |ids| then PastTheEnd(item) else Spliced(Inserted(ids, item))
            case failed => failed
  {
    assert (added + [item])[..|added|] == added;
  }

  /** Once an insertion fails, what follows is not reached. */
  lemma {:induction false} FailureStands(out: seq<Id>, added: seq<AddedItem>, n: nat)
    requires n <= |added| && InsertAll(out, added[..n]).PastTheEnd?
    ensures InsertAll(out, added) == InsertAll(out, added[..n])
    decreases |added| - n
  {
    if n == |added| {
      assert added[..n] == added;
    } else {
      assert added[..n + 1] == added[..n] + [added[n]];
      InsertOne(out, added[..n], added[n]);
      FailureStands(out, added, n + 1);
    }
  }

  method IsAscending(added: seq<AddedItem>) returns (ok: bool)
    ensures ok <==> Ascending(added)
  {
    for i := 0 to |added|
      invariant forall a, b | 0 <= a < b < i :: added[a].index <= added[b].index
    {
      if i > 0 && added[i].index < added[i - 1].index { return false; }
    }
    return true;
  }

  /** Splice: an array out of order is refused. Otherwise the answer is exactly the list that has every
      surviving row and every item where it belongs; or the first item past the end, when one is. In
      particular it is the server's new list whenever the array is what the server owes for it. */
  method Splice(cached: seq<Id>, removed: seq<Id>, added: seq<AddedItem>) returns (r: Outcome)
    ensures r.NotAscending? <==> exists i, j | 0 <= i < j < |added| :: added[i].index > added[j].index
    ensures !r.NotAscending? ==> forall latest :: r == Spliced(latest) <==> Updated(cached, removed, added, latest)
    ensures r.PastTheEnd? ==> Overruns(cached, removed, added, r.item)
    ensures !r.NotAscending? && (exists item :: Overruns(cached, removed, added, item)) ==> r.PastTheEnd?
    ensures forall latest | Answers(cached, removed, added, latest) :: r == Spliced(latest)
  {
    r := SpliceAll(cached, removed, added);
    forall latest | Answers(cached, removed, added, latest) ensures r == Spliced(latest) {
      SpliceOfDistinctIds(cached, removed, added, latest);
      assert Ascending(added);
    }
    ghost var n := InsertionsEnd(Kept(cached, removed), added);
    hide Kept, InsertAll, Updated, Overruns, Answers;
    if !r.NotAscending? {
      forall latest ensures r == Spliced(latest) <==> Updated(cached, removed, added, latest) {
        SpliceIsTheMerge(cached, removed, added, latest);
      }
      forall item ensures Overruns(cached, removed, added, item) <==> r == PastTheEnd(item) {
        PastTheEndIff(cached, removed, added, item);
      }
    }
  }

  method SpliceAll(cached: seq<Id>, removed: seq<Id>, added: seq<AddedItem>) returns (r: Outcome)
    ensures r == if !Ascending(added) then NotAscending else InsertAll(Kept(cached, removed), added)
  {
    var sorted := IsAscending(added);
    if !sorted { return NotAscending; }
    var out := [];
    for i := 0 to |cached|
      invariant out == Kept(cached[..i], removed)
    {
      assert cached[..i + 1][..i] == cached[..i];
      if cached[i] !in removed { out := out + [cached[i]]; }
    }
    assert cached[..|cached|] == cached;
    ghost var kept := out;
    for i := 0 to |added|
      invariant InsertAll(kept, added[..i]) == Spliced(out)
    {
      assert added[..i + 1] == added[..i] + [added[i]];
      InsertOne(kept, added[..i], added[i]);
      if added[i].index > |out| {
        FailureStands(kept, added, i + 1);
        return PastTheEnd(added[i]);
      }
      out := out[..added[i].index] + [added[i].id] + out[added[i].index..];
    }
    assert added[..|added|] == added;
    return Spliced(out);
  }

  // ---------------------------------------------------------------- what the server promised

  predicate Increasing(at: seq<int>, limit: nat) {
    (forall i | 0 <= i < |at| :: 0 <= at[i] < limit) && forall i, j | 0 <= i < j < |at| :: at[i] < at[j]
  }

  /** from lists, in their order, exactly the rows of cached whose id is not removed. */
  predicate Survivors(cached: seq<Id>, removed: seq<Id>, from: seq<int>) {
    && Increasing(from, |cached|)
    && (forall k | 0 <= k < |from| :: cached[from[k]] !in removed)
    && (forall i | 0 <= i < |cached| && cached[i] !in removed :: exists k | 0 <= k < |from| :: from[k] == i)
  }

  /** latest is cached brought up to date: its surviving rows in their order, at the rows `to`, and each
      added item at its place. */
  ghost predicate Updated(cached: seq<Id>, removed: seq<Id>, added: seq<AddedItem>, latest: seq<Id>) {
    exists from, to :: Survivors(cached, removed, from) && UpdatedAt(cached, added, latest, from, to)
  }

  predicate UpdatedAt(cached: seq<Id>, added: seq<AddedItem>, latest: seq<Id>, from: seq<int>, to: seq<int>) {
    && |to| == |from| && |latest| == |from| + |added| && Increasing(to, |latest|)
    && (forall k | 0 <= k < |from| :: 0 <= from[k] < |cached| && latest[to[k]] == cached[from[k]])
    && (forall j | 0 <= j < |added| ::
          0 <= Places(added)[j] < |latest| && latest[Places(added)[j]] == added[j].id)
    && (forall k, j | 0 <= k < |to| && 0 <= j < |added| :: to[k] != Places(added)[j])
  }

  /** item is the first of added whose index lies past the end of the list it is inserted into: the
      survivors and the items before it. */
  ghost predicate Overruns(cached: seq<Id>, removed: seq<Id>, added: seq<AddedItem>, item: AddedItem) {
    exists from, n :: Survivors(cached, removed, from) && OverrunsAt(added, |from|, n) && added[n] == item
  }

  predicate OverrunsAt(added: seq<AddedItem>, size: nat, n: int) {
    && 0 <= n < |added| && added[n].index > size + n
    && forall m | 0 <= m < n :: added[m].index <= size + m
  }

  predicate Strict(added: seq<AddedItem>) { forall i, j | 0 <= i < j < |added| :: added[i].index < added[j].index }

  /** Where rows stand once one is inserted at `index`. */
  function Shifted(at: seq<int>, index: int): (r: seq<int>)
    ensures |r| == |at|
    ensures forall i | 0 <= i < |at| :: r[i] == if at[i] < index then at[i] else at[i] + 1
  {
    seq(|at|, i requires 0 <= i < |at| => if at[i] < index then at[i] else at[i] + 1)
  }

  /** The row each added item ends on: its own index, moved down by every later item at or above it. */
  function Places(added: seq<AddedItem>): (r: seq<int>)
    ensures |r| == |added|
  {
    if added == [] then []
    else
      var n := |added| - 1;
      Shifted(Places(added[..n]), added[n].index) + [added[n].index]
  }

  /** latest is kept's rows in their order at the rows `at`, and every other row is an added item's. */
  predicate Merged(latest: seq<Id>, kept: seq<Id>, at: seq<int>, added: seq<AddedItem>) {
    && |at| == |kept| && |latest| == |kept| + |added|
    && Increasing(at, |latest|) && (forall i | 0 <= i < |kept| :: latest[at[i]] == kept[i])
    && (forall j | 0 <= j < |added| ::
          0 <= Places(added)[j] < |latest| && latest[Places(added)[j]] == added[j].id)
    && (forall i, j | 0 <= i < |at| && 0 <= j < |added| :: at[i] != Places(added)[j])
  }

  lemma PlacesGrow(added: seq<AddedItem>, item: AddedItem)
    ensures Places(added + [item]) == Shifted(Places(added), item.index) + [item.index]
  {
    assert (added + [item])[..|added|] == added;
  }

  lemma ShiftMerges(latest: seq<Id>, kept: seq<Id>, at: seq<int>, added: seq<AddedItem>, item: AddedItem)
    requires Merged(latest, kept, at, added) && item.index <= |latest|
    ensures Merged(Inserted(latest, item), kept, Shifted(at, item.index), added + [item])
  {
    var latest2 := Inserted(latest, item);
    PlacesGrow(added, item);
    hide Places;
    forall p | 0 <= p < |latest| ensures latest2[if p < item.index then p else p + 1] == latest[p] {}
  }

  function Identity(n: nat): (r: seq<int>)
    ensures |r| == n && forall i | 0 <= i < n :: r[i] == i
  {
    seq(n, i => i)
  }

  /** Splicing yields the kept rows in their order, and every added id at its place. */
  lemma {:induction false} SpliceMerges(kept: seq<Id>, added: seq<AddedItem>) returns (at: seq<int>)
    requires InsertAll(kept, added).Spliced?
    ensures Merged(InsertAll(kept, added).ids, kept, at, added)
    decreases |added|
  {
    if added == [] {
      at := Identity(|kept|);
    } else {
      var n := |added| - 1;
      assert added == added[..n] + [added[n]];
      var before := SpliceMerges(kept, added[..n]);
      ShiftMerges(InsertAll(kept, added[..n]).ids, kept, before, added[..n], added[n]);
      at := Shifted(before, added[n].index);
    }
  }

  /** Where rows stand once the one at `index` is taken out. */
  function Unshifted(at: seq<int>, index: int): (r: seq<int>)
    ensures |r| == |at|
    ensures forall i | 0 <= i < |at| :: r[i] == if at[i] < index then at[i] else at[i] - 1
  {
    seq(|at|, i requires 0 <= i < |at| => if at[i] < index then at[i] else at[i] - 1)
  }

  /** Without the last item, every other item and every kept row stands where it was before it. */
  lemma PlacesBefore(latest: seq<Id>, kept: seq<Id>, at: seq<int>, added: seq<AddedItem>, item: AddedItem)
    requires Merged(latest, kept, at, added + [item])
    ensures |Places(added)| == |added| && item.index < |latest| && latest[item.index] == item.id
    ensures forall i | 0 <= i < |at| :: at[i] != item.index
    ensures forall j | 0 <= j < |added| ::
              var p := Shifted(Places(added), item.index)[j];
              0 <= p < |latest| && latest[p] == added[j].id && forall i | 0 <= i < |at| :: at[i] != p
  {
    var all, n := added + [item], |added|;
    PlacesGrow(added, item);
    hide Places;
    assert Places(all)[n] == item.index && all[n] == item;
    forall j | 0 <= j < n
      ensures all[j] == added[j] && Places(all)[j] == Shifted(Places(added), item.index)[j] {}
    forall i | 0 <= i < |at| ensures at[i] != item.index { assert at[i] != Places(all)[n]; }
  }

  /** Taking the last item's row out of a merged list leaves the list merged before it. */
  lemma Unmerge(latest: seq<Id>, kept: seq<Id>, at: seq<int>, added: seq<AddedItem>, item: AddedItem)
    requires Merged(latest, kept, at, added + [item])
    ensures item.index < |latest|
    ensures var before := latest[..item.index] + latest[item.index + 1..];
            Merged(before, kept, Unshifted(at, item.index), added) && Inserted(before, item) == latest
  {
    hide Places, Inserted;
    PlacesBefore(latest, kept, at, added, item);
    var before := latest[..item.index] + latest[item.index + 1..];
    TakenOut(latest, item);
    forall j | 0 <= j < |added|
      ensures 0 <= Places(added)[j] < |before| && before[Places(added)[j]] == added[j].id
      ensures forall i | 0 <= i < |at| :: Unshifted(at, item.index)[i] != Places(added)[j]
    {
      assert Shifted(Places(added), item.index)[j] != item.index;
    }
    UnshiftedRuns(at, |latest|, item.index);
  }

  lemma TakenOut(latest: seq<Id>, item: AddedItem)
    requires item.index < |latest| && latest[item.index] == item.id
    ensures var before := latest[..item.index] + latest[item.index + 1..];
            && |before| == |latest| - 1 && Inserted(before, item) == latest
            && forall p | 0 <= p < |latest| && p != item.index ::
                 before[if p < item.index then p else p - 1] == latest[p]
  {
  }

  lemma UnshiftedRuns(at: seq<int>, limit: nat, index: nat)
    requires Increasing(at, limit) && index < limit && forall i | 0 <= i < |at| :: at[i] != index
    ensures Increasing(Unshifted(at, index), limit - 1)
  {
  }

  /** A merged list is what the insertions yield. */
  lemma {:induction false} MergedIsSpliced(latest: seq<Id>, kept: seq<Id>, at: seq<int>, added: seq<AddedItem>)
    requires Merged(latest, kept, at, added)
    ensures InsertAll(kept, added) == Spliced(latest)
    decreases |added|
  {
    if added == [] {
      RunIsIdentity(at);
      assert latest == kept;
    } else {
      hide Merged, Places, Inserted;
      var n := |added| - 1;
      var item := added[n];
      assert added == added[..n] + [item];
      Unmerge(latest, kept, at, added[..n], item);
      MergedIsSpliced(latest[..item.index] + latest[item.index + 1..], kept, Unshifted(at, item.index), added[..n]);
    }
  }

  lemma {:induction false} RunIsIdentity(at: seq<int>)
    requires Increasing(at, |at|)
    ensures forall i | 0 <= i < |at| :: at[i] == i
    decreases |at|
  {
    if at != [] {
      var n := |at| - 1;
      RunStartsHigh(at, |at|, n);
      RunIsIdentity(at[..n]);
    }
  }

  lemma {:induction false} RunStartsHigh(at: seq<int>, limit: nat, n: nat)
    requires Increasing(at, limit) && n < |at|
    ensures at[n] >= n
  {
    if n > 0 { RunStartsHigh(at, limit, n - 1); }
  }

  lemma IncreasingIsShort(at: seq<int>, limit: nat)
    requires Increasing(at, limit)
    ensures |at| <= limit
  {
    if at != [] { RunStartsHigh(at, limit, |at| - 1); }
  }

  /** What the deletions keep is the surviving rows. */
  lemma {:induction false} KeptSurvive(cached: seq<Id>, removed: seq<Id>) returns (from: seq<int>)
    ensures Survivors(cached, removed, from)
    ensures PicksOut(cached, from, Kept(cached, removed))
    decreases |cached|
  {
    from := [];
    if cached != [] {
      hide Survivors, PicksOut;
      var n := |cached| - 1;
      var before := KeptSurvive(cached[..n], removed);
      SurvivorsGrow(cached, removed, before);
      if cached[n] in removed {
        from := before;
        StillPicksOut(cached, from, Kept(cached[..n], removed));
      } else {
        from := before + [n];
        PicksOneMore(cached, from, Kept(cached[..n], removed));
      }
    }
  }

  lemma StillPicksOut(cached: seq<Id>, from: seq<int>, kept: seq<Id>)
    requires cached != [] && PicksOut(cached[..|cached| - 1], from, kept)
    ensures PicksOut(cached, from, kept)
  {
  }

  lemma SurvivorsGrow(cached: seq<Id>, removed: seq<Id>, before: seq<int>)
    requires cached != [] && Survivors(cached[..|cached| - 1], removed, before)
    ensures Survivors(cached, removed, before + if cached[|cached| - 1] in removed then [] else [|cached| - 1])
  {
    var n := |cached| - 1;
    var from := before + if cached[n] in removed then [] else [n];
    forall k | 0 <= k < |from| ensures cached[from[k]] !in removed {
      if k < |before| { assert from[k] == before[k] && cached[..n][before[k]] !in removed; }
    }
    forall i | 0 <= i < |cached| && cached[i] !in removed ensures exists k | 0 <= k < |from| :: from[k] == i {
      if i < n {
        assert cached[..n][i] == cached[i];
        var k :| 0 <= k < |before| && before[k] == i;
        assert from[k] == i;
      } else {
        assert from[|before|] == i;
      }
    }
  }

  /** Without a last row that is removed the survivors are the same. */
  lemma SurvivorsWithoutGone(cached: seq<Id>, removed: seq<Id>, from: seq<int>)
    requires cached != [] && Survivors(cached, removed, from) && cached[|cached| - 1] in removed
    ensures Survivors(cached[..|cached| - 1], removed, from)
  {
    var n := |cached| - 1;
    forall k | 0 <= k < |from| ensures from[k] < n && cached[..n][from[k]] == cached[from[k]] {}
  }

  /** A last row that stays is the last survivor. */
  lemma SurvivorsWithoutLast(cached: seq<Id>, removed: seq<Id>, from: seq<int>)
    requires cached != [] && Survivors(cached, removed, from) && cached[|cached| - 1] !in removed
    ensures from != [] && from[|from| - 1] == |cached| - 1
    ensures Survivors(cached[..|cached| - 1], removed, from[..|from| - 1])
  {
    LastSurvivor(cached, removed, from);
    var n, last := |cached| - 1, |from| - 1;
    var front, rest := cached[..n], from[..last];
    forall m | 0 <= m < last ensures 0 <= rest[m] < n && front[rest[m]] == cached[from[m]] {}
    forall i | 0 <= i < n && front[i] !in removed ensures exists m | 0 <= m < |rest| :: rest[m] == i {
      assert cached[i] !in removed;
      var m :| 0 <= m < |from| && from[m] == i;
      assert rest[m] == i;
    }
  }

  lemma LastSurvivor(cached: seq<Id>, removed: seq<Id>, from: seq<int>)
    requires cached != [] && Survivors(cached, removed, from) && cached[|cached| - 1] !in removed
    ensures from != [] && from[|from| - 1] == |cached| - 1
    ensures forall m | 0 <= m < |from| - 1 :: from[m] < |cached| - 1
  {
    var k :| 0 <= k < |from| && from[k] == |cached| - 1;
    var last := |from| - 1;
    assert from[k] <= from[last];
    assert forall m | 0 <= m < last :: from[m] < from[last];
  }

  /** kept is the ids of cached at the rows `from`. */
  predicate PicksOut(cached: seq<Id>, from: seq<int>, kept: seq<Id>) {
    |kept| == |from| && forall k | 0 <= k < |from| :: 0 <= from[k] < |cached| && kept[k] == cached[from[k]]
  }

  lemma PicksOneMore(cached: seq<Id>, from: seq<int>, kept: seq<Id>)
    requires cached != [] && from != [] && from[|from| - 1] == |cached| - 1
    requires PicksOut(cached[..|cached| - 1], from[..|from| - 1], kept)
    ensures PicksOut(cached, from, kept + [cached[|cached| - 1]])
  {
  }

  /** Whatever lists the surviving rows lists what the deletions keep. */
  lemma {:induction false} SurvivorsAreKept(cached: seq<Id>, removed: seq<Id>, from: seq<int>)
    requires Survivors(cached, removed, from)
    ensures PicksOut(cached, from, Kept(cached, removed))
    decreases |cached|
  {
    if cached == [] {
      IncreasingIsShort(from, |cached|);
    } else {
      hide Survivors;
      var n := |cached| - 1;
      if cached[n] in removed {
        SurvivorsWithoutGone(cached, removed, from);
        SurvivorsAreKept(cached[..n], removed, from);
      } else {
        SurvivorsWithoutLast(cached, removed, from);
        SurvivorsAreKept(cached[..n], removed, from[..|from| - 1]);
        hide PicksOut;
        PicksOneMore(cached, from, Kept(cached[..n], removed));
      }
    }
  }

  /** The deletions and the insertions yield latest exactly when latest is cached brought up to date. */
  lemma SpliceIsTheMerge(cached: seq<Id>, removed: seq<Id>, added: seq<AddedItem>, latest: seq<Id>)
    ensures InsertAll(Kept(cached, removed), added) == Spliced(latest) <==> Updated(cached, removed, added, latest)
  {
    hide InsertAll, Places, Kept;
    var kept := Kept(cached, removed);
    if Updated(cached, removed, added, latest) {
      var from, to :| Survivors(cached, removed, from) && UpdatedAt(cached, added, latest, from, to);
      SurvivorsAreKept(cached, removed, from);
      MergedIsSpliced(latest, kept, to, added);
    }
    if InsertAll(kept, added) == Spliced(latest) {
      var rows := KeptSurvive(cached, removed);
      var at := SpliceMerges(kept, added);
      assert UpdatedAt(cached, added, latest, rows, at);
    }
  }

  /** Where the insertions end: past the end at the first item that does not fit, or with all of them in. */
  lemma {:induction false} InsertionsEnd(out: seq<Id>, added: seq<AddedItem>) returns (n: int)
    ensures InsertAll(out, added).PastTheEnd? ==>
              OverrunsAt(added, |out|, n) && InsertAll(out, added) == PastTheEnd(added[n])
    ensures InsertAll(out, added).Spliced? ==>
              && |InsertAll(out, added).ids| == |out| + |added|
              && forall m | 0 <= m < |added| :: added[m].index <= |out| + m
    ensures !InsertAll(out, added).NotAscending?
    decreases |added|
  {
    n := |added| - 1;
    if added != [] {
      var before := InsertionsEnd(out, added[..n]);
      if InsertAll(out, added[..n]).PastTheEnd? { n := before; }
    }
  }

  lemma PastTheEndIff(cached: seq<Id>, removed: seq<Id>, added: seq<AddedItem>, item: AddedItem)
    ensures Overruns(cached, removed, added, item) <==> InsertAll(Kept(cached, removed), added) == PastTheEnd(item)
  {
    hide Survivors, InsertAll, Kept;
    var kept := Kept(cached, removed);
    var rows := KeptSurvive(cached, removed);
    var n := InsertionsEnd(kept, added);
    if Overruns(cached, removed, added, item) {
      var from, m :| Survivors(cached, removed, from) && OverrunsAt(added, |from|, m) && added[m] == item;
      SurvivorsAreKept(cached, removed, from);
      assert InsertAll(kept, added).PastTheEnd?;
      assert m == n;
    }
    if InsertAll(kept, added) == PastTheEnd(item) { assert OverrunsAt(added, |rows|, n); }
  }

  /** No item ends above its own index. */
  lemma {:induction false} PlacesFall(added: seq<AddedItem>)
    ensures forall j | 0 <= j < |added| :: Places(added)[j] >= added[j].index
    decreases |added|
  {
    if added != [] {
      var n := |added| - 1;
      PlacesFall(added[..n]);
      forall j | 0 <= j < n ensures Places(added)[j] >= Places(added[..n])[j] && added[..n][j] == added[j] {}
    }
  }

  lemma {:induction false} StrictPlaces(added: seq<AddedItem>)
    requires Strict(added)
    ensures forall j | 0 <= j < |added| :: Places(added)[j] == added[j].index
    decreases |added|
  {
    if added != [] {
      var n := |added| - 1;
      assert Strict(added[..n]);
      StrictPlaces(added[..n]);
      forall j | 0 <= j < n ensures Places(added)[j] == added[j].index {
        assert Places(added[..n])[j] == added[..n][j].index == added[j].index < added[n].index;
      }
    }
  }

  /** The later of two items at one index moves the earlier one down. */
  lemma {:induction false} EqualPlacesFall(added: seq<AddedItem>, i: nat, j: nat)
    requires i < j < |added| && added[i].index == added[j].index
    ensures Places(added)[i] > added[i].index
    decreases |added|
  {
    var n := |added| - 1;
    if j == n { PlacesFall(added[..n]); } else { EqualPlacesFall(added[..n], i, j); }
    assert Places(added)[i] == Shifted(Places(added[..n]), added[n].index)[i];
  }

  /** In a sorted array every item ends right at its own index exactly when no two indexes are equal. */
  lemma {:induction false} PlacesAreIndexesIff(added: seq<AddedItem>)
    requires Ascending(added)
    ensures (forall j | 0 <= j < |added| :: Places(added)[j] == added[j].index) <==> Strict(added)
  {
    if Strict(added) {
      StrictPlaces(added);
    } else {
      var i, j :| 0 <= i < j < |added| && added[i].index >= added[j].index;
      EqualPlacesFall(added, i, j);
    }
  }

  // ---------------------------------------------------------------- lists of distinct ids

  predicate Distinct(ids: seq<Id>) { forall i, j | 0 <= i < j < |ids| :: ids[i] != ids[j] }

  /** id is one of ids. */
  predicate Listed(ids: seq<Id>, id: Id) { exists i | 0 <= i < |ids| :: ids[i] == id }

  /** A row of cached has this id, and it is not removed. */
  predicate Stays(cached: seq<Id>, removed: seq<Id>, id: Id) { id !in removed && Listed(cached, id) }

  /** The server's answer about a full cached list whose ids are distinct (section 5.6): every id that is
      not removed is in the new list, any two of them in the order they had, and added lists every other
      id of the new list with its new row, lowest first. */
  predicate Answers(cached: seq<Id>, removed: seq<Id>, added: seq<AddedItem>, latest: seq<Id>) {
    && Distinct(latest) && Strict(added)
    && (forall i, j | 0 <= i < j < |cached| && cached[i] !in removed :: cached[i] != cached[j])
    && (forall i | 0 <= i < |cached| && cached[i] !in removed :: Listed(latest, cached[i]))
    && (forall i, j, p, q | 0 <= i < j < |cached| && cached[i] !in removed && cached[j] !in removed
                            && 0 <= p < |latest| && 0 <= q < |latest|
                            && latest[p] == cached[i] && latest[q] == cached[j] :: p < q)
    && (forall j | 0 <= j < |added| ::
          added[j].index < |latest| && latest[added[j].index] == added[j].id && !Stays(cached, removed, added[j].id))
    && (forall p | 0 <= p < |latest| && !Stays(cached, removed, latest[p]) ::
          exists j | 0 <= j < |added| :: added[j].index == p)
  }

  /** The same of the rows the deletions keep. */
  predicate AnswersKept(kept: seq<Id>, added: seq<AddedItem>, latest: seq<Id>) {
    && Distinct(kept) && Distinct(latest) && Strict(added)
    && (forall i | 0 <= i < |kept| :: Listed(latest, kept[i]))
    && (forall i, j, p, q | 0 <= i < j < |kept| && 0 <= p < |latest| && 0 <= q < |latest|
                            && latest[p] == kept[i] && latest[q] == kept[j] :: p < q)
    && (forall j | 0 <= j < |added| ::
          added[j].index < |latest| && latest[added[j].index] == added[j].id && !Listed(kept, added[j].id))
    && (forall p | 0 <= p < |latest| && !Listed(kept, latest[p]) :: exists j | 0 <= j < |added| :: added[j].index == p)
  }

  ghost function RowOf(ids: seq<Id>, id: Id): (p: int)
    requires Listed(ids, id)
    ensures 0 <= p < |ids| && ids[p] == id
  {
    var i :| 0 <= i < |ids| && ids[i] == id;
    i
  }

  predicate Taken(at: seq<int>, added: seq<AddedItem>, q: int) {
    (exists i | 0 <= i < |at| :: at[i] == q) || (exists j | 0 <= j < |added| :: added[j].index == q)
  }

  /** Rows and items together are as many as the new list: each row is a kept id's or an item's. */
  lemma {:induction false} Covers(latest: seq<Id>, at: seq<int>, added: seq<AddedItem>, p: nat) returns (k: nat, j: nat)
    requires p <= |latest| && Increasing(at, |latest|) && Strict(added)
    requires forall j | 0 <= j < |added| :: added[j].index < |latest|
    requires forall i, j | 0 <= i < |at| && 0 <= j < |added| :: at[i] != added[j].index
    requires forall q | 0 <= q < |latest| :: Taken(at, added, q)
    ensures k <= |at| && j <= |added| && k + j == p
    ensures p == |latest| ==> k == |at| && j == |added|
  {
    k, j := 0, 0;
    for q := 0 to p
      invariant k <= |at| && j <= |added| && k + j == q
      invariant forall i | 0 <= i < |at| :: at[i] < q <==> i < k
      invariant forall i | 0 <= i < |added| :: added[i].index < q <==> i < j
    {
      assert Taken(at, added, q);
      if k < |at| && at[k] == q {
        k := k + 1;
      } else {
        var here := if k < |at| then at[k] else q + 1;
        assert forall i | 0 <= i < |at| :: at[i] != q;
        var x :| 0 <= x < |added| && added[x].index == q;
        assert j <= x && added[j].index <= added[x].index;
        j := j + 1;
      }
    }
    if |at| > 0 { assert at[|at| - 1] < |latest|; }
    if |added| > 0 { assert added[|added| - 1].index < |latest|; }
  }

  /** On such an answer Splice of the old list is the new list. */
  lemma SpliceOfDistinctIds(cached: seq<Id>, removed: seq<Id>, added: seq<AddedItem>, latest: seq<Id>)
    requires Answers(cached, removed, added, latest)
    ensures InsertAll(Kept(cached, removed), added) == Spliced(latest)
  {
    hide Kept, InsertAll, Answers, AnswersKept;
    KeptAnswers(cached, removed, added, latest);
    SpliceOfKept(Kept(cached, removed), added, latest);
  }

  lemma KeptAnswers(cached: seq<Id>, removed: seq<Id>, added: seq<AddedItem>, latest: seq<Id>)
    requires Answers(cached, removed, added, latest)
    ensures AnswersKept(Kept(cached, removed), added, latest)
  {
    var kept := Kept(cached, removed);
    var from := KeptSurvive(cached, removed);
    hide Kept;
    forall k | 0 <= k < |kept|
      ensures 0 <= from[k] < |cached| && kept[k] == cached[from[k]] && cached[from[k]] !in removed {}
    forall id ensures Listed(kept, id) <==> Stays(cached, removed, id) {
      if Listed(kept, id) {
        var k :| 0 <= k < |kept| && kept[k] == id;
        assert cached[from[k]] == id;
      }
      if Stays(cached, removed, id) {
        var i :| 0 <= i < |cached| && cached[i] == id;
        var k :| 0 <= k < |from| && from[k] == i;
        assert kept[k] == id;
      }
    }
  }

  lemma SpliceOfKept(kept: seq<Id>, added: seq<AddedItem>, latest: seq<Id>)
    requires AnswersKept(kept, added, latest)
    ensures InsertAll(kept, added) == Spliced(latest)
  {
    var at := seq(|kept|, i requires 0 <= i < |kept| && Listed(latest, kept[i]) => RowOf(latest, kept[i]));
    forall q | 0 <= q < |latest| ensures Taken(at, added, q) {
      if Listed(kept, latest[q]) {
        var i :| 0 <= i < |kept| && kept[i] == latest[q];
        assert at[i] == q;
      }
    }
    forall i, j | 0 <= i < |at| && 0 <= j < |added| ensures at[i] != added[j].index {
      assert Listed(kept, kept[i]);
    }
    var k, j := Covers(latest, at, added, |latest|);
    PlacesAreIndexesIff(added);
    assert Merged(latest, kept, at, added);
    MergedIsSpliced(latest, kept, at, added);
  }
}
