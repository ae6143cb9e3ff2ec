/**
 * The radar's selection: an id-keyed, insertion-ordered map of selected space objects,
 * filtered by a type filter and an optional view filter, that reports every id whose
 * selection state changes followed by one 'changed' event.
 */
module Selection {
  import opened Wrappers
  import opened SpaceObjectBase

  /** A type-filter value; `filterObject` is not part of this model and is a parameter. */
  type TypeFilter = nat

  /** The value standing for `TypeFilter.ALL`, the filter a new container starts with. */
  const ALL_FILTER: TypeFilter := 0

  /** Events go out on one emitter: the event name is an object's id, or 'changed'. */
  datatype Event = ObjectEvent(id: Id) | Changed

  const PATH_SEPARATOR: char := '/'

  function IdSet(xs: seq<SpaceObject>): set<Id> {
    set o | o in xs :: o.id
  }

  lemma IdSetAppend(xs: seq<SpaceObject>, x: SpaceObject)
    ensures IdSet(xs + [x]) == IdSet(xs) + {x.id}
  {
    assert forall o :: o in xs + [x] <==> o in xs || o == x;
  }

  predicate DistinctIds(ids: seq<Id>) {
    forall i, j :: 0 <= i < j < |ids| ==> ids[i] != ids[j]
  }

  function IdsOf(xs: seq<SpaceObject>): (r: seq<Id>)
    ensures |r| == |xs|
    ensures forall i :: 0 <= i < |xs| ==> r[i] == xs[i].id
  {
    seq(|xs|, i requires 0 <= i < |xs| => xs[i].id)
  }

  /** `order` without `id`. */
  function Without(order: seq<Id>, id: Id): (r: seq<Id>)
    ensures forall x :: x in r <==> x in order && x != id
    ensures DistinctIds(order) ==> DistinctIds(r)
  {
    if order == [] then []
    else
      var rest := Without(order[1..], id);
      assert DistinctIds(order) ==> DistinctIds(order[1..]) && order[0] !in order[1..];
      if order[0] == id then rest else [order[0]] + rest
  }

  /**
   * The `selected` Map: its keys in insertion order, and the object stored under each key.
   * `Map.set` on a present key replaces the value and keeps the key's position.
   */
  datatype Selected = Selected(order: seq<Id>, items: map<Id, SpaceObject>) {
    ghost predicate Valid() {
      && DistinctIds(order)
      && (forall id :: id in items <==> id in order)
      && (forall id :: id in items ==> items[id].id == id)
    }

    /** `selected.set(o.id, o)`. */
    function Put(o: SpaceObject): (r: Selected)
      ensures Valid() ==> r.Valid()
      ensures r.items == items[o.id := o]
    {
      if o.id in items then Selected(order, items[o.id := o]) else Selected(order + [o.id], items[o.id := o])
    }

    /** `selected.delete(id)`. */
    function Delete(id: Id): (r: Selected)
      ensures Valid() ==> r.Valid()
      ensures r.items == items - {id}
    {
      if id in items then Selected(Without(order, id), items - {id}) else Selected(order, items - {id})
    }

    /** `selected.values()`, in insertion order. */
    function Values(): (r: seq<SpaceObject>)
      requires Valid()
      ensures |r| == |order|
      ensures forall i :: 0 <= i < |order| ==> r[i] == items[order[i]]
      ensures IdSet(r) == items.Keys
    {
      var r := seq(|order|, i requires 0 <= i < |order| => items[order[i]]);
      assert forall id :: id in items ==> id in IdSet(r) by {
        forall id | id in items
          ensures id in IdSet(r)
        {
          var i :| 0 <= i < |order| && order[i] == id;
          assert r[i].id == id;
        }
      }
      r
    }
  }

  const EMPTY: Selected := Selected([], map[])

  /** `Array.prototype.filter`. */
  function Filter(xs: seq<SpaceObject>, p: SpaceObject -> bool): (r: seq<SpaceObject>)
    ensures |r| <= |xs|
    ensures forall x :: x in r <==> x in xs && p(x)
  {
    if xs == [] then []
    else Filter(xs[..|xs| - 1], p) + (if p(xs[|xs| - 1]) then [xs[|xs| - 1]] else [])
  }

  /** Filtering a sequence with one more element filters that element last. */
  lemma FilterSnoc(xs: seq<SpaceObject>, x: SpaceObject, p: SpaceObject -> bool)
    ensures Filter(xs + [x], p) == Filter(xs, p) + (if p(x) then [x] else [])
  {
    assert (xs + [x])[..|xs|] == xs;
  }

  /** Filtering twice by the same predicate is filtering once. */
  lemma {:induction false} FilterTwice(xs: seq<SpaceObject>, p: SpaceObject -> bool)
    ensures Filter(Filter(xs, p), p) == Filter(xs, p)
  {
    if xs != [] {
      var n := |xs| - 1;
      var front := Filter(xs[..n], p);
      FilterTwice(xs[..n], p);
      if p(xs[n]) {
        assert Filter(xs, p) == front + [xs[n]];
        FilterSnoc(front, xs[n], p);
      } else {
        assert Filter(xs, p) == front + [];
        assert front + [] == front;
      }
    }
  }

  /**
   * `filterPredicate`: the filter's predicate, and also the view filter's when there is a
   * view filter whose value is truthy (not 0) and differs from the filter's.
   */
  function FilterPredicate(filterObject: (TypeFilter, SpaceObject) -> bool, filter: TypeFilter,
                           viewFilter: Option<TypeFilter>, o: SpaceObject): (r: bool)
    ensures r ==> filterObject(filter, o)
    ensures viewFilter.None? || viewFilter.value == 0 ==> (r <==> filterObject(filter, o))
  {
    if viewFilter.Some? && viewFilter.value != 0 && viewFilter.value != filter then
      filterObject(filter, o) && filterObject(viewFilter.value, o)
    else
      filterObject(filter, o)
  }

  /**
   * Skipping the second predicate when both filters are equal is only a shortcut: an object
   * passes exactly when it passes the filter and, if there is a truthy one, the view filter.
   * When the filter 0 (`ALL`) lets every object through, a view filter of 0 needs no
   * exception either.
   */
  lemma FilterPredicateIsConjunction(filterObject: (TypeFilter, SpaceObject) -> bool, filter: TypeFilter,
                                     viewFilter: Option<TypeFilter>, o: SpaceObject)
    ensures FilterPredicate(filterObject, filter, viewFilter, o)
        <==> filterObject(filter, o) && (viewFilter.Some? && viewFilter.value != 0 ==> filterObject(viewFilter.value, o))
    ensures filterObject(ALL_FILTER, o) ==>
      (FilterPredicate(filterObject, filter, viewFilter, o) <==>
         filterObject(filter, o) && (viewFilter.Some? ==> filterObject(viewFilter.value, o)))
  {
  }

  /** The `selected.set` loop over a list of objects. */
  function PutAll(sel: Selected, xs: seq<SpaceObject>): Selected
  {
    if xs == [] then sel else PutAll(sel, xs[..|xs| - 1]).Put(xs[|xs| - 1])
  }

  /**
   * After storing a list, the keys are the old keys plus the list's ids, each id of the list
   * holds an object of the list, and every other key keeps its object.
   */
  lemma {:induction false} PutAllStores(sel: Selected, xs: seq<SpaceObject>)
    requires sel.Valid()
    ensures PutAll(sel, xs).Valid()
    ensures PutAll(sel, xs).items.Keys == sel.items.Keys + IdSet(xs)
    ensures forall id :: id in IdSet(xs) ==> PutAll(sel, xs).items[id] in xs && PutAll(sel, xs).items[id].id == id
    ensures forall id :: id in sel.items && id !in IdSet(xs) ==> PutAll(sel, xs).items[id] == sel.items[id]
  {
    if xs != [] {
      var n := |xs| - 1;
      PutAllStores(sel, xs[..n]);
      assert xs == xs[..n] + [xs[n]];
      IdSetAppend(xs[..n], xs[n]);
    }
  }

  /** The objects of `xs` whose id is not selected yet: what `add` reports. */
  function NewItems(sel: Selected, xs: seq<SpaceObject>): (r: seq<SpaceObject>)
    ensures forall o :: o in r <==> o in xs && o.id !in sel.items
  {
    Filter(xs, (o: SpaceObject) => o.id !in sel.items)
  }

  /**
   * The `remove` scan: deletes each object's id in turn and collects the objects whose
   * delete found something.
   */
  function RemoveScan(sel: Selected, xs: seq<SpaceObject>): (Selected, seq<SpaceObject>)
  {
    if xs == [] then (sel, [])
    else
      var (s, changed) := RemoveScan(sel, xs[..|xs| - 1]);
      var o := xs[|xs| - 1];
      if o.id in s.items then (s.Delete(o.id), changed + [o]) else (s, changed)
  }

  /** `remove` deletes exactly the given ids and keeps the selection well formed. */
  lemma {:induction false} RemoveScanDeletes(sel: Selected, xs: seq<SpaceObject>)
    requires sel.Valid()
    ensures RemoveScan(sel, xs).0.Valid()
    ensures RemoveScan(sel, xs).0.items.Keys == sel.items.Keys - IdSet(xs)
  {
    if xs != [] {
      var n := |xs| - 1;
      RemoveScanDeletes(sel, xs[..n]);
      assert xs == xs[..n] + [xs[n]];
      IdSetAppend(xs[..n], xs[n]);
    }
  }

  /**
   * `remove` reports exactly the given ids that were selected, and every reported object is
   * one of the given ones.
   */
  lemma {:induction false} RemoveScanReports(sel: Selected, xs: seq<SpaceObject>)
    requires sel.Valid()
    ensures IdSet(RemoveScan(sel, xs).1) == sel.items.Keys * IdSet(xs)
    ensures forall o :: o in RemoveScan(sel, xs).1 ==> o in xs
  {
    if xs != [] {
      var n := |xs| - 1;
      RemoveScanReports(sel, xs[..n]);
      RemoveScanDeletes(sel, xs[..n]);
      assert xs == xs[..n] + [xs[n]];
      IdSetAppend(xs[..n], xs[n]);
      var (s, changed) := RemoveScan(sel, xs[..n]);
      if xs[n].id in s.items {
        IdSetAppend(changed, xs[n]);
      }
    }
  }

  /** `remove` reports each deleted id once. */
  lemma {:induction false} RemoveScanReportsOnce(sel: Selected, xs: seq<SpaceObject>)
    requires sel.Valid()
    ensures DistinctIds(IdsOf(RemoveScan(sel, xs).1))
  {
    if xs != [] {
      var n := |xs| - 1;
      RemoveScanReportsOnce(sel, xs[..n]);
      RemoveScanReports(sel, xs[..n]);
      RemoveScanDeletes(sel, xs[..n]);
      var (s, changed) := RemoveScan(sel, xs[..n]);
      if xs[n].id in s.items {
        assert xs[n].id !in IdSet(changed);
        assert IdsOf(changed + [xs[n]]) == IdsOf(changed) + [xs[n].id];
      }
    }
  }

  /**
   * The first half of `set`'s report: the objects of the list whose delete found nothing,
   * and the selection with the list's ids deleted; its remaining values are the second half.
   */
  function SetScan(sel: Selected, xs: seq<SpaceObject>): (Selected, seq<SpaceObject>)
  {
    if xs == [] then (sel, [])
    else
      var (s, changed) := SetScan(sel, xs[..|xs| - 1]);
      var o := xs[|xs| - 1];
      if o.id in s.items then (s.Delete(o.id), changed) else (s, changed + [o])
  }

  /** The scan of `set` deletes exactly the list's ids and keeps the selection well formed. */
  lemma {:induction false} SetScanSplits(sel: Selected, xs: seq<SpaceObject>)
    requires sel.Valid()
    ensures SetScan(sel, xs).0.Valid()
    ensures SetScan(sel, xs).0.items.Keys == sel.items.Keys - IdSet(xs)
  {
    if xs != [] {
      var n := |xs| - 1;
      SetScanSplits(sel, xs[..n]);
      assert xs == xs[..n] + [xs[n]];
      IdSetAppend(xs[..n], xs[n]);
    }
  }

  /**
   * The scan of `set` reports objects of the list, every list id that was not selected, and,
   * when the list's ids are distinct, nothing else.
   */
  lemma {:induction false} SetScanReports(sel: Selected, xs: seq<SpaceObject>)
    requires sel.Valid()
    ensures forall o :: o in SetScan(sel, xs).1 ==> o in xs
    ensures IdSet(xs) - sel.items.Keys <= IdSet(SetScan(sel, xs).1)
    ensures DistinctIds(IdsOf(xs)) ==> IdSet(SetScan(sel, xs).1) == IdSet(xs) - sel.items.Keys
  {
    if xs != [] {
      var n := |xs| - 1;
      SetScanReports(sel, xs[..n]);
      SetScanSplits(sel, xs[..n]);
      assert xs == xs[..n] + [xs[n]];
      IdSetAppend(xs[..n], xs[n]);
      var (s, changed) := SetScan(sel, xs[..n]);
      IdSetAppend(changed, xs[n]);
      if DistinctIds(IdsOf(xs)) {
        assert IdsOf(xs[..n]) == IdsOf(xs)[..n];
        assert xs[n].id !in IdSet(xs[..n]);
      }
    }
  }

  /** What `set` reports: the scan's objects, then the values it did not delete. */
  function SetChanged(sel: Selected, kept: seq<SpaceObject>): seq<SpaceObject>
    requires sel.Valid()
  {
    SetScanSplits(sel, kept);
    SetScan(sel, kept).1 + SetScan(sel, kept).0.Values()
  }

  /**
   * `set` reports every id that entered or left the selection, and when the list's ids are
   * distinct it reports nothing else: the ids are the symmetric difference of the two
   * selections.
   */
  lemma SetReportsSymmetricDifference(sel: Selected, kept: seq<SpaceObject>)
    requires sel.Valid()
    ensures PutAll(EMPTY, kept).items.Keys == IdSet(kept)
    ensures (IdSet(kept) - sel.items.Keys) + (sel.items.Keys - IdSet(kept)) <= IdSet(SetChanged(sel, kept))
    ensures DistinctIds(IdsOf(kept)) ==>
      IdSet(SetChanged(sel, kept)) == (IdSet(kept) - sel.items.Keys) + (sel.items.Keys - IdSet(kept))
  {
    PutAllStores(EMPTY, kept);
    SetScanSplits(sel, kept);
    SetScanReports(sel, kept);
    var (s, changed) := SetScan(sel, kept);
    assert IdSet(changed + s.Values()) == IdSet(changed) + IdSet(s.Values());
  }

  /** The events one report sends: each id in turn, then 'changed'; nothing for an empty report. */
  function Emitted(changed: seq<SpaceObject>): (r: seq<Event>)
    ensures changed == [] <==> r == []
    ensures changed != [] ==> |r| == |changed| + 1 && r[|changed|] == Changed
    ensures forall i :: 0 <= i < |changed| ==> r[i] == ObjectEvent(changed[i].id)
  {
    if changed == [] then [] else ObjectEvents(changed) + [Changed]
  }

  function ObjectEvents(changed: seq<SpaceObject>): (r: seq<Event>)
    ensures |r| == |changed|
  {
    seq(|changed|, i requires 0 <= i < |changed| => ObjectEvent(changed[i].id))
  }

  /** `add` sends nothing exactly when every object that passes the filter is already selected. */
  lemma AddSilentIffNothingNew(sel: Selected, kept: seq<SpaceObject>)
    ensures Emitted(NewItems(sel, kept)) == [] <==> forall o :: o in kept ==> o.id in sel.items
  {
    var r := NewItems(sel, kept);
    if exists o :: o in kept && o.id !in sel.items {
      var o :| o in kept && o.id !in sel.items;
      assert o in r;
    } else if r != [] {
      assert r[0] in r;
    }
  }

  /** The id in a '$remove' event's path: its third '/'-separated segment, if it has one. */
  function PathId(path: string): (r: Option<Id>)
    ensures r.Some? ==> PATH_SEPARATOR !in r.value
  {
    var segments := Split(path, PATH_SEPARATOR);
    if |segments| > 2 then Some(segments[2]) else None
  }

  /** `String.prototype.split` with a one-character separator. */
  function Split(s: string, sep: char): (parts: seq<string>)
    ensures |parts| >= 1
    ensures forall p :: p in parts ==> sep !in p
  {
    if s == [] then [""]
    else
      var rest := Split(s[1..], sep);
      if s[0] == sep then [""] + rest else [[s[0]] + rest[0]] + rest[1..]
  }

  /** `Array.prototype.join` with a one-character separator. */
  function Join(parts: seq<string>, sep: char): string
    requires |parts| >= 1
  {
    if |parts| == 1 then parts[0] else parts[0] + [sep] + Join(parts[1..], sep)
  }

  /** Joining the segments of a split gives back the string. */
  lemma {:induction false} JoinSplit(s: string, sep: char)
    ensures Join(Split(s, sep), sep) == s
  {
    if s != [] {
      var rest := Split(s[1..], sep);
      JoinSplit(s[1..], sep);
      if s[0] == sep {
        assert Split(s, sep)[1..] == rest;
      } else {
        var parts := Split(s, sep);
        if |rest| == 1 {
          assert parts == [[s[0]] + rest[0]];
        } else {
          assert parts[1..] == rest[1..];
          assert Join(rest, sep) == rest[0] + [sep] + Join(rest[1..], sep);
        }
      }
    }
  }

  /** A first character other than the separator joins the first segment of the rest. */
  lemma SplitOther(s: string, sep: char)
    requires s != [] && s[0] != sep
    ensures Split(s, sep) == [[s[0]] + Split(s[1..], sep)[0]] + Split(s[1..], sep)[1..]
  {
  }

  lemma {:induction false} SplitPrefix(p: string, tail: string, sep: char)
    requires sep !in p
    ensures Split(p + tail, sep) == [p + Split(tail, sep)[0]] + Split(tail, sep)[1..]
  {
    if p != [] {
      var t := Split(tail, sep);
      calc {
        Split(p + tail, sep);
      == { assert (p + tail)[1..] == p[1..] + tail; SplitOther(p + tail, sep); }
        [[p[0]] + Split(p[1..] + tail, sep)[0]] + Split(p[1..] + tail, sep)[1..];
      == { SplitPrefix(p[1..], tail, sep); }
        [[p[0]] + (p[1..] + t[0])] + t[1..];
      == { assert [p[0]] + (p[1..] + t[0]) == p + t[0]; }
        [p + t[0]] + t[1..];
      }
    } else {
      var t := Split(tail, sep);
      assert p + tail == tail;
      assert p + t[0] == t[0];
      assert t == [t[0]] + t[1..];
    }
  }

  /** Splitting segments joined by the separator gives back the segments. */
  lemma {:induction false} SplitJoin(parts: seq<string>, sep: char)
    requires |parts| >= 1
    requires forall p :: p in parts ==> sep !in p
    ensures Split(Join(parts, sep), sep) == parts
  {
    if |parts| == 1 {
      SplitPrefix(parts[0], "", sep);
      assert parts[0] + "" == parts[0];
      assert Split("", sep) == [""];
      assert parts == [parts[0]];
    } else {
      SplitJoin(parts[1..], sep);
      var tail := [sep] + Join(parts[1..], sep);
      assert parts[0] + [sep] + Join(parts[1..], sep) == parts[0] + tail;
      SplitPrefix(parts[0], tail, sep);
      assert tail[1..] == Join(parts[1..], sep);
      assert Split(tail, sep) == [""] + parts[1..];
      assert parts[0] + "" == parts[0];
      assert parts == [parts[0]] + parts[1..];
    }
  }

  /** A '$remove' path `/<collection>/<id>` carries the removed object's id. */
  lemma RemovePathCarriesId(collection: string, id: Id)
    requires PATH_SEPARATOR !in collection && PATH_SEPARATOR !in id
    ensures PathId([PATH_SEPARATOR] + collection + [PATH_SEPARATOR] + id) == Some(id)
  {
    var parts := ["", collection, id];
    SplitJoin(parts, PATH_SEPARATOR);
    assert parts[1..] == [collection, id] && parts[1..][1..] == [id];
    assert Join([collection, id], PATH_SEPARATOR) == collection + [PATH_SEPARATOR] + id;
    assert Join(parts, PATH_SEPARATOR) == [PATH_SEPARATOR] + collection + [PATH_SEPARATOR] + id;
  }

  /** Distinct ids: as many keys as entries, so `size` counts the selected objects. */
  lemma {:induction false} DistinctCount(order: seq<Id>)
    requires DistinctIds(order)
    ensures |set id | id in order| == |order|
  {
    if order != [] {
      var n := |order| - 1;
      DistinctCount(order[..n]);
      assert (set id | id in order) == (set id | id in order[..n]) + {order[n]};
      assert order[n] !in order[..n];
    }
  }

  class SelectionContainer {
    /** The filter property's value. */
    var filter: TypeFilter
    /** The view filter property's value, when there is a view filter. */
    var viewFilter: Option<TypeFilter>
    /** `filterObject`: the predicate a type filter selects. */
    const filterObject: (TypeFilter, SpaceObject) -> bool
    var selected: Selected
    /** Everything emitted on `events`, in order. */
    var events: seq<Event>

    ghost predicate Valid()
      reads this
    {
      selected.Valid()
    }

    constructor (filterObject: (TypeFilter, SpaceObject) -> bool, viewFilter: Option<TypeFilter>)
      ensures Valid()
      ensures this.filterObject == filterObject && this.viewFilter == viewFilter
      ensures filter == ALL_FILTER && selected == EMPTY && events == []
    {
      this.filterObject := filterObject;
      this.viewFilter := viewFilter;
      filter := ALL_FILTER;
      selected := EMPTY;
      events := [];
    }

    function Passes(o: SpaceObject): bool
      reads this`filter, this`viewFilter
    {
      FilterPredicate(filterObject, filter, viewFilter, o)
    }

    /** The objects of a list that pass `filterPredicate`. */
    function Kept(xs: seq<SpaceObject>): (r: seq<SpaceObject>)
      reads this`filter, this`viewFilter
      ensures forall o :: o in r <==> o in xs && Passes(o)
    {
      var fo, f1, f2 := filterObject, filter, viewFilter;
      Filter(xs, (o: SpaceObject) => FilterPredicate(fo, f1, f2, o))
    }

    /** Keeping what passes the filters a second time keeps everything. */
    lemma KeptTwice(xs: seq<SpaceObject>)
      ensures Kept(Kept(xs)) == Kept(xs)
    {
      var fo, f1, f2 := filterObject, filter, viewFilter;
      FilterTwice(xs, (o: SpaceObject) => FilterPredicate(fo, f1, f2, o));
    }

    /** `selectedItems`: the stored objects, in order, that pass the current filters. */
    function SelectedItems(): (r: seq<SpaceObject>)
      reads this
      requires Valid()
      ensures forall o :: o in r <==> o in selected.items.Values && Passes(o)
    {
      var values := selected.Values();
      assert forall o :: o in values <==> o in selected.items.Values by {
        forall o | o in selected.items.Values
          ensures o in values
        {
          var id :| id in selected.items && selected.items[id] == o;
          var i :| 0 <= i < |selected.order| && selected.order[i] == id;
          assert values[i] == o;
        }
      }
      Kept(values)
    }

    /** `has`: raw membership by id, whatever the filters. */
    function Has(o: SpaceObject): (r: bool)
      reads this
      ensures r <==> o.id in selected.items
    {
      o.id in selected.items
    }

    /** `size`: the number of stored objects, whatever the filters. */
    function Size(): (r: nat)
      reads this
      requires Valid()
      ensures r == |selected.items|
    {
      DistinctCount(selected.order);
      assert selected.items.Keys == set id | id in selected.order;
      |selected.order|
    }

    method Emit(changed: seq<SpaceObject>)
      modifies this`events
      ensures events == old(events) + Emitted(changed)
    {
      if |changed| > 0 {
        var i := 0;
        while i < |changed|
          invariant 0 <= i <= |changed|
          invariant events == old(events) + ObjectEvents(changed[..i])
        {
          events := events + [ObjectEvent(changed[i].id)];
          i := i + 1;
          assert ObjectEvents(changed[..i]) == ObjectEvents(changed[..i - 1]) + [ObjectEvent(changed[i - 1].id)];
        }
        assert changed[..i] == changed;
        events := events + [Changed];
      }
    }

    /** The `selected.set` loop: stores each object under its id, in order. */
    method StoreAll(xs: seq<SpaceObject>)
      requires Valid()
      modifies this`selected
      ensures Valid()
      ensures selected == PutAll(old(selected), xs)
    {
      var i := 0;
      while i < |xs|
        invariant 0 <= i <= |xs|
        invariant selected == PutAll(old(selected), xs[..i])
        invariant selected.Valid()
      {
        assert xs[..i + 1][..i] == xs[..i];
        selected := selected.Put(xs[i]);
        i := i + 1;
      }
      assert xs[..i] == xs;
    }

    /** `add`: stores the objects that pass the filters and reports the ids that are new. */
    method Add(xs: seq<SpaceObject>)
      requires Valid()
      modifies this`selected, this`events
      ensures Valid()
      ensures selected == PutAll(old(selected), Kept(xs))
      ensures events == old(events) + Emitted(NewItems(old(selected), Kept(xs)))
    {
      var kept := Kept(xs);
      var changed := NewItems(selected, kept);
      StoreAll(kept);
      Emit(changed);
    }

    /** `remove`: deletes the given ids and reports those that were selected. */
    method Remove(xs: seq<SpaceObject>)
      requires Valid()
      modifies this`selected, this`events
      ensures Valid()
      ensures selected == RemoveScan(old(selected), xs).0
      ensures events == old(events) + Emitted(RemoveScan(old(selected), xs).1)
    {
      var changed := [];
      var i := 0;
      while i < |xs|
        invariant 0 <= i <= |xs|
        invariant selected == RemoveScan(old(selected), xs[..i]).0
        invariant changed == RemoveScan(old(selected), xs[..i]).1
        invariant selected.Valid()
        invariant events == old(events)
      {
        assert xs[..i + 1][..i] == xs[..i];
        if xs[i].id in selected.items {
          selected := selected.Delete(xs[i].id);
          changed := changed + [xs[i]];
        }
        i := i + 1;
      }
      assert xs[..i] == xs;
      Emit(changed);
    }

    /** The first loop of `set`: deletes each id in turn, collecting the objects that were not there. */
    method DeleteEach(xs: seq<SpaceObject>) returns (notFound: seq<SpaceObject>)
      requires Valid()
      modifies this`selected
      ensures Valid()
      ensures selected == SetScan(old(selected), xs).0
      ensures notFound == SetScan(old(selected), xs).1
    {
      notFound := [];
      var i := 0;
      while i < |xs|
        invariant 0 <= i <= |xs|
        invariant selected == SetScan(old(selected), xs[..i]).0
        invariant notFound == SetScan(old(selected), xs[..i]).1
        invariant selected.Valid()
      {
        assert xs[..i + 1][..i] == xs[..i];
        if xs[i].id in selected.items {
          selected := selected.Delete(xs[i].id);
        } else {
          notFound := notFound + [xs[i]];
        }
        i := i + 1;
      }
      assert xs[..i] == xs;
    }

    /**
     * `set`: the selection becomes the objects that pass the filters, and every id that
     * entered or left it is reported.
     */
    method Set(xs: seq<SpaceObject>)
      requires Valid()
      modifies this`selected, this`events
      ensures Valid()
      ensures selected == PutAll(EMPTY, Kept(xs))
      ensures events == old(events) + Emitted(SetChanged(old(selected), Kept(xs)))
    {
      var kept := Kept(xs);
      var notFound := DeleteEach(kept);
      var changed := notFound + selected.Values();
      selected := EMPTY;
      StoreAll(kept);
      Emit(changed);
    }

    /** `clear`: empties the selection and reports every id it held. */
    method Clear()
      requires Valid()
      modifies this`selected, this`events
      ensures Valid() && selected == EMPTY
      ensures events == old(events) + Emitted(old(selected).Values())
    {
      var changed := selected.Values();
      selected := EMPTY;
      Emit(changed);
    }

    /** The '$remove' listener `init` attaches: drops the path's id, reporting it if it was selected. */
    method OnRemoveEvent(path: string)
      requires Valid()
      modifies this`selected, this`events
      ensures Valid()
      ensures PathId(path).Some? && PathId(path).value in old(selected.items) ==>
        selected == old(selected).Delete(PathId(path).value)
        && events == old(events) + [ObjectEvent(PathId(path).value), Changed]
      ensures !(PathId(path).Some? && PathId(path).value in old(selected.items)) ==>
        selected == old(selected) && events == old(events)
    {
      var id := PathId(path);
      if id.Some? && id.value in selected.items {
        selected := selected.Delete(id.value);
        events := events + [ObjectEvent(id.value), Changed];
      }
    }

    /** Setting the filter property to a new value re-selects what still passes. */
    method SetFilter(value: TypeFilter)
      requires Valid()
      modifies this`filter, this`selected, this`events
      ensures Valid() && filter == value
      ensures value == old(filter) ==> selected == old(selected) && events == old(events)
      ensures value != old(filter) ==> selected.items.Keys <= old(selected.items.Keys)
      ensures value != old(filter) ==> forall id :: id in selected.items ==> Passes(selected.items[id])
      ensures value != old(filter) ==> selected == PutAll(EMPTY, Kept(old(selected).Values()))
      ensures value != old(filter) ==>
        events == old(events) + Emitted(SetChanged(old(selected), Kept(old(selected).Values())))
    {
      if filter != value {
        filter := value;
        var items := SelectedItems();
        KeptTwice(selected.Values());
        Set(items);
        PutAllStores(EMPTY, Kept(items));
      }
    }

    /** Setting the view filter property to a new value re-selects what still passes. */
    method SetViewFilter(value: TypeFilter)
      requires Valid() && viewFilter.Some?
      modifies this`viewFilter, this`selected, this`events
      ensures Valid() && viewFilter == Some(value)
      ensures Some(value) == old(viewFilter) ==> selected == old(selected) && events == old(events)
      ensures Some(value) != old(viewFilter) ==> selected.items.Keys <= old(selected.items.Keys)
      ensures Some(value) != old(viewFilter) ==> forall id :: id in selected.items ==> Passes(selected.items[id])
      ensures Some(value) != old(viewFilter) ==> selected == PutAll(EMPTY, Kept(old(selected).Values()))
      ensures Some(value) != old(viewFilter) ==>
        events == old(events) + Emitted(SetChanged(old(selected), Kept(old(selected).Values())))
    {
      if viewFilter != Some(value) {
        viewFilter := Some(value);
        var items := SelectedItems();
        KeptTwice(selected.Values());
        Set(items);
        PutAllStores(EMPTY, Kept(items));
      }
    }
  }
}
