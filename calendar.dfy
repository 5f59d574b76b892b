/**
 * The collection side of cal9/ical.py: classification of walked components into
 * item classes, filter() and the lists built on it, get_item, the Calendar
 * object with its lazily loaded tree and its mutations, and from_path.
 */
module IcalCalendar {
  import opened Wrappers
  import opened Text
  import opened Ical

  // ----------------------------------------------------------- classification

  /** The narrowest item class of a component name; anything unknown is a plain Item. */
  function KindOf(name: string): (k: Kind)
    ensures k == Generic <==> TagOf(Event) != Some(name) && TagOf(Todo) != Some(name)
                              && TagOf(Journal) != Some(name) && TagOf(Timezone) != Some(name)
    ensures k != Generic ==> TagOf(k) == Some(name)
  {
    if name == "VEVENT" then Event
    else if name == "VTODO" then Todo
    else if name == "VJOURNAL" then Journal
    else if name == "VTIMEZONE" then Timezone
    else Generic
  }

  /** The direct subclasses of Item, in definition order. */
  datatype ItemClass = ComponentClass | TimezoneClass

  const ItemSubclasses: seq<ItemClass> := [ComponentClass, TimezoneClass]

  /** The direct subclasses of Component, in definition order. */
  const ComponentSubclasses: seq<Kind> := [Event, Todo, Journal]

  /** The class attribute `tag` of a direct subclass of Item. */
  function ClassTag(t: ItemClass): Option<string> {
    match t
    case ComponentClass => None
    case TimezoneClass => TagOf(Timezone)
  }

  /**
   * The class search of the untagged filter: the subclasses of Component are
   * tried first, when Component comes up among the subclasses of Item, then the
   * other subclasses of Item; no match falls back on Item.
   */
  method Classify(name: string) returns (k: Kind)
    ensures k == KindOf(name)
  {
    var found := false;
    var i := 0;
    while i < |ItemSubclasses|
      invariant 0 <= i <= |ItemSubclasses|
      invariant !found
      invariant forall m :: 0 <= m < i ==> ClassTag(ItemSubclasses[m]) != Some(name)
      invariant i > 0 ==> forall c :: c in ComponentSubclasses ==> TagOf(c) != Some(name)
    {
      var t := ItemSubclasses[i];
      if t == ComponentClass {
        var j := 0;
        while j < |ComponentSubclasses|
          invariant 0 <= j <= |ComponentSubclasses|
          invariant !found
          invariant forall m :: 0 <= m < j ==> TagOf(ComponentSubclasses[m]) != Some(name)
        {
          if TagOf(ComponentSubclasses[j]) == Some(name) {
            k := ComponentSubclasses[j];
            assert k == KindOf(name);
            found := true;
            break;
          }
          j := j + 1;
        }
      }
      if found {
        return;
      }
      if ClassTag(t) == Some(name) {
        k := Timezone;
        return;
      }
      i := i + 1;
    }
    assert Event in ComponentSubclasses && Todo in ComponentSubclasses && Journal in ComponentSubclasses;
    assert ClassTag(ItemSubclasses[1]) != Some(name);
    k := Generic;
  }

  // ------------------------------------------------------------------ filter

  /** What filter() adds for one walked component at walk position i. */
  function ItemsAt(c: Component, kind: Kind, uuid: string): seq<Item> {
    match TagOf(kind)
    case Some(t) => if c.name == t then [MakeItem(kind, Wrap(c), "", uuid)] else []
    case None => [MakeItem(KindOf(c.name), Wrap(c), "", uuid)]
  }

  /**
   * The items filter(kind) builds from a walk; the item built at walk position i
   * gets the i-th uuid of the supply.
   */
  function Select(w: seq<Component>, kind: Kind, uuids: nat -> string): seq<Item>
    decreases |w|
  {
    if w == [] then []
    else Select(w[..|w| - 1], kind, uuids) + ItemsAt(w[|w| - 1], kind, uuids(|w| - 1))
  }

  /**
   * Calendar.filter over the walk of the collection tree: one item per walked
   * component whose name is the class tag, or, for Item and Component (no tag),
   * one item of the narrowest class per walked component.
   */
  method FilterWalk(root: Component, kind: Kind, uuids: nat -> string) returns (items: seq<Item>)
    ensures items == Select(Walk(root), kind, uuids)
  {
    var w := Walk(root);
    items := [];
    var i := 0;
    while i < |w|
      invariant 0 <= i <= |w|
      invariant items == Select(w[..i], kind, uuids)
    {
      var added := FilterOne(w[i], kind, uuids(i));
      SelectStep(w, kind, uuids, i);
      items := items + added;
      i := i + 1;
    }
    assert w[..|w|] == w;
  }

  /** The body of filter's loop for one walked component. */
  method FilterOne(c: Component, kind: Kind, uuid: string) returns (added: seq<Item>)
    ensures added == ItemsAt(c, kind, uuid)
  {
    var wrapped := Wrap(c);
    added := [];
    match TagOf(kind) {
      case Some(t) =>
        if c.name == t {
          var it := NewItem(kind, wrapped, "", uuid);
          added := [it];
        }
        TaggedStep(c, kind, t, uuid);
      case None =>
        var k := Classify(c.name);
        var it := NewItem(k, wrapped, "", uuid);
        added := [it];
    }
  }

  lemma TaggedStep(c: Component, kind: Kind, t: string, uuid: string)
    requires TagOf(kind) == Some(t)
    ensures ItemsAt(c, kind, uuid) == if c.name == t then [MakeItem(kind, Wrap(c), "", uuid)] else []
  {
  }

  /** Filtering one more walked component adds what that component gives. */
  lemma SelectStep(w: seq<Component>, kind: Kind, uuids: nat -> string, i: nat)
    requires i < |w|
    ensures Select(w[..i + 1], kind, uuids) == Select(w[..i], kind, uuids) + ItemsAt(w[i], kind, uuids(i))
  {
    assert w[..i + 1][..i] == w[..i];
  }

  /** The untagged filter: exactly one item per walked component, of its narrowest class. */
  lemma {:induction false} SelectUntagged(w: seq<Component>, uuids: nat -> string)
    ensures |Select(w, Generic, uuids)| == |w|
    ensures forall i :: 0 <= i < |w| ==>
              Select(w, Generic, uuids)[i] == MakeItem(KindOf(w[i].name), Wrap(w[i]), "", uuids(i))
    decreases |w|
  {
    if w != [] {
      var n := |w| - 1;
      SelectUntagged(w[..n], uuids);
      var pre := Select(w[..n], Generic, uuids);
      var last := ItemsAt(w[n], Generic, uuids(n));
      assert last == [MakeItem(KindOf(w[n].name), Wrap(w[n]), "", uuids(n))];
      var all := Select(w, Generic, uuids);
      assert all == pre + last;
      forall i | 0 <= i < |w| ensures all[i] == MakeItem(KindOf(w[i].name), Wrap(w[i]), "", uuids(i)) {
        if i < n {
          assert w[..n][i] == w[i];
          assert pre[i] == MakeItem(KindOf(w[..n][i].name), Wrap(w[..n][i]), "", uuids(i));
          assert all[i] == pre[i];
        } else {
          assert i == n && all[i] == last[0];
        }
      }
    }
  }

  /** The walk positions whose component is named t, in increasing order. */
  function Positions(w: seq<Component>, t: string): (ps: seq<nat>)
    ensures forall m :: 0 <= m < |ps| ==> ps[m] < |w| && w[ps[m]].name == t
    ensures forall m, n :: 0 <= m < n < |ps| ==> ps[m] < ps[n]
    decreases |w|
  {
    if w == [] then []
    else
      var ps := Positions(w[..|w| - 1], t);
      if w[|w| - 1].name == t then ps + [|w| - 1] else ps
  }

  /** Every walk position whose component is named t is listed. */
  lemma {:induction false} PositionsComplete(w: seq<Component>, t: string)
    ensures forall i :: 0 <= i < |w| && w[i].name == t ==> i in Positions(w, t)
    decreases |w|
  {
    if w != [] {
      var n := |w| - 1;
      PositionsComplete(w[..n], t);
      assert forall i :: 0 <= i < n ==> w[..n][i] == w[i];
    }
  }

  /**
   * The tagged filter: exactly one item per walked component named by the tag,
   * in walk order, each of the requested class.
   */
  lemma {:induction false} SelectTagged(w: seq<Component>, kind: Kind, uuids: nat -> string)
    requires TagOf(kind).Some?
    ensures var ps := Positions(w, TagOf(kind).value);
      && |Select(w, kind, uuids)| == |ps|
      && (forall m :: 0 <= m < |ps| ==>
           Select(w, kind, uuids)[m] == MakeItem(kind, Wrap(w[ps[m]]), "", uuids(ps[m])))
      && (forall i :: 0 <= i < |w| ==> (i in ps <==> w[i].name == TagOf(kind).value))
    decreases |w|
  {
    PositionsComplete(w, TagOf(kind).value);
    SelectTaggedItems(w, kind, uuids);
  }

  lemma {:induction false} SelectTaggedItems(w: seq<Component>, kind: Kind, uuids: nat -> string)
    requires TagOf(kind).Some?
    ensures var ps := Positions(w, TagOf(kind).value);
      && |Select(w, kind, uuids)| == |ps|
      && forall m :: 0 <= m < |ps| ==>
           Select(w, kind, uuids)[m] == MakeItem(kind, Wrap(w[ps[m]]), "", uuids(ps[m]))
    decreases |w|
  {
    if w != [] {
      var n := |w| - 1;
      var t := TagOf(kind).value;
      SelectTaggedItems(w[..n], kind, uuids);
      var pre := Select(w[..n], kind, uuids);
      var ps := Positions(w[..n], t);
      TaggedStep(w[n], kind, t, uuids(n));
      var last := ItemsAt(w[n], kind, uuids(n));
      var all := Select(w, kind, uuids);
      assert all == pre + last;
      if w[n].name == t {
        var ps' := ps + [n];
        assert Positions(w, t) == ps';
        forall m | 0 <= m < |ps'| ensures all[m] == MakeItem(kind, Wrap(w[ps'[m]]), "", uuids(ps'[m])) {
          if m < |ps| {
            assert all[m] == pre[m] && ps'[m] == ps[m] && w[..n][ps[m]] == w[ps[m]];
          } else {
            assert all[m] == last[0] && ps'[m] == n;
          }
        }
      } else {
        assert Positions(w, t) == ps && last == [] && all == pre;
        forall m | 0 <= m < |ps| ensures all[m] == MakeItem(kind, Wrap(w[ps[m]]), "", uuids(ps[m])) {
          assert w[..n][ps[m]] == w[ps[m]];
        }
      }
    }
  }

  /** The number of items of a given class in a list. */
  function CountKind(items: seq<Item>, k: Kind): nat {
    if items == [] then 0
    else CountKind(items[..|items| - 1], k) + (if items[|items| - 1].kind == k then 1 else 0)
  }

  /**
   * The classification covers every component exactly once: a tagged filter
   * finds exactly as many items as the untagged one classifies in that class.
   */
  lemma {:induction false} TaggedMatchesUntagged(w: seq<Component>, kind: Kind, uuids: nat -> string)
    requires kind != Generic
    ensures |Select(w, kind, uuids)| == CountKind(Select(w, Generic, uuids), kind)
    decreases |w|
  {
    if w != [] {
      var m := |w| - 1;
      TaggedMatchesUntagged(w[..m], kind, uuids);
      var all := Select(w, Generic, uuids);
      assert all[..|all| - 1] == Select(w[..m], Generic, uuids);
      assert all[|all| - 1].kind == KindOf(w[m].name);
    }
  }

  /** Every item falls into exactly one of the five classes. */
  lemma {:induction false} KindsPartition(items: seq<Item>)
    ensures CountKind(items, Generic) + CountKind(items, Event) + CountKind(items, Todo)
          + CountKind(items, Journal) + CountKind(items, Timezone) == |items|
  {
    if items != [] {
      KindsPartition(items[..|items| - 1]);
    }
  }

  // ------------------------------------------------------------ derived lists

  function Items(root: Component, uuids: nat -> string): seq<Item> {
    Select(Walk(root), Generic, uuids)
  }

  function Events(root: Component, uuids: nat -> string): seq<Item> {
    Select(Walk(root), Event, uuids)
  }

  function Todos(root: Component, uuids: nat -> string): seq<Item> {
    Select(Walk(root), Todo, uuids)
  }

  function Journals(root: Component, uuids: nat -> string): seq<Item> {
    Select(Walk(root), Journal, uuids)
  }

  function Timezones(root: Component, uuids: nat -> string): seq<Item> {
    Select(Walk(root), Timezone, uuids)
  }

  /** Calendar.components: events, then to-dos, then journals. */
  function Components(root: Component, uuids: nat -> string): seq<Item> {
    Events(root, uuids) + Todos(root, uuids) + Journals(root, uuids)
  }

  lemma SelectKinds(w: seq<Component>, kind: Kind, uuids: nat -> string)
    requires kind != Generic
    ensures forall it :: it in Select(w, kind, uuids) ==> it.kind == kind
  {
    SelectTagged(w, kind, uuids);
  }

  /**
   * Calendar.components holds only events, to-dos and journals, and exactly as
   * many as the walk classifies into those three classes.
   */
  lemma ComponentsAreEventsTodosJournals(root: Component, uuids: nat -> string)
    ensures forall it :: it in Components(root, uuids) ==> it.kind in {Event, Todo, Journal}
    ensures var all := Items(root, uuids);
      |Components(root, uuids)| == |all| - CountKind(all, Generic) - CountKind(all, Timezone)
  {
    var w := Walk(root);
    SelectKinds(w, Event, uuids);
    SelectKinds(w, Todo, uuids);
    SelectKinds(w, Journal, uuids);
    TaggedMatchesUntagged(w, Event, uuids);
    TaggedMatchesUntagged(w, Todo, uuids);
    TaggedMatchesUntagged(w, Journal, uuids);
    KindsPartition(Items(root, uuids));
  }

  lemma TaggedLength(w: seq<Component>, kind: Kind, uuids: nat -> string)
    requires TagOf(kind).Some?
    ensures |Select(w, kind, uuids)| == |Positions(w, TagOf(kind).value)|
  {
    SelectTagged(w, kind, uuids);
  }

  /** An item whose tree is a VCALENDAR around a single component named t. */
  predicate WrapsOne(it: Item, t: string) {
    |it.ical.subs| == 1 && it.ical.subs[0].name == t
  }

  /** Merging items that each wrap one component named t gives one child per item. */
  lemma {:induction false} SubsOfWrapped(items: seq<Item>, t: string)
    requires forall i :: 0 <= i < |items| ==> WrapsOne(items[i], t)
    ensures |SubsOf(items)| == |items|
    ensures forall m :: 0 <= m < |SubsOf(items)| ==> SubsOf(items)[m].name == t
  {
    if items != [] {
      SubsOfWrapped(items[..|items| - 1], t);
    }
  }

  /** Every item of a tagged filter wraps one component named by the tag. */
  lemma TaggedWrapsOne(w: seq<Component>, kind: Kind, uuids: nat -> string)
    requires TagOf(kind).Some?
    ensures var items := Select(w, kind, uuids);
      forall i :: 0 <= i < |items| ==> WrapsOne(items[i], TagOf(kind).value)
  {
    var ps := Positions(w, TagOf(kind).value);
    var items := Select(w, kind, uuids);
    SelectTagged(w, kind, uuids);
    forall i | 0 <= i < |items|
      ensures WrapsOne(items[i], TagOf(kind).value)
    {
      WrappedItemChild(kind, w[ps[i]], uuids(ps[i]));
    }
  }

  /**
   * ItemList.to_ical of the timezones: one child per VTIMEZONE of the walk,
   * each a VTIMEZONE.
   */
  lemma MergedTimezones(root: Component, uuids: nat -> string)
    ensures var cal := MergeItems(Timezones(root, uuids));
      && |cal.subs| == |Positions(Walk(root), "VTIMEZONE")|
      && forall m :: 0 <= m < |cal.subs| ==> cal.subs[m].name == "VTIMEZONE"
  {
    var w := Walk(root);
    var items := Select(w, Timezone, uuids);
    assert items == Timezones(root, uuids);
    TaggedLength(w, Timezone, uuids);
    TaggedWrapsOne(w, Timezone, uuids);
    SubsOfWrapped(items, "VTIMEZONE");
    assert MergeItems(items).subs == SubsOf(items);
  }

  /**
   * Calendar.get_item: the first item of `items` with that name, or None when
   * no item has it.
   */
  method FindItem(items: seq<Item>, name: string) returns (r: Option<Item>)
    ensures r.None? <==> forall i :: 0 <= i < |items| ==> items[i].name != name
    ensures r.Some? ==> exists i :: 0 <= i < |items| && items[i] == r.value && r.value.name == name
                                    && forall j :: 0 <= j < i ==> items[j].name != name
  {
    var i := 0;
    while i < |items|
      invariant 0 <= i <= |items|
      invariant forall j :: 0 <= j < i ==> items[j].name != name
    {
      if items[i].name == name {
        return Some(items[i]);
      }
      i := i + 1;
    }
    return None;
  }

  // ----------------------------------------------------------- mutations

  /** The tree with extra children appended, as add_component does one at a time. */
  function AddSubs(c: Component, cs: seq<Component>): Component {
    c.(subs := c.subs + cs)
  }

  /** The name an item built from a component's own text would find, if any. */
  function ComponentName(c: Component): Option<string> {
    ScanName(Walk(c))
  }

  /** The children whose item name is not `name`, in their order. */
  function Without(cs: seq<Component>, name: string): seq<Component> {
    if cs == [] then []
    else Without(cs[..|cs| - 1], name) + (if ComponentName(cs[|cs| - 1]) == Some(name) then [] else [cs[|cs| - 1]])
  }

  /** Removing by name keeps exactly the children not carrying that name. */
  lemma {:induction false} WithoutMembers(cs: seq<Component>, name: string)
    ensures forall c :: c in Without(cs, name) <==> c in cs && ComponentName(c) != Some(name)
  {
    if cs != [] {
      var m := |cs| - 1;
      WithoutMembers(cs[..m], name);
      assert cs == cs[..m] + [cs[m]];
    }
  }

  /**
   * A calendar collection. `stored` is the tree the storage backend holds for
   * the path (what get() loads and write() replaces); `cache` is `_ical`.
   */
  class Calendar {
    const path: string
    var cache: Option<Component>
    var stored: Component

    constructor (path: string, stored: Component)
      ensures this.path == path && this.stored == stored && cache == None
    {
      this.path := path;
      this.stored := stored;
      cache := None;
    }

    /** The tree that `self.ical` denotes: the cached one, else the one get() loads. */
    function Current(): Component
      reads this
    {
      cache.GetOr(stored)
    }

    /** The `ical` property: loads the tree once, then returns the cached one. */
    method Ical() returns (c: Component)
      modifies this
      ensures c == old(Current()) && cache == Some(c) && stored == old(stored)
    {
      if cache.None? {
        cache := Some(stored);
      }
      c := cache.value;
    }

    /** save(): write the current tree to the backend, then reload the cache from it. */
    method Save()
      modifies this
      ensures stored == old(Current()) && cache == Some(stored)
    {
      var c := Ical();
      stored := c;
      cache := Some(stored);
    }

    /** append(): add every child of `ical` to the collection, in order, then save. */
    method Append(name: string, ical: Component)
      modifies this
      ensures stored == AddSubs(old(Current()), ical.subs) && cache == Some(stored)
    {
      var i := 0;
      while i < |ical.subs|
        invariant 0 <= i <= |ical.subs|
        invariant Current() == AddSubs(old(Current()), ical.subs[..i])
      {
        var c := Ical();
        assert ical.subs[..i + 1] == ical.subs[..i] + [ical.subs[i]];
        cache := Some(c.(subs := c.subs + [ical.subs[i]]));
        i := i + 1;
      }
      assert ical.subs[..|ical.subs|] == ical.subs;
      Save();
    }

    /**
     * remove() as written: the loop over the walk only unbinds its loop variable,
     * so the collection is written back unchanged.
     */
    method Remove(name: string)
      modifies this
      ensures stored == old(Current()) && cache == Some(stored)
    {
      var c := Ical();
      Save();
    }

    /** replace() as written: remove (which deletes nothing), then append. */
    method Replace(name: string, ical: Component)
      modifies this
      ensures stored == AddSubs(old(Current()), ical.subs) && cache == Some(stored)
    {
      Remove(name);
      Append(name, ical);
    }

    /** remove() as intended: drop the children whose item name is `name`, then save. */
    method RemoveItem(name: string)
      modifies this
      ensures stored == old(Current()).(subs := Without(old(Current()).subs, name))
      ensures cache == Some(stored)
    {
      var c := Ical();
      var kept: seq<Component> := [];
      var i := 0;
      while i < |c.subs|
        invariant 0 <= i <= |c.subs|
        invariant kept == Without(c.subs[..i], name)
      {
        assert c.subs[..i + 1][..i] == c.subs[..i];
        if ComponentName(c.subs[i]) != Some(name) {
          kept := kept + [c.subs[i]];
        }
        i := i + 1;
      }
      assert c.subs[..|c.subs|] == c.subs;
      cache := Some(c.(subs := kept));
      Save();
    }

    /** replace() as intended: remove the named item, then append the new children. */
    method ReplaceItem(name: string, ical: Component)
      modifies this
      ensures stored == AddSubs(old(Current()).(subs := Without(old(Current()).subs, name)), ical.subs)
      ensures cache == Some(stored)
    {
      RemoveItem(name);
      Append(name, ical);
    }

    /** filter(): load the tree, then filter its walk. */
    method Filter(kind: Kind, uuids: nat -> string) returns (items: seq<Item>)
      modifies this
      ensures items == Select(Walk(old(Current())), kind, uuids)
      ensures cache == Some(old(Current())) && stored == old(stored)
    {
      var c := Ical();
      items := FilterWalk(c, kind, uuids);
    }

    /** The `components` property: events, then to-dos, then journals. */
    method ComponentItems(uuids: nat -> string) returns (items: seq<Item>)
      modifies this
      ensures items == Components(old(Current()), uuids)
      ensures cache == Some(old(Current())) && stored == old(stored)
    {
      var events := Filter(Event, uuids);
      var todos := Filter(Todo, uuids);
      var journals := Filter(Journal, uuids);
      items := events + todos + journals;
    }

    /** get_item(): the first of `items` with that name, or None. */
    method GetItem(name: string, uuids: nat -> string) returns (r: Option<Item>)
      modifies this
      ensures r.None? <==> forall it :: it in Items(old(Current()), uuids) ==> it.name != name
      ensures r.Some? ==> r.value in Items(old(Current()), uuids) && r.value.name == name
      ensures r.Some? ==> var items := Items(old(Current()), uuids);
        exists i :: 0 <= i < |items| && items[i] == r.value && forall j :: 0 <= j < i ==> items[j].name != name
      ensures cache == Some(old(Current())) && stored == old(stored)
    {
      var items := Filter(Generic, uuids);
      r := FindItem(items, name);
    }
  }

  /** The event that the remove() examples below try to delete. */
  const SampleEvent: Component := Component("VEVENT", map[Uid := "e1"], [])

  lemma SampleEventName()
    ensures ComponentName(SampleEvent) == Some("e1")
  {
    assert Walk(SampleEvent) == [SampleEvent];
    assert Uid[0] != XName[0] && Uid[0] != TzId[0];
    assert !Stops(SampleEvent);
    assert [SampleEvent][1..] == [];
    assert Has(SampleEvent.props, Uid);
    assert ScanFrom([], Some("e1")) == Some("e1");
    assert ScanFrom([SampleEvent], None) == ScanFrom([], Some("e1"));
  }

  /** remove("e1") as written keeps the event named e1 in the collection. */
  method RemoveDeletesNothing() returns (cal: Calendar)
    ensures ComponentName(SampleEvent) == Some("e1")
    ensures cal.stored.subs == [SampleEvent]
  {
    cal := new Calendar("/work", Component("VCALENDAR", map[], [SampleEvent]));
    cal.Remove("e1");
    SampleEventName();
  }

  /** The intended remove("e1") deletes it. */
  method RemoveItemDeletesSample() returns (cal: Calendar)
    ensures cal.stored.subs == []
  {
    cal := new Calendar("/work", Component("VCALENDAR", map[], [SampleEvent]));
    cal.RemoveItem("e1");
    SampleEventName();
    assert [SampleEvent][..0] == [];
  }

  /** A collection holding only the sample event. */
  const SampleCalendar: Component := Component("VCALENDAR", map[], [SampleEvent])

  /**
   * The items of the sample collection: the root VCALENDAR, a plain Item that
   * takes the event's UID as its name, then the event itself, named alike.
   */
  lemma SampleItems(uuids: nat -> string)
    ensures var items := Items(SampleCalendar, uuids);
      && |items| == 2
      && items[0].kind == Generic && items[0].name == "e1"
      && items[1].kind == Event && items[1].name == "e1"
  {
    assert Walk(SampleEvent) == [SampleEvent];
    assert WalkAll([SampleEvent]) == [SampleEvent];
    var w := Walk(SampleCalendar);
    assert w == [SampleCalendar, SampleEvent];
    SelectUntagged(w, uuids);
    SampleEventName();
    WrappedName(SampleCalendar, [SampleCalendar, SampleEvent]);
    WrappedName(SampleEvent, [SampleEvent]);
  }

  /** A wrapped component whose own walk has no stopping component is named by the walk's last UID. */
  lemma WrappedName(c: Component, w: seq<Component>)
    requires Walk(c) == w && w[|w| - 1] == SampleEvent
    requires forall i :: 0 <= i < |w| - 1 ==> !Stops(w[i]) && !Has(w[i].props, Uid)
    ensures ScanName(Walk(Wrap(c))) == Some("e1")
  {
    var ww := Walk(Wrap(c));
    assert WalkAll([c]) == Walk(c) + WalkAll([]);
    assert ww == [Wrap(c)] + w;
    assert ScanFrom(ww, None) == ScanFrom(w, None);
    ScanSkip(w, |w| - 1);
    SampleEventName();
    assert Walk(SampleEvent) == [SampleEvent];
    assert [SampleEvent][1..] == [];
  }

  /** Components that neither stop the scan nor carry a UID are passed over. */
  lemma {:induction false} ScanSkip(w: seq<Component>, k: nat)
    requires k <= |w|
    requires forall i :: 0 <= i < k ==> !Stops(w[i]) && !Has(w[i].props, Uid)
    ensures ScanFrom(w, None) == ScanFrom(w[k..], None)
  {
    if k > 0 {
      assert w[1..][k - 1..] == w[k..];
      ScanSkip(w[1..], k - 1);
    }
  }

  /**
   * get_item("e1") on the sample collection gives the root's plain Item, not
   * the event: both are named e1, and the root comes first in the walk.
   */
  method GetItemFindsRoot(uuids: nat -> string) returns (r: Option<Item>)
    ensures r.Some? && r.value.kind == Generic && r.value.name == "e1"
  {
    var cal := new Calendar("/work", SampleCalendar);
    r := cal.GetItem("e1", uuids);
    SampleItems(uuids);
  }

  // ------------------------------------------------------ names and paths

  /** Calendar.name: the D:displayname property, else the last segment of the path. */
  function CalendarName(path: string, props: map<string, string>): string {
    if "D:displayname" in props then props["D:displayname"]
    else var parts := Split(path, '/'); parts[|parts| - 1]
  }

  /** Without a display name, a calendar is named by the text after its path's last '/'. */
  lemma CalendarNameIsLastSegment(path: string, props: map<string, string>)
    requires "D:displayname" !in props
    ensures CalendarName(path, props) == path[LastIndexOf(path, '/') + 1..]
    ensures '/' !in CalendarName(path, props)
  {
    LastSegment(path, '/');
  }

  /** The collection path from_path settles on, given whether `path` is an item. */
  function CollectionPath(path: string, isItem: bool): string {
    var parts := Split(path, '/');
    Join(if !(isItem || EndsWith(path, '/')) then parts[..|parts| - 1] else parts, '/')
  }

  /**
   * from_path keeps the path when it denotes an item or ends with '/', and
   * otherwise drops its last segment (with the '/' before it).
   */
  lemma CollectionPathSpec(path: string, isItem: bool)
    ensures CollectionPath(path, isItem) ==
      if isItem || EndsWith(path, '/') then path
      else if '/' in path then path[..LastIndexOf(path, '/')]
      else ""
  {
    if isItem || EndsWith(path, '/') {
      JoinSplit(path, '/');
    } else {
      DropLastSegment(path, '/');
    }
  }

  /** An entry of the list from_path returns: the calendar, then its components. */
  datatype Entry = CalendarEntry(path: string) | ItemEntry(item: Item)

  /**
   * Calendar.from_path: the calendar at the collection path, then its components;
   * `isItem` is the backend's is_item, `load` what the backend holds for a path.
   */
  function FromPath(path: string, isItem: string -> bool, load: string -> Component,
                    uuids: nat -> string): (r: seq<Entry>)
    ensures |r| >= 1 && r[0] == CalendarEntry(CollectionPath(path, isItem(path)))
    ensures var comps := Components(load(CollectionPath(path, isItem(path))), uuids);
      |r| == 1 + |comps| && forall i :: 1 <= i < |r| ==> r[i] == ItemEntry(comps[i - 1])
  {
    var p := CollectionPath(path, isItem(path));
    var comps := Components(load(p), uuids);
    [CalendarEntry(p)] + seq(|comps|, i requires 0 <= i < |comps| => ItemEntry(comps[i]))
  }
}
