/**
 * The iCalendar object model of cal9/ical.py: a component tree, its pre-order
 * walk, and the Item built from a tree (name derivation, then stamping the
 * name back into the tree as X-CAL9-NAME).
 *
 * Parsing and serialising iCalendar text are outside the model: an Item is
 * built from the parsed tree itself, and the text and its hash are reached
 * through the function fields of a Codec.
 */
module Ical {
  import opened Wrappers
  import opened Text

  const XName: string := "X-CAL9-NAME"
  const TzId: string := "TZID"
  const Uid: string := "UID"
  const ProdId: string := "-//9cal//9h37 CalDAV server//"
  const Version: string := "2.0"
  const MimeType: string := "text/calendar"

  type Props = map<string, string>

  /** A calendar component: its name (VCALENDAR, VEVENT, ...), properties and children. */
  datatype Component = Component(name: string, props: Props, subs: seq<Component>)

  /** The external iCalendar serialiser and Python's hash() of the resulting text. */
  datatype Codec = Codec(serialize: Component -> string, hash: string -> int)

  /** icalendar's walk(): the component itself, then each child's walk, in order. */
  function Walk(c: Component): (w: seq<Component>)
    ensures |w| >= 1 && w[0] == c
    decreases c, 1
  {
    [c] + WalkAll(c.subs)
  }

  function WalkAll(cs: seq<Component>): seq<Component>
    decreases cs, 0
  {
    if cs == [] then [] else Walk(cs[0]) + WalkAll(cs[1..])
  }

  /** Python truthiness of `c.get(key)`: the property is there and not empty. */
  predicate Has(p: Props, key: string) {
    key in p && p[key] != ""
  }

  // --------------------------------------------------------- name derivation

  /** A component that ends the name scan: it has X-CAL9-NAME or TZID. */
  predicate Stops(c: Component) {
    Has(c.props, XName) || Has(c.props, TzId)
  }

  /** The name a stopping component gives: X-CAL9-NAME before TZID. */
  function StopName(c: Component): string
    requires Stops(c)
  {
    if Has(c.props, XName) then c.props[XName] else c.props[TzId]
  }

  /**
   * The scan of Item.__init__ over the rest of a walk, given the UID recorded so
   * far: a stopping component ends it, a UID is recorded and the scan goes on.
   */
  function ScanFrom(w: seq<Component>, found: Option<string>): (r: Option<string>)
    ensures r == found || (r.Some? && r.value != "")
    decreases |w|
  {
    if w == [] then found
    else if Stops(w[0]) then Some(StopName(w[0]))
    else ScanFrom(w[1..], if Has(w[0].props, Uid) then Some(w[0].props[Uid]) else found)
  }

  /** The name found by scanning a whole walk, if any. */
  function ScanName(w: seq<Component>): Option<string> {
    ScanFrom(w, None)
  }

  /** The name of an Item built from `tree`: the explicit name, else the scan, else the uuid. */
  function DeriveName(explicit: string, tree: Component, uuid: string): string {
    if explicit != "" then explicit else ScanName(Walk(tree)).GetOr(uuid)
  }

  /** The first stopping component of a walk decides the name, whatever came before it. */
  lemma {:induction false} ScanStopsAtFirst(w: seq<Component>, k: nat, found: Option<string>)
    requires k < |w| && Stops(w[k])
    requires forall j :: 0 <= j < k ==> !Stops(w[j])
    ensures ScanFrom(w, found) == Some(StopName(w[k]))
    decreases k
  {
    if k > 0 {
      var f := if Has(w[0].props, Uid) then Some(w[0].props[Uid]) else found;
      ScanStopsAtFirst(w[1..], k - 1, f);
    }
  }

  /** Without stopping components or UIDs the scan keeps what it had. */
  lemma {:induction false} ScanKeepsFound(w: seq<Component>, found: Option<string>)
    requires forall j :: 0 <= j < |w| ==> !Stops(w[j]) && !Has(w[j].props, Uid)
    ensures ScanFrom(w, found) == found
    decreases |w|
  {
    if w != [] {
      ScanKeepsFound(w[1..], found);
    }
  }

  /** Without stopping components, the last UID of the walk is the name. */
  lemma {:induction false} ScanLastUid(w: seq<Component>, k: nat, found: Option<string>)
    requires forall j :: 0 <= j < |w| ==> !Stops(w[j])
    requires k < |w| && Has(w[k].props, Uid)
    requires forall j :: k < j < |w| ==> !Has(w[j].props, Uid)
    ensures ScanFrom(w, found) == Some(w[k].props[Uid])
    decreases k
  {
    if k == 0 {
      ScanKeepsFound(w[1..], Some(w[0].props[Uid]));
    } else {
      var f := if Has(w[0].props, Uid) then Some(w[0].props[Uid]) else found;
      ScanLastUid(w[1..], k - 1, f);
    }
  }

  /** Without stopping components and UIDs nothing is found. */
  lemma ScanFindsNothing(w: seq<Component>)
    requires forall j :: 0 <= j < |w| ==> !Stops(w[j]) && !Has(w[j].props, Uid)
    ensures ScanName(w) == None
  {
    ScanKeepsFound(w, None);
  }

  // ------------------------------------------------------------- stamping

  /** The position of the first walked component carrying X-CAL9-NAME. */
  function FirstWithName(w: seq<Component>): (r: Option<nat>)
    ensures r.Some? ==> r.value < |w| && Has(w[r.value].props, XName)
                        && forall j :: 0 <= j < r.value ==> !Has(w[j].props, XName)
    ensures r.None? ==> forall j :: 0 <= j < |w| ==> !Has(w[j].props, XName)
  {
    if w == [] then None
    else if Has(w[0].props, XName) then Some(0)
    else match FirstWithName(w[1..])
         case None => None
         case Some(j) => Some(j + 1)
  }

  /** Where the name is stamped: that first component, or the root (position 0). */
  function StampIndex(w: seq<Component>): nat {
    FirstWithName(w).GetOr(0)
  }

  /** The tree with property `key` of its j-th walked component set to `val`. */
  function SetProp(t: Component, j: nat, key: string, val: string): Component
    decreases t, 1
  {
    if j == 0 then t.(props := t.props[key := val])
    else t.(subs := SetPropAll(t.subs, j - 1, key, val))
  }

  function SetPropAll(cs: seq<Component>, j: nat, key: string, val: string): (r: seq<Component>)
    ensures |r| == |cs|
    decreases cs, 0
  {
    if cs == [] then []
    else if j < |Walk(cs[0])| then [SetProp(cs[0], j, key, val)] + cs[1..]
    else [cs[0]] + SetPropAll(cs[1..], j - |Walk(cs[0])|, key, val)
  }

  /** The tree of Item.__init__ after the name is written back into it. */
  function Stamp(tree: Component, name: string): Component {
    SetProp(tree, StampIndex(Walk(tree)), XName, name)
  }

  /**
   * Two walks that agree, component by component, on name, number of children and
   * properties, except that position j has `key` set to `val`.
   */
  ghost predicate SameButAt(w: seq<Component>, w2: seq<Component>, j: int, key: string, val: string) {
    && |w2| == |w|
    && forall i :: 0 <= i < |w| ==>
         && w2[i].name == w[i].name
         && |w2[i].subs| == |w[i].subs|
         && w2[i].props == (if i == j then w[i].props[key := val] else w[i].props)
  }

  lemma SameButAtConcat(a: seq<Component>, a2: seq<Component>, b: seq<Component>, b2: seq<Component>,
                        j: int, key: string, val: string)
    requires SameButAt(a, a2, j, key, val) && SameButAt(b, b2, j - |a|, key, val)
    ensures SameButAt(a + b, a2 + b2, j, key, val)
  {
    forall i | 0 <= i < |a + b|
      ensures (a2 + b2)[i].name == (a + b)[i].name && |(a2 + b2)[i].subs| == |(a + b)[i].subs|
      ensures (a2 + b2)[i].props == (if i == j then (a + b)[i].props[key := val] else (a + b)[i].props)
    {
      if i >= |a| {
        assert (a + b)[i] == b[i - |a|] && (a2 + b2)[i] == b2[i - |a|];
      }
    }
  }

  /** Setting a property at one walk position changes exactly that node of the walk. */
  lemma {:induction false} SetPropWalk(t: Component, j: nat, key: string, val: string)
    requires j < |Walk(t)|
    ensures SameButAt(Walk(t), Walk(SetProp(t, j, key, val)), j, key, val)
    decreases t, 1
  {
    var t2 := SetProp(t, j, key, val);
    if j == 0 {
      SameButAtConcat([t], [t2], WalkAll(t.subs), WalkAll(t2.subs), j, key, val);
    } else {
      SetPropAllWalk(t.subs, j - 1, key, val);
      SameButAtConcat([t], [t2], WalkAll(t.subs), WalkAll(t2.subs), j, key, val);
    }
  }

  lemma {:induction false} SetPropAllWalk(cs: seq<Component>, j: nat, key: string, val: string)
    requires j < |WalkAll(cs)|
    ensures SameButAt(WalkAll(cs), WalkAll(SetPropAll(cs, j, key, val)), j, key, val)
    decreases cs, 0
  {
    var r := SetPropAll(cs, j, key, val);
    assert r[1..] == SetPropAll(cs, j, key, val)[1..];
    if j < |Walk(cs[0])| {
      SetPropWalk(cs[0], j, key, val);
      assert r[0] == SetProp(cs[0], j, key, val) && r[1..] == cs[1..];
      SameButAtConcat(Walk(cs[0]), Walk(r[0]), WalkAll(cs[1..]), WalkAll(r[1..]), j, key, val);
    } else {
      SetPropAllWalk(cs[1..], j - |Walk(cs[0])|, key, val);
      assert r[0] == cs[0] && r[1..] == SetPropAll(cs[1..], j - |Walk(cs[0])|, key, val);
      SameButAtConcat(Walk(cs[0]), Walk(r[0]), WalkAll(cs[1..]), WalkAll(r[1..]), j, key, val);
    }
  }

  /** Setting a property to the value it already has leaves the tree as it is. */
  lemma {:induction false} SetPropSame(t: Component, j: nat, key: string, val: string)
    requires j < |Walk(t)| && key in Walk(t)[j].props && Walk(t)[j].props[key] == val
    ensures SetProp(t, j, key, val) == t
    decreases t, 1
  {
    if j > 0 {
      assert Walk(t)[j] == WalkAll(t.subs)[j - 1];
      SetPropAllSame(t.subs, j - 1, key, val);
    }
  }

  lemma {:induction false} SetPropAllSame(cs: seq<Component>, j: nat, key: string, val: string)
    requires j < |WalkAll(cs)| && key in WalkAll(cs)[j].props && WalkAll(cs)[j].props[key] == val
    ensures SetPropAll(cs, j, key, val) == cs
    decreases cs, 0
  {
    if j < |Walk(cs[0])| {
      assert WalkAll(cs)[j] == Walk(cs[0])[j];
      SetPropSame(cs[0], j, key, val);
      assert [cs[0]] + cs[1..] == cs;
    } else {
      assert WalkAll(cs)[j] == WalkAll(cs[1..])[j - |Walk(cs[0])|];
      SetPropAllSame(cs[1..], j - |Walk(cs[0])|, key, val);
      assert [cs[0]] + cs[1..] == cs;
    }
  }

  /**
   * Stamping writes the name into the first walked component that carries
   * X-CAL9-NAME, or into the root when none does, and changes nothing else.
   */
  lemma StampChangesOneNode(tree: Component, name: string)
    ensures var w := Walk(tree);
      && (StampIndex(w) == 0 || Has(w[StampIndex(w)].props, XName))
      && (forall j :: 0 <= j < StampIndex(w) ==> !Has(w[j].props, XName))
      && SameButAt(w, Walk(Stamp(tree, name)), StampIndex(w), XName, name)
  {
    SetPropWalk(tree, StampIndex(Walk(tree)), XName, name);
  }

  /**
   * Name stability: with no explicit name, deriving the name again from the
   * stamped tree gives the same name, whatever uuid the second derivation gets.
   */
  lemma NameStable(tree: Component, uuid: string, uuid2: string)
    requires uuid != ""
    ensures var n := DeriveName("", tree, uuid);
      DeriveName("", Stamp(tree, n), uuid2) == n
  {
    var n := DeriveName("", tree, uuid);
    var w := Walk(tree);
    var j := StampIndex(w);
    var w2 := Walk(Stamp(tree, n));
    StampChangesOneNode(tree, n);
    assert n != "" by {
      assert ScanName(w) == None || ScanName(w).value != "";
    }
    assert Stops(w2[j]) && StopName(w2[j]) == n;
    var k := FirstStop(w2, j);
    if k == j {
      ScanStopsAtFirst(w2, j, None);
    } else {
      // Before j the two walks agree, so the scan of the original tree stopped at k too.
      assert Stops(w[k]) && StopName(w[k]) == StopName(w2[k]);
      assert forall i :: 0 <= i < k ==> !Stops(w[i]) by {
        forall i | 0 <= i < k ensures !Stops(w[i]) {
          assert !Stops(w2[i]);
        }
      }
      ScanStopsAtFirst(w, k, None);
      ScanStopsAtFirst(w2, k, None);
    }
  }

  /** The first stopping position at or before a known stopping position. */
  lemma FirstStop(w: seq<Component>, j: nat) returns (k: nat)
    requires j < |w| && Stops(w[j])
    ensures k <= j && Stops(w[k]) && forall i :: 0 <= i < k ==> !Stops(w[i])
  {
    k := 0;
    while !Stops(w[k])
      invariant k <= j && forall i :: 0 <= i < k ==> !Stops(w[i])
      decreases j - k
    {
      k := k + 1;
    }
  }

  // ------------------------------------------------------------------ items

  /** The Python class an Item is built as; Generic stands for Item and Component. */
  datatype Kind = Generic | Event | Todo | Journal | Timezone

  /** The class attribute `tag`: None for Item and Component. */
  function TagOf(k: Kind): Option<string> {
    match k
    case Generic => None
    case Event => Some("VEVENT")
    case Todo => Some("VTODO")
    case Journal => Some("VJOURNAL")
    case Timezone => Some("VTIMEZONE")
  }

  /** An Item: its class, its (stamped) tree and its name. */
  datatype Item = Item(kind: Kind, ical: Component, name: string)

  /** The Item that `kind(text, name)` builds when `text` parses to `tree`. */
  function MakeItem(kind: Kind, tree: Component, name: string, uuid: string): Item {
    var n := DeriveName(name, tree, uuid);
    Item(kind, Stamp(tree, n), n)
  }

  /**
   * Item.__init__: scan the walk for a name (X-CAL9-NAME or TZID stop the scan, a
   * UID is kept and the scan goes on), fall back on the uuid, then write the name
   * into the first component carrying X-CAL9-NAME, else into the root.
   */
  method NewItem(kind: Kind, tree: Component, name: string, uuid: string) returns (it: Item)
    ensures it == MakeItem(kind, tree, name, uuid)
    ensures name != "" ==> it.name == name
    ensures it.kind == kind
  {
    var w := Walk(tree);
    var n := name;
    if n == "" {
      var found: Option<string> := None;
      var i := 0;
      while i < |w|
        invariant 0 <= i <= |w|
        invariant ScanFrom(w, None) == ScanFrom(w[i..], found)
      {
        var c := w[i];
        if Has(c.props, XName) {
          found := Some(c.props[XName]);
          break;
        } else if Has(c.props, TzId) {
          found := Some(c.props[TzId]);
          break;
        } else if Has(c.props, Uid) {
          found := Some(c.props[Uid]);
        }
        assert w[i..][1..] == w[i + 1..];
        i := i + 1;
      }
      n := found.GetOr("");
      if n == "" {
        n := uuid;
      }
    }
    var j := 0;
    while j < |w| && !Has(w[j].props, XName)
      invariant 0 <= j <= |w|
      invariant forall i :: 0 <= i < j ==> !Has(w[i].props, XName)
    {
      j := j + 1;
    }
    if j == |w| {
      j := 0;
    }
    it := Item(kind, SetProp(tree, j, XName, n), n);
  }

  /** Stamping twice with the same non-empty name is stamping once. */
  lemma StampIdempotent(tree: Component, name: string)
    requires name != ""
    ensures Stamp(Stamp(tree, name), name) == Stamp(tree, name)
  {
    var w := Walk(tree);
    var j := StampIndex(w);
    var t2 := Stamp(tree, name);
    var w2 := Walk(t2);
    StampChangesOneNode(tree, name);
    assert FirstWithName(w2) == Some(j) by {
      var f := FirstWithName(w2);
      assert Has(w2[j].props, XName);
      assert forall i :: 0 <= i < j ==> !Has(w2[i].props, XName);
    }
    SetPropSame(t2, j, XName, name);
  }

  /**
   * A derived item survives a round trip: building an item again from its own
   * stamped tree, with no explicit name, gives back the same item.
   */
  lemma ItemRoundTrip(kind: Kind, tree: Component, uuid: string, uuid2: string)
    requires uuid != ""
    ensures var it := MakeItem(kind, tree, "", uuid);
      MakeItem(kind, it.ical, "", uuid2) == it
  {
    var n := DeriveName("", tree, uuid);
    NameStable(tree, uuid, uuid2);
    assert n != "" by {
      assert ScanName(Walk(tree)) == None || ScanName(Walk(tree)).value != "";
    }
    StampIdempotent(tree, n);
  }

  /**
   * An explicit name is not stable in general: when a TZID component comes
   * before the first X-CAL9-NAME, the scan of the stamped tree stops at the TZID.
   */
  lemma ExplicitNameNotStable()
    ensures var tree := Component("VCALENDAR", map[], [
                          Component("VTIMEZONE", map[TzId := "Europe/Paris"], []),
                          Component("VEVENT", map[XName := "old"], [])]);
      && MakeItem(Event, tree, "mine", "u").name == "mine"
      && MakeItem(Event, MakeItem(Event, tree, "mine", "u").ical, "", "u").name == "Europe/Paris"
  {
    var tz := Component("VTIMEZONE", map[TzId := "Europe/Paris"], []);
    var ev := Component("VEVENT", map[XName := "old"], []);
    var tree := Component("VCALENDAR", map[], [tz, ev]);
    assert Walk(tz) == [tz] && Walk(ev) == [ev];
    assert WalkAll([ev]) == [ev];
    assert Walk(tree) == [tree, tz, ev];
    assert StampIndex(Walk(tree)) == 2;
    var t2 := Stamp(tree, "mine");
    assert SetPropAll([ev], 0, XName, "mine") == [SetProp(ev, 0, XName, "mine")];
    assert [tz, ev][1..] == [ev];
    assert SetPropAll([tz, ev], 1, XName, "mine") == [tz] + SetPropAll([ev], 0, XName, "mine");
    assert t2 == Component("VCALENDAR", map[], [tz, ev.(props := ev.props[XName := "mine"])]);
    var ev2 := ev.(props := ev.props[XName := "mine"]);
    assert Walk(ev2) == [ev2];
    assert WalkAll([ev2]) == [ev2];
    assert Walk(t2) == [t2, tz, ev2];
    ScanStopsAtFirst(Walk(t2), 1, None);
  }

  // ---------------------------------------------------------------- etags

  /** Item.etag and Calendar.etag: the hash of the serialised tree, in double quotes. */
  function Etag(codec: Codec, tree: Component): string {
    "\"" + IntToString(codec.hash(codec.serialize(tree))) + "\""
  }

  /** The text inside an etag's quotes reads back as the hash it was made from. */
  lemma EtagCarriesHash(codec: Codec, tree: Component)
    ensures var e := Etag(codec, tree);
      && |e| >= 2 && e[0] == '"' && e[|e| - 1] == '"'
      && ParseInt(e[1..|e| - 1]) == Some(codec.hash(codec.serialize(tree)))
  {
    var h := codec.hash(codec.serialize(tree));
    var e := Etag(codec, tree);
    assert e[1..|e| - 1] == IntToString(h);
    IntToStringRoundTrip(h);
  }

  // ----------------------------------------------------------- item lists

  /** The children of every item's tree, item after item. */
  function SubsOf(items: seq<Item>): seq<Component> {
    if items == [] then [] else SubsOf(items[..|items| - 1]) + items[|items| - 1].ical.subs
  }

  /** ItemList.to_ical before serialisation: a fresh VCALENDAR holding every item's children. */
  function MergeItems(items: seq<Item>): (cal: Component)
    ensures cal.name == "VCALENDAR" && cal.props == map["PRODID" := ProdId, "VERSION" := Version]
    ensures cal.subs == SubsOf(items)
  {
    Component("VCALENDAR", map["PRODID" := ProdId, "VERSION" := Version], SubsOf(items))
  }

  /** A component wrapped in a fresh, property-less VCALENDAR, as filter() does. */
  function Wrap(c: Component): Component {
    Component("VCALENDAR", map[], [c])
  }

  /**
   * An item built from a wrapped component has that component, possibly with its
   * X-CAL9-NAME stamped, as its only child: same name, same children count.
   */
  lemma WrappedItemChild(kind: Kind, c: Component, uuid: string)
    ensures var it := MakeItem(kind, Wrap(c), "", uuid);
      |it.ical.subs| == 1 && it.ical.subs[0].name == c.name && |it.ical.subs[0].subs| == |c.subs|
  {
    var n := DeriveName("", Wrap(c), uuid);
    var j := StampIndex(Walk(Wrap(c)));
    if j > 0 {
      assert WalkAll([c]) == Walk(c) + WalkAll([]);
      assert j - 1 < |Walk(c)|;
      assert SetPropAll([c], j - 1, XName, n) == [SetProp(c, j - 1, XName, n)];
    }
  }

  /** Merging items built from wrapped components keeps one child per item, in order. */
  lemma MergeWrappedItems(items: seq<Item>, cs: seq<Component>, kinds: seq<Kind>, uuids: seq<string>)
    requires |items| == |cs| == |kinds| == |uuids|
    requires forall i :: 0 <= i < |items| ==> items[i] == MakeItem(kinds[i], Wrap(cs[i]), "", uuids[i])
    ensures |MergeItems(items).subs| == |items|
    ensures forall i :: 0 <= i < |items| ==> MergeItems(items).subs[i].name == cs[i].name
  {
    if items != [] {
      var m := |items| - 1;
      MergeWrappedItems(items[..m], cs[..m], kinds[..m], uuids[..m]);
      WrappedItemChild(kinds[m], cs[m], uuids[m]);
      assert SubsOf(items) == SubsOf(items[..m]) + items[m].ical.subs;
    }
  }
}
