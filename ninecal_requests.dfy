/**
 * 9cal/requests.py: the request table of the 9cal package, OPTIONS and
 * MKCALENDAR. MKCALENDAR finds D:set and its D:prop, builds the properties
 * of the new resource from the children of D:prop and answers 201.
 */
module NinecalRequests {
  import opened Wrappers
  import opened Ical
  import opened XmlUtils
  import opened Wsgi
  import Cal9Requests

  const NoCache: map<string, string> := map["Cache-Control" := "no-cache"]
  const NoSetMessage: string := "Can't find <D:set> tag in XML data\n"
  const NoPropMessage: string := "Can'nt find <D:set> / <D:prop> tag in XML data\n"

  const SetTag: string := Tag("D", "set")
  const PropTag: string := Tag("D", "prop")
  const DisplaynameTag: string := Tag("D", "displayname")
  const DescriptionTag: string := Tag("C", "calendar-description")
  const ComponentSetTag: string := Tag("C", "supported-calendar-component-set")
  const CalendarTimezoneTag: string := Tag("C", "calendar-timezone")

  const TypeKey: string := "type"

  /** A value of the properties map: a text (or None), a list of component names, a parsed calendar. */
  datatype PropValue = PText(text: Option<string>) | PList(names: seq<string>) | PCalendar(cal: Component)

  /** What mkcalendar can raise: unparsable XML, a nameless C:comp, a timezone from_ical rejects. */
  datatype MkError = BadXml | NoCompName | BadTimezone

  /** The key a recognised child of D:prop sets; None for any other child. */
  function KeyOf(t: string): (k: Option<string>)
    ensures k != Some(TypeKey)
  {
    if t == DisplaynameTag then Some("D:displayname")
    else if t == DescriptionTag then Some("C:calendar-description")
    else if t == ComponentSetTag then Some("C:supported-calendar-component-set")
    else if t == CalendarTimezoneTag then Some("C:calendar-timezone")
    else None
  }

  /** The value a recognised child contributes, or the exception computing it raises. */
  function ValueOf(child: Element, fromIcal: Option<string> -> Option<Component>): Result<PropValue, MkError> {
    if child.tag == ComponentSetTag then
      match Cal9Requests.CompNames(child.children)
      case None => Failure(NoCompName)
      case Some(names) => Success(PList(names))
    else if child.tag == CalendarTimezoneTag then
      match fromIcal(child.text)
      case None => Failure(BadTimezone)
      case Some(c) => Success(PCalendar(c))
    else Success(PText(child.text))
  }

  /** One iteration of the loop over D:prop's children. */
  function Step(m: map<string, PropValue>, child: Element, fromIcal: Option<string> -> Option<Component>)
    : Result<map<string, PropValue>, MkError>
  {
    match KeyOf(child.tag)
    case None => Success(m)
    case Some(k) =>
      match ValueOf(child, fromIcal)
      case Failure(e) => Failure(e)
      case Success(v) => Success(m[k := v])
  }

  const Initial: map<string, PropValue> := map[TypeKey := PText(Some("C:mkcalendar"))]

  /** The properties map after the loop over the children cs. */
  function PropsOf(cs: seq<Element>, fromIcal: Option<string> -> Option<Component>): Result<map<string, PropValue>, MkError> {
    if cs == [] then Success(Initial)
    else
      match PropsOf(cs[..|cs| - 1], fromIcal)
      case Failure(e) => Failure(e)
      case Success(m) => Step(m, cs[|cs| - 1], fromIcal)
  }

  /** The loop over the children of D:prop, filling the properties map. */
  method BuildProps(dprops: Element, fromIcal: Option<string> -> Option<Component>)
    returns (r: Result<map<string, PropValue>, MkError>)
    ensures r == PropsOf(dprops.children, fromIcal)
  {
    var cs := dprops.children;
    var props := Initial;
    var i := 0;
    PropTagsDistinct();
    while i < |cs|
      invariant 0 <= i <= |cs|
      invariant PropsOf(cs[..i], fromIcal) == Success(props)
    {
      var child := cs[i];
      PropsStep(cs, i, props, fromIcal);
      StepCases(props, child, fromIcal);
      if child.tag == DisplaynameTag {
        props := props["D:displayname" := PText(child.text)];
      } else if child.tag == DescriptionTag {
        props := props["C:calendar-description" := PText(child.text)];
      } else if child.tag == ComponentSetTag {
        var names := Cal9Requests.ComponentNames(child);
        if names.None? {
          PropsFailureStays(cs, i + 1, fromIcal);
          return Failure(NoCompName);
        }
        props := props["C:supported-calendar-component-set" := PList(names.value)];
      } else if child.tag == CalendarTimezoneTag {
        var tz := fromIcal(child.text);
        if tz.None? {
          PropsFailureStays(cs, i + 1, fromIcal);
          return Failure(BadTimezone);
        }
        props := props["C:calendar-timezone" := PCalendar(tz.value)];
      }
      i := i + 1;
    }
    assert cs[..|cs|] == cs;
    return Success(props);
  }

  /** The four property names the loop recognises are distinct. */
  lemma PropTagsDistinct()
    ensures DisplaynameTag != DescriptionTag && DisplaynameTag != ComponentSetTag && DisplaynameTag != CalendarTimezoneTag
    ensures DescriptionTag != ComponentSetTag && DescriptionTag != CalendarTimezoneTag
    ensures ComponentSetTag != CalendarTimezoneTag
  {
    TagsDiffer("D", "displayname", "C", "calendar-description");
    TagsDiffer("D", "displayname", "C", "supported-calendar-component-set");
    TagsDiffer("D", "displayname", "C", "calendar-timezone");
    TagsDiffer("C", "calendar-description", "C", "supported-calendar-component-set");
    TagsDiffer("C", "calendar-description", "C", "calendar-timezone");
    TagsDiffer("C", "supported-calendar-component-set", "C", "calendar-timezone");
  }

  /** One more child is one more step of the loop. */
  lemma PropsStep(cs: seq<Element>, i: nat, props: map<string, PropValue>, fromIcal: Option<string> -> Option<Component>)
    requires i < |cs| && PropsOf(cs[..i], fromIcal) == Success(props)
    ensures PropsOf(cs[..i + 1], fromIcal) == Step(props, cs[i], fromIcal)
  {
    assert cs[..i + 1][..i] == cs[..i];
  }

  /** What one step does, child tag by child tag, as the loop's if-chain tests them. */
  lemma StepCases(m: map<string, PropValue>, child: Element, fromIcal: Option<string> -> Option<Component>)
    ensures child.tag == DisplaynameTag ==> Step(m, child, fromIcal) == Success(m["D:displayname" := PText(child.text)])
    ensures child.tag == DescriptionTag ==>
              Step(m, child, fromIcal) == Success(m["C:calendar-description" := PText(child.text)])
    ensures child.tag == ComponentSetTag ==>
              Step(m, child, fromIcal) == match Cal9Requests.CompNames(child.children)
                                          case None => Failure(NoCompName)
                                          case Some(names) => Success(m["C:supported-calendar-component-set" := PList(names)])
    ensures child.tag == CalendarTimezoneTag ==>
              Step(m, child, fromIcal) == match fromIcal(child.text)
                                          case None => Failure(BadTimezone)
                                          case Some(c) => Success(m["C:calendar-timezone" := PCalendar(c)])
    ensures KeyOf(child.tag).None? ==> Step(m, child, fromIcal) == Success(m)
  {
    PropTagsDistinct();
  }

  /**
   * The loop stops at the first child whose value cannot be computed: the
   * map is built exactly when every recognised child's value can be.
   */
  lemma {:induction false} PropsFail(cs: seq<Element>, fromIcal: Option<string> -> Option<Component>)
    ensures PropsOf(cs, fromIcal).Success? <==>
      forall i :: 0 <= i < |cs| && KeyOf(cs[i].tag).Some? ==> ValueOf(cs[i], fromIcal).Success?
  {
    if cs != [] {
      var n := |cs| - 1;
      PropsFail(cs[..n], fromIcal);
      assert forall i :: 0 <= i < n ==> cs[..n][i] == cs[i];
    }
  }

  /** A failure part-way through is the failure of the whole loop. */
  lemma {:induction false} PropsFailureStays(cs: seq<Element>, i: nat, fromIcal: Option<string> -> Option<Component>)
    requires i <= |cs| && PropsOf(cs[..i], fromIcal).Failure?
    ensures PropsOf(cs, fromIcal) == PropsOf(cs[..i], fromIcal)
    decreases |cs| - i
  {
    if i < |cs| {
      assert cs[..i + 1][..i] == cs[..i];
      PropsFailureStays(cs, i + 1, fromIcal);
    } else {
      assert cs[..i] == cs;
    }
  }

  /** The map always has type 'C:mkcalendar': no child sets that key. */
  lemma {:induction false} PropsType(cs: seq<Element>, fromIcal: Option<string> -> Option<Component>)
    requires PropsOf(cs, fromIcal).Success?
    ensures TypeKey in PropsOf(cs, fromIcal).value && PropsOf(cs, fromIcal).value[TypeKey] == PText(Some("C:mkcalendar"))
  {
    if cs != [] {
      PropsType(cs[..|cs| - 1], fromIcal);
    }
  }

  /** Besides type, the map has a key exactly when some child sets it. */
  lemma {:induction false} PropsKeys(cs: seq<Element>, fromIcal: Option<string> -> Option<Component>, k: string)
    requires PropsOf(cs, fromIcal).Success? && k != TypeKey
    ensures k in PropsOf(cs, fromIcal).value <==> exists i :: 0 <= i < |cs| && KeyOf(cs[i].tag) == Some(k)
  {
    if cs != [] {
      var n := |cs| - 1;
      var pre := cs[..n];
      PropsKeys(pre, fromIcal, k);
      var m0 := PropsOf(pre, fromIcal).value;
      var key := KeyOf(cs[n].tag);
      assert PropsOf(cs, fromIcal) == Step(m0, cs[n], fromIcal);
      assert key.Some? ==> PropsOf(cs, fromIcal).value == m0[key.value := ValueOf(cs[n], fromIcal).value];
      assert key.None? ==> PropsOf(cs, fromIcal).value == m0;
      assert k in PropsOf(cs, fromIcal).value <==> k in m0 || key == Some(k);
      KeySetSnoc(cs, k);
    }
  }

  lemma KeySetSnoc(cs: seq<Element>, k: string)
    requires cs != []
    ensures var n := |cs| - 1;
      (exists i :: 0 <= i < |cs| && KeyOf(cs[i].tag) == Some(k)) <==>
      (exists i :: 0 <= i < n && KeyOf(cs[..n][i].tag) == Some(k)) || KeyOf(cs[n].tag) == Some(k)
  {
    var n := |cs| - 1;
    if exists i :: 0 <= i < n && KeyOf(cs[..n][i].tag) == Some(k) {
      var i :| 0 <= i < n && KeyOf(cs[..n][i].tag) == Some(k);
      assert cs[i] == cs[..n][i];
    }
    if exists i :: 0 <= i < |cs| && KeyOf(cs[i].tag) == Some(k) {
      var i :| 0 <= i < |cs| && KeyOf(cs[i].tag) == Some(k);
      if i < n {
        assert cs[..n][i] == cs[i];
      }
    }
  }

  /** A key set by several children holds the value of the last one. */
  lemma {:induction false} PropsLastWins(cs: seq<Element>, fromIcal: Option<string> -> Option<Component>, i: nat)
    requires PropsOf(cs, fromIcal).Success?
    requires i < |cs| && KeyOf(cs[i].tag).Some?
    requires forall j :: i < j < |cs| ==> KeyOf(cs[j].tag) != KeyOf(cs[i].tag)
    ensures ValueOf(cs[i], fromIcal).Success?
    ensures KeyOf(cs[i].tag).value in PropsOf(cs, fromIcal).value
    ensures PropsOf(cs, fromIcal).value[KeyOf(cs[i].tag).value] == ValueOf(cs[i], fromIcal).value
  {
    var n := |cs| - 1;
    var pre := cs[..n];
    if i < n {
      assert pre[i] == cs[i];
      assert forall j :: i < j < n ==> pre[j] == cs[j];
      PropsLastWins(pre, fromIcal, i);
      assert KeyOf(cs[n].tag) != KeyOf(cs[i].tag);
    }
  }

  /** A supported component set contributes the names of its C:comp children, in order. */
  lemma ComponentSetValue(child: Element, fromIcal: Option<string> -> Option<Component>)
    requires child.tag == ComponentSetTag && ValueOf(child, fromIcal).Success?
    ensures var comps := ChildrenTagged(child.children, Cal9Requests.CompTag);
      var names := ValueOf(child, fromIcal).value.names;
      ValueOf(child, fromIcal).value.PList? && |names| == |comps|
      && forall i :: 0 <= i < |comps| ==> "name" in comps[i].attrs && names[i] == comps[i].attrs["name"]
  {
    Cal9Requests.CompNamesSpec(child.children);
  }

  /** What a handler hands back: its triple, and the properties of the resource it saved, if any. */
  datatype Created = Created(reply: Reply, saved: Option<map<string, PropValue>>)

  /** The outcome of mkcalendar for a request body. */
  function MkCalendarOf(content: string, parse: string -> Option<Element>, fromIcal: Option<string> -> Option<Component>)
    : Result<Created, MkError>
  {
    match parse(content)
    case None => Failure(BadXml)
    case Some(dom) =>
      match Find(dom, SetTag)
      case None => Success(Created(Reply(500, NoCache, [NoSetMessage]), None))
      case Some(dset) =>
        match Find(dset, PropTag)
        case None => Success(Created(Reply(500, NoCache, [NoPropMessage]), None))
        case Some(dprops) =>
          match PropsOf(dprops.children, fromIcal)
          case Failure(e) => Failure(e)
          case Success(props) => Success(Created(Reply(201, NoCache, []), Some(props)))
  }

  method MkCalendar(content: string, parse: string -> Option<Element>, fromIcal: Option<string> -> Option<Component>)
    returns (r: Result<Created, MkError>)
    ensures r == MkCalendarOf(content, parse, fromIcal)
  {
    var dom := parse(content);
    if dom.None? {
      return Failure(BadXml);
    }
    var dset := Find(dom.value, SetTag);
    if dset.None? {
      return Success(Created(Reply(500, NoCache, [NoSetMessage]), None));
    }
    var dprops := Find(dset.value, PropTag);
    if dprops.None? {
      return Success(Created(Reply(500, NoCache, [NoPropMessage]), None));
    }
    var props := BuildProps(dprops.value, fromIcal);
    if props.Failure? {
      return Failure(props.error);
    }
    return Success(Created(Reply(201, NoCache, []), Some(props.value)));
  }

  /**
   * The answers of mkcalendar: always Cache-Control: no-cache; without D:set
   * or without D:prop inside it, 500 with its message and nothing saved;
   * otherwise 201, no content, and the properties built from D:prop saved.
   */
  lemma MkCalendarAnswers(content: string, parse: string -> Option<Element>, fromIcal: Option<string> -> Option<Component>)
    requires parse(content).Some?
    ensures var r := MkCalendarOf(content, parse, fromIcal);
      var dom := parse(content).value;
      && (r.Success? ==> r.value.reply.headers == NoCache)
      && (Find(dom, SetTag).None? ==> r == Success(Created(Reply(500, NoCache, [NoSetMessage]), None)))
      && (Find(dom, SetTag).Some? && Find(Find(dom, SetTag).value, PropTag).None? ==>
            r == Success(Created(Reply(500, NoCache, [NoPropMessage]), None)))
      && (Find(dom, SetTag).Some? && Find(Find(dom, SetTag).value, PropTag).Some? ==>
            var dprops := Find(Find(dom, SetTag).value, PropTag).value;
            (r.Success? <==> PropsOf(dprops.children, fromIcal).Success?)
            && (r.Success? ==> r.value.reply == Reply(201, NoCache, []) && r.value.saved == Some(PropsOf(dprops.children, fromIcal).value)))
  {
  }

  /** A 201 is always the empty answer of a saved resource; anything else saves nothing. */
  lemma MkCalendarSuccess(content: string, parse: string -> Option<Element>, fromIcal: Option<string> -> Option<Component>)
    ensures var r := MkCalendarOf(content, parse, fromIcal);
      && (r.Success? && r.value.reply.status == 201 ==> r.value.reply == Reply(201, NoCache, []) && r.value.saved.Some?)
      && (r.Success? && r.value.reply.status != 201 ==> r.value.reply.status == 500 && r.value.saved.None?)
  {
  }

  /** A request whose D:prop holds only a display name saves the type and that name. */
  lemma DisplaynameOnly(name: string, fromIcal: Option<string> -> Option<Component>)
    ensures var dprops := Element(PropTag, map[], None, [Leaf(DisplaynameTag, Some(name))]);
      PropsOf(dprops.children, fromIcal) == Success(map[TypeKey := PText(Some("C:mkcalendar")), "D:displayname" := PText(Some(name))])
  {
    var cs := [Leaf(DisplaynameTag, Some(name))];
    assert cs[..0] == [];
    assert KeyOf(DisplaynameTag) == Some("D:displayname");
  }

  /** The handlers of the table. */
  datatype Handler = OptionsRequest | MkcalendarRequest

  /** The requests table: exactly OPTIONS and MKCALENDAR. */
  const Requests: map<string, Handler> := map["OPTIONS" := OptionsRequest, "MKCALENDAR" := MkcalendarRequest]

  /** Running a handler of the table on the request body. */
  function Run(h: Handler, content: string, parse: string -> Option<Element>,
               fromIcal: Option<string> -> Option<Component>): Result<Created, MkError>
  {
    match h
    case OptionsRequest => Success(Created(OptionsReply(), None))
    case MkcalendarRequest => MkCalendarOf(content, parse, fromIcal)
  }

  /** OPTIONS is answered 200 with Allow and DAV and no content, whatever the body, and saves nothing. */
  lemma OptionsEntry(content: string, parse: string -> Option<Element>, fromIcal: Option<string> -> Option<Component>)
    ensures "OPTIONS" in Requests
    ensures var r := Run(Requests["OPTIONS"], content, parse, fromIcal);
      r.Success? && r.value.saved.None? && r.value.reply.status == 200 && r.value.reply.content == []
      && r.value.reply.headers == map["Allow" := AllowValue, "DAV" := DavValue]
  {
  }
}
