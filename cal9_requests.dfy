/**
 * cal9/requests.py: the request table of the cal9 package, OPTIONS and
 * MKCALENDAR. MKCALENDAR reads the display name, description, component set
 * and timezone from D:set/D:prop of the request and hands them to the backend.
 */
module Cal9Requests {
  import opened Wrappers
  import opened Ical
  import opened XmlUtils
  import opened Wsgi

  const NoCache: map<string, string> := map["Cache-Control" := "no-cache"]
  const InvalidBody: string := "Invalid XML body.\n"
  const NotYetImplemented: string := "Not yet implemented.\n"

  /** The findall path ./D:set/D:prop/<ns:name>. */
  function SetPropPath(ns: string, name: string): (p: seq<string>)
    requires ns in Namespaces
    ensures |p| == 3
  {
    [Tag("D", "set"), Tag("D", "prop"), Tag(ns, name)]
  }

  const CompTag: string := Tag("C", "comp")

  /**
   * The loop over a supported-calendar-component-set: the name attribute of
   * each C:comp child, in order, other children ignored; a C:comp without a
   * name is a KeyError (None).
   */
  function CompNames(cs: seq<Element>): Option<seq<string>> {
    if cs == [] then Some([])
    else if cs[0].tag == CompTag then
      if "name" !in cs[0].attrs then None
      else
        match CompNames(cs[1..])
        case None => None
        case Some(rest) => Some([cs[0].attrs["name"]] + rest)
    else CompNames(cs[1..])
  }

  /**
   * The names fail exactly when some C:comp child has no name; otherwise they
   * are the names of the C:comp children, one each, in document order.
   */
  lemma {:induction false} CompNamesSpec(cs: seq<Element>)
    ensures CompNames(cs).None? <==> exists i :: 0 <= i < |cs| && cs[i].tag == CompTag && "name" !in cs[i].attrs
    ensures CompNames(cs).Some? ==> var comps := ChildrenTagged(cs, CompTag);
      |CompNames(cs).value| == |comps|
      && forall i :: 0 <= i < |comps| ==> "name" in comps[i].attrs && CompNames(cs).value[i] == comps[i].attrs["name"]
  {
    if cs != [] {
      CompNamesSpec(cs[1..]);
      assert forall i :: 1 <= i < |cs| ==> cs[i] == cs[1..][i - 1];
      var rest := CompNames(cs[1..]);
      if rest.None? {
        var i :| 0 <= i < |cs[1..]| && cs[1..][i].tag == CompTag && "name" !in cs[1..][i].attrs;
        assert cs[i + 1] == cs[1..][i];
      }
      if cs[0].tag == CompTag {
        assert ChildrenTagged(cs, CompTag) == [cs[0]] + ChildrenTagged(cs[1..], CompTag);
      } else {
        assert ChildrenTagged(cs, CompTag) == ChildrenTagged(cs[1..], CompTag);
      }
    }
  }

  /** The component loop of mkcalendar over the first component set's children. */
  method ComponentNames(compset: Element) returns (r: Option<seq<string>>)
    ensures r == CompNames(compset.children)
  {
    var cs := compset.children;
    var components: seq<string> := [];
    var i := 0;
    assert cs[0..] == cs;
    assert CompNames(cs).Some? ==> [] + CompNames(cs).value == CompNames(cs).value;
    while i < |cs|
      invariant 0 <= i <= |cs|
      invariant CompNames(cs) == match CompNames(cs[i..]) case None => None case Some(rest) => Some(components + rest)
    {
      assert cs[i..][1..] == cs[i + 1..];
      if cs[i].tag == CompTag {
        if "name" !in cs[i].attrs {
          return None;
        }
        var name := cs[i].attrs["name"];
        if CompNames(cs[i + 1..]).Some? {
          var rest := CompNames(cs[i + 1..]).value;
          assert CompNames(cs[i..]) == Some([name] + rest);
          assert components + ([name] + rest) == (components + [name]) + rest;
        }
        components := components + [name];
      }
      i := i + 1;
    }
    assert cs[i..] == [];
    assert components + [] == components;
    return Some(components);
  }

  /** What mkcalendar can raise: comps[0] on no component set, a nameless C:comp, a timezone from_ical rejects. */
  datatype MkError = NoComponentSet | NoCompName | BadTimezone

  /**
   * The calls mkcalendar makes that are not in this model: from_ical on the
   * timezone text (None when it raises), and Backend.mkcalendar on the path,
   * name, description and timezone (None when it raises NotImplementedError).
   */
  datatype Services = Services(fromIcal: Option<string> -> Option<Component>,
                               mkcalendar: (string, Option<string>, Option<string>, Component) -> Option<(int, seq<string>)>)

  /** The outcome of mkcalendar for a parsed request body. */
  function MkCalendarOf(path: string, dom: Element, sv: Services): Result<Reply, MkError> {
    var displayname := FindAll(dom, SetPropPath("D", "displayname"));
    var description := FindAll(dom, SetPropPath("C", "calendar-description"));
    var comps := FindAll(dom, SetPropPath("C", "supported-calendar-component-set"));
    if comps == [] then Failure(NoComponentSet)
    else
      match CompNames(comps[0].children)
      case None => Failure(NoCompName)
      case Some(components) =>
        var timezone := FindAll(dom, SetPropPath("C", "calendar-timezone"));
        if displayname == [] || description == [] || components == [] || timezone == [] then
          Success(Reply(500, NoCache, [InvalidBody]))
        else
          match sv.fromIcal(timezone[0].text)
          case None => Failure(BadTimezone)
          case Some(tz) =>
            match sv.mkcalendar(path, displayname[0].text, description[0].text, tz)
            case None => Success(Reply(500, NoCache, [NotYetImplemented]))
            case Some((status, msg)) => Success(Reply(status, NoCache, msg))
  }

  method MkCalendar(env: Environ, dom: Element, sv: Services) returns (r: Result<Reply, MkError>)
    ensures r == MkCalendarOf(env.pathInfo, dom, sv)
  {
    var displayname := FindAll(dom, SetPropPath("D", "displayname"));
    var description := FindAll(dom, SetPropPath("C", "calendar-description"));
    var comps := FindAll(dom, SetPropPath("C", "supported-calendar-component-set"));
    if comps == [] {
      return Failure(NoComponentSet);
    }
    var components := ComponentNames(comps[0]);
    if components.None? {
      return Failure(NoCompName);
    }
    var timezone := FindAll(dom, SetPropPath("C", "calendar-timezone"));
    if displayname == [] || description == [] || components.value == [] || timezone == [] {
      return Success(Reply(500, NoCache, [InvalidBody]));
    }
    var tz := sv.fromIcal(timezone[0].text);
    if tz.None? {
      return Failure(BadTimezone);
    }
    var answer := sv.mkcalendar(env.pathInfo, displayname[0].text, description[0].text, tz.value);
    if answer.None? {
      return Success(Reply(500, NoCache, [NotYetImplemented]));
    }
    var (status, msg) := answer.value;
    return Success(Reply(status, NoCache, msg));
  }

  /** Every answer of mkcalendar carries exactly Cache-Control: no-cache. */
  lemma MkCalendarNoCache(path: string, dom: Element, sv: Services)
    ensures MkCalendarOf(path, dom, sv).Success? ==> MkCalendarOf(path, dom, sv).value.headers == NoCache
  {
  }

  /** Without a component set, comps[0] fails before anything is checked or called. */
  lemma NoComponentSetFails(path: string, dom: Element, sv: Services)
    requires FindAll(dom, SetPropPath("C", "supported-calendar-component-set")) == []
    ensures MkCalendarOf(path, dom, sv) == Failure(NoComponentSet)
  {
  }

  /**
   * With a component set whose C:comp children all have names, a missing
   * display name, description, component or timezone is answered 500
   * "Invalid XML body." whatever the backend would do: it is not called.
   */
  lemma IncompleteBody(path: string, dom: Element, sv: Services, sv2: Services)
    requires var comps := FindAll(dom, SetPropPath("C", "supported-calendar-component-set"));
      comps != [] && CompNames(comps[0].children).Some?
    requires || FindAll(dom, SetPropPath("D", "displayname")) == []
             || FindAll(dom, SetPropPath("C", "calendar-description")) == []
             || ChildrenTagged(FindAll(dom, SetPropPath("C", "supported-calendar-component-set"))[0].children, CompTag) == []
             || FindAll(dom, SetPropPath("C", "calendar-timezone")) == []
    ensures MkCalendarOf(path, dom, sv) == Success(Reply(500, NoCache, [InvalidBody]))
    ensures MkCalendarOf(path, dom, sv2) == MkCalendarOf(path, dom, sv)
  {
    CompNamesSpec(FindAll(dom, SetPropPath("C", "supported-calendar-component-set"))[0].children);
  }

  /**
   * With all four present, the backend gets the first display name's and
   * description's text and the parsed timezone; its status and message come
   * back unchanged, and NotImplementedError becomes 500 "Not yet implemented.".
   */
  lemma BackendAnswer(path: string, dom: Element, sv: Services, tz: Component)
    requires var comps := FindAll(dom, SetPropPath("C", "supported-calendar-component-set"));
      comps != [] && CompNames(comps[0].children).Some? && ChildrenTagged(comps[0].children, CompTag) != []
    requires FindAll(dom, SetPropPath("D", "displayname")) != []
    requires FindAll(dom, SetPropPath("C", "calendar-description")) != []
    requires FindAll(dom, SetPropPath("C", "calendar-timezone")) != []
    requires sv.fromIcal(FindAll(dom, SetPropPath("C", "calendar-timezone"))[0].text) == Some(tz)
    ensures var answer := sv.mkcalendar(path, FindAll(dom, SetPropPath("D", "displayname"))[0].text,
                                        FindAll(dom, SetPropPath("C", "calendar-description"))[0].text, tz);
      && (answer.None? ==> MkCalendarOf(path, dom, sv) == Success(Reply(500, NoCache, [NotYetImplemented])))
      && (answer.Some? ==> MkCalendarOf(path, dom, sv) == Success(Reply(answer.value.0, NoCache, answer.value.1)))
  {
    CompNamesSpec(FindAll(dom, SetPropPath("C", "supported-calendar-component-set"))[0].children);
  }

  /** The handlers of the table. */
  datatype Handler = OptionsRequest | MkcalendarRequest

  /** The requests table: exactly OPTIONS and MKCALENDAR. */
  const Requests: map<string, Handler> := map["OPTIONS" := OptionsRequest, "MKCALENDAR" := MkcalendarRequest]

  /** Running a handler of the table on a request and its parsed body. */
  function Run(h: Handler, env: Environ, dom: Element, sv: Services): Result<Reply, MkError> {
    match h
    case OptionsRequest => Success(OptionsReply())
    case MkcalendarRequest => MkCalendarOf(env.pathInfo, dom, sv)
  }

  /** OPTIONS is answered 200 with Allow and DAV and no content, whatever the body. */
  lemma OptionsEntry(env: Environ, dom: Element, sv: Services)
    ensures "OPTIONS" in Requests
    ensures var r := Run(Requests["OPTIONS"], env, dom, sv);
      r.Success? && r.value.status == 200 && r.value.content == []
      && r.value.headers == map["Allow" := AllowValue, "DAV" := DavValue]
  {
  }
}
