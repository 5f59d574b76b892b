/**
 * cal9/xmlutils.py: the namespace table and its inverse, Clark notation, a
 * model of the parsed element trees the request handlers read, and the
 * property resolver behind PROPFIND (the response/propstat structure of
 * section 9.1 of RFC 4918, for the CalDAV properties of RFC 4791).
 */
module XmlUtils {
  import opened Wrappers
  import opened Text
  import Util

  // ------------------------------------------------------------- namespaces

  /** The namespace prefixes, in the order the table lists them. */
  const Prefixes: seq<string> := ["C", "CR", "D", "CS", "ICAL", "ME"]

  const Namespaces: map<string, string> := map[
    "C" := "urn:ietf:params:xml:ns:caldav",
    "CR" := "urn:ietf:params:xml:ns:carddav",
    "D" := "DAV:",
    "CS" := "http://calendarserver.org/ns/",
    "ICAL" := "http://apple.com/ns/ical/",
    "ME" := "http://me.com/_namespace/"]

  /** NAMESPACES_REV as the module-level loop leaves it. */
  const NamespacesRev: map<string, string> := map[
    "urn:ietf:params:xml:ns:caldav" := "C",
    "urn:ietf:params:xml:ns:carddav" := "CR",
    "DAV:" := "D",
    "http://calendarserver.org/ns/" := "CS",
    "http://apple.com/ns/ical/" := "ICAL",
    "http://me.com/_namespace/" := "ME"]

  /** The reverse table after the loop has seen the first i prefixes. */
  function RevAfter(i: nat): map<string, string>
    requires i <= |Prefixes|
  {
    if i == 0 then map[] else RevAfter(i - 1)[Namespaces[Prefixes[i - 1]] := Prefixes[i - 1]]
  }

  lemma RevAfterAll()
    ensures RevAfter(|Prefixes|) == NamespacesRev
  {
    assert RevAfter(1) == map["urn:ietf:params:xml:ns:caldav" := "C"];
    assert RevAfter(2) == RevAfter(1)["urn:ietf:params:xml:ns:carddav" := "CR"];
    assert RevAfter(3) == RevAfter(2)["DAV:" := "D"];
    assert RevAfter(4) == RevAfter(3)["http://calendarserver.org/ns/" := "CS"];
    assert RevAfter(5) == RevAfter(4)["http://apple.com/ns/ical/" := "ICAL"];
    assert RevAfter(6) == RevAfter(5)["http://me.com/_namespace/" := "ME"];
  }

  /**
   * The module-level loop that fills NAMESPACES_REV: one entry per prefix,
   * keyed by its URL. The result inverts the table.
   */
  method ReverseNamespaces() returns (rev: map<string, string>)
    ensures rev == NamespacesRev
    ensures forall p :: p in Namespaces ==> Namespaces[p] in rev && rev[Namespaces[p]] == p
    ensures forall u :: u in rev ==> rev[u] in Namespaces && Namespaces[rev[u]] == u
  {
    rev := map[];
    var i := 0;
    while i < |Prefixes|
      invariant 0 <= i <= |Prefixes|
      invariant rev == RevAfter(i)
    {
      var ns := Prefixes[i];
      rev := rev[Namespaces[ns] := ns];
      i := i + 1;
    }
    RevAfterAll();
    NamespacesInverse();
  }

  /** NAMESPACES_REV is the exact inverse of NAMESPACES, whose six URLs are distinct. */
  lemma NamespacesInverse()
    ensures forall p :: p in Namespaces ==> Namespaces[p] in NamespacesRev && NamespacesRev[Namespaces[p]] == p
    ensures forall u :: u in NamespacesRev ==> NamespacesRev[u] in Namespaces && Namespaces[NamespacesRev[u]] == u
    ensures forall p, q :: p in Namespaces && q in Namespaces && p != q ==> Namespaces[p] != Namespaces[q]
  {
  }

  /** No namespace URL contains a closing brace. */
  lemma NoBraceInNamespaces()
    ensures forall p :: p in Namespaces ==> '}' !in Namespaces[p]
  {
    UrlsBraceFree();
    assert Namespaces.Keys == {"C", "CR", "D", "CS", "ICAL", "ME"};
  }

  lemma UrlsBraceFree()
    ensures '}' !in "urn:ietf:params:xml:ns:caldav" && '}' !in "urn:ietf:params:xml:ns:carddav" && '}' !in "DAV:"
    ensures '}' !in "http://calendarserver.org/ns/" && '}' !in "http://apple.com/ns/ical/" && '}' !in "http://me.com/_namespace/"
  {
  }

  // --------------------------------------------------------- Clark notation

  /** tag(ns, name): a name in Clark notation, "{url}name"; an unknown prefix is a KeyError. */
  function Tag(ns: string, name: string): string
    requires ns in Namespaces
  {
    "{" + Namespaces[ns] + "}" + name
  }

  /** The text of s up to its first newline, where the regex's `.*` stops. */
  function UpToNewline(s: string): (r: string)
    ensures '\n' !in r && |r| <= |s| && r == s[..|r|]
    ensures |r| < |s| ==> s[|r|] == '\n'
  {
    if s == [] || s[0] == '\n' then "" else [s[0]] + UpToNewline(s[1..])
  }

  lemma {:induction false} UpToNewlineNone(s: string)
    requires '\n' !in s
    ensures UpToNewline(s) == s
  {
    if s != [] {
      UpToNewlineNone(s[1..]);
      assert s == [s[0]] + s[1..];
    }
  }

  /**
   * CLARK_TAG_REGEX.match: a '{' at the start, a namespace without '}', the '}',
   * and then the local name (up to a newline); None when the text does not match.
   */
  function ClarkMatch(t: string): (r: Option<(string, string)>)
    ensures r.Some? ==> '}' !in r.value.0 && '\n' !in r.value.1
    ensures r.Some? ==> |r.value.0| + |r.value.1| + 2 <= |t|
                        && t[..|r.value.0| + |r.value.1| + 2] == "{" + r.value.0 + "}" + r.value.1
  {
    if |t| == 0 || t[0] != '{' then None
    else
      var body := t[1..];
      match FirstIndexOf(body, '}')
      case None => None
      case Some(i) =>
        var ns, local := body[..i], UpToNewline(body[i + 1..]);
        assert t[..|ns| + |local| + 2] == [t[0]] + body[..i] + [body[i]] + body[i + 1..][..|local|];
        Some((ns, local))
  }

  /** tag_clark: "{url}name" with a known url becomes "prefix:name"; anything else is kept. */
  function TagClark(t: string): string {
    match ClarkMatch(t)
    case Some((ns, local)) => if ns in NamespacesRev then NamespacesRev[ns] + ":" + local else t
    case None => t
  }

  /** Where the first '}' of "{url}name" is, for a url without braces. */
  lemma BraceAfterUrl(u: string, n: string)
    requires '}' !in u
    ensures var t := "{" + u + "}" + n;
      t[0] == '{' && FirstIndexOf(t[1..], '}') == Some(|u|) && t[1..][..|u|] == u && t[1..][|u| + 1..] == n
  {
    var t := "{" + u + "}" + n;
    var body := t[1..];
    assert body == u + "}" + n;
    assert body[..|u|] == u;
    assert body[|u|] == '}';
    FirstIndexOfUnique(body, '}', |u|);
    assert body[|u| + 1..] == n;
  }

  lemma {:induction false} FirstIndexOfUnique(s: string, c: char, i: nat)
    requires i < |s| && s[i] == c && c !in s[..i]
    ensures FirstIndexOf(s, c) == Some(i)
  {
    if i > 0 {
      assert s[0] == s[..i][0];
      assert s[1..][..i - 1] == s[..i][1..];
      FirstIndexOfUnique(s[1..], c, i - 1);
    }
  }

  /** Converting a tag built by Tag back gives "prefix:name", cut at the first newline. */
  lemma TagClarkOfTag(p: string, n: string)
    requires p in Namespaces
    ensures TagClark(Tag(p, n)) == p + ":" + UpToNewline(n)
    ensures '\n' !in n ==> TagClark(Tag(p, n)) == p + ":" + n
  {
    NoBraceInNamespaces();
    NamespacesInverse();
    BraceAfterUrl(Namespaces[p], n);
    if '\n' !in n {
      UpToNewlineNone(n);
    }
  }

  /**
   * tag_clark either keeps its input or returns "prefix:name" for a known
   * prefix, where the input starts with tag(prefix, name).
   */
  lemma TagClarkShape(t: string)
    ensures TagClark(t) == t
         || exists p, n :: p in Namespaces && '\n' !in n && TagClark(t) == p + ":" + n
                          && |Tag(p, n)| <= |t| && t[..|Tag(p, n)|] == Tag(p, n)
  {
    match ClarkMatch(t)
    case Some((ns, local)) =>
      if ns in NamespacesRev {
        NamespacesInverse();
        var p := NamespacesRev[ns];
        assert Tag(p, local) == "{" + ns + "}" + local;
        assert p in Namespaces && '\n' !in local && TagClark(t) == p + ":" + local
               && |Tag(p, local)| <= |t| && t[..|Tag(p, local)|] == Tag(p, local);
      }
    case None =>
  }

  /** A text in "{url}name" form whose url is not a known namespace is kept as it is. */
  lemma TagClarkUnknown(u: string, n: string)
    requires u !in NamespacesRev && '}' !in u
    ensures TagClark("{" + u + "}" + n) == "{" + u + "}" + n
  {
    BraceAfterUrl(u, n);
  }

  // ---------------------------------------------------------- element trees

  /** A parsed XML element: its Clark-notation tag, attributes, text and children. */
  datatype Element = Element(tag: string, attrs: map<string, string>, text: Option<string>, children: seq<Element>)

  function Leaf(tag: string, text: Option<string>): Element {
    Element(tag, map[], text, [])
  }

  /** Element.find(tag): the first child with that tag, or None. */
  function Find(e: Element, t: string): (r: Option<Element>)
    ensures r.Some? ==> r.value.tag == t
  {
    FindIn(e.children, t)
  }

  function FindIn(cs: seq<Element>, t: string): (r: Option<Element>)
    ensures r.Some? ==> r.value.tag == t
  {
    if cs == [] then None
    else if cs[0].tag == t then Some(cs[0])
    else FindIn(cs[1..], t)
  }

  /** find() fails exactly when no child has the tag, and otherwise returns the first that has it. */
  lemma FindSpec(e: Element, t: string)
    ensures Find(e, t).None? <==> forall i :: 0 <= i < |e.children| ==> e.children[i].tag != t
    ensures Find(e, t).Some? ==>
              exists i :: 0 <= i < |e.children| && e.children[i] == Find(e, t).value
                          && forall j :: 0 <= j < i ==> e.children[j].tag != t
  {
    FindInSpec(e.children, t);
  }

  lemma {:induction false} FindInSpec(cs: seq<Element>, t: string)
    ensures FindIn(cs, t).None? <==> forall i :: 0 <= i < |cs| ==> cs[i].tag != t
    ensures FindIn(cs, t).Some? ==>
              exists i :: 0 <= i < |cs| && cs[i] == FindIn(cs, t).value && forall j :: 0 <= j < i ==> cs[j].tag != t
  {
    if cs != [] && cs[0].tag != t {
      var r := FindIn(cs[1..], t);
      FindInSpec(cs[1..], t);
      assert forall i :: 0 < i < |cs| ==> cs[i] == cs[1..][i - 1];
      if r.Some? {
        var i :| 0 <= i < |cs[1..]| && cs[1..][i] == r.value && forall j :: 0 <= j < i ==> cs[1..][j].tag != t;
        assert cs[i + 1] == r.value;
      }
    } else if cs != [] {
      assert cs[0] == FindIn(cs, t).value;
    }
  }

  /**
   * Element.findall('./t1/t2/...'): every element reached by following children
   * with the given tags, in document order.
   */
  function FindAll(e: Element, path: seq<string>): (r: seq<Element>)
    ensures path != [] ==> forall x :: x in r ==> x.tag == path[|path| - 1]
    decreases e, 1
  {
    if path == [] then [e] else FindAllIn(e.children, path)
  }

  function FindAllIn(cs: seq<Element>, path: seq<string>): (r: seq<Element>)
    requires path != []
    ensures forall x :: x in r ==> x.tag == path[|path| - 1]
    decreases cs, 0
  {
    if cs == [] then []
    else (if cs[0].tag == path[0] then FindAll(cs[0], path[1..]) else []) + FindAllIn(cs[1..], path)
  }

  /** A one-step findall is the list of children with that tag. */
  lemma {:induction false} FindAllChildren(cs: seq<Element>, t: string)
    ensures FindAllIn(cs, [t]) == ChildrenTagged(cs, t)
  {
    if cs != [] {
      FindAllChildren(cs[1..], t);
      assert [t][1..] == [];
    }
  }

  /** The children with a given tag, in document order. */
  function ChildrenTagged(cs: seq<Element>, t: string): (r: seq<Element>)
    ensures |r| <= |cs|
  {
    if cs == [] then []
    else (if cs[0].tag == t then [cs[0]] else []) + ChildrenTagged(cs[1..], t)
  }

  /** Exactly the children with that tag are kept. */
  lemma {:induction false} ChildrenTaggedSpec(cs: seq<Element>, t: string)
    ensures forall x :: x in ChildrenTagged(cs, t) ==> x in cs && x.tag == t
    ensures forall x :: x in cs && x.tag == t ==> x in ChildrenTagged(cs, t)
  {
    if cs != [] {
      ChildrenTaggedSpec(cs[1..], t);
      assert cs == [cs[0]] + cs[1..];
    }
  }

  /** The first result of a findall along a path is what find() along the same path reaches. */
  lemma FindAllFirstOfOne(e: Element, t: string)
    ensures FindAll(e, [t]) == [] <==> Find(e, t).None?
    ensures FindAll(e, [t]) != [] ==> FindAll(e, [t])[0] == Find(e, t).value
  {
    FindAllChildren(e.children, t);
    FindFirstTagged(e.children, t);
  }

  lemma {:induction false} FindFirstTagged(cs: seq<Element>, t: string)
    ensures ChildrenTagged(cs, t) == [] <==> FindIn(cs, t).None?
    ensures ChildrenTagged(cs, t) != [] ==> ChildrenTagged(cs, t)[0] == FindIn(cs, t).value
  {
    if cs != [] {
      FindFirstTagged(cs[1..], t);
    }
  }

  // -------------------------------------------------------------- resources

  const CalendarMimetype: string := "text/calendar"
  const CalendarResourceType: string := "calendar"

  /**
   * What propfind_response reads of a resource: for a collection its name,
   * etag, property bag and serialised timezones; for an item its name, etag,
   * mimetype and component tag.
   */
  datatype Resource =
    | Collection(name: string, etag: string, props: map<string, string>, timezones: string)
    | ItemRes(name: string, etag: string, mimetype: string, tag: string)

  /** The content given to a found property's element. */
  datatype Value =
    | Text(text: string)
    | Href(href: string)
    | Comps(names: seq<string>)
    | Privileges
    | Reports(reports: seq<string>)
    | Markers(tags: seq<string>)
    | Nothing

  const ComponentNames: seq<string> := ["VTODO", "VEVENT", "VJOURNAL"]

  const ReportNames: seq<string> :=
    ["principal-property-search", "sync-collection", "expand-property", "principal-search-property-set"]

  // The property names the dispatch chain compares against, in Clark notation.
  const GetEtagTag: string := Tag("D", "getetag")
  const PrincipalUrlTag: string := Tag("D", "principal-URL")
  const PrincipalCollectionSetTag: string := Tag("D", "principal-collection-set")
  const UserAddressSetTag: string := Tag("C", "calendar-user-address-set")
  const HomeSetTag: string := Tag("C", "calendar-home-set")
  const ComponentSetTag: string := Tag("C", "supported-calendar-component-set")
  const CurrentUserPrincipalTag: string := Tag("D", "current-user-principal")
  const PrivilegeSetTag: string := Tag("D", "current-user-privilege-set")
  const ReportSetTag: string := Tag("D", "supported-report-set")
  const ContentTypeTag: string := Tag("D", "getcontenttype")
  const ResourceTypeTag: string := Tag("D", "resourcetype")
  const OwnerTag: string := Tag("D", "owner")
  const CTagTag: string := Tag("CS", "getctag")
  const TimezoneTag: string := Tag("C", "calendar-timezone")

  /** Which branch of the dispatch chain a property name takes. */
  datatype Branch =
    | GetEtag | PrincipalUrl | HrefSet | ComponentSet | CurrentUserPrincipal | PrivilegeSet | ReportSet
    | ContentType | ResourceType | Owner | CTag | CalendarTimezone | Other

  function BranchOf(t: string): Branch {
    if t == GetEtagTag then GetEtag
    else if t == PrincipalUrlTag then PrincipalUrl
    else if t == PrincipalCollectionSetTag || t == UserAddressSetTag || t == HomeSetTag then HrefSet
    else if t == ComponentSetTag then ComponentSet
    else if t == CurrentUserPrincipalTag then CurrentUserPrincipal
    else if t == PrivilegeSetTag then PrivilegeSet
    else if t == ReportSetTag then ReportSet
    else if t == ContentTypeTag then ContentType
    else if t == ResourceTypeTag then ResourceType
    else if t == OwnerTag then Owner
    else if t == CTagTag then CTag
    else if t == TimezoneTag then CalendarTimezone
    else Other
  }

  /**
   * Two tags built by Tag are equal only when prefix and name are: the first
   * '}' ends the URL, and no two prefixes share a URL.
   */
  lemma TagInjective(p: string, n: string, q: string, m: string)
    requires p in Namespaces && q in Namespaces
    ensures Tag(p, n) == Tag(q, m) <==> p == q && n == m
  {
    if Tag(p, n) == Tag(q, m) {
      NoBraceInNamespaces();
      BraceAfterUrl(Namespaces[p], n);
      BraceAfterUrl(Namespaces[q], m);
      NamespacesInverse();
    }
  }

  lemma TagsDiffer(p: string, n: string, q: string, m: string)
    requires p in Namespaces && q in Namespaces && (p != q || n != m)
    ensures Tag(p, n) != Tag(q, m)
  {
    TagInjective(p, n, q, m);
  }

  // Each name of the chain takes its own branch: it differs from every name tested before it.

  lemma BranchOfPrincipalUrl()
    ensures BranchOf(PrincipalUrlTag) == PrincipalUrl
  {
    TagsDiffer("D", "principal-URL", "D", "getetag");
  }

  lemma BranchOfPrincipalCollectionSet()
    ensures BranchOf(PrincipalCollectionSetTag) == HrefSet
  {
    TagsDiffer("D", "principal-collection-set", "D", "getetag");
    TagsDiffer("D", "principal-collection-set", "D", "principal-URL");
  }

  lemma BranchOfUserAddressSet()
    ensures BranchOf(UserAddressSetTag) == HrefSet
  {
    TagsDiffer("C", "calendar-user-address-set", "D", "getetag");
    TagsDiffer("C", "calendar-user-address-set", "D", "principal-URL");
  }

  lemma BranchOfHomeSet()
    ensures BranchOf(HomeSetTag) == HrefSet
  {
    TagsDiffer("C", "calendar-home-set", "D", "getetag");
    TagsDiffer("C", "calendar-home-set", "D", "principal-URL");
  }

  lemma BranchOfComponentSet()
    ensures BranchOf(ComponentSetTag) == ComponentSet
  {
    TagsDiffer("C", "supported-calendar-component-set", "D", "getetag");
    TagsDiffer("C", "supported-calendar-component-set", "D", "principal-URL");
    TagsDiffer("C", "supported-calendar-component-set", "D", "principal-collection-set");
    TagsDiffer("C", "supported-calendar-component-set", "C", "calendar-user-address-set");
    TagsDiffer("C", "supported-calendar-component-set", "C", "calendar-home-set");
  }

  lemma BranchOfCurrentUserPrincipal()
    ensures BranchOf(CurrentUserPrincipalTag) == CurrentUserPrincipal
  {
    TagsDiffer("D", "current-user-principal", "D", "getetag");
    TagsDiffer("D", "current-user-principal", "D", "principal-URL");
    TagsDiffer("D", "current-user-principal", "D", "principal-collection-set");
    TagsDiffer("D", "current-user-principal", "C", "calendar-user-address-set");
    TagsDiffer("D", "current-user-principal", "C", "calendar-home-set");
    TagsDiffer("D", "current-user-principal", "C", "supported-calendar-component-set");
  }

  lemma BranchOfPrivilegeSet()
    ensures BranchOf(PrivilegeSetTag) == PrivilegeSet
  {
    TagsDiffer("D", "current-user-privilege-set", "D", "getetag");
    TagsDiffer("D", "current-user-privilege-set", "D", "principal-URL");
    TagsDiffer("D", "current-user-privilege-set", "D", "principal-collection-set");
    TagsDiffer("D", "current-user-privilege-set", "C", "calendar-user-address-set");
    TagsDiffer("D", "current-user-privilege-set", "C", "calendar-home-set");
    TagsDiffer("D", "current-user-privilege-set", "C", "supported-calendar-component-set");
    TagsDiffer("D", "current-user-privilege-set", "D", "current-user-principal");
  }

  lemma BranchOfReportSet()
    ensures BranchOf(ReportSetTag) == ReportSet
  {
    TagsDiffer("D", "supported-report-set", "D", "getetag");
    TagsDiffer("D", "supported-report-set", "D", "principal-URL");
    TagsDiffer("D", "supported-report-set", "D", "principal-collection-set");
    TagsDiffer("D", "supported-report-set", "C", "calendar-user-address-set");
    TagsDiffer("D", "supported-report-set", "C", "calendar-home-set");
    TagsDiffer("D", "supported-report-set", "C", "supported-calendar-component-set");
    TagsDiffer("D", "supported-report-set", "D", "current-user-principal");
    TagsDiffer("D", "supported-report-set", "D", "current-user-privilege-set");
  }

  lemma BranchOfContentType()
    ensures BranchOf(ContentTypeTag) == ContentType
  {
    TagsDiffer("D", "getcontenttype", "D", "getetag");
    TagsDiffer("D", "getcontenttype", "D", "principal-URL");
    TagsDiffer("D", "getcontenttype", "D", "principal-collection-set");
    TagsDiffer("D", "getcontenttype", "C", "calendar-user-address-set");
    TagsDiffer("D", "getcontenttype", "C", "calendar-home-set");
    TagsDiffer("D", "getcontenttype", "C", "supported-calendar-component-set");
    TagsDiffer("D", "getcontenttype", "D", "current-user-principal");
    TagsDiffer("D", "getcontenttype", "D", "current-user-privilege-set");
    TagsDiffer("D", "getcontenttype", "D", "supported-report-set");
  }

  lemma BranchOfResourceType()
    ensures BranchOf(ResourceTypeTag) == ResourceType
  {
    TagsDiffer("D", "resourcetype", "D", "getetag");
    TagsDiffer("D", "resourcetype", "D", "principal-URL");
    TagsDiffer("D", "resourcetype", "D", "principal-collection-set");
    TagsDiffer("D", "resourcetype", "C", "calendar-user-address-set");
    TagsDiffer("D", "resourcetype", "C", "calendar-home-set");
    TagsDiffer("D", "resourcetype", "C", "supported-calendar-component-set");
    TagsDiffer("D", "resourcetype", "D", "current-user-principal");
    TagsDiffer("D", "resourcetype", "D", "current-user-privilege-set");
    TagsDiffer("D", "resourcetype", "D", "supported-report-set");
    TagsDiffer("D", "resourcetype", "D", "getcontenttype");
  }

  lemma BranchOfOwner()
    ensures BranchOf(OwnerTag) == Owner
  {
    TagsDiffer("D", "owner", "D", "getetag");
    TagsDiffer("D", "owner", "D", "principal-URL");
    TagsDiffer("D", "owner", "D", "principal-collection-set");
    TagsDiffer("D", "owner", "C", "calendar-user-address-set");
    TagsDiffer("D", "owner", "C", "calendar-home-set");
    TagsDiffer("D", "owner", "C", "supported-calendar-component-set");
    TagsDiffer("D", "owner", "D", "current-user-principal");
    TagsDiffer("D", "owner", "D", "current-user-privilege-set");
    TagsDiffer("D", "owner", "D", "supported-report-set");
    TagsDiffer("D", "owner", "D", "getcontenttype");
    TagsDiffer("D", "owner", "D", "resourcetype");
  }

  lemma BranchOfCTag()
    ensures BranchOf(CTagTag) == CTag
  {
    TagsDiffer("CS", "getctag", "D", "getetag");
    TagsDiffer("CS", "getctag", "D", "principal-URL");
    TagsDiffer("CS", "getctag", "D", "principal-collection-set");
    TagsDiffer("CS", "getctag", "C", "calendar-user-address-set");
    TagsDiffer("CS", "getctag", "C", "calendar-home-set");
    TagsDiffer("CS", "getctag", "C", "supported-calendar-component-set");
    TagsDiffer("CS", "getctag", "D", "current-user-principal");
    TagsDiffer("CS", "getctag", "D", "current-user-privilege-set");
    TagsDiffer("CS", "getctag", "D", "supported-report-set");
    TagsDiffer("CS", "getctag", "D", "getcontenttype");
    TagsDiffer("CS", "getctag", "D", "resourcetype");
    TagsDiffer("CS", "getctag", "D", "owner");
  }

  lemma BranchOfTimezone()
    ensures BranchOf(TimezoneTag) == CalendarTimezone
  {
    TagsDiffer("C", "calendar-timezone", "D", "getetag");
    TagsDiffer("C", "calendar-timezone", "D", "principal-URL");
    TagsDiffer("C", "calendar-timezone", "D", "principal-collection-set");
    TagsDiffer("C", "calendar-timezone", "C", "calendar-user-address-set");
    TagsDiffer("C", "calendar-timezone", "C", "calendar-home-set");
    TagsDiffer("C", "calendar-timezone", "C", "supported-calendar-component-set");
    TagsDiffer("C", "calendar-timezone", "D", "current-user-principal");
    TagsDiffer("C", "calendar-timezone", "D", "current-user-privilege-set");
    TagsDiffer("C", "calendar-timezone", "D", "supported-report-set");
    TagsDiffer("C", "calendar-timezone", "D", "getcontenttype");
    TagsDiffer("C", "calendar-timezone", "D", "resourcetype");
    TagsDiffer("C", "calendar-timezone", "D", "owner");
    TagsDiffer("C", "calendar-timezone", "CS", "getctag");
  }

  lemma BranchOfKnownTags()
    ensures BranchOf(GetEtagTag) == GetEtag
    ensures BranchOf(PrincipalUrlTag) == PrincipalUrl
    ensures BranchOf(PrincipalCollectionSetTag) == HrefSet
    ensures BranchOf(UserAddressSetTag) == HrefSet
    ensures BranchOf(HomeSetTag) == HrefSet
    ensures BranchOf(ComponentSetTag) == ComponentSet
    ensures BranchOf(CurrentUserPrincipalTag) == CurrentUserPrincipal
    ensures BranchOf(PrivilegeSetTag) == PrivilegeSet
    ensures BranchOf(ReportSetTag) == ReportSet
    ensures BranchOf(ContentTypeTag) == ContentType
    ensures BranchOf(ResourceTypeTag) == ResourceType
    ensures BranchOf(OwnerTag) == Owner
    ensures BranchOf(CTagTag) == CTag
    ensures BranchOf(TimezoneTag) == CalendarTimezone
  {
    BranchOfPrincipalUrl();
    BranchOfPrincipalCollectionSet();
    BranchOfUserAddressSet();
    BranchOfHomeSet();
    BranchOfComponentSet();
    BranchOfCurrentUserPrincipal();
    BranchOfPrivilegeSet();
    BranchOfReportSet();
    BranchOfContentType();
    BranchOfResourceType();
    BranchOfOwner();
    BranchOfCTag();
    BranchOfTimezone();
  }

  /** The properties whose element is a D:href holding the request path. */
  predicate IsHrefTag(t: string) {
    t == PrincipalUrlTag || t == PrincipalCollectionSetTag || t == UserAddressSetTag || t == HomeSetTag
    || t == CurrentUserPrincipalTag
  }

  /** The properties answered the same way for collections and items. */
  predicate IsCommonTag(t: string) {
    IsHrefTag(t) || t == GetEtagTag || t == ComponentSetTag || t == PrivilegeSetTag || t == ReportSetTag
  }

  /** The properties with a dedicated answer for collections. */
  predicate IsCollectionTag(t: string) {
    t == ContentTypeTag || t == ResourceTypeTag || t == OwnerTag || t == CTagTag || t == TimezoneTag
  }

  /** The names no branch catches, and no others, fall through to the last branch. */
  lemma BranchOfOther(t: string)
    ensures BranchOf(t) == Other <==> !IsCommonTag(t) && !IsCollectionTag(t)
  {
  }

  /**
   * posixpath.dirname: everything up to the last '/', with trailing slashes
   * removed unless it is made of slashes only.
   */
  function Dirname(p: string): string {
    var head := p[..LastIndexOf(p, '/') + 1];
    if head != [] && exists i :: 0 <= i < |head| && head[i] != '/' then TrimSlashes(head) else head
  }

  function TrimSlashes(s: string): (r: string)
    ensures |r| <= |s| && r == s[..|r|]
  {
    if s != [] && s[|s| - 1] == '/' then TrimSlashes(s[..|s| - 1]) else s
  }

  /**
   * The answer of the dispatch chain for one requested property: Some(value)
   * puts it in the 200 propstat, None in the 404 propstat. Collection-only
   * branches are skipped for items, whose chain ends with getcontenttype and
   * resourcetype.
   */
  function Resolve(path: string, res: Resource, t: string): Option<Value> {
    match BranchOf(t)
    case GetEtag => Some(Text(res.etag))
    case PrincipalUrl => Some(Href(path))
    case HrefSet => Some(Href(path))
    case ComponentSet => Some(Comps(ComponentNames))
    case CurrentUserPrincipal => Some(Href(path))
    case PrivilegeSet => Some(Privileges)
    case ReportSet => Some(Reports(ReportNames))
    case ContentType =>
      if res.Collection? then Some(Text(CalendarMimetype))
      else Some(Text(res.mimetype + "; component=" + Lower(res.tag)))
    case ResourceType =>
      if res.Collection? then Some(Markers([Tag("C", CalendarResourceType), Tag("D", "collection")]))
      else Some(Nothing)
    case Owner => if res.Collection? then Some(Text(Dirname(path))) else None
    case CTag => if res.Collection? then Some(Text(res.etag)) else None
    case CalendarTimezone => if res.Collection? then Some(Text(res.timezones)) else None
    case Other =>
      if res.Collection? then
        var key := TagClark(t);
        if key in res.props then Some(Text(res.props[key])) else None
      else None
  }

  /** The properties both kinds of resource answer, and how. */
  lemma ResolveCommon(path: string, res: Resource)
    ensures Resolve(path, res, Tag("D", "getetag")) == Some(Text(res.etag))
    ensures forall t :: IsHrefTag(t) ==> Resolve(path, res, t) == Some(Href(path))
    ensures Resolve(path, res, Tag("C", "supported-calendar-component-set")) == Some(Comps(["VTODO", "VEVENT", "VJOURNAL"]))
    ensures Resolve(path, res, Tag("D", "supported-report-set")) == Some(Reports(ReportNames))
    ensures Resolve(path, res, Tag("D", "current-user-privilege-set")) == Some(Privileges)
  {
    BranchOfKnownTags();
    forall t | IsHrefTag(t) ensures Resolve(path, res, t) == Some(Href(path)) {
      HrefTagBranch(t);
    }
  }

  lemma HrefTagBranch(t: string)
    requires IsHrefTag(t)
    ensures BranchOf(t) == PrincipalUrl || BranchOf(t) == HrefSet || BranchOf(t) == CurrentUserPrincipal
  {
    BranchOfKnownTags();
  }

  /** On a collection: the dedicated answers, and the property bag for everything else. */
  lemma ResolveCollection(path: string, res: Resource, t: string)
    requires res.Collection?
    ensures Resolve(path, res, Tag("D", "getcontenttype")) == Some(Text("text/calendar"))
    ensures Resolve(path, res, Tag("D", "resourcetype")) == Some(Markers([Tag("C", "calendar"), Tag("D", "collection")]))
    ensures Resolve(path, res, Tag("CS", "getctag")) == Some(Text(res.etag))
    ensures Resolve(path, res, Tag("D", "owner")) == Some(Text(Dirname(path)))
    ensures !IsCommonTag(t) && !IsCollectionTag(t) ==>
              (Resolve(path, res, t).None? <==> TagClark(t) !in res.props)
    ensures !IsCommonTag(t) && !IsCollectionTag(t) && TagClark(t) in res.props ==>
              Resolve(path, res, t) == Some(Text(res.props[TagClark(t)]))
  {
    BranchOfKnownTags();
    BranchOfOther(t);
  }

  /** On an item: its content type names its component, resourcetype is empty, the rest is missing. */
  lemma ResolveItem(path: string, res: Resource, t: string)
    requires res.ItemRes?
    ensures Resolve(path, res, Tag("D", "getcontenttype")) == Some(Text(res.mimetype + "; component=" + Lower(res.tag)))
    ensures Resolve(path, res, Tag("D", "resourcetype")) == Some(Nothing)
    ensures Resolve(path, res, t).None? <==> !IsCommonTag(t) && t != ContentTypeTag && t != ResourceTypeTag
  {
    BranchOfKnownTags();
    ItemNone(path, res, t);
    ItemBranches(t);
  }

  /** The branches an item does not answer. */
  predicate CollectionOnly(b: Branch) {
    b.Owner? || b.CTag? || b.CalendarTimezone? || b.Other?
  }

  lemma ItemNone(path: string, res: Resource, t: string)
    requires res.ItemRes?
    ensures Resolve(path, res, t).None? <==> CollectionOnly(BranchOf(t))
  {
  }

  lemma ItemBranches(t: string)
    ensures CollectionOnly(BranchOf(t)) <==> !IsCommonTag(t) && t != ContentTypeTag && t != ResourceTypeTag
  {
    BranchOfKnownTags();
    BranchOfOther(t);
  }

  // ---------------------------------------------------- propfind_response

  /** One D:response: the href, the found properties with their values, the missing ones. */
  datatype Response = Response(href: string, ok: seq<(string, Value)>, notFound: seq<string>)

  /** The dispatch chain for a given request path and resource, as a function of the property name. */
  function Resolver(path: string, res: Resource): string -> Option<Value> {
    t => Resolve(path, res, t)
  }

  /** The found properties with their values, in request order. */
  function OkList(f: string -> Option<Value>, props: seq<string>): seq<(string, Value)> {
    if props == [] then []
    else
      var prev := OkList(f, props[..|props| - 1]);
      var t := props[|props| - 1];
      match f(t)
      case Some(v) => prev + [(t, v)]
      case None => prev
  }

  /** The missing properties, in request order. */
  function MissingList(f: string -> Option<Value>, props: seq<string>): seq<string> {
    if props == [] then []
    else
      var prev := MissingList(f, props[..|props| - 1]);
      var t := props[|props| - 1];
      if f(t).None? then prev + [t] else prev
  }

  /**
   * propfind_response: every requested property goes to the 200 list or the 404
   * list according to the dispatch chain, in request order; the href is the
   * resource's name.
   */
  method PropfindResponse(path: string, res: Resource, props: seq<string>) returns (r: Response)
    ensures r == Response(res.name, OkList(Resolver(path, res), props), MissingList(Resolver(path, res), props))
  {
    var f := Resolver(path, res);
    var ok: seq<(string, Value)> := [];
    var missing: seq<string> := [];
    var i := 0;
    while i < |props|
      invariant 0 <= i <= |props|
      invariant ok == OkList(f, props[..i])
      invariant missing == MissingList(f, props[..i])
    {
      var t := props[i];
      var found := Resolve(path, res, t);
      assert found == f(t);
      assert props[..i + 1][..i] == props[..i];
      if found.None? {
        missing := missing + [t];
      } else {
        ok := ok + [(t, found.value)];
      }
      i := i + 1;
    }
    assert props[..|props|] == props;
    r := Response(res.name, ok, missing);
  }

  function Names(ok: seq<(string, Value)>): seq<string> {
    if ok == [] then [] else Names(ok[..|ok| - 1]) + [ok[|ok| - 1].0]
  }

  /** Together the two lists hold exactly the requested properties. */
  lemma {:induction false} PropfindCovers(f: string -> Option<Value>, props: seq<string>)
    ensures multiset(Names(OkList(f, props))) + multiset(MissingList(f, props)) == multiset(props)
  {
    if props != [] {
      var m := |props| - 1;
      PropfindCovers(f, props[..m]);
      assert props == props[..m] + [props[m]];
      var prev := OkList(f, props[..m]);
      if f(props[m]).Some? {
        var ok := prev + [(props[m], f(props[m]).value)];
        assert ok[..|ok| - 1] == prev;
        assert Names(ok) == Names(prev) + [props[m]];
      }
    }
  }

  /** The found properties carry the value they resolve to; the missing ones resolve to nothing. */
  lemma {:induction false} PropfindSorted(f: string -> Option<Value>, props: seq<string>)
    ensures var ok := OkList(f, props); forall i :: 0 <= i < |ok| ==> f(ok[i].0) == Some(ok[i].1)
    ensures var missing := MissingList(f, props); forall i :: 0 <= i < |missing| ==> f(missing[i]).None?
  {
    if props != [] {
      var m := |props| - 1;
      PropfindSorted(f, props[..m]);
      var t := props[m];
      if f(t).Some? {
        assert OkList(f, props) == OkList(f, props[..m]) + [(t, f(t).value)];
        assert MissingList(f, props) == MissingList(f, props[..m]);
      } else {
        assert OkList(f, props) == OkList(f, props[..m]);
        assert MissingList(f, props) == MissingList(f, props[..m]) + [t];
      }
    }
  }

  /**
   * Every requested property lands in exactly one list: the found ones carry
   * the value they resolve to, the missing ones resolve to nothing, and
   * together they are the request.
   */
  lemma PropfindPartition(f: string -> Option<Value>, props: seq<string>)
    ensures var ok, missing := OkList(f, props), MissingList(f, props);
      && multiset(Names(ok)) + multiset(missing) == multiset(props)
      && (forall i :: 0 <= i < |ok| ==> f(ok[i].0) == Some(ok[i].1))
      && (forall i :: 0 <= i < |missing| ==> f(missing[i]).None?)
  {
    PropfindCovers(f, props);
    PropfindSorted(f, props);
  }

  /** No property is both found and missing. */
  lemma NeverBoth(f: string -> Option<Value>, props: seq<string>, t: string)
    ensures !(t in Names(OkList(f, props)) && t in MissingList(f, props))
  {
    PropfindPartition(f, props);
    var ok := OkList(f, props);
    if t in Names(ok) {
      NamesResolve(f, ok, t);
    }
  }

  lemma {:induction false} NamesResolve(f: string -> Option<Value>, ok: seq<(string, Value)>, t: string)
    requires forall i :: 0 <= i < |ok| ==> f(ok[i].0) == Some(ok[i].1)
    requires t in Names(ok)
    ensures f(t).Some?
  {
    var m := |ok| - 1;
    if t != ok[m].0 {
      NamesResolve(f, ok[..m], t);
    }
  }

  /** The request positions whose property is found (or missing), in increasing order. */
  function Where(f: string -> Option<Value>, props: seq<string>, found: bool): (ps: seq<nat>)
    ensures forall m :: 0 <= m < |ps| ==> ps[m] < |props| && f(props[ps[m]]).Some? == found
    ensures forall m, n :: 0 <= m < n < |ps| ==> ps[m] < ps[n]
  {
    if props == [] then []
    else
      var ps := Where(f, props[..|props| - 1], found);
      if f(props[|props| - 1]).Some? == found then ps + [|props| - 1] else ps
  }

  /** Every position whose property is found (or missing) is listed. */
  lemma {:induction false} WhereComplete(f: string -> Option<Value>, props: seq<string>, found: bool)
    ensures forall i :: 0 <= i < |props| && f(props[i]).Some? == found ==> i in Where(f, props, found)
  {
    if props != [] {
      var n := |props| - 1;
      WhereComplete(f, props[..n], found);
      assert forall i :: 0 <= i < n ==> props[..n][i] == props[i];
    }
  }

  /** Request order is kept within each list. */
  lemma PropfindOrder(f: string -> Option<Value>, props: seq<string>)
    ensures var ok, ps := OkList(f, props), Where(f, props, true);
      |ok| == |ps| && forall m :: 0 <= m < |ps| ==> ok[m] == (props[ps[m]], f(props[ps[m]]).value)
    ensures var missing, qs := MissingList(f, props), Where(f, props, false);
      |missing| == |qs| && forall m :: 0 <= m < |qs| ==> missing[m] == props[qs[m]]
    ensures forall i :: 0 <= i < |props| ==> (i in Where(f, props, true) <==> f(props[i]).Some?)
    ensures forall i :: 0 <= i < |props| ==> (i in Where(f, props, false) <==> f(props[i]).None?)
  {
    OkOrder(f, props);
    MissingOrder(f, props);
    WhereComplete(f, props, true);
    WhereComplete(f, props, false);
  }

  lemma {:induction false} OkOrder(f: string -> Option<Value>, props: seq<string>)
    ensures var ok, ps := OkList(f, props), Where(f, props, true);
      |ok| == |ps| && forall m :: 0 <= m < |ps| ==> ok[m] == (props[ps[m]], f(props[ps[m]]).value)
  {
    if props != [] {
      var n := |props| - 1;
      var pre, t := props[..n], props[n];
      OkOrder(f, pre);
      var ok0, ps0 := OkList(f, pre), Where(f, pre, true);
      assert forall m :: 0 <= m < |ps0| ==> pre[ps0[m]] == props[ps0[m]];
      if f(t).Some? {
        var ok, ps := ok0 + [(t, f(t).value)], ps0 + [n];
        assert OkList(f, props) == ok && Where(f, props, true) == ps;
        forall m | 0 <= m < |ps|
          ensures ok[m] == (props[ps[m]], f(props[ps[m]]).value)
        {
          if m < |ps0| {
            assert ok[m] == ok0[m] && ps[m] == ps0[m];
          }
        }
      } else {
        assert OkList(f, props) == ok0 && Where(f, props, true) == ps0;
      }
    }
  }

  lemma {:induction false} MissingOrder(f: string -> Option<Value>, props: seq<string>)
    ensures var missing, qs := MissingList(f, props), Where(f, props, false);
      |missing| == |qs| && forall m :: 0 <= m < |qs| ==> missing[m] == props[qs[m]]
  {
    if props != [] {
      var n := |props| - 1;
      var pre, t := props[..n], props[n];
      MissingOrder(f, pre);
      var mi0, qs0 := MissingList(f, pre), Where(f, pre, false);
      assert forall m :: 0 <= m < |qs0| ==> pre[qs0[m]] == props[qs0[m]];
      if f(t).None? {
        var mi, qs := mi0 + [t], qs0 + [n];
        assert MissingList(f, props) == mi && Where(f, props, false) == qs;
        forall m | 0 <= m < |qs|
          ensures mi[m] == props[qs[m]]
        {
          if m < |qs0| {
            assert mi[m] == mi0[m] && qs[m] == qs0[m];
          }
        }
      } else {
        assert MissingList(f, props) == mi0 && Where(f, props, false) == qs0;
      }
    }
  }

  // ------------------------------------------------------------- rendering

  /** The element a found property becomes. */
  function ValueElement(t: string, v: Value): Element {
    match v
    case Text(s) => Leaf(t, Some(s))
    case Href(p) => Element(t, map[], None, [Leaf(Tag("D", "href"), Some(p))])
    case Comps(ns) =>
      Element(t, map[], None, seq(|ns|, i requires 0 <= i < |ns| => Element(Tag("C", "comp"), map["name" := ns[i]], None, [])))
    case Privileges => Element(t, map[], None, [Element(Tag("D", "privilege"), map[], None, [Leaf(Tag("D", "all"), None)])])
    case Reports(rs) =>
      Element(t, map[], None, seq(|rs|, i requires 0 <= i < |rs| =>
        Element(Tag("D", "supported-report"), map[], None, [Leaf(Tag("D", "report"), Some(rs[i]))])))
    case Markers(ts) => Element(t, map[], None, seq(|ts|, i requires 0 <= i < |ts| => Leaf(ts[i], None)))
    case Nothing => Leaf(t, None)
  }

  /**
   * The D:response element: the href, the 200 propstat, and the 404 propstat
   * only when some property is missing. `reasons` stands for httplib.responses.
   */
  function ResponseElement(r: Response, reasons: map<int, string>): (e: Element)
    requires 200 in reasons && 404 in reasons
    ensures e.tag == Tag("D", "response")
    ensures |e.children| == (if r.notFound == [] then 2 else 3)
    ensures e.children[0] == Leaf(Tag("D", "href"), Some(r.href))
    ensures e.children[1].tag == Tag("D", "propstat") && |e.children[1].children| == 2
    ensures |e.children[1].children[0].children| == |r.ok|
    ensures forall i :: 0 <= i < |r.ok| ==> e.children[1].children[0].children[i].tag == r.ok[i].0
    ensures e.children[1].children[1].text == Util.HttpResponse(200, reasons)
    ensures r.notFound != [] ==> (|e.children[2].children| == 2
                                  && e.children[2].children[1].text == Util.HttpResponse(404, reasons)
                                  && |e.children[2].children[0].children| == |r.notFound|)
  {
    var ok := OkElements(r.ok);
    var missing := seq(|r.notFound|, i requires 0 <= i < |r.notFound| => Leaf(r.notFound[i], None));
    var stat200 := Element(Tag("D", "propstat"), map[], None,
                           [Element(Tag("D", "prop"), map[], None, ok), Leaf(Tag("D", "status"), Util.HttpResponse(200, reasons))]);
    var stat404 := Element(Tag("D", "propstat"), map[], None,
                           [Element(Tag("D", "prop"), map[], None, missing), Leaf(Tag("D", "status"), Util.HttpResponse(404, reasons))]);
    Element(Tag("D", "response"), map[], None,
            [Leaf(Tag("D", "href"), Some(r.href)), stat200] + (if missing == [] then [] else [stat404]))
  }

  /** The elements of the found properties, one per property, in order. */
  function OkElements(ok: seq<(string, Value)>): (es: seq<Element>)
    ensures |es| == |ok| && forall i :: 0 <= i < |ok| ==> es[i].tag == ok[i].0
  {
    seq(|ok|, i requires 0 <= i < |ok| => ValueElement(ok[i].0, ok[i].1))
  }

  lemma ValueElementTag(t: string, v: Value)
    ensures ValueElement(t, v).tag == t
  {
  }
}
