# cal9 / 9cal — a Dafny model of a small CalDAV server

cal9 is a CalDAV server written as a Python WSGI application; 9cal is a
second, smaller application beside it. This project models and proves
properties of their core:

- the iCalendar object model of `cal9/ical.py`: items, and how their names
  are derived and written back into the tree as `X-CAL9-NAME`;
- calendars: classifying components, filtering them and finding items, the
  `Calendar` object with its cached tree and mutations, and `from_path`;
- the XML helpers of `cal9/xmlutils.py`: the namespace table and its
  inverse, Clark notation, `find`/`findall` on parsed trees, and the
  PROPFIND property resolver with its 200/404 split;
- `cal9/util.py`: the status line and the attribute dictionary;
- the cal9 WSGI application (`cal9/app.py`): method dispatch, reading and
  decoding the body, path sanitisation, PROPFIND and `__call__`;
- the request tables of both packages, with OPTIONS and MKCALENDAR;
- the 9cal application (`9cal/app.py`).

The few library functions whose results the core's logic depends on are
modelled directly: `urllib.unquote` and `posixpath.normpath` (`PathLib`),
`os.path.dirname` and the Clark-notation regular expression (`XmlUtils`), and
`int()`, `str()`, `split`, `join`, `strip`, `lower`, `upper` and `find`
(`Text`). Everything else the core reaches through a library or another file
is a parameter of the model:

- the iCalendar parser and serialiser, and Python's `hash`;
- the XML parser and serialiser;
- the charset decoders;
- `httplib.responses`, the table of reason phrases (`reasons`);
- the storage backend;
- `uuid4`.

Modules, one per file:

| file | module | models |
|---|---|---|
| `wrappers.dfy` | `Wrappers` | `Option` and `Result` |
| `text.dfy` | `Text` | the Python string functions used: `str(int)`, `int()`, `split`, `join`, `strip`, `lower`, `upper`, `find` |
| `ical.dfy` | `Ical` | components, walk, `Item.__init__`, etags, `ItemList.to_ical` |
| `calendar.dfy` | `IcalCalendar` | `Calendar.filter` and the lists built on it, `get_item`, the `Calendar` class, `from_path` |
| `xmlutils.dfy` | `XmlUtils` | `cal9/xmlutils.py` and the element trees |
| `util.dfy` | `Util` | `cal9/util.py` |
| `pathlib.dfy` | `PathLib` | `urllib.unquote` and `posixpath.normpath` |
| `wsgi.dfy` | `Wsgi` | the WSGI pieces shared by both applications: reply triples, Content-Length, body reading and decoding, the OPTIONS answer |
| `cal9_app.dfy` | `Cal9App` | `cal9/app.py` |
| `cal9_requests.dfy` | `Cal9Requests` | `cal9/requests.py` |
| `ninecal_requests.dfy` | `NinecalRequests` | `9cal/requests.py` |
| `ninecal_app.dfy` | `NinecalApp` | `9cal/app.py` |

A `Calendar` is a class because the source updates its cached tree and its
stored tree in place. `Util.Dict` is a class for the same reason. Each loop
in the source becomes a method with loop invariants, proved against a
specification function. Examples are the name scan, `filter`, the class
search, `get_item`, the namespace loop, `propfind_response`, body decoding
and the component and property loops of MKCALENDAR. Five loops are not
methods:

- the nested loop of `ItemList.to_ical` is the recursive function
  `Ical.SubsOf`;
- `Calendar.Remove` has no loop: the walk loop of `remove` only builds an
  Item per component and unbinds its loop variable, so it changes nothing;
- the loop over the component set in `propfind_response`
  (`cal9/xmlutils.py:101-105`) and the loop over the report set
  (`cal9/xmlutils.py:115-127`) only build one child element per entry; both
  are sequence comprehensions in the function `XmlUtils.ValueElement`;
- the list comprehension `[prop.tag for prop in dprop]` (`cal9/app.py:150`)
  is a sequence comprehension in the function `Cal9App.Requested`.

Everything else is a function.

## Model

| member | source | states |
|---|---|---|
| Ical.Walk | cal9/ical.py:22 | a walk starts with the component itself |
| Ical.ScanFrom | cal9/ical.py:19-33 | the scan keeps the UID it was given, or ends on a non-empty name |
| Ical.ScanStopsAtFirst | cal9/ical.py:22-29 | the first component with X-CAL9-NAME or TZID settles the name, X-CAL9-NAME before TZID, whatever UIDs came before |
| Ical.ScanKeepsFound | cal9/ical.py:22-33 | with no stopping component and no UID, the scan keeps what it had |
| Ical.ScanLastUid | cal9/ical.py:22-33 | with no stopping component, the last UID of the walk is the name |
| Ical.ScanFindsNothing | cal9/ical.py:35-39 | with no stopping component and no UID, nothing is found, so the uuid is used |
| Ical.DeriveName | cal9/ical.py:17-39 | defines an item's name: the explicit name when non-empty, else the name the walk scan finds, else the uuid |
| Ical.FirstWithName | cal9/ical.py:43-46 | the position of the first walked component with X-CAL9-NAME, or None exactly when there is none |
| Ical.SetPropWalk | cal9/ical.py:41-48 | setting a property at one walk position changes that node and no other node of the walk |
| Ical.SetPropSame | cal9/ical.py:41-48 | setting a property to its current value leaves the tree unchanged |
| Ical.Stamp | cal9/ical.py:41-48 | defines the tree after the name is written into the first component with X-CAL9-NAME, or into the root |
| Ical.StampChangesOneNode | cal9/ical.py:41-48 | the name is written into the first component with X-CAL9-NAME, or the root when none has it, and nothing else changes |
| Ical.NewItem | cal9/ical.py:15-48 | Item.__init__ builds the specified item: its class is the one asked for, and an explicit name is kept |
| Ical.TagOf | cal9/ical.py:12-77 | defines the class attribute `tag`: None for Item and Component, VEVENT, VTODO, VJOURNAL and VTIMEZONE for the four subclasses |
| Ical.MakeItem | cal9/ical.py:15-48 | defines the item that `kind(text, name)` builds: its class, its stamped tree and its derived name |
| Ical.NameStable | cal9/ical.py:15-48 | with no explicit name, deriving the name again from the stamped tree gives the same name, whatever the new uuid |
| Ical.StampIdempotent | cal9/ical.py:43-48 | stamping twice with the same name is stamping once |
| Ical.ItemRoundTrip | cal9/ical.py:15-48 | rebuilding an item from its own stamped tree, with no explicit name, gives back the same item |
| Ical.ExplicitNameNotStable | cal9/ical.py:19-46 | an explicit name is lost on rebuilding when a TZID comes before the first X-CAL9-NAME |
| Ical.Etag | cal9/ical.py:50-52 | defines an etag: the hash of the serialised tree, in double quotes |
| Ical.EtagCarriesHash | cal9/ical.py:50-52 | an etag is a hash in double quotes, and the text between the quotes reads back as that hash |
| Ical.SubsOf | cal9/ical.py:93-95 | defines the children of every item's tree, item after item, as the nested loop of to_ical adds them |
| Ical.MergeItems | cal9/ical.py:83-97 | to_ical makes a VCALENDAR with the fixed PRODID and VERSION, holding every item's children in order |
| Ical.Wrap | cal9/ical.py:247-248 | defines the fresh VCALENDAR that filter puts each component into |
| Ical.WrappedItemChild | cal9/ical.py:247-251 | an item built from a wrapped component has that component, same name and same children count, as its only child |
| Ical.MergeWrappedItems | cal9/ical.py:83-97 | merging items built from wrapped components gives one child per item, in order and with the same names |
| IcalCalendar.KindOf | cal9/ical.py:61-77 | the class whose tag is the component name; a plain Item exactly when no class has that tag |
| IcalCalendar.Classify | cal9/ical.py:259-292 | the class search of the untagged filter settles on the narrowest class |
| IcalCalendar.FilterWalk | cal9/ical.py:237-294 | the filter loop yields the specified items of the walk |
| IcalCalendar.FilterOne | cal9/ical.py:242-292 | one walked component gives an item of the class asked for when its name is the tag, none otherwise, and one item of its narrowest class when there is no tag |
| IcalCalendar.ItemsAt | cal9/ical.py:242-292 | defines what one walked component adds to filter's list |
| IcalCalendar.Select | cal9/ical.py:237-294 | defines filter's list over a walk: what each walked component adds, in walk order |
| IcalCalendar.SelectUntagged | cal9/ical.py:252-292 | the untagged filter gives exactly one item per walked component, of its narrowest class, in walk order |
| IcalCalendar.SelectTagged | cal9/ical.py:243-251 | a tagged filter gives one item of that class per walked component with that tag, in walk order |
| IcalCalendar.TaggedMatchesUntagged | cal9/ical.py:237-294 | a tagged filter finds as many items as the untagged filter puts in that class |
| IcalCalendar.KindsPartition | cal9/ical.py:61-77 | every item belongs to exactly one of the five classes |
| IcalCalendar.SelectKinds | cal9/ical.py:243-251 | a tagged filter yields only items of the requested class |
| IcalCalendar.ComponentsAreEventsTodosJournals | cal9/ical.py:320-324 | components holds only events, to-dos and journals, as many as the walk has of those |
| IcalCalendar.MergedTimezones | cal9/ical.py:326-330 | the merged timezones have one VTIMEZONE child per VTIMEZONE of the walk |
| IcalCalendar.Items | cal9/ical.py:296-300 | defines the items property: the untagged filter |
| IcalCalendar.Events | cal9/ical.py:302-306 | defines the events property: the VEVENT filter |
| IcalCalendar.Todos | cal9/ical.py:308-312 | defines the todos property: the VTODO filter |
| IcalCalendar.Journals | cal9/ical.py:314-318 | defines the journals property: the VJOURNAL filter |
| IcalCalendar.Components | cal9/ical.py:320-324 | defines the components property: events, then to-dos, then journals |
| IcalCalendar.Timezones | cal9/ical.py:326-330 | defines the timezones property: the VTIMEZONE filter |
| IcalCalendar.FindItem | cal9/ical.py:332-337 | an item with that name from the list, or None exactly when no item has that name |
| IcalCalendar.WithoutMembers | cal9/ical.py:184-193 | removing by name keeps exactly the children not named so |
| IcalCalendar.Without | cal9/ical.py:184-193 | defines the children the intended remove keeps: those whose item name is not the given one, in order |
| IcalCalendar.ComponentName | cal9/ical.py:188 | defines the name `Item(component.to_ical())` finds for a walked component: the walk scan over that component alone |
| IcalCalendar.Calendar.constructor | cal9/ical.py:102-104 | a calendar starts with its path, its stored tree and no cached tree |
| IcalCalendar.Calendar.Ical | cal9/ical.py:108-115 | the ical property returns the cached tree, else the loaded one, and caches it |
| IcalCalendar.Calendar.Save | cal9/ical.py:160-164 | save writes the current tree and the cache is then the stored tree |
| IcalCalendar.Calendar.Append | cal9/ical.py:176-182 | append adds the new children after the existing ones, in order, and saves |
| IcalCalendar.Calendar.Remove | cal9/ical.py:184-193 | remove as written stores the tree unchanged |
| IcalCalendar.Calendar.Replace | cal9/ical.py:195-199 | replace as written only appends |
| IcalCalendar.Calendar.RemoveItem | cal9/ical.py:184-193 | the intended remove keeps exactly the children not named so |
| IcalCalendar.Calendar.ReplaceItem | cal9/ical.py:195-199 | the intended replace removes the named children, then appends |
| IcalCalendar.Calendar.Filter | cal9/ical.py:237-294 | filter yields the specified items of the current tree's walk and leaves the stored tree alone |
| IcalCalendar.Calendar.ComponentItems | cal9/ical.py:320-324 | components is events, then to-dos, then journals of the current tree |
| IcalCalendar.Calendar.GetItem | cal9/ical.py:332-337 | get_item gives the first item of `items` with that name, or None exactly when there is none |
| IcalCalendar.SampleEventName | cal9/ical.py:19-33 | the sample event is named by its UID |
| IcalCalendar.RemoveDeletesNothing | cal9/ical.py:184-193 | removing the sample event by its name leaves it stored |
| IcalCalendar.RemoveItemDeletesSample | cal9/ical.py:184-193 | the intended remove deletes the sample event |
| IcalCalendar.ScanSkip | cal9/ical.py:22-33 | components with neither X-CAL9-NAME, TZID nor UID do not change the scan |
| IcalCalendar.WrappedName | cal9/ical.py:19-33 | a wrapped tree whose walk ends with the sample event, with nothing named before it, is named e1 |
| IcalCalendar.SampleItems | cal9/ical.py:296-300 | a collection holding one VEVENT with UID e1 has two items, the root's plain Item and the event, both named e1 |
| IcalCalendar.GetItemFindsRoot | cal9/ical.py:332-337 | get_item("e1") on that collection gives the root's plain Item, not the event |
| IcalCalendar.CalendarName | cal9/ical.py:129-134 | defines a calendar's name: its D:displayname property, else the last segment of its path |
| IcalCalendar.CalendarNameIsLastSegment | cal9/ical.py:129-134 | with no display name, a calendar is named by the text after the last '/' of its path, which holds no '/' |
| IcalCalendar.CollectionPath | cal9/ical.py:217-224 | defines the path from_path settles on: the parts rejoined, less the last one when the path is not an item and does not end with '/' |
| IcalCalendar.CollectionPathSpec | cal9/ical.py:213-224 | from_path keeps an item's path or one ending in '/', and drops the last segment of any other path |
| IcalCalendar.FromPath | cal9/ical.py:213-233 | from_path lists the calendar at the collection path, then one entry per component, in order |
| XmlUtils.ReverseNamespaces | cal9/xmlutils.py:21-30 | the loop builds the reverse table, which maps each URL back to its prefix and nothing else |
| XmlUtils.NamespacesInverse | cal9/xmlutils.py:10-30 | the reverse table inverts the namespace table, whose URLs are distinct |
| XmlUtils.NoBraceInNamespaces | cal9/xmlutils.py:10-17 | no namespace URL holds a '}' |
| XmlUtils.TagInjective | cal9/xmlutils.py:10-17 | two tags of known prefixes are equal exactly when prefix and name are |
| XmlUtils.Tag | cal9/xmlutils.py:35-36 | defines tag(): the URL of the prefix in braces, then the name |
| XmlUtils.UpToNewline | cal9/xmlutils.py:33 | the regex's `.*` matches the longest prefix without a newline |
| XmlUtils.ClarkMatch | cal9/xmlutils.py:33 | a match splits off a namespace without '}' and a name without a newline |
| XmlUtils.TagClark | cal9/xmlutils.py:38-47 | defines tag_clark: a Clark name with a known URL becomes prefix:name, anything else is kept |
| XmlUtils.TagClarkOfTag | cal9/xmlutils.py:35-47 | tag_clark of tag(prefix, name) is "prefix:name", with the name cut at a newline |
| XmlUtils.TagClarkShape | cal9/xmlutils.py:38-47 | tag_clark keeps its input, or gives "prefix:name" for a known prefix whose tag starts the input |
| XmlUtils.TagClarkUnknown | cal9/xmlutils.py:38-47 | a Clark name with an unknown URL is kept |
| XmlUtils.Find | cal9/app.py:149 | what find gives carries the tag asked for |
| XmlUtils.FindSpec | cal9/app.py:149 | find is None exactly when no child has the tag, and otherwise gives the first child that has it |
| XmlUtils.FindAll | cal9/requests.py:57-85 | findall gives only elements with the path's last tag |
| XmlUtils.FindAllChildren | cal9/requests.py:75-79 | a one-step findall is the list of children with that tag |
| XmlUtils.ChildrenTagged | cal9/requests.py:75-79 | the children with a tag are never more than the children |
| XmlUtils.ChildrenTaggedSpec | cal9/requests.py:75-79 | the children with a tag are exactly the children that have that tag |
| XmlUtils.FindAllFirstOfOne | 9cal/requests.py:37-45 | a one-step findall is empty exactly when find fails, and otherwise starts with what find gives |
| XmlUtils.BranchOf | cal9/xmlutils.py:84-168 | defines which branch of propfind_response's if-chain a property name takes |
| XmlUtils.BranchOfOther | cal9/xmlutils.py:80-173 | exactly the names no branch handles reach the last branch |
| XmlUtils.ResolveCommon | cal9/xmlutils.py:84-128 | the answers shared by collections and items: etag, hrefs, component set, report set, privileges |
| XmlUtils.ResolveCollection | cal9/xmlutils.py:130-157 | a collection's content type, resource type, ctag, owner, and the property bag for other names |
| XmlUtils.ResolveItem | cal9/xmlutils.py:159-173 | an item's content type names its component, its resource type is empty, and any other name is missing |
| XmlUtils.Dirname | cal9/xmlutils.py:143 | defines os.path.dirname for the owner property |
| XmlUtils.Resolve | cal9/xmlutils.py:80-173 | defines what one requested property resolves to for a resource: its value, or nothing when it goes to the 404 list |
| XmlUtils.PropfindResponse | cal9/xmlutils.py:55-186 | the response's href is the resource name, with the found and missing lists of the dispatch chain |
| XmlUtils.OkList | cal9/xmlutils.py:170-173 | defines the prop200 list: the found properties with their values, in request order |
| XmlUtils.MissingList | cal9/xmlutils.py:170-173 | defines the prop404 list: the properties the chain leaves unresolved, in request order |
| XmlUtils.PropfindCovers | cal9/xmlutils.py:80-173 | the two lists hold exactly the requested properties |
| XmlUtils.PropfindSorted | cal9/xmlutils.py:80-173 | found properties carry the value they resolve to, and the missing ones resolve to nothing |
| XmlUtils.PropfindPartition | cal9/xmlutils.py:80-173 | every requested property lands in one of the two lists, with its value |
| XmlUtils.NeverBoth | cal9/xmlutils.py:170-173 | no property is both found and missing |
| XmlUtils.PropfindOrder | cal9/xmlutils.py:80-173 | each list keeps request order |
| XmlUtils.ResponseElement | cal9/xmlutils.py:64-186 | a D:response with the href, a 200 propstat holding the found elements, and a 404 propstat only when something is missing |
| XmlUtils.ValueElement | cal9/xmlutils.py:80-168 | defines the element each branch builds for a found property: text, a D:href, one C:comp per component name, the D:privilege/D:all pair, one D:supported-report per report, or empty marker children |
| XmlUtils.ValueElementTag | cal9/xmlutils.py:80-168 | each found property's element carries the property's tag |
| Util.HttpResponse | cal9/util.py:5-6 | a status line exists exactly for a code with a reason phrase, and it starts with "HTTP/1.1 " |
| Util.HttpResponseRoundTrip | cal9/util.py:5-6 | the code and the reason phrase read back from the status line |
| Util.NoSpaceInNumber | cal9/util.py:5-6 | the decimal code holds no space |
| Util.DeepConverted | cal9/util.py:17-23 | update turns every nested dictionary into a Dict, at every depth |
| Util.DeepRoundTrip | cal9/util.py:17-23 | converting and reading back gives the original nested dictionary |
| Util.Dict.constructor | cal9/util.py:9 | a Dict starts empty |
| Util.Dict.Get | cal9/util.py:10-12 | attribute read gives the stored value, or None exactly for a missing key |
| Util.Dict.Set | cal9/util.py:14-15 | attribute write stores the value under that key and changes no other key |
| Util.Dict.Update | cal9/util.py:17-23 | update stores every pair, converting nested dictionaries, and keeps the keys it does not name |
| Util.UpdateThenGet | cal9/util.py:10-23 | after update, reading a key gives the converted value it was given |
| PathLib.UnquotePlain | cal9/app.py:86 | unquote leaves text without '%' unchanged |
| PathLib.UnquoteShrinks | cal9/app.py:86 | unquote never lengthens the text |
| PathLib.Unquote | cal9/app.py:86 | defines urllib.unquote: each '%' with two hex digits becomes that character, other text is kept |
| PathLib.NormCompsClean | cal9/app.py:88 | normpath keeps no empty, '.' or '/'-holding component, no '..' below a slash, and '..' only at the front |
| PathLib.NormPathShape | cal9/app.py:88 | normpath gives "." or its leading slashes followed by clean components joined with '/' |
| PathLib.NormPath | cal9/app.py:88 | defines posixpath.normpath: the leading slashes kept, then the components with '.', empty parts and resolved '..' removed |
| PathLib.NormPathTrailingSlash | cal9/app.py:88-89 | normpath ends with '/' only when it is "/" or "//" |
| Wsgi.ContentLength | cal9/app.py:25 | the loop's sum is the length of all chunks together |
| Wsgi.ConcatAppend | cal9/app.py:25 | the content of two chunk lists together is the content of one, then the other |
| Wsgi.WithContentLength | cal9/app.py:25 | defines the triple after __call__ sets Content-Length to the summed length of the chunks |
| Wsgi.WithContentLengthSpec | cal9/app.py:25 | __call__ keeps status, content and every other header, and Content-Length reads back as the content's length |
| Wsgi.OptionsSent | cal9/app.py:95-113 | OPTIONS goes out 200, empty, with Allow, DAV and Content-Length 0 |
| Wsgi.OptionsReply | cal9/app.py:95-113 | defines the OPTIONS answer: 200, the Allow and DAV headers, no content; cal9/requests.py:8-26 and 9cal/requests.py:8-26 give the same triple |
| Wsgi.Read | cal9/app.py:61 | reading n bytes gives the first n of the input, or all of it when there are fewer |
| Wsgi.Candidates | cal9/app.py:64-71 | the charsets tried are the declared one (stripped, when declared), then utf-8, then iso8859-1 |
| Wsgi.FirstDecode | cal9/app.py:73-81 | a failure is either undecodable bytes or an unknown charset |
| Wsgi.FirstDecodeSpec | cal9/app.py:73-81 | success exactly when some candidate decodes, with the text a candidate gives; Undecodable exactly when every candidate rejects the bytes; an unknown charset is an error |
| Wsgi.DecodeBody | cal9/app.py:73-81 | the decoding loop gives the first-decode result |
| Wsgi.ReadBody | cal9/app.py:57-81 | reading and decoding gives the first decode of the bytes read |
| Wsgi.SomeCandidateDecodes | cal9/app.py:73-81 | when some candidate decodes and every charset name is known, the body is decoded |
| Wsgi.DefaultsTried | cal9/app.py:69-81 | bytes iso8859-1 accepts are always decoded, unless a charset name is unknown |
| Cal9App.LookupIgnoresCase | cal9/app.py:34-39 | the method lookup does not depend on the case of the method |
| Cal9App.LookupHandlers | cal9/app.py:34-39 | options and propfind resolve to their handlers exactly for those names |
| Cal9App.Lookup | cal9/app.py:34-39 | defines getattr on the lower-cased method: a handler, another method of the application, or AttributeError |
| Cal9App.BodyLength | cal9/app.py:60 | defines `int(environ['CONTENT_LENGTH'] or 0)` |
| Cal9App.Body | cal9/app.py:54-81 | defines wsgi_get_content: read CONTENT_LENGTH bytes, then the first decode over the charset candidates |
| Cal9App.BodyLengthSpec | cal9/app.py:60 | an empty CONTENT_LENGTH counts as 0, the decimal rendering of any integer reads back as that integer, and a field that is neither empty nor an optionally signed run of digits is rejected (the ValueError of `int()`), both directions |
| Cal9App.GetContent | cal9/app.py:54-81 | wsgi_get_content reads the length and decodes the bytes read, or fails on a bad length |
| Cal9App.EmptyLengthReadsNothing | cal9/app.py:60-61 | an empty CONTENT_LENGTH decodes zero bytes |
| Cal9App.Sanitize | cal9/app.py:83-91 | defines wsgi_sanitize_path: unquote, normalise, and keep a trailing slash unless the result is "/" |
| Cal9App.SanitizeTrailingSlash | cal9/app.py:83-91 | the path ends with '/' exactly when the unquoted path did, or when it normalises to "/" or "//" |
| Cal9App.SanitizeShape | cal9/app.py:83-91 | the path is the normalised path, plus a '/' at most, and the normalised path is clean |
| Cal9App.ResourceOf | cal9/xmlutils.py:58-161 | defines what propfind_response reads of a from_path entry: a calendar's name, etag, props and timezones, or an item's name, etag, mimetype and tag |
| Cal9App.Collections | cal9/app.py:47 | defines the resources manage() passes on: from_path of the sanitised path |
| Cal9App.Resources | cal9/app.py:47 | one resource per from_path entry |
| Cal9App.ItemResource | cal9/xmlutils.py:64-75 | an item entry reads the item's name, etag, mimetype and tag |
| Cal9App.MimetypeOf | cal9/ical.py:13-77 | defines the class attribute `mimetype`: text/calendar for Event, Todo and Journal, None otherwise |
| Cal9App.CollectionsShape | cal9/app.py:47-49 | the first resource is the collection; the others are items of events, to-dos and journals with the calendar mimetype |
| Cal9App.Requested | cal9/app.py:150 | the requested names are the tags of D:prop's children, in order |
| Cal9App.RequestedIn | cal9/app.py:147-150 | a body that does not parse, or has no D:prop, fails; otherwise gives the requested names |
| Cal9App.Multistatus | cal9/app.py:154-158 | one response per resource, each with the found and missing lists of its dispatch chain |
| Cal9App.Propfind | cal9/app.py:115-160 | propfind fails exactly when the body does; otherwise it builds the multistatus responses |
| Cal9App.PropfindNeedsProp | cal9/app.py:149-150 | a body without D:prop fails |
| Cal9App.Handle | cal9/app.py:49 | defines the call of the attribute found: options, propfind, or a method that takes other arguments |
| Cal9App.ManageOf | cal9/app.py:31-52 | defines manage(): lookup, body, sanitised path, from_path, then the handler |
| Cal9App.Manage | cal9/app.py:31-52 | manage gives the outcome of dispatch, body reading and the handler |
| Cal9App.UnknownMethod | cal9/app.py:34-39 | a method with no attribute is not implemented, exactly |
| Cal9App.BadLengthAfterLookup | cal9/app.py:36-41 | a bad CONTENT_LENGTH is reported only for a known method |
| Cal9App.Send | cal9/app.py:23-25 | defines __call__ on manage()'s outcome: a triple gets Content-Length, a rendered document cannot be unpacked |
| Cal9App.CallOf | cal9/app.py:18-29 | defines __call__ on a request |
| Cal9App.Call | cal9/app.py:18-29 | __call__ sends the handler's triple with Content-Length |
| Cal9App.PropfindNeverAnswered | cal9/app.py:23 | as written, no PROPFIND is ever sent |
| Cal9App.PropfindExample | cal9/app.py:115-160 | a PROPFIND on any path, whose CONTENT_LENGTH is the length of bytes that decode as utf-8 to a D:propfind with an empty D:prop, builds its multistatus, yet __call__ fails to unpack it |
| Cal9App.PropfindGivesDocument | cal9/app.py:115-160 | a PROPFIND handler that succeeds gives a document, not a triple |
| Cal9App.PropfindDocument | cal9/app.py:115-160 | a PROPFIND whose body decodes and names properties in D:prop gets the multistatus list for them over the sanitised path's collection |
| Cal9App.FixedSend | cal9/app.py:127-129 | defines the intended __call__: a multistatus document goes out as a 207 answer |
| Cal9App.FixedPropfindAnswered | cal9/app.py:127-129 | the intended answer is 207 with the rendered document and its length as Content-Length |
| Cal9App.FixedSendAgrees | cal9/app.py:18-29 | the corrected sending agrees with the original on every triple |
| Cal9Requests.CompNamesSpec | cal9/requests.py:75-79 | the names fail exactly when some C:comp lacks a name; otherwise one name per C:comp, in order |
| Cal9Requests.CompNames | cal9/requests.py:75-79 | defines the component loop: the names of the C:comp children, or KeyError on one without a name |
| Cal9Requests.ComponentNames | cal9/requests.py:75-79 | the component loop gives the specified names |
| Cal9Requests.MkCalendar | cal9/requests.py:28-100 | mkcalendar gives the specified outcome |
| Cal9Requests.MkCalendarOf | cal9/requests.py:28-100 | defines mkcalendar's outcome for a parsed body |
| Cal9Requests.MkCalendarNoCache | cal9/requests.py:49-100 | every answer carries exactly Cache-Control: no-cache |
| Cal9Requests.NoComponentSetFails | cal9/requests.py:65-77 | with no component set, comps[0] fails |
| Cal9Requests.IncompleteBody | cal9/requests.py:87-89 | a missing display name, description, component or timezone gives 500 "Invalid XML body.", and the backend is not called |
| Cal9Requests.BackendAnswer | cal9/requests.py:91-100 | otherwise the backend's status and message come back, and NotImplementedError becomes 500 |
| Cal9Requests.OptionsEntry | cal9/requests.py:102-105 | the table's OPTIONS gives 200 with Allow and DAV |
| Cal9Requests.Run | cal9/requests.py:102-105 | defines a call through the requests table |
| NinecalRequests.KeyOf | 9cal/requests.py:51-66 | a recognised property never overwrites the type key |
| NinecalRequests.ValueOf | 9cal/requests.py:52-66 | defines the value a recognised child stores, or the exception computing it raises |
| NinecalRequests.Step | 9cal/requests.py:51-66 | defines one iteration of the loop over D:prop's children |
| NinecalRequests.PropsOf | 9cal/requests.py:47-66 | defines the property bag after the loop over the children |
| NinecalRequests.BuildProps | 9cal/requests.py:47-66 | the properties loop gives the specified bag, or its first error |
| NinecalRequests.PropsFail | 9cal/requests.py:51-66 | the bag fails exactly when some recognised property fails |
| NinecalRequests.PropsFailureStays | 9cal/requests.py:51-66 | a failure part-way through is the loop's result |
| NinecalRequests.PropsType | 9cal/requests.py:47-49 | the bag always says type C:mkcalendar |
| NinecalRequests.PropsKeys | 9cal/requests.py:51-66 | the bag has a key exactly when some child is the property for that key |
| NinecalRequests.PropsLastWins | 9cal/requests.py:51-66 | a property given twice keeps its last value |
| NinecalRequests.ComponentSetValue | 9cal/requests.py:58-63 | a component set is stored as the names of its C:comp children |
| NinecalRequests.MkCalendar | 9cal/requests.py:28-72 | mkcalendar gives the specified outcome |
| NinecalRequests.MkCalendarOf | 9cal/requests.py:28-72 | defines mkcalendar's outcome for a request body |
| NinecalRequests.MkCalendarAnswers | 9cal/requests.py:28-72 | a missing D:set or D:prop gives 500 with its message, and saves nothing |
| NinecalRequests.MkCalendarSuccess | 9cal/requests.py:68-72 | a 201 answer comes with no content and a saved bag; every other answer is 500 and saves nothing |
| NinecalRequests.DisplaynameOnly | 9cal/requests.py:47-72 | a body with only a display name saves that name and the type |
| NinecalRequests.OptionsEntry | 9cal/requests.py:74-77 | the table's OPTIONS gives 200 with Allow and DAV |
| NinecalRequests.Run | 9cal/requests.py:74-77 | defines a call through the requests table |
| NinecalApp.GetContent | 9cal/app.py:34-61 | get_content gives the specified decoded body, or fails |
| NinecalApp.Content | 9cal/app.py:34-61 | defines get_content: `int()` of CONTENT_LENGTH, the bytes read, then the first decode |
| NinecalApp.ContentReadsLength | 9cal/app.py:40-61 | exactly CONTENT_LENGTH bytes (or all there are) are decoded, with the declared charset first |
| NinecalApp.EmptyLengthRejected | 9cal/app.py:40 | an empty CONTENT_LENGTH fails |
| NinecalApp.HandleRequest | 9cal/app.py:20-32 | handle_request gives the specified outcome |
| NinecalApp.HandleRequestOf | 9cal/app.py:20-32 | defines handle_request: body first, then the table entry of the upper-cased method, else 500 |
| NinecalApp.KnownMethod | 9cal/app.py:21-26 | a method of the table, in any case, gives exactly its handler's triple |
| NinecalApp.UnknownMethod | 9cal/app.py:27-32 | any other method gives 500, no headers, and a message naming the upper-cased method |
| NinecalApp.NotImplementedMessage | 9cal/app.py:30 | defines the message `Request {0} not implemented\n` with the method filled in |
| NinecalApp.BodyReadFirst | 9cal/app.py:21-23 | the body is read first: a bad body fails even an unknown method |
| NinecalApp.IgnoresCase | 9cal/app.py:21 | the method's case does not matter |
| NinecalApp.Call | 9cal/app.py:9-18 | __call__ sends the triple with Content-Length |
| NinecalApp.CallOf | 9cal/app.py:9-18 | defines __call__: the triple with Content-Length |
| NinecalApp.UnknownMethodSent | 9cal/app.py:9-18 | an unknown method's answer carries the message length as Content-Length |
| NinecalApp.CreatedSent | 9cal/app.py:9-18 | a successful MKCALENDAR goes out 201, with no-cache and Content-Length 0 |
| Text.IntToStringRoundTrip | cal9/app.py:25 | str() of a number reads back as that number |
| Text.JoinSplit | cal9/ical.py:216-224 | joining the pieces of a split gives back the text |
| Text.DropLastSegment | cal9/ical.py:216-224 | dropping the last segment gives the text before the last separator |
| Text.LastSegment | cal9/ical.py:133-134 | the last segment holds no separator and ends the text |
| Text.StripIsInfix | cal9/app.py:67 | strip gives a part of the text |
| Text.IndexOf | cal9/app.py:66 | `in` finds the first position of the pattern, or None exactly when it does not occur |
| Text.SecondField | cal9/app.py:67 | the second field of a split holds no separator |

## Left out

- Parsing and serialising iCalendar text: an item is built from its parsed tree. Serialisation and Python's `hash` are the function fields of `Ical.Codec`, and `uuid.uuid4` is a supply of strings given as a parameter.
- The XML parser and `xmlutils.render`: the parsed element tree, or a parse function that may fail, is an input. Rendering a multistatus document is the parameter `render`. `ET.register_namespace` has no effect on the modelled trees.
- The storage backend: `get`, `write`, `is_item`, `props`, `delete`, `text` and `last_modified` raise `NotImplementedError` in `cal9/ical.py`, and the filesystem backend is not part of this model. The stored tree is a field of `Calendar`. `is_item`, load and props are functions passed to `from_path` and PROPFIND.
- cal9/requests.py calls `xmlutils.parseString`, which cal9/xmlutils.py does not define, and imports `backend`, which no module provides. The model takes the parsed body and `Backend.mkcalendar` as parameters.
- 9cal/requests.py saves through `dav.Ressource`; dav is not part of this model, so `NinecalRequests.MkCalendar` returns the property bag it would save.
- `DEBUG` output, `start_response` and the WSGI server: the triple that `__call__` hands to `start_response` is the result of `Call`.
- Charset decoders are a function of the charset name and the bytes. An unknown charset name, a `LookupError` the source does not catch, is the `NoSuchCharset` error. The argument-less `raise UnicodeDecodeError` is the `Undecodable` error.
- Python's `int()` also accepts surrounding whitespace and a leading '+'; `Text.ParseInt` accepts only an optional '-' followed by digits.
- Wsgi.WithContentLength: the source stores the length as an int in the headers; the model stores its decimal text, with the int read back by `WithContentLengthSpec`.
- `str.lower` and `str.upper` are modelled on ASCII letters only, and `urllib.unquote` on characters rather than bytes.
- `Util.Dict`: nested Dicts are held as values, so the aliasing between a Dict and a nested one is not modelled. Dict attribute reads model only keys; a name that is a method of dict, such as `keys`, is not looked up.
- Cal9App.Lookup: `getattr` finds only the handlers and the three other public methods of the application; dunder attributes such as `__class__` are not modelled. Calling a method that takes different arguments is the `WrongArguments` error.
- PROPFIND on a plain item or a timezone: `from_path` lists only events, to-dos and journals, so an item whose class has no tag or mimetype never reaches `propfind_response`. The mimetype of any other class is the text "None".
- 9cal/xmlutils.py repeats the namespace table and `tag` of cal9/xmlutils.py; the model uses the one definition in `XmlUtils`.
- Calendar.from_path: the source comment says the last part is dropped when the path is an item, but the code drops it when the path is NOT an item and does not end with '/'. The model follows the code.
- Cal9App.SanitizeTrailingSlash: the result ends with '/' exactly when the unquoted path did or the normalised path is "/" or "//", because `normpath` turns paths such as "/." into "/".
- Wsgi.Environ holds CONTENT_LENGTH and CONTENT_TYPE always. The source reads `environ['CONTENT_LENGTH']` and `environ['CONTENT_TYPE']` (cal9/app.py:60,64; 9cal/app.py:40,44), which raise KeyError when the server leaves a key out. That KeyError is not modelled; in cal9 an absent CONTENT_LENGTH is an error, not the empty text read as 0.
- The uuid supply: `uuid.uuid4` (cal9/ical.py:39) is a parameter `uuids: nat -> string` indexed by walk position, and one supply is given to every filter of a call. A component with no X-CAL9-NAME, TZID or UID therefore gets the same fallback name in `items`, `events` and the other lists built from the same supply, where the source draws a fresh uuid for each Item. Whether two supplies differ is left to the caller.
- XmlUtils.TagClark: the `.*` of the Clark regex stops at a newline, so a name with a newline is cut there.

## Findings

| source | as written | input that shows it | evidently intended | confidence | as-written member | corrected member |
|---|---|---|---|---|---|---|
| cal9/ical.py:184-193 | `remove` runs `del component` in its loop, which only unbinds the loop variable; the tree is saved unchanged | a calendar holding one VEVENT with UID e1, then `remove("e1")`: the event is still stored | drop the children whose item name is the given name, then save | not executed | IcalCalendar.RemoveDeletesNothing | IcalCalendar.Calendar.RemoveItem |
| cal9/app.py:23 | `propfind` returns the rendered document (cal9/app.py:160), which `__call__` unpacks as a (status, headers, content) triple, so no PROPFIND is answered | a PROPFIND on any path, CONTENT_LENGTH the length of the body, no CONTENT_TYPE charset, whose body decodes as utf-8 to `<D:propfind xmlns:D="DAV:"><D:prop/></D:propfind>`, which parses to a D:propfind holding an empty D:prop | answer 207 with the multistatus document as the content, as the docstring at cal9/app.py:127-129 shows | not executed | Cal9App.PropfindExample | Cal9App.FixedPropfindAnswered |
