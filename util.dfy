/**
 * cal9/util.py: the HTTP status line and the attribute dictionary used for
 * configuration, whose update() turns nested dictionaries into Dicts.
 */
module Util {
  import opened Wrappers
  import opened Text

  // ------------------------------------------------------------ status line

  const StatusPrefix: string := "HTTP/1.1 "

  /**
   * http_response(code): "HTTP/1.1 <code> <reason>". `reasons` stands for
   * httplib.responses; a code it does not know raises KeyError (None here).
   */
  function HttpResponse(code: int, reasons: map<int, string>): (r: Option<string>)
    ensures r.Some? <==> code in reasons
    ensures r.Some? ==> |r.value| > |StatusPrefix| && r.value[..|StatusPrefix|] == StatusPrefix
  {
    if code in reasons then Some(StatusPrefix + IntToString(code) + " " + reasons[code]) else None
  }

  /** The code field of a status line: the text after the prefix up to the first space. */
  function CodeField(line: string): string
    requires |line| >= |StatusPrefix|
  {
    var rest := line[|StatusPrefix|..];
    match IndexOf(rest, " ")
    case Some(i) => rest[..i]
    case None => rest
  }

  /** The reason field of a status line: everything after the first space past the prefix. */
  function ReasonField(line: string): string
    requires |line| >= |StatusPrefix|
  {
    var rest := line[|StatusPrefix|..];
    match IndexOf(rest, " ")
    case Some(i) => rest[i + 1..]
    case None => ""
  }

  lemma NoSpaceInNumber(n: int)
    ensures forall j :: !OccursAt(IntToString(n), " ", j)
  {
    var s := IntToString(n);
    var d := NatToString(if n < 0 then -n else n);
    forall i | 0 <= i < |s| ensures s[i] != ' ' {
      if n < 0 && i > 0 {
        assert s[i] == d[i - 1];
      }
    }
    forall j: nat ensures !OccursAt(s, " ", j) {
      if j + 1 <= |s| {
        assert s[j..j + 1] == [s[j]];
      }
    }
  }

  /** A status line reads back as the code and the reason phrase it was made from. */
  lemma HttpResponseRoundTrip(code: int, reasons: map<int, string>)
    requires code in reasons
    ensures var line := HttpResponse(code, reasons).value;
      ParseInt(CodeField(line)) == Some(code) && ReasonField(line) == reasons[code]
  {
    var line := HttpResponse(code, reasons).value;
    var digits := IntToString(code);
    var rest := line[|StatusPrefix|..];
    assert rest == digits + " " + reasons[code];
    NoSpaceInNumber(code);
    assert OccursAt(rest, " ", |digits|);
    forall j | 0 <= j < |digits| ensures !OccursAt(rest, " ", j) {
      assert rest[j] == digits[j];
    }
    assert IndexOf(rest, " ") == Some(|digits|);
    assert rest[..|digits|] == digits;
    assert rest[|digits| + 1..] == reasons[code];
    IntToStringRoundTrip(code);
  }

  // --------------------------------------------------------------- Dict

  /**
   * A value as dict(*args, **kwargs) hands it to update(): either a dictionary
   * or some other value, which update() stores as it is.
   */
  datatype Json = JDict(fields: map<string, Json>) | JOther(text: string)

  /** A value held by a Dict: another Dict (its contents here) or a value kept as given. */
  datatype Entry = Sub(entries: map<string, Entry>) | Raw(value: Json)

  /** What update() stores for an input value: dictionaries become Dicts at every depth. */
  function Deep(v: Json): Entry {
    match v
    case JDict(m) => Sub(map k | k in m :: Deep(m[k]))
    case JOther(_) => Raw(v)
  }

  /** The plain value an entry stands for. */
  function ToJson(e: Entry): Json {
    match e
    case Sub(m) => JDict(map k | k in m :: ToJson(m[k]))
    case Raw(v) => v
  }

  /** No plain dictionary is held at any depth: every dictionary is a Dict. */
  predicate Converted(e: Entry) {
    match e
    case Sub(m) => forall k :: k in m ==> Converted(m[k])
    case Raw(v) => v.JOther?
  }

  /** update() leaves no plain dictionary behind, at any depth. */
  lemma {:induction false} DeepConverted(v: Json)
    ensures Converted(Deep(v))
  {
    match v
    case JDict(m) =>
      forall k | k in m ensures Converted(Deep(v).entries[k]) {
        DeepConverted(m[k]);
      }
    case JOther(_) =>
  }

  /** Converting loses nothing: the Dict stands for the very value it was built from. */
  lemma {:induction false} DeepRoundTrip(v: Json)
    ensures ToJson(Deep(v)) == v
  {
    match v
    case JDict(m) =>
      var d := Deep(v).entries;
      forall k | k in m ensures ToJson(d[k]) == m[k] {
        DeepRoundTrip(m[k]);
      }
      assert ToJson(Deep(v)).fields == m;
    case JOther(_) =>
  }

  /** The converted values of the keys in `keys`. */
  function DeepAll(m: map<string, Json>, keys: set<string>): map<string, Entry> {
    map k | k in keys && k in m :: Deep(m[k])
  }

  lemma DeepAllAdd(before: map<string, Entry>, m: map<string, Json>, keys: set<string>, k: string)
    requires k in m
    ensures before + DeepAll(m, keys + {k}) == (before + DeepAll(m, keys))[k := Deep(m[k])]
  {
    assert DeepAll(m, keys + {k}) == DeepAll(m, keys)[k := Deep(m[k])];
  }

  /** Converting every key of a dictionary is converting the dictionary. */
  lemma DeepAllKeys(sub: map<string, Json>)
    ensures Sub(DeepAll(sub, sub.Keys)) == Deep(JDict(sub))
  {
  }

  /** The attribute dictionary: a dict whose attributes are its keys. */
  class Dict {
    var entries: map<string, Entry>

    constructor ()
      ensures entries == map[]
    {
      entries := map[];
    }

    /** __getattr__: the value under the key, or None when the key is absent. */
    function Get(key: string): (r: Option<Entry>)
      reads this
      ensures r.Some? <==> key in entries
      ensures r.Some? ==> r.value == entries[key]
    {
      if key in entries then Some(entries[key]) else None
    }

    /** __setattr__: store the value under the key, whatever it is. */
    method Set(key: string, val: Entry)
      modifies this
      ensures entries == old(entries)[key := val]
    {
      entries := entries[key := val];
    }

    /**
     * update(): every input key is set; a dictionary value becomes a fresh Dict
     * updated from it (replacing whatever was there), any other value is stored
     * as it is; keys not in the input keep their values.
     */
    method Update(m: map<string, Json>)
      modifies this
      ensures entries == old(entries) + DeepAll(m, m.Keys)
      decreases JDict(m)
    {
      var todo := m.Keys;
      ghost var done: set<string> := {};
      while todo != {}
        invariant todo + done == m.Keys && todo !! done
        invariant entries == old(entries) + DeepAll(m, done)
        decreases todo
      {
        var k :| k in todo;
        var v := m[k];
        var e: Entry;
        match v {
          case JDict(sub) =>
            var d := new Dict();
            d.Update(sub);
            assert d.entries == map[] + DeepAll(sub, sub.Keys);
            assert map[] + DeepAll(sub, sub.Keys) == DeepAll(sub, sub.Keys);
            DeepAllKeys(sub);
            e := Sub(d.entries);
          case JOther(_) =>
            e := Raw(v);
        }
        assert e == Deep(m[k]);
        entries := entries[k := e];
        DeepAllAdd(old(entries), m, done, k);
        todo := todo - {k};
        done := done + {k};
      }
    }
  }

  /** After update() every input key reads back as the input's value, converted. */
  lemma UpdateThenGet(before: map<string, Entry>, m: map<string, Json>, key: string)
    requires key in m
    ensures var after := before + DeepAll(m, m.Keys);
      key in after && ToJson(after[key]) == m[key] && Converted(after[key])
  {
    DeepRoundTrip(m[key]);
    DeepConverted(m[key]);
  }
}
