/** The untyped value trees the gateway passes around (Go's `interface{}` as
    filled in by `encoding/json` and by the transit decoder) and the helpers of
    internal/fulcro/utils.go that reshape them: turning string keys into
    keywords, turning one field into a keyword, deleting one field, stamping a
    "type" field, reading typed arguments, and building the tempid answer. */
module FulcroValues {
  import opened Wrappers

  /** One decoded value. The variants follow the dynamic Go types the code
      switches on. */
  datatype Value =
    | Nil                                  // nil
    | Bool(b: bool)                        // bool
    | Int(i: int)                          // int / int64
    | Str(s: string)                       // string
    | Kw(name: string)                     // transit.Keyword
    | Sym(name: string)                    // transit.Symbol
    | Tagged(tag: string, rep: Value)      // transit.TaggedValue (a tempid)
    | Arr(elems: seq<Value>)               // []interface{} (JSON array, transit vector)
    | Lst(items: seq<Value>)               // *list.List (transit list)
    | Recs(recs: seq<Value>)               // []map[string]interface{}: every element an SMap
    | SMap(fields: Record)                 // map[string]interface{}
    | KMap(entries: map<Value, Value>)     // map[interface{}]interface{}, map[transit.Keyword]interface{}
    | CMap(pairs: seq<(Value, Value)>)     // *transit.CMap, entries in insertion order

  /** A JSON object, `map[string]interface{}`. */
  type Record = map<string, Value>

  function KeywordKeys(ks: set<string>): (r: set<Value>)
    ensures forall k :: k in ks <==> Kw(k) in r
    ensures forall x :: x in r ==> x.Kw?
  {
    set k | k in ks :: Kw(k)
  }

  // ---------------------------------------------------------------- Keywordize

  /** utils.go `Keywordize`: every `map[string]interface{}` reachable through
      maps and arrays becomes a map keyed by keywords; arrays keep their length
      and order; every other value is returned as it is (including maps whose
      keys are already not strings, which are not descended into). */
  function Keywordize(v: Value): (r: Value)
    ensures v.Arr? ==> r.Arr? && |r.elems| == |v.elems|
    ensures v.Recs? ==> r.Arr? && |r.elems| == |v.recs|
    ensures v.Recs? ==> forall i :: 0 <= i < |v.recs| && v.recs[i].SMap? ==> r.elems[i].KMap?
    ensures v.SMap? ==> r.KMap? && r.entries.Keys == KeywordKeys(v.fields.Keys)
    ensures !v.Arr? && !v.Recs? && !v.SMap? ==> r == v
  {
    match v
    case Recs(rs) => Arr(seq(|rs|, i requires 0 <= i < |rs| => Keywordize(rs[i])))
    case SMap(m) => KMap(map x | x in KeywordKeys(m.Keys) && x.name in m :: Keywordize(m[x.name]))
    case Arr(s) => Arr(seq(|s|, i requires 0 <= i < |s| => Keywordize(s[i])))
    case _ => v
  }

  /** Values as `encoding/json` builds them when decoding into `interface{}`:
      no map with non-string keys anywhere, no typed record slice. */
  predicate Plain(v: Value) {
    match v
    case KMap(_) => false
    case Recs(_) => false
    case Arr(s) => forall i :: 0 <= i < |s| ==> Plain(s[i])
    case SMap(m) => forall k :: k in m ==> Plain(m[k])
    case _ => true
  }

  /** The inverse direction: keyword-keyed maps back to string-keyed ones. */
  function Unkeywordize(v: Value): Value {
    match v
    case Arr(s) => Arr(seq(|s|, i requires 0 <= i < |s| => Unkeywordize(s[i])))
    case KMap(m) =>
      if forall k :: k in m ==> k.Kw? then
        SMap(map f | f in KeywordNames(m.Keys) :: Unkeywordize(m[Kw(f)]))
      else v
    case _ => v
  }

  function KeywordNames(ks: set<Value>): (r: set<string>)
    ensures forall f :: f in r <==> Kw(f) in ks
  {
    set x | x in ks && x.Kw? :: x.name
  }

  /** No string-keyed object is left anywhere reachable through arrays and
      map values. */
  predicate NoStringMap(v: Value) {
    match v
    case SMap(_) => false
    case Recs(_) => false
    case Arr(s) => forall i :: 0 <= i < |s| ==> NoStringMap(s[i])
    case KMap(m) => forall k :: k in m ==> NoStringMap(m[k])
    case _ => true
  }

  /** On JSON-shaped values Keywordize reaches every level: no object keyed by
      strings survives, however deeply it was nested in objects and arrays. */
  lemma {:induction false} KeywordizeConverts(v: Value)
    requires Plain(v)
    ensures NoStringMap(Keywordize(v))
  {
    match v
    case Arr(s) =>
      var k := Keywordize(v);
      forall i | 0 <= i < |s| ensures NoStringMap(k.elems[i]) {
        KeywordizeConverts(s[i]);
      }
    case SMap(m) =>
      var km := Keywordize(v).entries;
      forall x | x in km ensures NoStringMap(km[x]) {
        assert x.Kw? && x.name in m;
        KeywordizeConverts(m[x.name]);
      }
    case _ =>
  }

  /** On JSON-shaped values Keywordize loses nothing: turning keywords back
      into strings gives the value back. With KeywordizeConverts, this says
      that only the key family changes, at every level. */
  lemma {:induction false} KeywordizeRoundTrip(v: Value)
    requires Plain(v)
    ensures Unkeywordize(Keywordize(v)) == v
  {
    match v
    case Arr(s) =>
      var k := Keywordize(v);
      forall i | 0 <= i < |s| ensures Unkeywordize(k.elems[i]) == s[i] {
        KeywordizeRoundTrip(s[i]);
      }
      assert Unkeywordize(k).elems == s;
    case SMap(m) =>
      forall f | f in m ensures Unkeywordize(Keywordize(m[f])) == m[f] {
        KeywordizeRoundTrip(m[f]);
      }
      KeywordizeObjectRoundTrip(m);
    case _ =>
  }

  /** The object step of KeywordizeRoundTrip, given that every field value round-trips. */
  lemma KeywordizeObjectRoundTrip(m: Record)
    requires forall f :: f in m ==> Unkeywordize(Keywordize(m[f])) == m[f]
    ensures Unkeywordize(Keywordize(SMap(m))) == SMap(m)
  {
    var km := Keywordize(SMap(m)).entries;
    assert forall x :: x in km ==> x.Kw?;
    var back := Unkeywordize(KMap(km)).fields;
    forall f | f in m ensures f in back && back[f] == m[f] {
      assert Kw(f) in km;
      assert km[Kw(f)] == Keywordize(m[f]);
    }
    assert back.Keys == m.Keys;
  }

  /** A second Keywordize changes nothing. */
  lemma {:induction false} KeywordizeIdempotent(v: Value)
    ensures Keywordize(Keywordize(v)) == Keywordize(v)
  {
    match v
    case Arr(s) =>
      var k := Keywordize(v);
      forall i | 0 <= i < |s| ensures Keywordize(k.elems[i]) == k.elems[i] {
        KeywordizeIdempotent(s[i]);
      }
      assert Keywordize(k).elems == k.elems;
    case Recs(rs) =>
      var k := Keywordize(v);
      forall i | 0 <= i < |rs| ensures Keywordize(k.elems[i]) == k.elems[i] {
        KeywordizeIdempotent(rs[i]);
      }
      assert Keywordize(k).elems == k.elems;
    case _ =>
  }

  // ---------------------------------------------------------------- paths

  /** The value reached by following string keys through nested JSON objects. */
  function ValueAt(v: Value, path: seq<string>): Option<Value>
    decreases |path|
  {
    if path == [] then Some(v)
    else match v
      case SMap(m) => if path[0] in m then ValueAt(m[path[0]], path[1..]) else None
      case _ => None
  }

  /** Two paths that part ways at some key: neither is a prefix of the other. */
  predicate Diverge(p: seq<string>, q: seq<string>)
    decreases |p|
  {
    |p| > 0 && |q| > 0 && (p[0] != q[0] || Diverge(p[1..], q[1..]))
  }

  // ---------------------------------------------------------------- MakeKeyword

  /** What MakeKeyword's type assertions demand: the elements of a record slice
      are objects, and where the path ends on a present key the value there is
      a string. */
  predicate KeywordPathTyped(v: Value, path: seq<string>)
    requires |path| >= 1
    decreases |path|, v
  {
    match v
    case Recs(rs) => forall i :: 0 <= i < |rs| ==> rs[i].SMap? && KeywordPathTyped(rs[i], path)
    case SMap(m) =>
      path[0] in m ==>
        if |path| == 1 then m[path[0]].Str? else KeywordPathTyped(m[path[0]], path[1..])
    case _ => true
  }

  /** utils.go `MakeKeyword(data, keys...)`: a record slice is rewritten
      element by element; in an object the string at `keys` becomes a keyword,
      descending only through present keys, and no other entry changes;
      anything else (a nested `[]interface{}` included) is returned unchanged. */
  function MakeKeyword(v: Value, path: seq<string>): (r: Value)
    requires |path| >= 1 && KeywordPathTyped(v, path)
    ensures v.Recs? ==> r.Recs? && |r.recs| == |v.recs|
    ensures v.Recs? ==> forall i :: 0 <= i < |v.recs| ==> r.recs[i] == MakeKeyword(v.recs[i], path) && r.recs[i].SMap?
    ensures v.SMap? ==> r.SMap? && r.fields.Keys == v.fields.Keys
    ensures v.SMap? ==> forall k :: k in v.fields && k != path[0] ==> r.fields[k] == v.fields[k]
    ensures v.SMap? && path[0] in v.fields && |path| == 1 ==> r.fields[path[0]] == Kw(v.fields[path[0]].s)
    ensures v.SMap? && path[0] in v.fields && |path| > 1 ==> r.fields[path[0]] == MakeKeyword(v.fields[path[0]], path[1..])
    ensures !v.Recs? && !v.SMap? ==> r == v
    decreases |path|, v
  {
    match v
    case Recs(rs) => Recs(seq(|rs|, i requires 0 <= i < |rs| => MakeKeyword(rs[i], path)))
    case SMap(m) =>
      var key := path[0];
      if key in m then
        if |path| == 1 then SMap(m[key := Kw(m[key].s)]) else SMap(m[key := MakeKeyword(m[key], path[1..])])
      else v
    case _ => v
  }

  function AsKeyword(o: Option<Value>): Option<Value> {
    match o
    case Some(Str(s)) => Some(Kw(s))
    case _ => o
  }

  /** At the end of the path, a present string has become the keyword with the same text. */
  lemma {:induction false} MakeKeywordAtPath(v: Value, path: seq<string>)
    requires |path| >= 1 && KeywordPathTyped(v, path)
    ensures ValueAt(MakeKeyword(v, path), path) == AsKeyword(ValueAt(v, path))
    decreases |path|
  {
    if v.SMap? && path[0] in v.fields && |path| > 1 {
      MakeKeywordAtPath(v.fields[path[0]], path[1..]);
    }
  }

  /** Every path that parts ways with `path` reads the same value as before. */
  lemma {:induction false} MakeKeywordOffPath(v: Value, path: seq<string>, other: seq<string>)
    requires |path| >= 1 && KeywordPathTyped(v, path)
    requires Diverge(path, other)
    ensures ValueAt(MakeKeyword(v, path), other) == ValueAt(v, other)
    decreases |path|
  {
    if v.SMap? && path[0] == other[0] && path[0] in v.fields {
      MakeKeywordOffPath(v.fields[path[0]], path[1..], other[1..]);
    }
  }

  // ---------------------------------------------------------------- Remove

  /** utils.go `Remove(data, keys...)`: like MakeKeyword, but the entry at the
      end of the path is deleted (`delete(v, key)`). */
  function Remove(v: Value, path: seq<string>): (r: Value)
    requires |path| >= 1
    ensures v.Recs? ==> r.Recs? && |r.recs| == |v.recs|
    ensures v.Recs? ==> forall i :: 0 <= i < |v.recs| ==> r.recs[i] == Remove(v.recs[i], path)
    ensures v.SMap? ==> r.SMap?
    ensures v.SMap? && |path| == 1 ==> r.fields.Keys == v.fields.Keys - {path[0]}
    ensures v.SMap? && |path| > 1 ==> r.fields.Keys == v.fields.Keys
    ensures v.SMap? ==> forall k :: k in v.fields && k != path[0] ==> r.fields[k] == v.fields[k]
    ensures v.SMap? && path[0] in v.fields && |path| > 1 ==> r.fields[path[0]] == Remove(v.fields[path[0]], path[1..])
    ensures !v.Recs? && !v.SMap? ==> r == v
    decreases |path|, v
  {
    match v
    case Recs(rs) => Recs(seq(|rs|, i requires 0 <= i < |rs| => Remove(rs[i], path)))
    case SMap(m) =>
      var key := path[0];
      if key in m then
        if |path| == 1 then SMap(m - {key}) else SMap(m[key := Remove(m[key], path[1..])])
      else v
    case _ => v
  }

  /** After Remove nothing is left at the end of the path. */
  lemma {:induction false} RemoveAtPath(v: Value, path: seq<string>)
    requires |path| >= 1
    ensures ValueAt(Remove(v, path), path) == None
    decreases |path|
  {
    if v.SMap? && path[0] in v.fields && |path| > 1 {
      RemoveAtPath(v.fields[path[0]], path[1..]);
    }
  }

  /** Every path that parts ways with `path` reads the same value as before. */
  lemma {:induction false} RemoveOffPath(v: Value, path: seq<string>, other: seq<string>)
    requires |path| >= 1
    requires Diverge(path, other)
    ensures ValueAt(Remove(v, path), other) == ValueAt(v, other)
    decreases |path|
  {
    if v.SMap? && path[0] == other[0] && path[0] in v.fields && |path| > 1 {
      RemoveOffPath(v.fields[path[0]], path[1..], other[1..]);
    }
  }

  // ---------------------------------------------------------------- AddType

  /** The records after `"type"` has been set to the keyword `t` in each. */
  function WithType(s: seq<Record>, t: string): (r: seq<Record>)
    ensures |r| == |s|
    ensures forall i :: 0 <= i < |s| ==> r[i].Keys == s[i].Keys + {"type"} && r[i]["type"] == Kw(t)
    ensures forall i, k :: 0 <= i < |s| && k in s[i] && k != "type" ==> r[i][k] == s[i][k]
  {
    seq(|s|, i requires 0 <= i < |s| => s[i]["type" := Kw(t)])
  }

  /** Stamping the same type twice is the same as stamping it once. */
  lemma WithTypeIdempotent(s: seq<Record>, t: string)
    ensures WithType(WithType(s, t), t) == WithType(s, t)
  {
    var once := WithType(s, t);
    forall i | 0 <= i < |s| ensures once[i]["type" := Kw(t)] == once[i] {
      assert once[i]["type"] == Kw(t);
    }
  }

  /** utils.go `AddType`: writes `"type"` into every record of the slice, in place. */
  method AddType(data: array<Record>, t: string)
    modifies data
    ensures data[..] == WithType(old(data[..]), t)
  {
    for i := 0 to data.Length
      invariant forall j :: 0 <= j < i ==> data[j] == old(data[j])["type" := Kw(t)]
      invariant forall j :: i <= j < data.Length ==> data[j] == old(data[j])
    {
      data[i] := data[i]["type" := Kw(t)];
    }
  }

  // ---------------------------------------------------------------- argument getters

  /** `args[transit.Keyword(id)]`: Go yields nil for an absent key. */
  function Lookup(args: map<Value, Value>, id: string): (r: Value)
    ensures Kw(id) !in args ==> r == Nil
    ensures Kw(id) in args ==> r == args[Kw(id)]
  {
    if Kw(id) in args then args[Kw(id)] else Nil
  }

  /** utils.go `GetString`: "" when the argument is absent or nil, otherwise the
      string stored there (any other type fails the assertion). */
  function GetString(args: map<Value, Value>, id: string): (r: string)
    requires Lookup(args, id).Nil? || Lookup(args, id).Str?
    ensures Kw(id) !in args ==> r == ""
    ensures Kw(id) in args && args[Kw(id)] == Nil ==> r == ""
    ensures Kw(id) in args && args[Kw(id)].Str? ==> Str(r) == args[Kw(id)]
  {
    var val := Lookup(args, id);
    if val != Nil then val.s else ""
  }

  /** utils.go `GetKeyword`: the argument must be present and a keyword. */
  function GetKeyword(args: map<Value, Value>, id: string): (r: Value)
    requires Kw(id) in args && args[Kw(id)].Kw?
    ensures r.Kw? && r == args[Kw(id)]
  {
    Lookup(args, id)
  }

  /** utils.go `GetKeywordAsString`: the text of the keyword argument. */
  function GetKeywordAsString(args: map<Value, Value>, id: string): (r: string)
    requires Kw(id) in args && args[Kw(id)].Kw?
    ensures Kw(r) == args[Kw(id)]
  {
    GetKeyword(args, id).name
  }

  /** utils.go `GetInt`: the argument must be present and an integer. */
  function GetInt(args: map<Value, Value>, id: string): (r: int)
    requires Kw(id) in args && args[Kw(id)].Int?
    ensures Int(r) == args[Kw(id)]
  {
    Lookup(args, id).i
  }

  /** utils.go `GetBool`: the argument must be present and a boolean. */
  function GetBool(args: map<Value, Value>, id: string): (r: bool)
    requires Kw(id) in args && args[Kw(id)].Bool?
    ensures Bool(r) == args[Kw(id)]
  {
    Lookup(args, id).b
  }

  /** utils.go `GetTempId`: the argument must be present and a tagged value. */
  function GetTempId(args: map<Value, Value>, id: string): (r: Value)
    requires Kw(id) in args && args[Kw(id)].Tagged?
    ensures r.Tagged? && r == args[Kw(id)]
  {
    Lookup(args, id)
  }

  /** utils.go `GetMap`: the argument must be present and a map. */
  function GetMap(args: map<Value, Value>, id: string): (r: map<Value, Value>)
    requires Kw(id) in args && args[Kw(id)].KMap?
    ensures KMap(r) == args[Kw(id)]
  {
    Lookup(args, id).entries
  }

  /** utils.go `GetStringSeq`: the argument must be an array of strings; the
      result has its length and order. */
  method GetStringSeq(args: map<Value, Value>, id: string) returns (r: seq<string>)
    requires Lookup(args, id).Arr?
    requires forall i :: 0 <= i < |Lookup(args, id).elems| ==> Lookup(args, id).elems[i].Str?
    ensures |r| == |Lookup(args, id).elems|
    ensures forall i :: 0 <= i < |r| ==> Str(r[i]) == Lookup(args, id).elems[i]
  {
    var s := Lookup(args, id).elems;
    var result := new string[|s|];
    for i := 0 to |s|
      invariant forall j :: 0 <= j < i ==> Str(result[j]) == s[j]
    {
      result[i] := s[i].s;
    }
    r := result[..];
  }

  // ---------------------------------------------------------------- tempid results

  /** The reserved key under which the client reads tempid reconciliation. */
  const TempIdsKey := "fulcro.client.primitives/tempids"

  /** A one-entry tempid answer: `{:fulcro.client.primitives/tempids {tempid value}}`. */
  function TempAnswer(tempid: Value, value: Value): (r: Value)
    ensures r.KMap? && r.entries.Keys == {Kw(TempIdsKey)}
    ensures r.entries[Kw(TempIdsKey)] == CMap([(tempid, value)])
  {
    KMap(map[Kw(TempIdsKey) := CMap([(tempid, value)])])
  }

  /** utils.go `MkTempIdResult`: one reserved key, under which the tempid
      and only the tempid resolves, to the keyword of the response body. */
  function MkTempIdResult(tempid: Value, body: string): (r: Value)
    requires tempid.Tagged?
    ensures r.KMap? && r.entries.Keys == {Kw(TempIdsKey)}
    ensures r.entries[Kw(TempIdsKey)].CMap? && |r.entries[Kw(TempIdsKey)].pairs| == 1
    ensures ResolveTempId(r, tempid) == Some(Kw(body))
    ensures forall other :: other != tempid ==> ResolveTempId(r, other) == None
  {
    TempAnswerResolves(tempid, Kw(body));
    TempAnswer(tempid, Kw(body))
  }

  /** utils.go `MkTempResult`: one reserved key, under which the tempid and
      only the tempid resolves, to the given integer. */
  function MkTempResult(tempid: Value, val: int): (r: Value)
    requires tempid.Tagged?
    ensures r.KMap? && r.entries.Keys == {Kw(TempIdsKey)}
    ensures r.entries[Kw(TempIdsKey)].CMap? && |r.entries[Kw(TempIdsKey)].pairs| == 1
    ensures ResolveTempId(r, tempid) == Some(Int(val))
    ensures forall other :: other != tempid ==> ResolveTempId(r, other) == None
  {
    TempAnswerResolves(tempid, Int(val));
    TempAnswer(tempid, Int(val))
  }

  /** How a client reads a tempid answer: the value paired with `tempid` under
      the reserved key, if there is one. */
  function ResolveTempId(answer: Value, tempid: Value): Option<Value> {
    if answer.KMap? && Kw(TempIdsKey) in answer.entries && answer.entries[Kw(TempIdsKey)].CMap? then
      FindPair(answer.entries[Kw(TempIdsKey)].pairs, tempid)
    else None
  }

  function FindPair(pairs: seq<(Value, Value)>, key: Value): Option<Value> {
    if pairs == [] then None
    else if pairs[0].0 == key then Some(pairs[0].1)
    else FindPair(pairs[1..], key)
  }

  /** The answer resolves exactly the given tempid, to exactly the given value. */
  lemma TempAnswerResolves(tempid: Value, value: Value)
    ensures ResolveTempId(TempAnswer(tempid, value), tempid) == Some(value)
    ensures forall other :: other != tempid ==> ResolveTempId(TempAnswer(tempid, value), other) == None
  {
    var pairs := [(tempid, value)];
    assert pairs[1..] == [];
    assert FindPair(pairs, tempid) == Some(value);
    forall other | other != tempid ensures FindPair(pairs, other) == None {
      assert FindPair(pairs, other) == FindPair(pairs[1..], other);
    }
  }
}
