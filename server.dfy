/** internal/fulcro/server.go: the registries of query and mutation
    handlers, the `/api` batch dispatcher that routes each decoded entry by its
    shape and collects the answers, the single-page-application file rule,
    and the `/file-upload` counter. Decoding and rendering of transit, gin
    routing and the file system are outside the model: the `/api` handler
    receives the decoded body (or the decoder's error) and returns what it
    renders. */
module FulcroServer {
  import opened Wrappers
  import opened FulcroValues
  import opened Seqs
  import Decimal

  /** `QueryFunc func(params []interface{}, args map[interface{}]interface{}) interface{}`;
      `args` is `Nil` when the entry carries none. */
  type QueryFunc = (seq<Value>, Value) -> Value

  /** `MutationFunc func(args map[interface{}]interface{}) interface{}` */
  type MutationFunc = Value -> Value

  /** `transit.CMap`: an ordered list of key/value entries, appended to in place. */
  class ResultCMap {
    var entries: seq<(Value, Value)>

    constructor ()
      ensures entries == []
    {
      entries := [];
    }

    method Append(k: Value, v: Value)
      modifies this
      ensures entries == old(entries) + [(k, v)]
    {
      entries := entries + [(k, v)];
    }
  }

  /** `map[transit.Symbol]interface{}`, keyed by the symbol's name. */
  class ResultSymMap {
    var m: map<string, Value>

    constructor ()
      ensures m == map[]
    {
      m := map[];
    }
  }

  // ---------------------------------------------------------------- entry shapes

  /** How the `/api` type switch classifies an entry. */
  datatype Shape = RootShaped | EntityShaped | MutationShaped | Unknown

  function ShapeOf(q: Value): Shape {
    match q
    case KMap(_) => RootShaped
    case CMap(_) => EntityShaped
    case Lst(items) =>
      if |items| > 0 && items[0].KMap? then RootShaped
      else if |items| > 0 && items[0].CMap? then EntityShaped
      else MutationShaped
    case _ => Unknown
  }

  predicate IsQuery(q: Value) {
    ShapeOf(q) == RootShaped || ShapeOf(q) == EntityShaped
  }

  /** A root query map: keyword keys, parameter-array values (`k.(Keyword)`, `p.([]interface{})`). */
  predicate RootQueryOk(query: map<Value, Value>) {
    forall k :: k in query ==> k.Kw? && query[k].Arr?
  }

  /** An entity query: each key an ident array starting with a keyword, each
      value a parameter array. */
  predicate EntityQueryOk(query: seq<(Value, Value)>) {
    forall i :: 0 <= i < |query| ==>
      query[i].0.Arr? && |query[i].0.elems| >= 1 && query[i].0.elems[0].Kw? && query[i].1.Arr?
  }

  /** What the type assertions of the dispatcher demand of one entry: a
      list-wrapped entry has a second element that is the args map, and a
      mutation list starts with a symbol. */
  predicate WellFormed(q: Value) {
    match q
    case KMap(m) => RootQueryOk(m)
    case CMap(ps) => EntityQueryOk(ps)
    case Lst(items) =>
      && |items| >= 2 && items[1].KMap?
      && (items[0].KMap? ==> RootQueryOk(items[0].entries))
      && (items[0].CMap? ==> EntityQueryOk(items[0].pairs))
      && (!items[0].KMap? && !items[0].CMap? ==> items[0].Sym?)
    case _ => true
  }

  /** The query of a query-shaped entry and the args it is dispatched with:
      plain entries get `nil`, list-wrapped ones their second element. */
  function QueryArgs(q: Value): Value
    requires IsQuery(q) && WellFormed(q)
  {
    if q.Lst? then q.items[1] else Nil
  }

  function QueryOf(q: Value): (r: Value)
    requires IsQuery(q) && WellFormed(q)
    ensures ShapeOf(q) == RootShaped ==> r.KMap? && RootQueryOk(r.entries)
    ensures ShapeOf(q) == EntityShaped ==> r.CMap? && EntityQueryOk(r.pairs)
  {
    if q.Lst? then q.items[0] else q
  }

  /** A batch whose type assertions all hold: no query-shaped entry next to a
      mutation-shaped one, since the first allocates the container the other
      would assert to a different type. */
  predicate Dispatchable(qs: seq<Value>) {
    && (forall i :: 0 <= i < |qs| ==> WellFormed(qs[i]))
    && (forall i, j :: 0 <= i < |qs| && 0 <= j < |qs| && IsQuery(qs[i]) ==> ShapeOf(qs[j]) != MutationShaped)
  }

  /** What `/api` renders: the answer container with status 200, or 400. */
  datatype Body = Entries(entries: seq<(Value, Value)>) | BySymbol(results: map<string, Value>)
  datatype Response = Rendered(status: int, body: Body) | BadRequest(status: int)

  // ---------------------------------------------------------------- file-upload

  /** `"tmp-" + strconv.FormatInt(fileUpLoadId, 10)` */
  function FileName(n: int): (r: string)
    ensures |r| > 4 && r[..4] == "tmp-"
  {
    "tmp-" + Decimal.IntToString(n)
  }

  /** Different counter values never save to the same file. */
  lemma FileNamesDistinct(a: int, b: int)
    ensures FileName(a) == FileName(b) <==> a == b
  {
    if FileName(a) == FileName(b) {
      assert FileName(a)[4..] == Decimal.IntToString(a);
      assert FileName(b)[4..] == Decimal.IntToString(b);
      Decimal.IntToStringInjective(a, b);
    }
  }

  /** What the upload handler writes back: a 400 text, the rendered tempid
      answer, or nothing when the `id` field does not decode. */
  datatype Reply = Text(status: int, text: string) | Transit(status: int, body: Value) | NoReply

  /** The `/file-upload` handler and the counter it closes over. */
  class Uploads {
    var fileUpLoadId: int

    constructor ()
      ensures fileUpLoadId == 0
    {
      fileUpLoadId := 0;
    }

    /** `file` is `c.FormFile("file")`, `save(file, name)` the error (if any)
        of saving it under `name`, `id` the decoded `id` form field. Only a
        saved file moves the counter, by one, and it is named after the
        counter's value before the move. */
    method FileUpload(file: Result<string>, save: (string, string) -> Option<string>, id: Result<Value>)
      returns (reply: Reply, ghost saved: Option<string>)
      requires file.Ok? && save(file.value, FileName(fileUpLoadId)).None? && id.Ok? ==> id.value.Tagged?
      modifies this
      ensures file.Err? ==>
        reply == Text(400, "get form err: " + file.error) && saved == None && fileUpLoadId == old(fileUpLoadId)
      ensures file.Ok? && save(file.value, FileName(old(fileUpLoadId))).Some? ==>
        && reply == Text(400, "upload file err: " + save(file.value, FileName(old(fileUpLoadId))).value)
        && saved == None && fileUpLoadId == old(fileUpLoadId)
      ensures file.Ok? && save(file.value, FileName(old(fileUpLoadId))).None? ==>
        && saved == Some(FileName(old(fileUpLoadId)))
        && fileUpLoadId == old(fileUpLoadId) + 1
        && reply == (if id.Ok? then Transit(200, MkTempResult(id.value, old(fileUpLoadId))) else NoReply)
    {
      if file.Err? {
        return Text(400, "get form err: " + file.error), None;
      }
      var name := FileName(fileUpLoadId);
      var err := save(file.value, name);
      if err.Some? {
        return Text(400, "upload file err: " + err.value), None;
      }
      reply := NoReply;
      if id.Ok? {
        reply := Transit(200, MkTempResult(id.value, fileUpLoadId));
      }
      saved := Some(name);
      fileUpLoadId := fileUpLoadId + 1;
    }
  }

  // ---------------------------------------------------------------- the server

  class Server {
    /** `handlers map[transit.Keyword]QueryFunc`, keyed by the keyword's name. */
    var handlers: map<string, QueryFunc>
    /** `mutators map[transit.Symbol]MutationFunc`, keyed by the symbol's name. */
    var mutators: map<string, MutationFunc>

    /** NewServer: both registries empty. */
    constructor ()
      ensures handlers == map[] && mutators == map[]
    {
      handlers := map[];
      mutators := map[];
    }

    /** Registers (or replaces) the handler of keyword `k`; nothing else changes. */
    method AddQueryFunc(k: string, f: QueryFunc)
      modifies this
      ensures handlers == old(handlers)[k := f] && mutators == old(mutators)
      ensures forall params, args :: InvokeQueryFunc(k, params, args) == f(params, args)
    {
      handlers := handlers[k := f];
    }

    /** Registers (or replaces) the handler of symbol `key`; nothing else changes. */
    method AddMutationFunc(key: string, f: MutationFunc)
      modifies this
      ensures mutators == old(mutators)[key := f] && handlers == old(handlers)
      ensures forall args :: InvokeMutatorFunc(key, args) == f(args)
    {
      mutators := mutators[key := f];
    }

    /** The registered handler's answer, or `nil` for an unregistered keyword. */
    function InvokeQueryFunc(key: string, params: seq<Value>, args: Value): (r: Value)
      reads this
      ensures key in handlers ==> r == handlers[key](params, args)
      ensures key !in handlers ==> r == Nil
    {
      if key in handlers then handlers[key](params, args) else Nil
    }

    /** The registered mutator's answer, or `nil` for an unregistered symbol. */
    function InvokeMutatorFunc(key: string, args: Value): (r: Value)
      reads this
      ensures key in mutators ==> r == mutators[key](args)
      ensures key !in mutators ==> r == Nil
    {
      if key in mutators then mutators[key](args) else Nil
    }

    /** The entries rootQuery appends for a query map, in some order: one
        per key of the map, keyed by that keyword, holding its handler's
        answer (nil for an unregistered keyword). */
    ghost predicate RootAnswers(query: map<Value, Value>, args: Value, seg: seq<(Value, Value)>)
      reads this
      requires RootQueryOk(query)
    {
      && |seg| == |query|
      && (forall k :: k in query ==> exists i :: 0 <= i < |seg| && seg[i].0 == k)
      && (forall i :: 0 <= i < |seg| ==>
            seg[i].0 in query && seg[i].1 == InvokeQueryFunc(seg[i].0.name, query[seg[i].0].elems, args))
      && (forall i, j :: 0 <= i < j < |seg| ==> seg[i].0 != seg[j].0)
    }

    /** rootQuery: Go ranges over the map in an unspecified order, modelled by
        choosing any key not yet visited. */
    method RootQuery(query: map<Value, Value>, args: Value, result: ResultCMap) returns (ghost seg: seq<(Value, Value)>)
      requires RootQueryOk(query)
      modifies result
      ensures result.entries == old(result.entries) + seg
      ensures RootAnswers(query, args, seg)
    {
      var remaining := query.Keys;
      seg := [];
      while remaining != {}
        invariant RootVisited(query, args, remaining, seg)
        invariant result.entries == old(result.entries) + seg
        decreases |remaining|
      {
        var k :| k in remaining;
        var key := k.name;
        var params := query[k].elems;
        var answer := InvokeQueryFunc(key, params, args);
        result.Append(k, answer);
        AppendAssoc(old(result.entries), seg, [(k, answer)]);
        RootVisit(query, args, remaining, seg, k);
        seg := seg + [(k, answer)];
        remaining := remaining - {k};
      }
      RootDone(query, args, seg);
    }

    /** Once every key is visited, the entries are the answers. */
    lemma RootDone(query: map<Value, Value>, args: Value, seg: seq<(Value, Value)>)
      requires RootQueryOk(query) && RootVisited(query, args, {}, seg)
      ensures RootAnswers(query, args, seg)
    {
    }

    /** The loop state of rootQuery: `seg` answers each visited key once,
        and the keys left are the others. */
    ghost predicate RootVisited(query: map<Value, Value>, args: Value, remaining: set<Value>, seg: seq<(Value, Value)>)
      reads this
      requires RootQueryOk(query)
    {
      && remaining <= query.Keys
      && |seg| + |remaining| == |query|
      && (forall k :: k in query && k !in remaining ==> exists i :: 0 <= i < |seg| && seg[i].0 == k)
      && (forall i :: 0 <= i < |seg| ==>
            seg[i].0 in query && seg[i].0 !in remaining &&
            seg[i].1 == InvokeQueryFunc(seg[i].0.name, query[seg[i].0].elems, args))
      && (forall i, j :: 0 <= i < j < |seg| ==> seg[i].0 != seg[j].0)
    }

    /** Visiting one more key keeps the loop state. */
    lemma RootVisit(query: map<Value, Value>, args: Value, remaining: set<Value>, seg: seq<(Value, Value)>, k: Value)
      requires RootQueryOk(query) && RootVisited(query, args, remaining, seg) && k in remaining
      ensures RootVisited(query, args, remaining - {k},
                          seg + [(k, InvokeQueryFunc(k.name, query[k].elems, args))])
    {
      var seg' := seg + [(k, InvokeQueryFunc(k.name, query[k].elems, args))];
      var remaining' := remaining - {k};
      forall k' | k' in query && k' !in remaining' ensures exists i :: 0 <= i < |seg'| && seg'[i].0 == k' {
        if k' == k {
          assert seg'[|seg|].0 == k;
        } else {
          var i :| 0 <= i < |seg| && seg[i].0 == k';
          assert seg'[i] == seg[i];
        }
      }
    }

    /** The entries entityQuery appends: one per query entry, in order, keyed
        by the whole ident and answered by the handler of its first element. */
    function EntityAnswers(query: seq<(Value, Value)>, args: Value): (r: seq<(Value, Value)>)
      reads this
      requires EntityQueryOk(query)
      ensures |r| == |query|
      ensures forall i :: 0 <= i < |query| ==>
        r[i].0 == query[i].0 && r[i].1 == InvokeQueryFunc(query[i].0.elems[0].name, query[i].1.elems, args)
    {
      seq(|query|, i requires 0 <= i < |query| reads this =>
        (query[i].0, InvokeQueryFunc(query[i].0.elems[0].name, query[i].1.elems, args)))
    }

    method EntityQuery(query: seq<(Value, Value)>, args: Value, result: ResultCMap)
      requires EntityQueryOk(query)
      modifies result
      ensures result.entries == old(result.entries) + EntityAnswers(query, args)
    {
      ghost var before := result.entries;
      for i := 0 to |query|
        invariant result.entries == before + EntityAnswers(query, args)[..i]
      {
        var e := query[i];
        var key := e.0.elems[0].name;
        var params := e.1.elems;
        result.Append(e.0, InvokeQueryFunc(key, params, args));
        assert EntityAnswers(query, args)[..i + 1] == EntityAnswers(query, args)[..i] + [EntityAnswers(query, args)[i]];
      }
      assert EntityAnswers(query, args)[..|query|] == EntityAnswers(query, args);
    }

    /** mutation: `result[sym]` becomes the mutator's answer for the list's
        second element; no other symbol changes. */
    method Mutation(op: seq<Value>, result: ResultSymMap)
      requires |op| >= 2 && op[0].Sym? && op[1].KMap?
      modifies result
      ensures result.m == old(result.m)[op[0].name := InvokeMutatorFunc(op[0].name, op[1])]
    {
      var key := op[0].name;
      var args := op[1];
      result.m := result.m[key := InvokeMutatorFunc(key, args)];
    }

    /** The entries a query-shaped entry contributes. */
    ghost predicate Answers(q: Value, seg: seq<(Value, Value)>)
      reads this
      requires IsQuery(q) && WellFormed(q)
    {
      if ShapeOf(q) == RootShaped then RootAnswers(QueryOf(q).entries, QueryArgs(q), seg)
      else seg == EntityAnswers(QueryOf(q).pairs, QueryArgs(q))
    }

    /** The symbol map after the mutation entries of `qs`, in order: each sets
        its symbol, a later one overwriting an earlier one. */
    function MutationResults(qs: seq<Value>): map<string, Value>
      reads this
      requires forall i :: 0 <= i < |qs| ==> WellFormed(qs[i])
      decreases |qs|
    {
      if qs == [] then map[]
      else
        var m := MutationResults(qs[..|qs| - 1]);
        var q := qs[|qs| - 1];
        assert WellFormed(q);
        if ShapeOf(q) == MutationShaped then m[q.items[0].name := InvokeMutatorFunc(q.items[0].name, q.items[1])]
        else m
    }

    /** Entry j is a mutation and no later mutation entry names its symbol. */
    static predicate LastMutation(qs: seq<Value>, j: nat)
      requires j < |qs|
    {
      && ShapeOf(qs[j]) == MutationShaped && |qs[j].items| >= 1
      && forall k :: j < k < |qs| && ShapeOf(qs[k]) == MutationShaped && |qs[k].items| >= 1 ==>
           qs[k].items[0] != qs[j].items[0]
    }

    /** The symbols answered are exactly those of the mutation entries, and
        each holds the answer to its last mutation entry. */
    lemma MutationLastWins(qs: seq<Value>)
      requires forall i :: 0 <= i < |qs| ==> WellFormed(qs[i])
      ensures forall s :: s in MutationResults(qs) <==>
        exists j :: 0 <= j < |qs| && ShapeOf(qs[j]) == MutationShaped && qs[j].items[0].name == s
      ensures forall j :: 0 <= j < |qs| && LastMutation(qs, j) ==>
                MutationResults(qs)[qs[j].items[0].name] == InvokeMutatorFunc(qs[j].items[0].name, qs[j].items[1])
    {
      MutationKeys(qs);
      forall j | 0 <= j < |qs| && LastMutation(qs, j)
        ensures MutationResults(qs)[qs[j].items[0].name] == InvokeMutatorFunc(qs[j].items[0].name, qs[j].items[1])
      {
        MutationLast(qs, j);
      }
    }

    lemma {:induction false} MutationKeys(qs: seq<Value>)
      requires forall i :: 0 <= i < |qs| ==> WellFormed(qs[i])
      ensures forall s :: s in MutationResults(qs) <==>
        exists j :: 0 <= j < |qs| && ShapeOf(qs[j]) == MutationShaped && qs[j].items[0].name == s
      decreases |qs|
    {
      if qs != [] {
        var n := |qs| - 1;
        var init := qs[..n];
        MutationKeys(init);
        MutationResultsSnoc(qs, n);
        TakeAll(qs);
        forall s ensures s in MutationResults(qs) <==>
          exists j :: 0 <= j < |qs| && ShapeOf(qs[j]) == MutationShaped && qs[j].items[0].name == s
        {
          if s in MutationResults(qs) {
            if !(ShapeOf(qs[n]) == MutationShaped && qs[n].items[0].name == s) {
              var j :| 0 <= j < |init| && ShapeOf(init[j]) == MutationShaped && init[j].items[0].name == s;
              assert init[j] == qs[j];
            }
          } else {
            forall j | 0 <= j < |qs| && WellFormed(qs[j]) && ShapeOf(qs[j]) == MutationShaped
              ensures qs[j].items[0].name != s
            {
              if j < n {
                assert init[j] == qs[j];
              }
            }
          }
        }
      }
    }

    lemma {:induction false} MutationLast(qs: seq<Value>, j: nat)
      requires forall i :: 0 <= i < |qs| ==> WellFormed(qs[i])
      requires j < |qs| && WellFormed(qs[j]) && LastMutation(qs, j)
      ensures qs[j].items[0].name in MutationResults(qs)
      ensures MutationResults(qs)[qs[j].items[0].name] == InvokeMutatorFunc(qs[j].items[0].name, qs[j].items[1])
      decreases |qs|
    {
      var n := |qs| - 1;
      var init := qs[..n];
      MutationResultsSnoc(qs, n);
      TakeAll(qs);
      if j < n {
        assert init[j] == qs[j];
        assert LastMutation(init, j) by {
          forall k | j < k < n && ShapeOf(init[k]) == MutationShaped && |init[k].items| >= 1
            ensures init[k].items[0] != init[j].items[0]
          {
            assert init[k] == qs[k];
          }
        }
        MutationLast(init, j);
        if ShapeOf(qs[n]) == MutationShaped {
          assert qs[n].items[0] != qs[j].items[0];
        }
      }
    }

    /** One query-shaped entry of the batch, answered into the shared CMap. */
    method Query(q: Value, result: ResultCMap) returns (ghost seg: seq<(Value, Value)>)
      requires IsQuery(q) && WellFormed(q)
      modifies result
      ensures result.entries == old(result.entries) + seg
      ensures Answers(q, seg)
    {
      var query := QueryOf(q);
      var args := QueryArgs(q);
      if query.KMap? {
        seg := RootQuery(query.entries, args, result);
      } else {
        EntityQuery(query.pairs, args, result);
        seg := EntityAnswers(query.pairs, args);
      }
    }

    /** One iteration of the `/api` loop: the entry's shape picks the
        container, which is allocated if this is the first entry needing it. */
    method DispatchEntry(q: Value, cm: ResultCMap?, sm: ResultSymMap?)
      returns (cm': ResultCMap?, sm': ResultSymMap?, ghost seg: seq<(Value, Value)>)
      requires WellFormed(q)
      modifies cm, sm
      ensures IsQuery(q) ==>
        && cm' != null && sm' == sm && Answers(q, seg)
        && (cm == null ==> fresh(cm') && cm'.entries == seg)
        && (cm != null ==> cm' == cm && cm'.entries == old(cm.entries) + seg)
      ensures ShapeOf(q) == MutationShaped ==>
        && sm' != null && cm' == cm && seg == []
        && (sm == null ==> fresh(sm') && sm'.m == map[][q.items[0].name := InvokeMutatorFunc(q.items[0].name, q.items[1])])
        && (sm != null ==> sm' == sm && sm'.m == old(sm.m)[q.items[0].name := InvokeMutatorFunc(q.items[0].name, q.items[1])])
      ensures ShapeOf(q) == Unknown ==> cm' == cm && sm' == sm && seg == []
      ensures cm' == cm && cm != null ==> cm.entries == old(cm.entries) + seg
      ensures sm' == sm && sm != null && ShapeOf(q) != MutationShaped ==> sm.m == old(sm.m)
    {
      cm', sm', seg := cm, sm, [];
      if IsQuery(q) {
        if cm' == null {
          cm' := new ResultCMap();
        }
        seg := Query(q, cm');
      } else if ShapeOf(q) == MutationShaped {
        if sm' == null {
          sm' := new ResultSymMap();
        }
        Mutation(q.items, sm');
      }
    }

    /** Every entry of `qs` appended the entries of the same position of `segs`
        (none, for an entry that is not a query). */
    ghost predicate AllAnswers(qs: seq<Value>, segs: seq<seq<(Value, Value)>>)
      reads this
      requires forall j :: 0 <= j < |qs| ==> WellFormed(qs[j])
    {
      && |segs| == |qs|
      && forall j :: 0 <= j < |qs| ==> (if IsQuery(qs[j]) then Answers(qs[j], segs[j]) else segs[j] == [])
    }

    lemma AllAnswersSnoc(qs: seq<Value>, i: nat, segs: seq<seq<(Value, Value)>>, seg: seq<(Value, Value)>)
      requires i < |qs| && forall j :: 0 <= j < |qs| ==> WellFormed(qs[j])
      requires AllAnswers(qs[..i], segs)
      requires if IsQuery(qs[i]) then Answers(qs[i], seg) else seg == []
      ensures AllAnswers(qs[..i + 1], segs + [seg])
    {
      assert qs[..i + 1][..i] == qs[..i] && qs[..i + 1][i] == qs[i];
      assert forall j :: 0 <= j < i ==> qs[..i + 1][j] == qs[..i][j];
    }

    lemma MutationResultsSnoc(qs: seq<Value>, i: nat)
      requires i < |qs| && forall j :: 0 <= j < |qs| ==> WellFormed(qs[j])
      ensures MutationResults(qs[..i + 1]) ==
        if ShapeOf(qs[i]) == MutationShaped then
          MutationResults(qs[..i])[qs[i].items[0].name := InvokeMutatorFunc(qs[i].items[0].name, qs[i].items[1])]
        else MutationResults(qs[..i])
    {
      assert qs[..i + 1][..i] == qs[..i] && qs[..i + 1][i] == qs[i];
    }

    /** The `/api` handler on the decoder's outcome. A decode error is 400;
        otherwise every entry is dispatched in order (`Dispatch`) and the
        container that was allocated is rendered with 200. Without a
        container the answer is 400. `segs` gives, per entry, the entries it
        appended. */
    method Api(decoded: Result<Value>) returns (resp: Response, ghost segs: seq<seq<(Value, Value)>>)
      requires decoded.Ok? ==> decoded.value.Arr? && Dispatchable(decoded.value.elems)
      ensures decoded.Err? ==> resp == BadRequest(400)
      ensures decoded.Ok? ==>
        var qs := decoded.value.elems;
        && |segs| == |qs|
        && (forall i :: 0 <= i < |qs| ==> (if IsQuery(qs[i]) then Answers(qs[i], segs[i]) else segs[i] == []))
        && ((exists i :: 0 <= i < |qs| && IsQuery(qs[i])) ==> resp == Rendered(200, Entries(Concat(segs))))
        && ((exists i :: 0 <= i < |qs| && ShapeOf(qs[i]) == MutationShaped) ==>
              resp == Rendered(200, BySymbol(MutationResults(qs))))
        && ((forall i :: 0 <= i < |qs| ==> ShapeOf(qs[i]) == Unknown) ==> resp == BadRequest(400))
    {
      if decoded.Err? {
        return BadRequest(400), [];
      }
      var req := decoded.value.elems;
      var cm, sm;
      cm, sm, segs := Dispatch(req);
      if cm != null {
        resp := Rendered(200, Entries(cm.entries));
      } else if sm != null {
        resp := Rendered(200, BySymbol(sm.m));
      } else {
        resp := BadRequest(400);
      }
    }

    /** The loop of `/api` over the decoded entries: query-shaped entries
        append to one CMap and mutation lists write into one symbol map, each
        allocated by the first entry that needs it; entries of any other
        shape are skipped. */
    method Dispatch(req: seq<Value>) returns (cm: ResultCMap?, sm: ResultSymMap?, ghost segs: seq<seq<(Value, Value)>>)
      requires Dispatchable(req)
      ensures |segs| == |req|
      ensures forall j :: 0 <= j < |req| ==> (if IsQuery(req[j]) then Answers(req[j], segs[j]) else segs[j] == [])
      ensures cm != null <==> exists j :: 0 <= j < |req| && IsQuery(req[j])
      ensures sm != null <==> exists j :: 0 <= j < |req| && ShapeOf(req[j]) == MutationShaped
      ensures cm != null ==> fresh(cm) && cm.entries == Concat(segs)
      ensures sm != null ==> fresh(sm) && sm.m == MutationResults(req)
    {
      cm, sm, segs := null, null, [];
      for i := 0 to |req|
        invariant DispatchedUpTo(req, i, cm, sm, segs)
        invariant cm != null ==> fresh(cm)
        invariant sm != null ==> fresh(sm)
      {
        cm, sm, segs := DispatchRound(req, i, cm, sm, segs);
      }
      TakeAll(req);
    }

    /** The state of the `/api` loop after the first i entries. */
    ghost predicate DispatchedUpTo(req: seq<Value>, i: nat, cm: ResultCMap?, sm: ResultSymMap?, segs: seq<seq<(Value, Value)>>)
      reads this, cm, sm
      requires Dispatchable(req) && i <= |req|
    {
      && |segs| == i
      && AllAnswers(req[..i], segs)
      && (cm != null <==> exists j :: 0 <= j < i && IsQuery(req[j]))
      && (sm != null <==> exists j :: 0 <= j < i && ShapeOf(req[j]) == MutationShaped)
      && (cm != null ==> cm.entries == Concat(segs))
      && (sm != null ==> sm.m == MutationResults(req[..i]))
      && (cm == null ==> Concat(segs) == [])
      && (sm == null ==> MutationResults(req[..i]) == map[])
    }

    /** Round i of the `/api` loop. */
    method DispatchRound(req: seq<Value>, i: nat, cm: ResultCMap?, sm: ResultSymMap?, ghost segs: seq<seq<(Value, Value)>>)
      returns (cm': ResultCMap?, sm': ResultSymMap?, ghost segs': seq<seq<(Value, Value)>>)
      requires Dispatchable(req) && i < |req|
      requires DispatchedUpTo(req, i, cm, sm, segs)
      modifies cm, sm
      ensures DispatchedUpTo(req, i + 1, cm', sm', segs')
      ensures cm' == cm || (cm == null && fresh(cm'))
      ensures sm' == sm || (sm == null && fresh(sm'))
    {
      ghost var seg;
      MutationResultsSnoc(req, i);
      TakeTake(req, i);
      cm', sm', seg := DispatchEntry(req[i], cm, sm);
      AllAnswersSnoc(req, i, segs, seg);
      ConcatAppend(segs, seg);
      segs' := segs + [seg];
    }
  }

  // ---------------------------------------------------------------- single-page application

  const AssetDirs: set<string> := {"js", "css", "img", "fonts"}

  /** `./assets/index.html` */
  const IndexFile: string := "./assets/index.html"

  /** The file the SPA handler serves for the `*id` parameter: the index file
      for an empty id, `./assets` + id when the segment after the first '/'
      names an asset directory, and the index file otherwise. An id with no
      '/' at all would make `Split(id, '/')[1]` fail. */
  function SPAFile(id: string, indexFile: string): (r: string)
    requires id == "" || '/' in id
    ensures id == "" ==> r == indexFile
  {
    if id == "" then indexFile
    else
      assert |Split(id, '/')| >= 2 by {
        var i := FirstIndex(id, '/');
      }
      if Split(id, '/')[1] in AssetDirs then "./assets" + id else indexFile
  }

  /** An id of the form `/<dir>/<rest>` is answered from `./assets` when
      `<dir>` names an asset directory, and with the index file otherwise. */
  lemma SPAFileAssets(dir: string, rest: string, indexFile: string)
    requires '/' !in dir
    ensures var id := "/" + dir + "/" + rest;
      SPAFile(id, indexFile) == (if dir in AssetDirs then "./assets" + id else indexFile)
  {
    SplitSecond(dir, rest);
  }

  /** The piece after the leading separator of `/<dir>/<rest>` is `<dir>`. */
  lemma SplitSecond(dir: string, rest: string)
    requires '/' !in dir
    ensures var id := "/" + dir + "/" + rest;
      '/' in id && |Split(id, '/')| >= 2 && Split(id, '/')[1] == dir
  {
    var id := "/" + dir + "/" + rest;
    var tail := dir + "/" + rest;
    AppendAssoc("/", dir, "/");
    AppendAssoc("/", dir + "/", rest);
    assert id == "/" + tail;
    assert "" + "/" == "/";
    SplitAfter("", '/', tail);
    SplitAfter(dir, '/', rest);
    assert id[0] == '/';
  }

  /** The served file is either the index file or `./assets` + id, and the
      latter exactly when the second piece of the id names an asset directory. */
  lemma SPAFileChoices(id: string, indexFile: string)
    requires id == "" || '/' in id
    requires indexFile != "./assets" + id
    ensures SPAFile(id, indexFile) == "./assets" + id <==> (id != "" && Split(id, '/')[1] in AssetDirs)
    ensures SPAFile(id, indexFile) != "./assets" + id ==> SPAFile(id, indexFile) == indexFile
  {
    if id != "" {
      var i := FirstIndex(id, '/');
    }
  }
}
