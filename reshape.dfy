/** The two in-place reshapings of internal/edgex/services.go applied to
    lists of JSON objects before they are sent to the UI: `applyGets`, which
    turns each device command into one row per reading its GET returns, and
    `addDefault`, which fills absent or null fields of schedules with 0. */
module EdgexReshape {
  import opened Wrappers
  import opened FulcroValues
  import opened Seqs

  // ---------------------------------------------------------------- [2]string and [][2]string

  /** A `[2]string{name, value}` as a value. */
  function PairValue(p: (string, string)): Value {
    Arr([Str(p.0), Str(p.1)])
  }

  /** A `[][2]string` as a value. */
  function PairsValue(ps: seq<(string, string)>): (r: Value)
    ensures r.Arr? && |r.elems| == |ps|
    ensures forall i :: 0 <= i < |ps| ==> r.elems[i] == PairValue(ps[i])
  {
    Arr(seq(|ps|, i requires 0 <= i < |ps| => PairValue(ps[i])))
  }

  function AsPair(v: Value): (r: Option<(string, string)>)
    ensures r.Some? ==> v == PairValue(r.value)
  {
    if v.Arr? && |v.elems| == 2 && v.elems[0].Str? && v.elems[1].Str? then
      assert v.elems == [v.elems[0], v.elems[1]];
      Some((v.elems[0].s, v.elems[1].s))
    else None
  }

  /** `value.([][2]string)`: the pairs a value holds, if it holds pairs. */
  function AsPairs(v: Value): (r: Option<seq<(string, string)>>)
    ensures r.Some? ==> v == PairsValue(r.value)
  {
    if v.Arr? && forall i :: 0 <= i < |v.elems| ==> AsPair(v.elems[i]).Some? then
      var ps := seq(|v.elems|, i requires 0 <= i < |v.elems| => AsPair(v.elems[i]).value);
      assert PairsValue(ps).elems == v.elems;
      Some(ps)
    else None
  }

  /** Reading pairs back gives exactly the pairs stored. */
  lemma PairsRoundTrip(ps: seq<(string, string)>)
    ensures AsPairs(PairsValue(ps)) == Some(ps)
  {
    var v := PairsValue(ps);
    forall i | 0 <= i < |ps| ensures AsPair(v.elems[i]) == Some(ps[i]) {
      assert PairValue(ps[i]).elems == [Str(ps[i].0), Str(ps[i].1)];
    }
    var back := seq(|v.elems|, i requires 0 <= i < |v.elems| => AsPair(v.elems[i]).value);
    assert back == ps;
  }

  // ---------------------------------------------------------------- applyGets, first pass

  /** A command whose `get` object carries a non-null `responses`. */
  predicate HasResponses(cmd: Record) {
    "get" in cmd && cmd["get"].SMap? && "responses" in cmd["get"].fields && cmd["get"].fields["responses"] != Nil
  }

  /** What the first pass demands of a command so that no type assertion
      fails: `get`, when present, is an object, and a command without
      responses has a string `name`. */
  predicate Shaped(cmd: Record) {
    && ("get" in cmd ==> cmd["get"].SMap?)
    && (!HasResponses(cmd) ==> "name" in cmd && cmd["name"].Str?)
  }

  /** The readings of a command: what its GET returns, or the single
      placeholder `[name, "N/A"]` when it has nothing to ask. */
  function Values(cmd: Record, doGet: Value -> seq<(string, string)>): (r: seq<(string, string)>)
    requires Shaped(cmd)
    ensures HasResponses(cmd) ==> r == doGet(cmd["get"])
    ensures !HasResponses(cmd) ==> r == [(cmd["name"].s, "N/A")]
  {
    if HasResponses(cmd) then doGet(cmd["get"]) else [(cmd["name"].s, "N/A")]
  }

  /** A command after the first pass: `get` deleted and `value` set to its readings. */
  function Normalised(cmd: Record, doGet: Value -> seq<(string, string)>): (r: Record)
    requires Shaped(cmd)
    ensures "get" !in r && "value" in r
  {
    (cmd - {"get"})["value" := PairsValue(Values(cmd, doGet))]
  }

  /** A normalised command holds its readings under `value`, in a form they
      can be read back from; nothing but `get` and `value` is touched. */
  lemma NormalisedFields(cmd: Record, doGet: Value -> seq<(string, string)>)
    requires Shaped(cmd)
    ensures var r := Normalised(cmd, doGet);
      && PairsOf(r) == Values(cmd, doGet)
      && r.Keys == cmd.Keys - {"get"} + {"value"}
      && forall k :: k in cmd && k != "get" && k != "value" ==> r[k] == cmd[k]
  {
    PairsRoundTrip(Values(cmd, doGet));
  }

  function NormalisedAll(cmds: seq<Record>, doGet: Value -> seq<(string, string)>): (r: seq<Record>)
    requires forall i :: 0 <= i < |cmds| ==> Shaped(cmds[i])
    ensures |r| == |cmds|
    decreases |cmds|
  {
    if cmds == [] then []
    else NormalisedAll(cmds[..|cmds| - 1], doGet) + [Normalised(cmds[|cmds| - 1], doGet)]
  }

  /** Command i of the first pass's output is command i normalised. */
  lemma {:induction false} NormalisedAllAt(cmds: seq<Record>, doGet: Value -> seq<(string, string)>, i: nat)
    requires forall j :: 0 <= j < |cmds| ==> Shaped(cmds[j])
    requires i < |cmds|
    ensures NormalisedAll(cmds, doGet)[i] == Normalised(cmds[i], doGet)
    decreases |cmds|
  {
    var n := |cmds| - 1;
    var init := NormalisedAll(cmds[..n], doGet);
    assert NormalisedAll(cmds, doGet) == init + [Normalised(cmds[n], doGet)];
    if i < n {
      NormalisedAllAt(cmds[..n], doGet, i);
      TakeIndex(cmds, n, i);
      AppendIndex(init, [Normalised(cmds[n], doGet)], i);
    }
  }

  /** The `count` of the first pass: all readings of all commands. */
  function Count(cmds: seq<Record>, doGet: Value -> seq<(string, string)>): nat
    requires forall i :: 0 <= i < |cmds| ==> Shaped(cmds[i])
    decreases |cmds|
  {
    if cmds == [] then 0 else Count(cmds[..|cmds| - 1], doGet) + |Values(cmds[|cmds| - 1], doGet)|
  }

  // ---------------------------------------------------------------- applyGets, second pass

  /** The readings a normalised command holds in `value` (none if it holds
      anything else). */
  function PairsOf(cmd: Record): seq<(string, string)> {
    if "value" in cmd then
      match AsPairs(cmd["value"])
      case Some(ps) => ps
      case None => []
    else []
  }

  /** The row for reading i of a command: a copy of the command with `value`
      the reading, `pos` its index and `size` the number of readings. */
  function Row(cmd: Record, ps: seq<(string, string)>, i: nat): Record
    requires i < |ps|
  {
    cmd["value" := PairValue(ps[i])]["pos" := Int(i)]["size" := Int(|ps|)]
  }

  /** A row has the command's fields plus `value`, `pos` and `size`, which
      hold the reading, its index and the number of readings. */
  lemma RowFields(cmd: Record, ps: seq<(string, string)>, i: nat)
    requires i < |ps|
    ensures var r := Row(cmd, ps, i);
      && r.Keys == cmd.Keys + {"value", "pos", "size"}
      && r["value"] == PairValue(ps[i]) && r["pos"] == Int(i) && r["size"] == Int(|ps|)
      && forall k :: k in cmd && k != "value" && k != "pos" && k != "size" ==> r[k] == cmd[k]
  {
  }

  function Rows(cmd: Record): (r: seq<Record>)
    ensures |r| == |PairsOf(cmd)|
  {
    seq(|PairsOf(cmd)|, i requires 0 <= i < |PairsOf(cmd)| => Row(cmd, PairsOf(cmd), i))
  }

  /** The rows of every command, in command order. */
  function RowsOf(cmds: seq<Record>): (r: seq<seq<Record>>)
    ensures |r| == |cmds|
  {
    seq(|cmds|, c requires 0 <= c < |cmds| => Rows(cmds[c]))
  }

  /** All rows, command after command. */
  function Expand(cmds: seq<Record>): seq<Record> {
    Concat(RowsOf(cmds))
  }

  /** The row count the first pass computes is the number of rows the second
      pass writes: the result slice is filled exactly. */
  lemma {:induction false} CountIsRows(cmds: seq<Record>, doGet: Value -> seq<(string, string)>)
    requires forall i :: 0 <= i < |cmds| ==> Shaped(cmds[i])
    ensures |Expand(NormalisedAll(cmds, doGet))| == Count(cmds, doGet)
    decreases |cmds|
  {
    if cmds != [] {
      var init := cmds[..|cmds| - 1];
      CountIsRows(init, doGet);
      var xss := RowsOf(NormalisedAll(cmds, doGet));
      assert xss[..|cmds| - 1] == RowsOf(NormalisedAll(init, doGet));
      NormalisedFields(cmds[|cmds| - 1], doGet);
      assert |xss[|cmds| - 1]| == |Values(cmds[|cmds| - 1], doGet)|;
    }
  }

  /** Where a command's rows start in the result. */
  function Offset(cmds: seq<Record>, c: nat): nat
    requires c <= |cmds|
  {
    |Concat(RowsOf(cmds)[..c])|
  }

  /** Row i of command c sits at `Offset(cmds, c) + i`: the rows of one
      command are contiguous, in reading order, and follow those of the
      commands before it. */
  lemma ExpandAt(cmds: seq<Record>, c: nat, i: nat)
    requires c < |cmds| && i < |PairsOf(cmds[c])|
    ensures Offset(cmds, c) + i < |Expand(cmds)|
    ensures Expand(cmds)[Offset(cmds, c) + i] == Row(cmds[c], PairsOf(cmds[c]), i)
  {
    var xss := RowsOf(cmds);
    ConcatAt(xss, c, i);
    assert Offset(cmds, c) == |Concat(xss[..c])|;
    assert Expand(cmds) == Concat(xss);
    assert xss[c] == Rows(cmds[c]);
    assert xss[c][i] == Row(cmds[c], PairsOf(cmds[c]), i);
  }

  /** A command without responses is normalised to the single reading
      `[name, "N/A"]`, whose row holds that reading at position 0 of 1. */
  lemma PlaceholderFields(cmd: Record, doGet: Value -> seq<(string, string)>)
    requires Shaped(cmd) && !HasResponses(cmd)
    ensures var n := Normalised(cmd, doGet);
      && |PairsOf(n)| == 1
      && var row := Row(n, PairsOf(n), 0);
      && "value" in row && "pos" in row && "size" in row
      && row["value"] == PairValue((cmd["name"].s, "N/A"))
      && row["pos"] == Int(0) && row["size"] == Int(1)
      && "get" !in row
  {
    var n := Normalised(cmd, doGet);
    NormalisedFields(cmd, doGet);
    var ps := PairsOf(n);
    assert ps == [(cmd["name"].s, "N/A")];
    RowFields(n, ps, 0);
  }

  /** A command without responses becomes exactly one row: its name with
      "N/A", at position 0 of 1. */
  lemma PlaceholderRow(cmds: seq<Record>, doGet: Value -> seq<(string, string)>, c: nat)
    requires forall i :: 0 <= i < |cmds| ==> Shaped(cmds[i])
    requires c < |cmds| && !HasResponses(cmds[c])
    ensures var rows := Expand(NormalisedAll(cmds, doGet));
      var at := Offset(NormalisedAll(cmds, doGet), c);
      && at < |rows|
      && "value" in rows[at] && "pos" in rows[at] && "size" in rows[at]
      && rows[at]["value"] == PairValue((cmds[c]["name"].s, "N/A"))
      && rows[at]["pos"] == Int(0) && rows[at]["size"] == Int(1)
      && "get" !in rows[at]
  {
    var n := NormalisedAll(cmds, doGet);
    NormalisedAllAt(cmds, doGet, c);
    PlaceholderFields(cmds[c], doGet);
    ExpandAt(n, c, 0);
  }

  /** applyGets: normalises every command in place, then writes one row per
      reading into a fresh result of the counted size. `doGet` stands for the
      HTTP GET of the command's URL and the decoding of its readings. */
  method ApplyGets(commands: array<Record>, doGet: Value -> seq<(string, string)>) returns (rows: array<Record>)
    requires forall i :: 0 <= i < commands.Length ==> Shaped(commands[i])
    modifies commands
    ensures commands[..] == NormalisedAll(old(commands[..]), doGet)
    ensures fresh(rows) && rows[..] == Expand(commands[..])
  {
    ghost var orig := commands[..];
    var count := NormaliseCommands(commands, doGet);
    CountIsRows(orig, doGet);
    rows := WriteRows(commands, count);
  }

  /** The first loop of applyGets: deletes `get`, stores the readings under
      `value`, and counts them. */
  method NormaliseCommands(commands: array<Record>, doGet: Value -> seq<(string, string)>) returns (count: nat)
    requires forall i :: 0 <= i < commands.Length ==> Shaped(commands[i])
    modifies commands
    ensures commands[..] == NormalisedAll(old(commands[..]), doGet)
    ensures count == Count(old(commands[..]), doGet)
  {
    ghost var orig := commands[..];
    count := 0;
    for i := 0 to commands.Length
      invariant commands[..] == NormalisedAll(orig[..i], doGet) + orig[i..]
      invariant count == Count(orig[..i], doGet)
    {
      var n := NormaliseAt(commands, doGet, orig, i);
      count := count + n;
    }
    TakeAll(orig);
  }

  /** Round i of the first loop: command i is normalised in place and its
      readings are counted. */
  method NormaliseAt(commands: array<Record>, doGet: Value -> seq<(string, string)>, ghost orig: seq<Record>, i: nat)
    returns (n: nat)
    requires i < |orig| && forall j :: 0 <= j < |orig| ==> Shaped(orig[j])
    requires commands[..] == NormalisedAll(orig[..i], doGet) + orig[i..]
    modifies commands
    ensures commands[..] == NormalisedAll(orig[..i + 1], doGet) + orig[i + 1..]
    ensures Count(orig[..i + 1], doGet) == Count(orig[..i], doGet) + n
  {
    ghost var before := commands[..];
    var cmd;
    cmd, n := NormaliseCommand(commands[i], doGet);
    NormalisedAllSnoc(orig, i, doGet);
    TakeTake(orig, i);
    UpdateNext(before, orig, NormalisedAll(orig[..i], doGet), cmd);
    commands[i] := cmd;
    assert commands[..] == before[i := cmd];
  }

  lemma NormalisedAllSnoc(cmds: seq<Record>, i: nat, doGet: Value -> seq<(string, string)>)
    requires i < |cmds| && forall j :: 0 <= j < |cmds| ==> Shaped(cmds[j])
    ensures NormalisedAll(cmds[..i + 1], doGet) == NormalisedAll(cmds[..i], doGet) + [Normalised(cmds[i], doGet)]
  {
    TakeTake(cmds, i);
  }

  /** One round of the first loop: the command normalised, and how many
      readings it holds. */
  method NormaliseCommand(cmd: Record, doGet: Value -> seq<(string, string)>) returns (cmd': Record, n: nat)
    requires Shaped(cmd)
    ensures cmd' == Normalised(cmd, doGet) && n == |Values(cmd, doGet)|
  {
    cmd' := cmd;
    var haveData := false;
    if "get" in cmd' {
      var get := cmd'["get"];
      cmd' := cmd' - {"get"};
      if "responses" in get.fields && get.fields["responses"] != Nil {
        var values := doGet(get);
        cmd' := cmd'["value" := PairsValue(values)];
        n := |values|;
        haveData := true;
      }
    } else {
      assert cmd' - {"get"} == cmd';
    }
    if !haveData {
      var dummy := [(cmd'["name"].s, "N/A")];
      cmd' := cmd'["value" := PairsValue(dummy)];
      n := 1;
    }
  }

  /** The second loop of applyGets: one row per reading, command after command. */
  method WriteRows(commands: array<Record>, count: nat) returns (rows: array<Record>)
    requires count == |Expand(commands[..])|
    ensures fresh(rows) && rows[..] == Expand(commands[..])
  {
    ghost var xss := RowsOf(commands[..]);
    rows := new Record[count];
    var pos := 0;
    for c := 0 to commands.Length
      invariant pos == |Concat(xss[..c])| && pos <= rows.Length
      invariant rows[..pos] == Concat(xss[..c])
    {
      ConcatSnoc(xss, c);
      ConcatGrows(xss, c + 1);
      assert xss[c] == Rows(commands[c]);
      pos := WriteCommandRows(rows, pos, commands[c]);
    }
    assert xss[..commands.Length] == xss;
  }

  /** The rows of one command, written at `pos` onwards. */
  method WriteCommandRows(rows: array<Record>, pos: nat, cmd: Record) returns (next: nat)
    requires pos + |PairsOf(cmd)| <= rows.Length
    modifies rows
    ensures next == pos + |PairsOf(cmd)|
    ensures rows[..next] == old(rows[..pos]) + Rows(cmd)
  {
    ghost var done := rows[..pos];
    ghost var all := Rows(cmd);
    var values := PairsOf(cmd);
    next := pos;
    for i := 0 to |values|
      invariant next == pos + i
      invariant rows[..next] == done + all[..i]
    {
      var row := cmd;
      row := row["value" := PairValue(values[i])];
      row := row["pos" := Int(i)];
      row := row["size" := Int(|values|)];
      assert row == all[i];
      Write(rows, next, row);
      ExtendPrefix(done, all, i);
      next := next + 1;
    }
    TakeAll(all);
  }

  // ---------------------------------------------------------------- addDefault

  /** A schedule after `addDefault`: each listed key that is absent or null
      is set to 0, in list order. */
  function WithDefaults(s: Record, keys: seq<string>): Record
    decreases |keys|
  {
    if keys == [] then s
    else
      var t := WithDefaults(s, keys[..|keys| - 1]);
      var k := keys[|keys| - 1];
      if k !in t || t[k] == Nil then t[k := Int(0)] else t
  }

  /** Listed keys end up present, keeping a non-null value and holding 0
      otherwise; every other key is untouched. */
  lemma {:induction false} DefaultsFill(s: Record, keys: seq<string>)
    ensures var r := WithDefaults(s, keys);
      && (forall k :: k in r <==> k in s || k in keys)
      && (forall k :: k in keys ==> k in r && r[k] == (if k in s && s[k] != Nil then s[k] else Int(0)))
      && (forall k :: k in s && k !in keys ==> k in r && r[k] == s[k])
    decreases |keys|
  {
    if keys != [] {
      var init := keys[..|keys| - 1];
      var key := keys[|keys| - 1];
      DefaultsFill(s, init);
      assert keys == init + [key];
      assert forall k :: k in keys <==> k in init || k == key;
    }
  }

  /** Filling twice is filling once. */
  lemma DefaultsIdempotent(s: Record, keys: seq<string>)
    ensures WithDefaults(WithDefaults(s, keys), keys) == WithDefaults(s, keys)
  {
    var r := WithDefaults(s, keys);
    DefaultsFill(s, keys);
    DefaultsFill(r, keys);
    var rr := WithDefaults(r, keys);
    assert forall k :: k in keys ==> r[k] != Nil;
    assert rr.Keys == r.Keys;
    forall k | k in r ensures rr[k] == r[k] {
    }
  }

  /** addDefault: every schedule gets the defaults, in place. */
  method AddDefault(schedules: array<Record>, keys: seq<string>)
    modifies schedules
    ensures forall i :: 0 <= i < schedules.Length ==> schedules[i] == WithDefaults(old(schedules[i]), keys)
  {
    for i := 0 to schedules.Length
      invariant forall j :: 0 <= j < i ==> schedules[j] == WithDefaults(old(schedules[j]), keys)
      invariant forall j :: i <= j < schedules.Length ==> schedules[j] == old(schedules[j])
    {
      var s := schedules[i];
      for n := 0 to |keys|
        invariant s == WithDefaults(old(schedules[i]), keys[..n])
      {
        var key := keys[n];
        assert keys[..n + 1][..n] == keys[..n];
        if key !in s || s[key] == Nil {
          s := s[key := Int(0)];
        }
      }
      assert keys[..|keys|] == keys;
      schedules[i] := s;
    }
  }
}
