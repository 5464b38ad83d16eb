/** Concatenation of a sequence of sequences, and where its pieces land. */
module Seqs {

  function Concat<T>(xss: seq<seq<T>>): seq<T>
    decreases |xss|
  {
    if xss == [] then [] else Concat(xss[..|xss| - 1]) + xss[|xss| - 1]
  }

  lemma ConcatAppend<T>(xss: seq<seq<T>>, xs: seq<T>)
    ensures Concat(xss + [xs]) == Concat(xss) + xs
  {
    assert (xss + [xs])[..|xss|] == xss;
  }

  lemma ConcatSnoc<T>(xss: seq<seq<T>>, c: nat)
    requires c < |xss|
    ensures Concat(xss[..c + 1]) == Concat(xss[..c]) + xss[c]
  {
    assert xss[..c + 1][..c] == xss[..c];
  }

  lemma {:induction false} ConcatCons<T>(xs: seq<T>, xss: seq<seq<T>>)
    ensures Concat([xs] + xss) == xs + Concat(xss)
    decreases |xss|
  {
    if xss == [] {
      assert [xs] + xss == [xs];
      assert [xs][..0] == [];
    } else {
      var init, last := xss[..|xss| - 1], xss[|xss| - 1];
      ConcatCons(xs, init);
      var ys := [xs] + xss;
      assert ys[..|ys| - 1] == [xs] + init && ys[|ys| - 1] == last;
      calc {
        Concat(ys);
        Concat([xs] + init) + last;
        xs + Concat(init) + last;
        xs + Concat(xss);
      }
    }
  }

  lemma {:induction false} ConcatGrows<T>(xss: seq<seq<T>>, c: nat)
    requires c <= |xss|
    ensures |Concat(xss[..c])| <= |Concat(xss)|
    decreases |xss| - c
  {
    if c < |xss| {
      ConcatGrows(xss, c + 1);
      ConcatSnoc(xss, c);
    } else {
      assert xss[..c] == xss;
    }
  }

  /** Element i of piece c sits right after the pieces before c. */
  lemma {:induction false} ConcatAt<T>(xss: seq<seq<T>>, c: nat, i: nat)
    requires c < |xss| && i < |xss[c]|
    ensures |Concat(xss[..c])| + i < |Concat(xss)|
    ensures Concat(xss)[|Concat(xss[..c])| + i] == xss[c][i]
    decreases |xss|
  {
    var last := |xss| - 1;
    ConcatSnoc(xss, last);
    assert xss[..last + 1] == xss;
    if c < last {
      var init := xss[..last];
      assert init[c] == xss[c] && init[..c] == xss[..c];
      ConcatAt(init, c, i);
    }
  }

  /** The position of the first occurrence of `x` in `s`. */
  function FirstIndex<T(==)>(s: seq<T>, x: T): (i: nat)
    requires x in s
    ensures i < |s| && s[i] == x && x !in s[..i]
  {
    if s[0] == x then 0
    else
      assert x in s[1..] by {
        var k :| 0 <= k < |s| && s[k] == x;
        assert s[1..][k - 1] == x;
      }
      var j := FirstIndex(s[1..], x);
      assert s[..j + 1] == [s[0]] + s[1..][..j];
      j + 1
  }

  /** In `a + [x] + b` with no `x` in `a`, the first `x` is the one after `a`. */
  lemma FirstIndexAfter<T>(a: seq<T>, x: T, b: seq<T>)
    requires x !in a
    ensures FirstIndex(a + [x] + b, x) == |a|
  {
    var s := a + [x] + b;
    assert s[|a|] == x;
  }

  /** The map after writing `vals[i]` under `keys[i]` for i = 0, 1, ... in turn. */
  function Put<K, V>(m: map<K, V>, keys: seq<K>, vals: seq<V>): map<K, V>
    requires |keys| == |vals|
    decreases |keys|
  {
    if keys == [] then m
    else Put(m, keys[..|keys| - 1], vals[..|vals| - 1])[keys[|keys| - 1] := vals[|vals| - 1]]
  }

  lemma PutSnoc<K, V>(m: map<K, V>, keys: seq<K>, vals: seq<V>, n: nat)
    requires |keys| == |vals| && n < |keys|
    ensures Put(m, keys[..n + 1], vals[..n + 1]) == Put(m, keys[..n], vals[..n])[keys[n] := vals[n]]
  {
    assert keys[..n + 1][..n] == keys[..n];
    assert vals[..n + 1][..n] == vals[..n];
  }

  predicate Unique<T(==)>(s: seq<T>) {
    forall i, j :: 0 <= i < j < |s| ==> s[i] != s[j]
  }

  /** With no key written twice, key i ends up holding value i. */
  lemma {:induction false} PutAt<K, V>(m: map<K, V>, keys: seq<K>, vals: seq<V>, i: nat)
    requires |keys| == |vals| && i < |keys| && Unique(keys)
    ensures keys[i] in Put(m, keys, vals) && Put(m, keys, vals)[keys[i]] == vals[i]
    decreases |keys|
  {
    var n := |keys| - 1;
    if i < n {
      assert Unique(keys[..n]);
      PutAt(m, keys[..n], vals[..n], i);
    }
  }

  /** A key not written keeps its old entry, or stays absent. */
  lemma {:induction false} PutOff<K, V>(m: map<K, V>, keys: seq<K>, vals: seq<V>, k: K)
    requires |keys| == |vals| && k !in keys
    ensures k in Put(m, keys, vals) <==> k in m
    ensures k in m ==> Put(m, keys, vals)[k] == m[k]
    decreases |keys|
  {
    if keys != [] {
      var n := |keys| - 1;
      assert k !in keys[..n];
      PutOff(m, keys[..n], vals[..n], k);
    }
  }

  /** The keys afterwards are the old ones and the written ones. */
  lemma {:induction false} PutKeys<K, V>(m: map<K, V>, keys: seq<K>, vals: seq<V>)
    requires |keys| == |vals|
    ensures Put(m, keys, vals).Keys == m.Keys + (set k | k in keys)
    decreases |keys|
  {
    if keys != [] {
      var n := |keys| - 1;
      PutKeys(m, keys[..n], vals[..n]);
      assert keys == keys[..n] + [keys[n]];
    }
  }

  /** Writing the next element over an untouched remainder extends the
      finished prefix by one. */
  lemma UpdateNext<T>(cur: seq<T>, orig: seq<T>, done: seq<T>, x: T)
    requires |done| < |orig| && cur == done + orig[|done|..]
    ensures cur[|done| := x] == (done + [x]) + orig[|done| + 1..]
  {
    assert orig[|done|..] == [orig[|done|]] + orig[|done| + 1..];
  }

  lemma TakeTake<T>(s: seq<T>, i: nat)
    requires i < |s|
    ensures s[..i + 1][..i] == s[..i] && s[..i + 1][i] == s[i]
  {
  }

  lemma TakeAll<T>(s: seq<T>)
    ensures s[..|s|] == s && s[|s|..] == []
  {
  }

  lemma TakeIndex<T>(s: seq<T>, n: nat, i: nat)
    requires i < n <= |s|
    ensures s[..n][i] == s[i]
  {
  }

  lemma AppendIndex<T>(a: seq<T>, b: seq<T>, i: nat)
    requires i < |a|
    ensures (a + b)[i] == a[i]
  {
  }

  /** Prefix i + 1 of `xs` after `done` is prefix i after `done`, then element i. */
  lemma ExtendPrefix<T>(done: seq<T>, xs: seq<T>, i: nat)
    requires i < |xs|
    ensures done + xs[..i + 1] == (done + xs[..i]) + [xs[i]]
  {
    assert xs[..i + 1] == xs[..i] + [xs[i]];
  }

  /** `a[i] := x`, stated on the array's contents. */
  method Write<T>(a: array<T>, i: nat, x: T)
    requires i < a.Length
    modifies a
    ensures a[..] == old(a[..])[i := x]
    ensures a[..i + 1] == old(a[..i]) + [x]
  {
    a[i] := x;
  }

  lemma AppendAssoc<T>(a: seq<T>, b: seq<T>, c: seq<T>)
    ensures (a + b) + c == a + (b + c)
  {
  }

  /** `strings.Split(s, sep)` for a one-element separator: the pieces
      between separators, n separators giving n + 1 pieces. */
  function Split<T(==)>(s: seq<T>, sep: T): (r: seq<seq<T>>)
    ensures |r| >= 1
    decreases |s|
  {
    if sep !in s then [s]
    else
      var i := FirstIndex(s, sep);
      [s[..i]] + Split(s[i + 1..], sep)
  }

  /** No piece holds a separator. */
  lemma {:induction false} SplitPieces<T>(s: seq<T>, sep: T)
    ensures forall i :: 0 <= i < |Split(s, sep)| ==> sep !in Split(s, sep)[i]
    decreases |s|
  {
    if sep in s {
      var i := FirstIndex(s, sep);
      SplitPieces(s[i + 1..], sep);
    }
  }

  /** `strings.Join(pieces, sep)` */
  function Join<T>(pieces: seq<seq<T>>, sep: T): seq<T>
    requires |pieces| >= 1
    decreases |pieces|
  {
    if |pieces| == 1 then pieces[0] else pieces[0] + [sep] + Join(pieces[1..], sep)
  }

  /** Splitting loses nothing: joining the pieces gives the text back. */
  lemma {:induction false} SplitJoin<T>(s: seq<T>, sep: T)
    ensures Join(Split(s, sep), sep) == s
    decreases |s|
  {
    if sep in s {
      var i := FirstIndex(s, sep);
      var rest := s[i + 1..];
      SplitJoin(rest, sep);
      assert Split(s, sep) == [s[..i]] + Split(rest, sep);
      JoinCons(s[..i], Split(rest, sep), sep);
      Around(s, i);
    }
  }

  /** A sequence is what comes before position i, element i, and what follows. */
  lemma Around<T>(s: seq<T>, i: nat)
    requires i < |s|
    ensures s == s[..i] + [s[i]] + s[i + 1..]
  {
  }

  lemma JoinCons<T>(a: seq<T>, ps: seq<seq<T>>, sep: T)
    requires |ps| >= 1
    ensures Join([a] + ps, sep) == a + [sep] + Join(ps, sep)
  {
    var qs := [a] + ps;
    assert qs[0] == a && qs[1..] == ps;
  }

  /** A text with one separator more splits into one piece more. */
  lemma SplitAfter<T>(a: seq<T>, sep: T, b: seq<T>)
    requires sep !in a
    ensures Split(a + [sep] + b, sep) == [a] + Split(b, sep)
  {
    var s := a + [sep] + b;
    FirstIndexAfter(a, sep, b);
    assert s[..|a|] == a && s[|a| + 1..] == b;
  }
}
