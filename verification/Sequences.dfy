/** Taking sequences apart and putting them together. */
module Sequences {
  lemma Associate<T>(a: seq<T>, b: seq<T>, c: seq<T>)
    ensures (a + b) + c == a + (b + c)
  {}

  /** One piece moved from what is left to what is done. */
  lemma Progress<T>(whole: seq<T>, done: seq<T>, left: seq<T>, piece: seq<T>, after: seq<T>)
    requires done + left == whole && left == piece + after
    ensures (done + piece) + after == whole
  {
    Associate(done, piece, after);
  }

  lemma DropAgain<T>(s: seq<T>, i: nat, n: nat)
    requires i + n <= |s|
    ensures s[i..][n..] == s[i + n..]
  {}

  lemma DropFirst<T>(a: seq<T>, b: seq<T>)
    ensures (a + b)[|a|..] == b
  {}

  lemma Rejoin<T>(s: seq<T>, n: nat)
    requires n <= |s|
    ensures s[..n] + s[n..] == s
  {}

  lemma Cancel<T>(a: seq<T>, b: seq<T>, c: seq<T>)
    ensures a + b == a + c <==> b == c
  {
    if a + b == a + c {
      assert b == (a + b)[|a|..] == (a + c)[|a|..] == c;
    }
  }

  lemma SplitPrefix<T>(a: seq<T>, b: seq<T>, c: seq<T>, d: seq<T>)
    requires a + b <= c + d && |a| == |c|
    ensures a == c && b <= d
  {
    assert a == (a + b)[..|a|] == (c + d)[..|a|] == c;
    assert b == (a + b)[|a|..] && d == (c + d)[|a|..];
  }

  lemma JoinPrefix<T>(a: seq<T>, b: seq<T>, w: nat)
    requires w <= |a| && w <= |b| && a[..w] == b[..w] && a[w..] <= b[w..]
    ensures a <= b
  {
    assert a == a[..w] + a[w..] && b == b[..w] + b[w..];
  }

  lemma TakeDrop<T>(s: seq<T>, i: nat, n: nat)
    requires n <= i <= |s|
    ensures s[..i][n..] == s[n..][..i - n] && s[n..][i - n..] == s[i..]
  {}

  lemma DropPast<T>(a: seq<T>, b: seq<T>, k: nat)
    requires k < |a + b|
    ensures if k < |a| then (a + b)[k] == a[k] else (a + b)[k] == b[k - |a|] && (a + b)[k..] == b[k - |a|..]
  {}

  lemma TakeGrows<T>(a: seq<T>, b: seq<T>, n: nat)
    requires n < |a| && n < |b| && a[..n] == b[..n] && a[n] == b[n]
    ensures a[..n + 1] == b[..n + 1]
  {
    assert a[..n + 1] == a[..n] + [a[n]] && b[..n + 1] == b[..n] + [b[n]];
  }

  lemma TakeAll<T>(a: seq<T>, b: seq<T>, n: nat)
    requires |a| == |b| == n && a[..n] == b[..n]
    ensures a == b
  {
    assert a == a[..n] && b == b[..n];
  }

  lemma TakeOneMore<T>(a: seq<T>, b: seq<T>, i: nat)
    requires i < |b|
    ensures (a + b[..i]) + [b[i]] == a + b[..i + 1]
  {}

  function Flatten<T>(buffers: seq<seq<T>>): seq<T>
  {
    if buffers == [] then [] else Flatten(buffers[..|buffers| - 1]) + buffers[|buffers| - 1]
  }

  lemma FlattenBack<T>(buffers: seq<seq<T>>, n: nat)
    requires n < |buffers|
    ensures Flatten(buffers[..n + 1]) == Flatten(buffers[..n]) + buffers[n]
    ensures buffers[n][..|buffers[n]|] == buffers[n]
  {
    assert buffers[..n + 1][..n] == buffers[..n];
  }

  lemma {:induction false} FlattenFront<T>(first: seq<T>, rest: seq<seq<T>>)
    ensures Flatten([first] + rest) == first + Flatten(rest)
  {
    var all := [first] + rest;
    if rest == [] {
      assert all[..0] == [];
    } else {
      assert all[..|all| - 1] == [first] + rest[..|rest| - 1];
      FlattenFront(first, rest[..|rest| - 1]);
    }
  }

  lemma FlattenMore<T>(rows: seq<seq<T>>, row: seq<T>)
    ensures Flatten(rows + [row]) == Flatten(rows) + row
  {
    assert (rows + [row])[..|rows|] == rows;
  }

  lemma TakeMore<T>(s: seq<T>, a: nat, b: nat)
    requires a <= b <= |s|
    ensures s[..a] + s[a..b] == s[..b]
  {}

  lemma Relast<T>(s: seq<T>)
    requires s != []
    ensures s[..|s| - 1] + [s[|s| - 1]] == s
  {}
}
