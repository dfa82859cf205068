/** `strings.SplitAfter(s, "\n")` and the `insert` command of
    internal/text_edit.go, which rebuilds a file from its lines with the
    new text placed after a given line. */
module Lines {
  import opened OutputBuffers

  /** A complete line: it ends with its only `'\n'`. */
  predicate IsLine(l: seq<byte>) {
    |l| > 0 && l[|l| - 1] == Newline && Newline !in l[..|l| - 1]
  }

  /** The shape `SplitAfter` produces: complete lines, then one last piece
      without a newline (empty when the text ends with `'\n'`). */
  predicate WellFormed(ls: seq<seq<byte>>) {
    && |ls| > 0
    && (forall i :: 0 <= i < |ls| - 1 ==> IsLine(ls[i]))
    && Newline !in ls[|ls| - 1]
  }

  function NewlineCount(s: seq<byte>): nat {
    multiset(s)[Newline]
  }

  /** `strings.SplitAfter(s, "\n")`: cut after every `'\n'`, keeping it. */
  function SplitAfter(s: seq<byte>): (ls: seq<seq<byte>>)
    ensures WellFormed(ls)
    ensures Flatten(ls) == s
    decreases |s|
  {
    if s == [] then [[]]
    else
      var rest := SplitAfter(s[1..]);
      assert s == [s[0]] + s[1..];
      if s[0] == Newline then
        NewlineBeforeLines(rest);
        [[Newline]] + rest
      else
        ByteBeforeLines(s[0], rest);
        [[s[0]] + rest[0]] + rest[1..]
  }

  /** A newline on its own is a complete line in front of well-formed lines. */
  lemma {:induction false} NewlineBeforeLines(rest: seq<seq<byte>>)
    requires WellFormed(rest)
    ensures WellFormed([[Newline]] + rest)
    ensures Flatten([[Newline]] + rest) == [Newline] + Flatten(rest)
  {
    assert ([[Newline]] + rest)[1..] == rest;
  }

  /** Any other byte joins the first of well-formed lines. */
  lemma {:induction false} ByteBeforeLines(b: byte, rest: seq<seq<byte>>)
    requires b != Newline && WellFormed(rest)
    ensures WellFormed([[b] + rest[0]] + rest[1..])
    ensures Flatten([[b] + rest[0]] + rest[1..]) == [b] + Flatten(rest)
  {
    var first := [b] + rest[0];
    var ls := [first] + rest[1..];
    assert ls[1..] == rest[1..];
    assert Flatten(rest) == rest[0] + Flatten(rest[1..]);
    assert forall i :: 1 <= i < |ls| ==> ls[i] == rest[i];
    if |rest| > 1 {
      assert IsLine(rest[0]);
      assert first[..|first| - 1] == [b] + rest[0][..|rest[0]| - 1];
      assert IsLine(first);
    } else {
      assert Newline !in first;
    }
  }

  lemma {:induction false} FlattenAppend(a: seq<seq<byte>>, b: seq<seq<byte>>)
    ensures Flatten(a + b) == Flatten(a) + Flatten(b)
    decreases |a|
  {
    if a != [] {
      FlattenAppend(a[1..], b);
      assert (a + b)[0] == a[0];
      assert (a + b)[1..] == a[1..] + b;
    } else {
      assert a + b == b;
    }
  }

  lemma {:induction false} LineHasOneNewline(l: seq<byte>)
    requires IsLine(l)
    ensures NewlineCount(l) == 1
  {
    assert l == l[..|l| - 1] + [Newline];
  }

  lemma {:induction false} CountAppend(a: seq<byte>, b: seq<byte>)
    ensures NewlineCount(a + b) == NewlineCount(a) + NewlineCount(b)
  {
    assert multiset(a + b) == multiset(a) + multiset(b);
  }

  lemma {:induction false} FlattenOne(x: seq<byte>)
    ensures Flatten([x]) == x
  {
    assert [x][1..] == [];
  }

  lemma {:induction false} FlattenSnoc(a: seq<seq<byte>>, x: seq<byte>)
    ensures Flatten(a + [x]) == Flatten(a) + x
  {
    FlattenAppend(a, [x]);
    FlattenOne(x);
  }

  /** The first `n` complete lines hold `n` newlines and end with one. */
  lemma {:induction false} LinesPrefix(ls: seq<seq<byte>>, n: nat)
    requires WellFormed(ls)
    requires n < |ls|
    ensures NewlineCount(Flatten(ls[..n])) == n
    ensures n > 0 ==> |Flatten(ls[..n])| > 0 && Flatten(ls[..n])[|Flatten(ls[..n])| - 1] == Newline
  {
    if n > 0 {
      LinesPrefix(ls, n - 1);
      var l := ls[n - 1];
      assert IsLine(l);
      assert ls[..n] == ls[..n - 1] + [l];
      FlattenSnoc(ls[..n - 1], l);
      var a := Flatten(ls[..n - 1]);
      CountAppend(a, l);
      LineHasOneNewline(l);
      assert (a + l)[|a + l| - 1] == l[|l| - 1];
    } else {
      assert ls[..0] == [];
    }
  }

  /** Well-formed lines hold one newline fewer than there are pieces. */
  lemma {:induction false} LinesCount(ls: seq<seq<byte>>)
    requires WellFormed(ls)
    ensures NewlineCount(Flatten(ls)) == |ls| - 1
  {
    var n := |ls| - 1;
    var last := ls[n];
    LinesPrefix(ls, n);
    assert ls == ls[..n] + [last];
    FlattenSnoc(ls[..n], last);
    CountAppend(Flatten(ls[..n]), last);
    assert Newline !in last;
    assert multiset(last)[Newline] == 0;
  }

  /** A text has one piece more than it has newlines. */
  lemma {:induction false} SplitAfterLength(s: seq<byte>)
    ensures |SplitAfter(s)| == NewlineCount(s) + 1
  {
    LinesCount(SplitAfter(s));
  }

  lemma {:induction false} SplitAfterLine(l: seq<byte>, t: seq<byte>)
    requires IsLine(l)
    ensures SplitAfter(l + t) == [l] + SplitAfter(t)
    decreases |l|
  {
    assert (l + t)[1..] == l[1..] + t;
    if l[0] != Newline {
      assert l[1..][..|l[1..]| - 1] == l[..|l| - 1][1..];
      SplitAfterLine(l[1..], t);
      assert l == [l[0]] + l[1..];
    } else {
      assert |l| == 1;
    }
  }

  lemma {:induction false} SplitAfterLast(l: seq<byte>)
    requires Newline !in l
    ensures SplitAfter(l) == [l]
    decreases |l|
  {
    if l != [] {
      SplitAfterLast(l[1..]);
      assert l == [l[0]] + l[1..];
    }
  }

  /** `SplitAfter` inverts concatenation: joining well-formed lines and
      splitting again gives the same lines. */
  lemma {:induction false} SplitAfterFlatten(ls: seq<seq<byte>>)
    requires WellFormed(ls)
    ensures SplitAfter(Flatten(ls)) == ls
    decreases |ls|
  {
    if |ls| == 1 {
      SplitAfterLast(ls[0]);
      assert Flatten(ls) == ls[0] + Flatten([]);
    } else {
      SplitAfterFlatten(ls[1..]);
      SplitAfterLine(ls[0], Flatten(ls[1..]));
    }
  }

  /** The `insert_after` value clamped into `[0, |lines|]`. */
  function ClampIndex(after: int, count: nat): (idx: nat)
    ensures idx <= count
    ensures 0 <= after <= count ==> idx == after
  {
    if after < 0 then 0 else if after > count then count else after
  }

  /** Cutting well-formed lines at `idx`: the first part is a prefix of the
      text, and it ends just after its `idx`-th newline unless it is empty
      or holds every piece. */
  lemma {:induction false} LinesSplitAt(ls: seq<seq<byte>>, idx: nat)
    requires WellFormed(ls) && idx <= |ls|
    ensures var f := Flatten(ls[..idx]);
      && f + Flatten(ls[idx..]) == Flatten(ls)
      && |f| <= |Flatten(ls)| && Flatten(ls)[..|f|] == f
      && (idx == 0 ==> f == [])
      && (idx == |ls| ==> |f| == |Flatten(ls)|)
      && (0 < idx < |ls| ==> |f| > 0 && f[|f| - 1] == Newline && NewlineCount(f) == idx)
  {
    assert ls == ls[..idx] + ls[idx..];
    FlattenAppend(ls[..idx], ls[idx..]);
    if idx == 0 {
      assert ls[..idx] == [];
    } else if idx == |ls| {
      assert ls[idx..] == [];
    } else {
      LinesPrefix(ls, idx);
    }
  }

  /** The byte offset at which `insert` places its text: just after the
      `after`-th newline; at the start for a non-positive `after`; at the
      end when the file has fewer newlines. */
  function InsertionPoint(s: seq<byte>, after: int): (k: nat)
    ensures k <= |s|
    ensures after <= 0 ==> k == 0
    ensures after > NewlineCount(s) ==> k == |s|
    ensures 0 < after <= NewlineCount(s) ==>
      k > 0 && s[k - 1] == Newline && NewlineCount(s[..k]) == after
  {
    var ls := SplitAfter(s);
    var idx := ClampIndex(after, |ls|);
    SplitAfterLength(s);
    LinesSplitAt(ls, idx);
    |Flatten(ls[..idx])|
  }

  /** The new content built by `insert`: the lines before the clamped
      index, the text, then the remaining lines. */
  function InsertAfterLine(s: seq<byte>, after: int, text: seq<byte>): (r: seq<byte>)
    ensures |r| == |s| + |text|
    ensures var k := InsertionPoint(s, after);
      r == s[..k] + text + s[k..]
  {
    var ls := SplitAfter(s);
    var idx := ClampIndex(after, |ls|);
    LinesSplitAt(ls, idx);
    var f := Flatten(ls[..idx]);
    assert s[|f|..] == Flatten(ls[idx..]);
    f + text + Flatten(ls[idx..])
  }

  /** Removing the inserted text gives back the original file. */
  lemma {:induction false} DeleteInserted(s: seq<byte>, after: int, text: seq<byte>)
    ensures var r := InsertAfterLine(s, after, text);
      var k := InsertionPoint(s, after);
      && r[k..k + |text|] == text
      && r[..k] + r[k + |text|..] == s
  {
    var r := InsertAfterLine(s, after, text);
    var k := InsertionPoint(s, after);
    var front, back := s[..k], s[k..];
    assert r == front + text + back && |front| == k;
    assert r[..k] == front;
    assert r[k..k + |text|] == text;
    assert r[k + |text|..] == back;
    assert front + back == s;
  }

  lemma {:induction false} FlattenTwo(x: seq<byte>, y: seq<byte>)
    ensures Flatten([x, y]) == x + y
  {
    assert [x, y][1..] == [y];
    FlattenOne(y);
  }

  /** Inserting after line `n` of a text made of well-formed lines puts the
      text between the first `n` lines and the rest. */
  lemma {:induction false} InsertAfterLines(ls: seq<seq<byte>>, n: nat, text: seq<byte>)
    requires WellFormed(ls) && n < |ls|
    ensures InsertAfterLine(Flatten(ls), n, text) == Flatten(ls[..n]) + text + Flatten(ls[n..])
  {
    SplitAfterFlatten(ls);
    LinesSplitAt(ls, n);
  }

  /** Two complete lines and an empty last piece are well formed. */
  lemma {:induction false} TwoLines(l1: seq<byte>, l2: seq<byte>)
    requires IsLine(l1) && IsLine(l2)
    ensures WellFormed([l1, l2, []])
    ensures Flatten([l1, l2, []]) == l1 + l2
  {
    var ls := [l1, l2, []];
    assert ls[1..] == [l2, []];
    FlattenTwo(l2, []);
  }

  /** The insert test of internal/text_edit_test.go ("X\n" after line 1
      of "line1\nline2\n" gives "line1\nX\nline2\n"), for any two
      complete lines. */
  lemma {:induction false} InsertAfterFirstLine(l1: seq<byte>, l2: seq<byte>, text: seq<byte>)
    requires IsLine(l1) && IsLine(l2)
    ensures InsertAfterLine(l1 + l2, 1, text) == l1 + text + l2
  {
    var ls := [l1, l2, []];
    TwoLines(l1, l2);
    InsertAfterLines(ls, 1, text);
    assert ls[..1] == [l1] && ls[1..] == [l2, []];
    FlattenOne(l1);
    FlattenTwo(l2, []);
  }
}
