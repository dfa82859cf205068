/** The `str_replace` transforms of internal/text_edit.go on the matches a
    regular expression finds. The regex engine is a given function from a
    text to its matches, as `FindAllStringIndex` reports them: ordered,
    non-overlapping `[start, end)` intervals within the text. The
    replacement text is inserted literally. */
module Replace {
  import opened OutputBuffers

  /** One match, as the half-open byte interval `[start, end)`. */
  datatype Span = Span(start: nat, end: nat)

  /** `ms` are ordered, non-overlapping spans within `[from, n]`. */
  predicate ValidSpans(ms: seq<Span>, from: nat, n: nat)
    decreases |ms|
  {
    ms == [] || (from <= ms[0].start <= ms[0].end <= n && ValidSpans(ms[1..], ms[0].end, n))
  }

  /** What `FindAllStringIndex(s, -1)` returns for one fixed pattern. */
  type Matcher = m: seq<byte> -> seq<Span> | forall s :: ValidSpans(m(s), 0, |s|)
    witness (s: seq<byte>) => []

  /** The total length of the matched text. */
  function Width(ms: seq<Span>): int
    decreases |ms|
  {
    if ms == [] then 0 else ms[0].end - ms[0].start + Width(ms[1..])
  }

  /** The replacement of one match: `s[:a] + text + s[b:]`. */
  function Splice(s: seq<byte>, m: Span, text: seq<byte>): (r: seq<byte>)
    requires m.start <= m.end <= |s|
    ensures |r| == |s| + |text| - (m.end - m.start)
    ensures r[..m.start] == s[..m.start]
    ensures r[m.start..m.start + |text|] == text
    ensures r[m.start + |text|..] == s[m.end..]
  {
    s[..m.start] + text + s[m.end..]
  }

  /** Splicing the matched text back over the replacement undoes a splice. */
  lemma SpliceUndo(s: seq<byte>, m: Span, text: seq<byte>)
    requires m.start <= m.end <= |s|
    ensures Splice(Splice(s, m, text), Span(m.start, m.start + |text|), s[m.start..m.end]) == s
  {
    var r := Splice(s, m, text);
    assert s == s[..m.start] + s[m.start..m.end] + s[m.end..];
  }

  /** The text from `from` on with every match in `ms` replaced. */
  function ReplaceFrom(s: seq<byte>, ms: seq<Span>, text: seq<byte>, from: nat): (r: seq<byte>)
    requires from <= |s| && ValidSpans(ms, from, |s|)
    ensures |r| == |s| - from + |ms| * |text| - Width(ms)
    decreases |ms|
  {
    if ms == [] then s[from..]
    else s[from..ms[0].start] + text + ReplaceFrom(s, ms[1..], text, ms[0].end)
  }

  /** `ReplaceAllString(s, text)`, with `text` taken literally. Its length
      is the old length plus one `text` per match minus the matched text. */
  function ReplaceAll(s: seq<byte>, ms: seq<Span>, text: seq<byte>): (r: seq<byte>)
    requires ValidSpans(ms, 0, |s|)
    ensures |r| == |s| + |ms| * |text| - Width(ms)
  {
    ReplaceFrom(s, ms, text, 0)
  }

  /** With a single match, replacing all is the single splice. */
  lemma ReplaceAllOne(s: seq<byte>, m: Span, text: seq<byte>)
    requires m.start <= m.end <= |s|
    ensures ValidSpans([m], 0, |s|)
    ensures ReplaceAll(s, [m], text) == Splice(s, m, text)
  {
    var ms := [m];
    assert ms[0] == m && ms[1..] == [];
    assert ValidSpans(ms[1..], m.end, |s|);
    assert ReplaceFrom(s, ms[1..], text, m.end) == s[m.end..];
    assert s[0..m.start] == s[..m.start];
  }

  /** A bound that admits the spans admits them under any larger bound. */
  lemma {:induction false} ValidSpansWiden(ms: seq<Span>, from: nat, n: nat, n': nat)
    requires ValidSpans(ms, from, n) && n <= n'
    ensures ValidSpans(ms, from, n')
    decreases |ms|
  {
    if ms != [] {
      ValidSpansWiden(ms[1..], ms[0].end, n, n');
    }
  }

  /** All spans but the last end before the last one starts. */
  lemma {:induction false} ValidSpansInit(ms: seq<Span>, from: nat, n: nat)
    requires ms != [] && ValidSpans(ms, from, n)
    ensures from <= ms[|ms| - 1].start <= ms[|ms| - 1].end <= n
    ensures ValidSpans(ms[..|ms| - 1], from, ms[|ms| - 1].start)
    decreases |ms|
  {
    if |ms| > 1 {
      ValidSpansInit(ms[1..], ms[0].end, n);
      assert ms[1..][|ms| - 2] == ms[|ms| - 1];
      assert ms[..|ms| - 1][1..] == ms[1..][..|ms| - 2];
    }
  }

  /** Replacing from `from` equals splicing the last match first and then
      replacing the others. */
  lemma {:induction false} ReplaceFromSplicesLast(s: seq<byte>, ms: seq<Span>, text: seq<byte>, from: nat)
    requires from <= |s| && ValidSpans(ms, from, |s|) && ms != []
    // implied by ValidSpans, and needed to state the splice
    requires ms[|ms| - 1].start <= ms[|ms| - 1].end <= |s|
    ensures var s' := Splice(s, ms[|ms| - 1], text);
      && from <= |s'| && ValidSpans(ms[..|ms| - 1], from, |s'|)
      && ReplaceFrom(s, ms, text, from) == ReplaceFrom(s', ms[..|ms| - 1], text, from)
    decreases |ms|
  {
    var m := ms[|ms| - 1];
    ValidSpansInit(ms, from, |s|);
    var s' := Splice(s, m, text);
    ValidSpansWiden(ms[..|ms| - 1], from, m.start, |s'|);
    if |ms| == 1 {
      assert s'[from..] == s[from..m.start] + text + s[m.end..];
    } else {
      var m0 := ms[0];
      ReplaceFromSplicesLast(s, ms[1..], text, m0.end);
      assert ms[1..][|ms| - 2] == m;
      ValidSpansInit(ms[1..], m0.end, |s|);
      assert ms[..|ms| - 1][1..] == ms[1..][..|ms| - 2];
      assert s'[from..m0.start] == s[from..m0.start];
    }
  }

  /** `ReplaceAllString` is the splice of the last match followed by the
      replacement of all earlier ones. With `ReplaceAllOne` and the empty
      case this fixes the result for any number of matches: every unmatched
      segment is kept, in order, with `text` in place of each match. */
  lemma ReplaceAllSplicesLast(s: seq<byte>, ms: seq<Span>, text: seq<byte>)
    requires ValidSpans(ms, 0, |s|) && ms != []
    // implied by ValidSpans, and needed to state the splice
    requires ms[|ms| - 1].start <= ms[|ms| - 1].end <= |s|
    ensures ValidSpans(ms[..|ms| - 1], 0, |Splice(s, ms[|ms| - 1], text)|)
    ensures ReplaceAll(s, ms, text) == ReplaceAll(Splice(s, ms[|ms| - 1], text), ms[..|ms| - 1], text)
  {
    ReplaceFromSplicesLast(s, ms, text, 0);
  }

  /** Without matches the text is kept as it is. */
  lemma ReplaceAllNone(s: seq<byte>, text: seq<byte>)
    ensures ValidSpans([], 0, |s|)
    ensures ReplaceAll(s, [], text) == s
  {
  }

  /** Every span in `ms` covers exactly the bytes `text` within `s`. */
  predicate AllMatch(s: seq<byte>, ms: seq<Span>, text: seq<byte>)
    decreases |ms|
  {
    ms == [] || (ms[0].start <= ms[0].end <= |s| && s[ms[0].start..ms[0].end] == text && AllMatch(s, ms[1..], text))
  }

  lemma {:induction false} ReplaceFromSame(s: seq<byte>, ms: seq<Span>, text: seq<byte>, from: nat)
    requires from <= |s| && ValidSpans(ms, from, |s|) && AllMatch(s, ms, text)
    ensures ReplaceFrom(s, ms, text, from) == s[from..]
    decreases |ms|
  {
    if ms != [] {
      ReplaceFromSame(s, ms[1..], text, ms[0].end);
      assert s[from..] == s[from..ms[0].start] + s[ms[0].start..ms[0].end] + s[ms[0].end..];
    }
  }

  /** Replacing every match by the very text it matched changes nothing. */
  lemma ReplaceAllSame(s: seq<byte>, ms: seq<Span>, text: seq<byte>)
    requires ValidSpans(ms, 0, |s|) && AllMatch(s, ms, text)
    ensures ReplaceAll(s, ms, text) == s
  {
    ReplaceFromSame(s, ms, text, 0);
  }
}
