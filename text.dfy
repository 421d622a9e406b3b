/** Text assembly used by the query builder: the string join of JavaScript
    arrays and an independent "one prefixed item after another" view of it. */
module Text {

  /** The string join of an array: the empty array gives the empty string,
      one element gives itself, and consecutive elements are separated by
      exactly one `sep`. */
  function Join(parts: seq<string>, sep: string): string
    decreases |parts|
  {
    if |parts| == 0 then ""
    else if |parts| == 1 then parts[0]
    else parts[0] + sep + Join(parts[1..], sep)
  }

  /** A non-empty join opens with its first part and finishes with its last. */
  lemma {:induction false} JoinEnds(parts: seq<string>, sep: string)
    requires |parts| >= 1
    ensures parts[0] <= Join(parts, sep)
    ensures EndsWith(Join(parts, sep), parts[|parts| - 1])
    decreases |parts|
  {
    if |parts| >= 2 {
      JoinEnds(parts[1..], sep);
      EndsWithAppend(parts[0] + sep, Join(parts[1..], sep), parts[|parts| - 1]);
    }
  }

  /** `s` finishes with `suffix`. */
  predicate EndsWith(s: string, suffix: string)
  {
    |suffix| <= |s| && s[|s| - |suffix|..] == suffix
  }

  /** A suffix of the second part is a suffix of the concatenation. */
  lemma EndsWithAppend(a: string, b: string, suffix: string)
    requires EndsWith(b, suffix)
    ensures EndsWith(a + b, suffix)
  {
    assert (a + b)[|a + b| - |suffix|..] == b[|b| - |suffix|..];
  }

  /** `s` is `open`, then `mid`, then `close`: the middle can be read back
      from between the two fixed delimiters. */
  predicate Encloses(s: string, open: string, mid: string, close: string)
  {
    && |s| == |open| + |mid| + |close|
    && s[..|open|] == open
    && s[|open|..|open| + |mid|] == mid
    && s[|open| + |mid|..] == close
  }

  /** Writing the three pieces one after another encloses the middle one. */
  lemma EnclosesConcat(open: string, mid: string, close: string)
    ensures Encloses(open + mid + close, open, mid, close)
  {
    var s := open + mid + close;
    assert s[..|open|] == open;
    assert s[|open|..|open| + |mid|] == mid;
    assert s[|open| + |mid|..] == close;
  }

  /** Every item preceded by `sep`, all in order: `sep + p0 + sep + p1 + ...`. */
  function PrefixEach(sep: string, parts: seq<string>): string
    decreases |parts|
  {
    if |parts| == 0 then "" else sep + parts[0] + PrefixEach(sep, parts[1..])
  }

  /** Total number of characters in all the parts. */
  function SumLengths(parts: seq<string>): nat
    decreases |parts|
  {
    if |parts| == 0 then 0 else |parts[0]| + SumLengths(parts[1..])
  }

  /** A non-empty join is its first part followed by each remaining part with
      one separator in front of it, so it holds exactly |parts| - 1 separators
      placed between the parts. */
  lemma {:induction false} JoinAsPrefixEach(parts: seq<string>, sep: string)
    requires |parts| >= 1
    ensures Join(parts, sep) == parts[0] + PrefixEach(sep, parts[1..])
    decreases |parts|
  {
    if |parts| == 1 {
      assert parts[1..] == [];
    } else {
      JoinAsPrefixEach(parts[1..], sep);
      assert parts[1..][1..] == parts[2..];
      calc {
        Join(parts, sep);
        parts[0] + sep + Join(parts[1..], sep);
        parts[0] + sep + (parts[1] + PrefixEach(sep, parts[2..]));
        parts[0] + (sep + parts[1] + PrefixEach(sep, parts[1..][1..]));
        parts[0] + PrefixEach(sep, parts[1..]);
      }
    }
  }

  /** `sep` in front of a non-empty join with the same separator puts `sep` in
      front of every part. */
  lemma {:induction false} LeadingSeparatorJoin(parts: seq<string>, sep: string)
    requires |parts| >= 1
    ensures sep + Join(parts, sep) == PrefixEach(sep, parts)
  {
    JoinAsPrefixEach(parts, sep);
  }

  /** Prefixing a list with a first item. */
  lemma PrefixEachCons(sep: string, first: string, rest: seq<string>)
    ensures PrefixEach(sep, [first] + rest) == sep + first + PrefixEach(sep, rest)
  {
    assert ([first] + rest)[1..] == rest;
  }

  /** Two items, each prefixed. */
  lemma PrefixEachPair(sep: string, a: string, b: string)
    ensures PrefixEach(sep, [a, b]) == sep + a + sep + b
  {
    assert [a, b][1..] == [b];
    assert [b][1..] == [];
    assert PrefixEach(sep, [b]) == sep + b;
  }

  /** Four items, each prefixed. */
  lemma PrefixEachQuad(sep: string, a: string, b: string, c: string, d: string)
    ensures PrefixEach(sep, [a, b, c, d]) == sep + a + sep + b + sep + c + sep + d
  {
    assert [a, b, c, d][1..] == [b, c, d];
    assert [b, c, d][1..] == [c, d];
    PrefixEachPair(sep, c, d);
  }

  /** Prefixing distributes over concatenation of the item lists. */
  lemma {:induction false} PrefixEachAppend(sep: string, a: seq<string>, b: seq<string>)
    ensures PrefixEach(sep, a + b) == PrefixEach(sep, a) + PrefixEach(sep, b)
    decreases |a|
  {
    if |a| == 0 {
      assert a + b == b;
    } else {
      assert (a + b)[1..] == a[1..] + b;
      PrefixEachAppend(sep, a[1..], b);
    }
  }

  /** A first item followed by two lists of items, each prefixed. */
  lemma PrefixEachConsAppend(sep: string, first: string, a: seq<string>, b: seq<string>)
    ensures PrefixEach(sep, [first] + (a + b)) == sep + first + PrefixEach(sep, a) + PrefixEach(sep, b)
  {
    PrefixEachCons(sep, first, a + b);
    PrefixEachAppend(sep, a, b);
  }

  /** The length of a non-empty join: all the parts plus |parts| - 1 separators. */
  lemma {:induction false} JoinLength(parts: seq<string>, sep: string)
    requires |parts| >= 1
    ensures |Join(parts, sep)| == SumLengths(parts) + (|parts| - 1) * |sep|
    decreases |parts|
  {
    if |parts| > 1 {
      JoinLength(parts[1..], sep);
    }
  }
}
