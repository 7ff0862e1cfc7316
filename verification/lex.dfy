/**
 * The byte-wise lexicographic order in which the key-value service keeps and
 * scans its keys, and the sorted key sequences a range read returns.
 */
module Lex {

  /** `a` sorts strictly before `b`: a proper prefix, or smaller at the first difference. */
  predicate Less(a: string, b: string)
    decreases |a|
  {
    |b| > 0 && (|a| == 0 || a[0] < b[0] || (a[0] == b[0] && Less(a[1..], b[1..])))
  }

  /** The half-open key range `[lo, hi)` of a range read. */
  predicate InRange(k: string, lo: string, hi: string)
  {
    !Less(k, lo) && Less(k, hi)
  }

  lemma {:induction false} LessIrreflexive(a: string)
    ensures !Less(a, a)
  {
    if |a| > 0 {
      LessIrreflexive(a[1..]);
    }
  }

  lemma {:induction false} LessAsymmetric(a: string, b: string)
    requires Less(a, b)
    ensures !Less(b, a)
  {
    if |a| > 0 && a[0] == b[0] {
      LessAsymmetric(a[1..], b[1..]);
    }
  }

  lemma {:induction false} LessTransitive(a: string, b: string, c: string)
    requires Less(a, b) && Less(b, c)
    ensures Less(a, c)
  {
    if |a| > 0 && a[0] == b[0] && b[0] == c[0] {
      LessTransitive(a[1..], b[1..], c[1..]);
    }
  }

  lemma {:induction false} LessTotal(a: string, b: string)
    ensures a == b || Less(a, b) || Less(b, a)
  {
    if |a| > 0 && |b| > 0 && a[0] == b[0] {
      LessTotal(a[1..], b[1..]);
      if a[1..] == b[1..] {
        assert a == [a[0]] + a[1..] && b == [b[0]] + b[1..];
      }
    }
  }

  /** A common prefix does not change how two strings compare. */
  lemma {:induction false} LessCommonPrefix(p: string, a: string, b: string)
    ensures Less(p + a, p + b) <==> Less(a, b)
  {
    if |p| > 0 {
      assert (p + a)[0] == p[0] == (p + b)[0];
      assert (p + a)[1..] == p[1..] + a && (p + b)[1..] == p[1..] + b;
      LessCommonPrefix(p[1..], a, b);
    } else {
      assert p + a == a && p + b == b;
    }
  }

  /** Strings of equal length compare by their heads, then by their last characters. */
  lemma {:induction false} LessSnoc(x: string, y: string, c: char, d: char)
    requires |x| == |y|
    ensures Less(x + [c], y + [d]) <==> Less(x, y) || (x == y && c < d)
  {
    if |x| > 0 {
      assert (x + [c])[1..] == x[1..] + [c] && (y + [d])[1..] == y[1..] + [d];
      LessSnoc(x[1..], y[1..], c, d);
      if x[0] == y[0] && x[1..] == y[1..] {
        assert x == [x[0]] + x[1..] && y == [y[0]] + y[1..];
      }
    }
  }

  predicate StrictlySorted(s: seq<string>)
  {
    forall i, j :: 0 <= i < j < |s| ==> Less(s[i], s[j])
  }

  lemma SortedCons(h: string, t: seq<string>)
    requires StrictlySorted(t)
    requires forall y :: y in t ==> Less(h, y)
    ensures StrictlySorted([h] + t)
  {
    forall i, j | 0 <= i < j < |[h] + t|
      ensures Less(([h] + t)[i], ([h] + t)[j])
    {
      if i == 0 {
        assert ([h] + t)[j] == t[j - 1];
      } else {
        assert ([h] + t)[i] == t[i - 1] && ([h] + t)[j] == t[j - 1];
      }
    }
  }

  lemma SortedConsBelow(x: string, s: seq<string>)
    requires StrictlySorted(s) && s != [] && Less(x, s[0])
    ensures StrictlySorted([x] + s)
  {
    forall y | y in s ensures Less(x, y) {
      if y != s[0] {
        var j :| 0 <= j < |s| && s[j] == y;
        LessTransitive(x, s[0], y);
      }
    }
    SortedCons(x, s);
  }

  lemma SortedConsAbove(x: string, s: seq<string>, rest: seq<string>)
    requires StrictlySorted(s) && s != [] && x != s[0] && !Less(x, s[0])
    requires StrictlySorted(rest) && forall y :: y in rest <==> y == x || y in s[1..]
    ensures StrictlySorted([s[0]] + rest)
  {
    LessTotal(x, s[0]);
    forall y | y in rest ensures Less(s[0], y) {
      if y in s[1..] {
        var j :| 0 <= j < |s[1..]| && s[1..][j] == y;
        assert s[j + 1] == y;
      }
    }
    SortedCons(s[0], rest);
  }

  /** Inserts `x` into a strictly sorted sequence, as into an ordered set. */
  function Insert(x: string, s: seq<string>): (r: seq<string>)
    requires StrictlySorted(s)
    ensures StrictlySorted(r)
    ensures forall y :: y in r <==> y == x || y in s
  {
    if s == [] then [x]
    else if x == s[0] then s
    else if Less(x, s[0]) then
      SortedConsBelow(x, s);
      [x] + s
    else
      var rest := Insert(x, s[1..]);
      SortedConsAbove(x, s, rest);
      assert forall y :: y in s <==> y == s[0] || y in s[1..];
      [s[0]] + rest
  }

  /**
   * The keys of `keys` that lie in `[lo, hi)`, in ascending order and without
   * repetition: the key list of an unlimited range read.
   */
  function SortedRange(keys: seq<string>, lo: string, hi: string): (r: seq<string>)
    ensures StrictlySorted(r)
  {
    if keys == [] then []
    else
      var rest := SortedRange(keys[1..], lo, hi);
      if InRange(keys[0], lo, hi) then Insert(keys[0], rest) else rest
  }

  /** A range read holds exactly the keys that lie in the range. */
  lemma {:induction false} SortedRangeMembers(keys: seq<string>, lo: string, hi: string)
    ensures forall k :: k in SortedRange(keys, lo, hi) <==> k in keys && InRange(k, lo, hi)
  {
    if keys != [] {
      SortedRangeMembers(keys[1..], lo, hi);
      assert forall k :: k in keys <==> k == keys[0] || k in keys[1..];
    }
  }

  /** A strictly sorted sequence is determined by its elements. */
  lemma {:induction false} SortedUnique(a: seq<string>, b: seq<string>)
    requires StrictlySorted(a) && StrictlySorted(b)
    requires forall x :: x in a <==> x in b
    ensures a == b
  {
    if b != [] {
      assert b[0] in b;
    }
    if a == [] {
    } else {
      assert a[0] in b && b[0] in a;
      var i :| 0 <= i < |b| && b[i] == a[0];
      var j :| 0 <= j < |a| && a[j] == b[0];
      if i != 0 {
        assert Less(b[0], b[i]);
        if j == 0 { LessIrreflexive(a[0]); } else { assert Less(a[0], a[j]); LessAsymmetric(a[0], a[j]); }
      }
      assert a[0] == b[0];
      forall x ensures x in a[1..] <==> x in b[1..] {
        if x in a[1..] {
          var k :| 0 <= k < |a[1..]| && a[1..][k] == x;
          assert Less(a[0], a[k + 1]);
          LessIrreflexive(x);
          assert x in b;
        }
        if x in b[1..] {
          var k :| 0 <= k < |b[1..]| && b[1..][k] == x;
          assert Less(b[0], b[k + 1]);
          LessIrreflexive(x);
          assert x in a;
        }
      }
      SortedUnique(a[1..], b[1..]);
      assert a == [a[0]] + a[1..] && b == [b[0]] + b[1..];
    }
  }

  /** `cursor` falls between `keys[j - 1]` and `keys[j]`, the ends counting as open. */
  predicate SplitsAt(keys: seq<string>, j: nat, cursor: string)
  {
    && j <= |keys|
    && (j == 0 || Less(keys[j - 1], cursor))
    && (j == |keys| || !Less(keys[j], cursor))
  }

  /** In a sorted sequence, a key between two neighbours is above everything before `j` and below nothing after. */
  lemma {:induction false} SplitsAtAll(keys: seq<string>, j: nat, cursor: string)
    requires StrictlySorted(keys) && SplitsAt(keys, j, cursor)
    ensures forall i :: 0 <= i < j ==> Less(keys[i], cursor)
    ensures forall i :: j <= i < |keys| ==> !Less(keys[i], cursor)
  {
    forall i | 0 <= i < j - 1 ensures Less(keys[i], cursor) {
      LessTransitive(keys[i], keys[j - 1], cursor);
    }
    forall i | j < i < |keys| ensures !Less(keys[i], cursor) {
      if Less(keys[i], cursor) {
        LessTransitive(keys[j], keys[i], cursor);
      }
    }
  }

  /**
   * Raising the lower end of a range read to a key that splits the full result
   * at index `j` leaves exactly the suffix from `j`.
   */
  lemma RangeSuffix(keys: seq<string>, lo: string, lo': string, hi: string, j: nat)
    requires !Less(lo', lo)
    requires SplitsAt(SortedRange(keys, lo, hi), j, lo')
    ensures SortedRange(keys, lo', hi) == SortedRange(keys, lo, hi)[j..]
  {
    var full := SortedRange(keys, lo, hi);
    var part := SortedRange(keys, lo', hi);
    SortedRangeMembers(keys, lo, hi);
    SortedRangeMembers(keys, lo', hi);
    SplitsAtAll(full, j, lo');
    forall x | x in part ensures x in full[j..] {
      assert x in keys && !Less(x, lo') && Less(x, hi);
      if Less(x, lo) {
        LessTotal(lo, lo');
        if lo != lo' { LessTransitive(x, lo, lo'); }
      }
      assert x in full;
      var i :| 0 <= i < |full| && full[i] == x;
      assert i >= j;
      assert full[j..][i - j] == x;
    }
    forall x | x in full[j..] ensures x in part {
      var i :| 0 <= i < |full[j..]| && full[j..][i] == x;
      assert full[j + i] == x;
      assert x in full && !Less(full[j + i], lo');
      assert x in keys && InRange(x, lo', hi);
    }
    assert StrictlySorted(full[j..]) by {
      forall a, b | 0 <= a < b < |full[j..]| ensures Less(full[j..][a], full[j..][b]) {
        assert full[j..][a] == full[j + a] && full[j..][b] == full[j + b];
      }
    }
    SortedUnique(part, full[j..]);
  }
}
