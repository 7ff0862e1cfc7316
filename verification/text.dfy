/**
 * The few string routines the metadata store relies on: decimal formatting as
 * done by `%d` and `%020d`, splitting on a separator as `strings.Split` does,
 * and base-10 parsing of an unsigned 64-bit integer as `strconv.ParseUint` does.
 */
module Text {
  import opened Types
  import opened Lex

  predicate IsDigit(c: char)
  {
    '0' <= c <= '9'
  }

  predicate AllDigits(s: string)
  {
    forall i :: 0 <= i < |s| ==> IsDigit(s[i])
  }

  function Digit(d: nat): (c: char)
    requires d < 10
    ensures IsDigit(c) && c as int - '0' as int == d
  {
    (48 + d) as char
  }

  function Pow10(n: nat): (p: nat)
    ensures p >= 1
  {
    if n == 0 then 1 else 10 * Pow10(n - 1)
  }

  lemma {:induction false} Pow10Add(a: nat, b: nat)
    ensures Pow10(a + b) == Pow10(a) * Pow10(b)
  {
    if a > 0 {
      Pow10Add(a - 1, b);
    }
  }

  /** The last `width` decimal digits of `n`, most significant first (`%0<width>d`). */
  function Pad(n: nat, width: nat): (r: string)
    ensures |r| == width
  {
    if width == 0 then [] else Pad(n / 10, width - 1) + [Digit(n % 10)]
  }

  /** The decimal digits of `n` without leading zeros (`%d`). */
  function Decimal(n: nat): (r: string)
    ensures |r| > 0 && AllDigits(r)
  {
    if n < 10 then [Digit(n)] else Decimal(n / 10) + [Digit(n % 10)]
  }

  /** Fixed-width padding turns numeric order into string order. */
  lemma {:induction false} PadOrder(a: nat, b: nat, width: nat)
    requires a < b < Pow10(width)
    ensures Less(Pad(a, width), Pad(b, width))
  {
    assert width > 0;
    var pa, pb := Pad(a / 10, width - 1), Pad(b / 10, width - 1);
    LessSnoc(pa, pb, Digit(a % 10), Digit(b % 10));
    if a / 10 < b / 10 {
      PadOrder(a / 10, b / 10, width - 1);
    }
  }

  // ---- strings.Split ----

  /** `strings.Split(s, string(sep))`: the pieces between separators; never empty. */
  function Split(s: string, sep: char): (r: seq<string>)
    ensures |r| > 0
  {
    if s == [] then [[]]
    else
      var rest := Split(s[1..], sep);
      if s[0] == sep then [[]] + rest else [[s[0]] + rest[0]] + rest[1..]
  }

  /** `strings.Join(parts, string(sep))`. */
  function Join(parts: seq<string>, sep: char): string
    requires |parts| > 0
  {
    if |parts| == 1 then parts[0] else parts[0] + [sep] + Join(parts[1..], sep)
  }

  function Count(s: string, c: char): nat
  {
    if s == [] then 0 else (if s[0] == c then 1 else 0) + Count(s[1..], c)
  }

  /** Splitting loses nothing: joining the pieces gives the input back, and no piece holds a separator. */
  lemma {:induction false} SplitJoin(s: string, sep: char)
    ensures Join(Split(s, sep), sep) == s
    ensures forall i :: 0 <= i < |Split(s, sep)| ==> sep !in Split(s, sep)[i]
  {
    if s != [] {
      var rest := Split(s[1..], sep);
      SplitJoin(s[1..], sep);
      if s[0] == sep {
        assert ([[]] + rest)[1..] == rest;
        assert s == [s[0]] + s[1..];
      } else {
        var parts := [[s[0]] + rest[0]] + rest[1..];
        if |rest| == 1 {
          assert s == [s[0]] + s[1..];
        } else {
          assert parts[1..] == rest[1..];
          assert Join(rest, sep) == rest[0] + [sep] + Join(rest[1..], sep);
          assert s == [s[0]] + s[1..];
        }
        forall i | 0 <= i < |parts| ensures sep !in parts[i] {
          if i > 0 { assert parts[i] == rest[i]; }
        }
      }
    }
  }

  /** There is one more piece than there are separators. */
  lemma {:induction false} SplitCount(s: string, sep: char)
    ensures |Split(s, sep)| == Count(s, sep) + 1
  {
    if s != [] {
      SplitCount(s[1..], sep);
    }
  }

  /** A separator-free head becomes the first piece. */
  lemma {:induction false} SplitHead(a: string, sep: char, b: string)
    requires sep !in a
    ensures Split(a + [sep] + b, sep) == [a] + Split(b, sep)
  {
    if a == [] {
      assert a + [sep] + b == [sep] + b;
      assert ([sep] + b)[1..] == b;
    } else {
      var s := a + [sep] + b;
      assert s[0] == a[0] && s[1..] == a[1..] + [sep] + b;
      SplitHead(a[1..], sep, b);
      assert [a[0]] + a[1..] == a;
    }
  }

  lemma {:induction false} SplitWhole(a: string, sep: char)
    requires sep !in a
    ensures Split(a, sep) == [a]
  {
    if a != [] {
      SplitWhole(a[1..], sep);
      assert [a[0]] + a[1..] == a;
    }
  }

  // ---- strconv.ParseUint(s, 10, 64) ----

  /** One digit of a left-to-right scan: a non-digit is a syntax error, growth past 2^64 - 1 a range error. */
  function StepDigit(acc: uint64, c: char): (r: Result<uint64, NumError>)
    ensures r.Ok? ==> IsDigit(c) && r.value as int == acc as int * 10 + (c as int - '0' as int)
  {
    if !IsDigit(c) then Err(ErrSyntax)
    else if acc as int * 10 + (c as int - '0' as int) > MAX_UINT64 as int then Err(ErrRange)
    else Ok((acc as int * 10 + (c as int - '0' as int)) as uint64)
  }

  function ParseDigits(s: string, acc: uint64): Result<uint64, NumError>
  {
    if s == [] then Ok(acc)
    else
      match StepDigit(acc, s[0])
      case Err(e) => Err(e)
      case Ok(v) => ParseDigits(s[1..], v)
  }

  /** `strconv.ParseUint(s, 10, 64)`: the empty string is a syntax error; no sign, no underscores. */
  function ParseUint(s: string): (r: Result<uint64, NumError>)
    ensures s == [] ==> r == Err(ErrSyntax)
    ensures r.Ok? ==> s != [] && AllDigits(s)
  {
    if s == [] then Err(ErrSyntax)
    else
      var r := ParseDigits(s, 0);
      if r.Ok? then
        ParseDigitsOnlyDigits(s, 0);
        r
      else r
  }

  /** Scanning one more character continues from where the shorter scan ended. */
  lemma {:induction false} ParseDigitsSnoc(s: string, c: char, acc: uint64)
    ensures ParseDigits(s + [c], acc) ==
            match ParseDigits(s, acc)
            case Err(e) => Err(e)
            case Ok(v) => StepDigit(v, c)
  {
    if s == [] {
      assert [] + [c] == [c] && [c][1..] == [];
    } else {
      assert (s + [c])[0] == s[0] && (s + [c])[1..] == s[1..] + [c];
      match StepDigit(acc, s[0])
      case Err(e) =>
      case Ok(v) => ParseDigitsSnoc(s[1..], c, v);
    }
  }

  /** Parsing what `%d` prints gives the number back. */
  lemma {:induction false} ParseDecimal(n: uint64)
    ensures ParseUint(Decimal(n as nat)) == Ok(n)
  {
    if n < 10 {
      var d := Digit(n as nat);
      assert Decimal(n as nat) == [d] && [d][1..] == [];
      assert StepDigit(0, d) == Ok(n);
      assert ParseDigits([d], 0) == ParseDigits([], n);
    } else {
      var hi := (n as nat / 10) as uint64;
      ParseDecimal(hi);
      ParseDigitsSnoc(Decimal(hi as nat), Digit(n as nat % 10), 0);
    }
  }

  /** Parsing what `%0<width>d` prints gives the number back when it fits the width. */
  lemma {:induction false} ParsePad(n: uint64, width: nat)
    requires n as nat < Pow10(width)
    ensures ParseDigits(Pad(n as nat, width), 0) == Ok(n)
  {
    if width > 0 {
      var hi := (n as nat / 10) as uint64;
      ParsePad(hi, width - 1);
      ParseDigitsSnoc(Pad(hi as nat, width - 1), Digit(n as nat % 10), 0);
    }
  }

  /** Only a non-empty run of digits parses. */
  lemma {:induction false} ParseDigitsOnlyDigits(s: string, acc: uint64)
    requires ParseDigits(s, acc).Ok?
    ensures AllDigits(s)
  {
    if s != [] {
      var v := StepDigit(acc, s[0]).value;
      ParseDigitsOnlyDigits(s[1..], v);
      forall i | 0 <= i < |s| ensures IsDigit(s[i]) {
        if i > 0 { assert s[i] == s[1..][i - 1]; }
      }
    }
  }
}
