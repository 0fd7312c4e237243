/** The Python string operations the modelled code relies on, restricted to what it uses. */
module Strs {
  import opened Wrappers

  /** Python `s.split(sep)` for a one-character separator. */
  function Split(s: string, sep: char): (pieces: seq<string>)
    ensures |pieces| >= 1
    ensures forall i :: 0 <= i < |pieces| ==> sep !in pieces[i]
    decreases |s|
  {
    if s == [] then [""]
    else
      var rest := Split(s[1..], sep);
      if s[0] == sep then [""] + rest
      else [[s[0]] + rest[0]] + rest[1..]
  }

  /** Python `sep.join(pieces)`. */
  function Join(pieces: seq<string>, sep: string): string
    decreases |pieces|
  {
    if |pieces| == 0 then ""
    else if |pieces| == 1 then pieces[0]
    else pieces[0] + sep + Join(pieces[1..], sep)
  }

  /** Python `"".join(pieces)`. */
  function Concat(pieces: seq<string>): string
    decreases |pieces|
  {
    if pieces == [] then "" else pieces[0] + Concat(pieces[1..])
  }

  /** The number of occurrences of `c` in `s`. */
  function Count(s: string, c: char): nat
    decreases |s|
  {
    if s == [] then 0 else (if s[0] == c then 1 else 0) + Count(s[1..], c)
  }

  /** Joining what `split` produced gives back the original string. */
  lemma {:induction false} JoinSplit(s: string, c: char)
    ensures Join(Split(s, c), [c]) == s
    decreases |s|
  {
    if s != [] {
      var rest := Split(s[1..], c);
      JoinSplit(s[1..], c);
      if s[0] == c {
        assert Split(s, c) == [""] + rest;
        assert Join([""] + rest, [c]) == "" + [c] + Join(rest, [c]);
      } else if |rest| > 1 {
        assert Split(s, c) == [[s[0]] + rest[0]] + rest[1..];
        assert Join(rest, [c]) == rest[0] + [c] + Join(rest[1..], [c]);
        assert Join(Split(s, c), [c]) == [s[0]] + rest[0] + [c] + Join(rest[1..], [c]);
      } else {
        assert Split(s, c) == [[s[0]] + rest[0]];
      }
    }
  }

  /** A string without the separator is one piece. */
  lemma {:induction false} SplitNoSep(s: string, c: char)
    requires c !in s
    ensures Split(s, c) == [s]
    decreases |s|
  {
    if s != [] {
      assert s[0] in s && s[0] != c;
      SplitNoSep(s[1..], c);
      assert [s[0]] + s[1..] == s;
    }
  }

  /** `split` of a string that starts with `x`. */
  lemma SplitCons(x: char, t: string, c: char)
    ensures Split([x] + t, c) == if x == c then [""] + Split(t, c) else [[x] + Split(t, c)[0]] + Split(t, c)[1..]
  {
    assert ([x] + t)[0] == x && ([x] + t)[1..] == t;
  }

  /** Growing the first piece of a list, then appending more pieces, in either order. */
  lemma GrowFirst(x: char, left: seq<string>, right: seq<string>)
    requires left != []
    ensures [[x] + left[0]] + left[1..] + right == [[x] + (left + right)[0]] + (left + right)[1..]
  {
    assert (left + right)[0] == left[0];
    assert (left + right)[1..] == left[1..] + right;
  }

  /** Splitting at a separator splits each side independently. */
  lemma {:induction false} SplitAtSep(a: string, b: string, c: char)
    ensures Split(a + [c] + b, c) == Split(a, c) + Split(b, c)
    decreases |a|
  {
    if a == [] {
      assert a + [c] + b == [c] + b;
      SplitCons(c, b, c);
    } else {
      var t := a[1..] + [c] + b;
      assert a + [c] + b == [a[0]] + t;
      assert [a[0]] + a[1..] == a;
      SplitCons(a[0], t, c);
      SplitCons(a[0], a[1..], c);
      SplitAtSep(a[1..], b, c);
      var left, right := Split(a[1..], c), Split(b, c);
      if a[0] == c {
        assert [""] + (left + right) == ([""] + left) + right;
      } else {
        GrowFirst(a[0], left, right);
      }
    }
  }

  /** Splitting a join of separator-free pieces gives back the pieces. */
  lemma {:induction false} SplitJoin(pieces: seq<string>, c: char)
    requires |pieces| >= 1
    requires forall i :: 0 <= i < |pieces| ==> c !in pieces[i]
    ensures Split(Join(pieces, [c]), c) == pieces
    decreases |pieces|
  {
    SplitNoSep(pieces[0], c);
    if |pieces| > 1 {
      SplitJoin(pieces[1..], c);
      SplitAtSep(pieces[0], Join(pieces[1..], [c]), c);
      assert Join(pieces, [c]) == pieces[0] + [c] + Join(pieces[1..], [c]);
      assert pieces == [pieces[0]] + pieces[1..];
    }
  }

  /** A separator-free prefix joins the first piece. */
  lemma {:induction false} SplitPrefixNoSep(p: string, s: string, c: char)
    requires c !in p
    ensures Split(p + s, c) == [p + Split(s, c)[0]] + Split(s, c)[1..]
    decreases |p|
  {
    if p == [] {
      var pieces := Split(s, c);
      assert p + s == s && p + pieces[0] == pieces[0];
      assert [pieces[0]] + pieces[1..] == pieces;
    } else {
      assert p[0] in p;
      assert (p + s)[0] == p[0] && (p + s)[1..] == p[1..] + s;
      SplitPrefixNoSep(p[1..], s, c);
      assert [p[0]] + (p[1..] + Split(s, c)[0]) == p + Split(s, c)[0];
    }
  }

  /**
    Splitting text joined with `c` followed by `pad` (neither the pieces nor
    `pad` containing `c`) gives the pieces back, each but the first after `pad`.
  */
  lemma {:induction false} SplitJoinPadded(pieces: seq<string>, c: char, pad: string)
    requires |pieces| >= 1
    requires c !in pad
    requires forall i :: 0 <= i < |pieces| ==> c !in pieces[i]
    ensures |Split(Join(pieces, [c] + pad), c)| == |pieces|
    ensures Split(Join(pieces, [c] + pad), c)[0] == pieces[0]
    ensures forall i :: 0 < i < |pieces| ==> Split(Join(pieces, [c] + pad), c)[i] == pad + pieces[i]
    decreases |pieces|
  {
    SplitNoSep(pieces[0], c);
    if |pieces| > 1 {
      var rest := Join(pieces[1..], [c] + pad);
      SplitJoinPadded(pieces[1..], c, pad);
      assert Join(pieces, [c] + pad) == pieces[0] + [c] + (pad + rest);
      SplitAtSep(pieces[0], pad + rest, c);
      SplitPrefixNoSep(pad, rest, c);
    }
  }

  /** Joining a list that starts with `a`. */
  lemma JoinCons(a: string, rest: seq<string>, sep: string)
    ensures Join([a] + rest, sep) == if rest == [] then a else a + sep + Join(rest, sep)
  {
    assert ([a] + rest)[1..] == rest;
  }

  /** Joining a list that starts with `a` and `b`. */
  lemma JoinCons2(a: string, b: string, rest: seq<string>, sep: string)
    ensures Join([a, b] + rest, sep) == if rest == [] then a + sep + b else (a + sep + b) + sep + Join(rest, sep)
  {
    assert ([a, b] + rest)[1..] == [b] + rest;
    JoinCons(b, rest, sep);
  }

  /** Every piece of a join occurs in it. */
  lemma {:induction false} JoinContains(pieces: seq<string>, sep: string, k: nat)
    requires k < |pieces|
    ensures exists x, y :: Join(pieces, sep) == x + pieces[k] + y
    decreases k
  {
    if k == 0 {
      var y := if |pieces| == 1 then "" else sep + Join(pieces[1..], sep);
      assert Join(pieces, sep) == "" + pieces[0] + y;
    } else {
      JoinContains(pieces[1..], sep, k - 1);
      var x, y :| Join(pieces[1..], sep) == x + pieces[1..][k - 1] + y;
      assert Join(pieces, sep) == (pieces[0] + sep + x) + pieces[k] + y;
    }
  }

  /** `split` yields one more piece than there are separators. */
  lemma {:induction false} SplitCount(s: string, c: char)
    ensures |Split(s, c)| == Count(s, c) + 1
    decreases |s|
  {
    if s != [] {
      SplitCount(s[1..], c);
    }
  }

  /** The total length of the concatenated pieces. */
  function TotalLength(pieces: seq<string>): nat
    decreases |pieces|
  {
    if pieces == [] then 0 else |pieces[0]| + TotalLength(pieces[1..])
  }

  /** The pieces hold every character of the input except the separators. */
  lemma {:induction false} SplitTotalLength(s: string, c: char)
    ensures TotalLength(Split(s, c)) + Count(s, c) == |s|
    decreases |s|
  {
    if s != [] {
      SplitTotalLength(s[1..], c);
      var rest := Split(s[1..], c);
      if s[0] != c {
        assert TotalLength(rest) == |rest[0]| + TotalLength(rest[1..]);
      }
    }
  }

  lemma {:induction false} ConcatLength(pieces: seq<string>)
    ensures |Concat(pieces)| == TotalLength(pieces)
    decreases |pieces|
  {
    if pieces != [] {
      ConcatLength(pieces[1..]);
    }
  }

  lemma {:induction false} ConcatMembership(pieces: seq<string>, c: char)
    ensures c in Concat(pieces) <==> exists i :: 0 <= i < |pieces| && c in pieces[i]
    decreases |pieces|
  {
    if pieces != [] {
      ConcatMembership(pieces[1..], c);
      if c in Concat(pieces[1..]) {
        var i :| 0 <= i < |pieces[1..]| && c in pieces[1..][i];
        assert c in pieces[i + 1];
      }
      if exists i :: 0 <= i < |pieces| && c in pieces[i] {
        var i :| 0 <= i < |pieces| && c in pieces[i];
        if i > 0 {
          assert c in pieces[1..][i - 1];
        }
      }
    }
  }

  /** Python `str.upper()` on one character, restricted to ASCII. */
  function UpperChar(ch: char): (r: char)
    ensures 'a' <= ch <= 'z' ==> r as int == ch as int - 32
    ensures !('a' <= ch <= 'z') ==> r == ch
  {
    if 'a' <= ch <= 'z' then (ch as int - 32) as char else ch
  }

  /** Python `str.upper()`, restricted to ASCII letters. */
  function Upper(s: string): (r: string)
    ensures |r| == |s|
    ensures forall i :: 0 <= i < |s| ==> r[i] == UpperChar(s[i])
  {
    seq(|s|, i requires 0 <= i < |s| => UpperChar(s[i]))
  }

  /** Upper-casing a character never produces a lower-case ASCII letter, so it is idempotent. */
  lemma UpperCharIdempotent(ch: char)
    ensures UpperChar(UpperChar(ch)) == UpperChar(ch)
    ensures UpperChar(ch) == '-' <==> ch == '-'
  {
  }

  function DigitChar(d: nat): char
    requires d < 10
  {
    "0123456789"[d]
  }

  /** Python `str(n)` for a natural number. */
  function NatToString(n: nat): (r: string)
    ensures |r| >= 1
    ensures forall i :: 0 <= i < |r| ==> '0' <= r[i] <= '9'
    decreases n
  {
    if n < 10 then [DigitChar(n)] else NatToString(n / 10) + [DigitChar(n % 10)]
  }

  predicate IsDigits(s: string) {
    forall i :: 0 <= i < |s| ==> '0' <= s[i] <= '9'
  }

  /** The value of a string of decimal digits. */
  function DigitsValue(s: string): nat
    requires IsDigits(s)
    decreases |s|
  {
    if s == [] then 0 else DigitsValue(s[..|s| - 1]) * 10 + (s[|s| - 1] as int - '0' as int)
  }

  /** An optional `+` or `-` followed by at least one ASCII decimal digit. */
  predicate IsIntLiteral(s: string) {
    if |s| >= 1 && (s[0] == '-' || s[0] == '+') then |s| >= 2 && IsDigits(s[1..])
    else |s| >= 1 && IsDigits(s)
  }

  /**
    Python `int(s)` for a sign and decimal digits; any other string raises
    ValueError. (Surrounding whitespace, `_` separators and non-ASCII digits
    are not modelled.)
  */
  function ParseInt(s: string): (r: Result<int>)
    ensures r.Ok? <==> IsIntLiteral(s)
    ensures r.Err? ==> r.error == ValueError(s)
    ensures IsDigits(s) && s != [] ==> r == Ok(DigitsValue(s))
    ensures |s| >= 2 && s[0] == '+' && IsDigits(s[1..]) ==> r == Ok(DigitsValue(s[1..]))
    ensures |s| >= 2 && s[0] == '-' && IsDigits(s[1..]) ==> r.Ok? && r.value == -(DigitsValue(s[1..]) as int)
  {
    var signed := |s| >= 1 && (s[0] == '-' || s[0] == '+');
    var digits := if signed then s[1..] else s;
    if digits == [] || !IsDigits(digits) then Err(ValueError(s))
    else
      var magnitude: int := DigitsValue(digits);
      Ok(if signed && s[0] == '-' then -magnitude else magnitude)
  }

  /** The status code `default` of an OpenAPI responses object is not an integer: `int("default")` raises ValueError. */
  lemma DefaultCodeFails()
    ensures ParseInt("default") == Err(ValueError("default"))
  {
    assert !IsDigits("default") by {
      assert !('0' <= "default"[0] <= '9');
    }
  }

  /** `int(str(n)) == n` */
  lemma {:induction false} ParseIntOfNatToString(n: nat)
    ensures ParseInt(NatToString(n)) == Ok(n)
  {
    DigitsValueOfNatToString(n);
  }

  lemma {:induction false} DigitsValueOfNatToString(n: nat)
    ensures DigitsValue(NatToString(n)) == n
    decreases n
  {
    var s := NatToString(n);
    if n >= 10 {
      DigitsValueOfNatToString(n / 10);
      assert s[..|s| - 1] == NatToString(n / 10);
    }
  }
}
