/** Character classes and string helpers the library relies on: JavaScript's
    `String.prototype.trim`, the regular-expression class `\d`, `startsWith('-')`,
    `Array.prototype.join` and, as its partner, splitting on one character. */
module Text {

  /** The characters `String.prototype.trim` removes: the ECMAScript WhiteSpace
      and LineTerminator code points. */
  predicate IsWhitespace(c: char)
  {
    var n := c as int;
    n == 0x09 || n == 0x0A || n == 0x0B || n == 0x0C || n == 0x0D || n == 0x20
    || n == 0xA0 || n == 0x1680 || (0x2000 <= n <= 0x200A) || n == 0x2028
    || n == 0x2029 || n == 0x202F || n == 0x205F || n == 0x3000 || n == 0xFEFF
  }

  /** The regular-expression class `\d` (without the `u` flag): ASCII digits only. */
  predicate IsDigit(c: char)
  {
    '0' <= c <= '9'
  }

  predicate AllDigits(s: string)
  {
    forall i :: 0 <= i < |s| ==> IsDigit(s[i])
  }

  predicate AllWhitespace(s: string)
  {
    forall i :: 0 <= i < |s| ==> IsWhitespace(s[i])
  }

  /** `s.startsWith('-')`. */
  predicate StartsWithDash(s: string)
  {
    |s| > 0 && s[0] == '-'
  }

  /** Number of whitespace characters at the front of `s`. */
  function LeadingWhitespace(s: string): (n: nat)
    ensures n <= |s|
    ensures forall i :: 0 <= i < n ==> IsWhitespace(s[i])
    ensures n < |s| ==> !IsWhitespace(s[n])
  {
    if s == [] || !IsWhitespace(s[0]) then 0 else 1 + LeadingWhitespace(s[1..])
  }

  /** Number of whitespace characters at the back of `s`. */
  function TrailingWhitespace(s: string): (n: nat)
    ensures n <= |s|
    ensures forall i :: |s| - n <= i < |s| ==> IsWhitespace(s[i])
    ensures n < |s| ==> !IsWhitespace(s[|s| - 1 - n])
  {
    if s == [] || !IsWhitespace(s[|s| - 1]) then 0 else 1 + TrailingWhitespace(s[..|s| - 1])
  }

  /** `s.trim()`: the longest slice of `s` that neither starts nor ends with
      whitespace, obtained by removing whitespace only. */
  function Trim(s: string): (r: string)
    ensures |r| <= |s|
    ensures r == [] <==> AllWhitespace(s)
    ensures r != [] ==> !IsWhitespace(r[0]) && !IsWhitespace(r[|r| - 1])
    ensures exists i, j ::
              (0 <= i <= j <= |s| && r == s[i..j] && AllWhitespace(s[..i]) && AllWhitespace(s[j..]))
    ensures |s| > 0 && !IsWhitespace(s[0]) ==> r != [] && r[0] == s[0]
  {
    var a := LeadingWhitespace(s);
    var t := s[a..];
    var b := TrailingWhitespace(t);
    assert AllWhitespace(s[..a]);
    assert AllWhitespace(s[a + |t| - b..]);
    assert t[..|t| - b] == s[a..a + |t| - b];
    assert a == |s| ==> AllWhitespace(s);
    assert AllWhitespace(s) && a < |s| ==> false;
    t[..|t| - b]
  }

  /** A string with no whitespace at either end is left unchanged by `Trim`. */
  lemma TrimUnchanged(s: string)
    requires s != [] && !IsWhitespace(s[0]) && !IsWhitespace(s[|s| - 1])
    ensures Trim(s) == s
  {
    var i, j :| 0 <= i <= j <= |s| && Trim(s) == s[i..j]
      && AllWhitespace(s[..i]) && AllWhitespace(s[j..]);
    if i > 0 { assert s[..i][0] == s[0]; }
    if j < |s| { assert s[j..][|s| - 1 - j] == s[|s| - 1]; }
  }

  /** Trimming twice is trimming once. */
  lemma TrimIdempotent(s: string)
    ensures Trim(Trim(s)) == Trim(s)
  {
    if Trim(s) != [] {
      TrimUnchanged(Trim(s));
    }
  }

  /** `parts.join(sep)`: the parts in order with `sep` between neighbours.
      The result opens with the first part, followed by the separator when
      there is a second. */
  function JoinWith(parts: seq<string>, sep: string): (r: string)
    ensures parts == [] ==> r == ""
    ensures |parts| == 1 ==> r == parts[0]
    ensures |parts| > 1 ==> parts[0] + sep <= r
  {
    if |parts| == 0 then ""
    else if |parts| == 1 then parts[0]
    else parts[0] + sep + JoinWith(parts[1..], sep)
  }

  /** `s.split(c)` for a one-character separator: always at least one piece. */
  function SplitOn(s: string, c: char): (r: seq<string>)
    ensures |r| >= 1
    ensures forall k :: 0 <= k < |r| ==> c !in r[k]
  {
    if s == [] then [""]
    else if s[0] == c then [""] + SplitOn(s[1..], c)
    else
      var rest := SplitOn(s[1..], c);
      [[s[0]] + rest[0]] + rest[1..]
  }

  /** Joining two non-empty runs of parts is joining each, with the
      separator between them. */
  lemma {:induction false} JoinWithConcat(a: seq<string>, b: seq<string>, sep: string)
    requires a != [] && b != []
    ensures JoinWith(a + b, sep) == JoinWith(a, sep) + sep + JoinWith(b, sep)
  {
    if |a| == 1 {
      assert (a + b)[0] == a[0] && (a + b)[1..] == b;
    } else {
      JoinWithConcat(a[1..], b, sep);
      assert (a + b)[0] == a[0] && (a + b)[1..] == a[1..] + b;
    }
  }

  /** A string without the separator is a single piece. */
  lemma {:induction false} SplitOnNoSeparator(s: string, c: char)
    requires c !in s
    ensures SplitOn(s, c) == [s]
  {
    if s != [] {
      assert c !in s[1..];
      SplitOnNoSeparator(s[1..], c);
      assert [s[0]] + s[1..] == s;
    }
  }

  /** Splitting distributes over a separator occurrence. */
  lemma {:induction false} SplitOnConcat(a: string, b: string, c: char)
    ensures SplitOn(a + [c] + b, c) == SplitOn(a, c) + SplitOn(b, c)
  {
    var s := a + [c] + b;
    if a == [] {
      assert s == [c] + b && s[1..] == b;
    } else {
      assert s[0] == a[0];
      assert s[1..] == a[1..] + [c] + b;
      SplitOnConcat(a[1..], b, c);
      var ra := SplitOn(a[1..], c);
      var sb := SplitOn(b, c);
      if a[0] == c {
        assert SplitOn(s, c) == [""] + (ra + sb);
        assert SplitOn(a, c) == [""] + ra;
      } else {
        var rest := SplitOn(s[1..], c);
        assert rest == ra + sb;
        assert SplitOn(s, c) == [[a[0]] + ra[0]] + (ra[1..] + sb);
        assert SplitOn(a, c) == [[a[0]] + ra[0]] + ra[1..];
      }
    }
  }

  /** Joining with a one-character separator that no part contains, then
      splitting on it, gives the parts back. */
  lemma {:induction false} SplitJoinRoundTrip(parts: seq<string>, c: char)
    requires |parts| >= 1
    requires forall k :: 0 <= k < |parts| ==> c !in parts[k]
    ensures SplitOn(JoinWith(parts, [c]), c) == parts
  {
    if |parts| == 1 {
      SplitOnNoSeparator(parts[0], c);
    } else {
      SplitJoinRoundTrip(parts[1..], c);
      SplitOnConcat(parts[0], JoinWith(parts[1..], [c]), c);
      SplitOnNoSeparator(parts[0], c);
      assert parts == [parts[0]] + parts[1..];
    }
  }
}
