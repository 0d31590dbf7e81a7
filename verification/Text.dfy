/** The string operations of the Go library that names, lists and cursors go through. */
module Text {
  import opened Wrappers

  /** White space as strings.TrimSpace knows it. */
  predicate IsSpace(c: char) {
    var u := c as int;
    || 9 <= u <= 13 || u == 0x20 || u == 0x85 || u == 0xA0 || u == 0x1680 || 0x2000 <= u <= 0x200A
    || u == 0x2028 || u == 0x2029 || u == 0x202F || u == 0x205F || u == 0x3000
  }

  /** Blanks, tabs and line ends are space; letters, digits and punctuation are not. */
  lemma SpaceExamples(c: char)
    ensures IsSpace(' ') && IsSpace('\t') && IsSpace('\n') && IsSpace('\r')
    ensures 0x21 <= c as int <= 0x7E ==> !IsSpace(c)
  {
  }

  function TrimLeft(s: string): (r: string)
    ensures r == [] || !IsSpace(r[0])
  {
    if s != [] && IsSpace(s[0]) then TrimLeft(s[1..]) else s
  }

  function TrimRight(s: string): (r: string)
    ensures r == [] || !IsSpace(r[|r| - 1])
    ensures |r| <= |s| && r == s[..|r|]
  {
    if s != [] && IsSpace(s[|s| - 1]) then TrimRight(s[..|s| - 1]) else s
  }

  /** Nothing to trim. */
  predicate Trimmed(s: string) {
    s == [] || (!IsSpace(s[0]) && !IsSpace(s[|s| - 1]))
  }

  /** strings.TrimSpace: the result has no outer space, and text without any is left alone. */
  function Trim(s: string): (r: string)
    ensures Trimmed(r)
    ensures Trimmed(s) ==> r == s
  {
    TrimRight(TrimLeft(s))
  }

  /** Trimming takes off the space on both sides, and nothing else. */
  lemma TrimIsMiddle(s: string) returns (i: nat, j: nat)
    ensures i <= j <= |s| && Trim(s) == s[i..j]
    ensures forall k :: 0 <= k < i || j <= k < |s| ==> IsSpace(s[k])
  {
    i := LeftSpace(s);
    var rest := s[i..];
    var n := RightSpace(rest);
    j := i + n;
    assert rest[..n] == s[i..j];
    assert forall k :: j <= k < |s| ==> s[k] == rest[k - i];
  }

  lemma {:induction false} LeftSpace(s: string) returns (i: nat)
    ensures i <= |s| && TrimLeft(s) == s[i..] && forall k :: 0 <= k < i ==> IsSpace(s[k])
  {
    i := 0;
    if s != [] && IsSpace(s[0]) {
      var n := LeftSpace(s[1..]);
      i := n + 1;
      assert forall k :: 1 <= k < i ==> s[k] == s[1..][k - 1];
    }
  }

  lemma {:induction false} RightSpace(s: string) returns (j: nat)
    ensures j <= |s| && TrimRight(s) == s[..j] && forall k :: j <= k < |s| ==> IsSpace(s[k])
  {
    j := |s|;
    if s != [] && IsSpace(s[|s| - 1]) {
      var short := s[..|s| - 1];
      j := RightSpace(short);
      assert short[..j] == s[..j];
      forall k | j <= k < |s| ensures IsSpace(s[k]) {
        assert k < |short| ==> s[k] == short[k];
      }
    }
  }

  function TrimEach(xs: seq<string>): seq<string> {
    seq(|xs|, i requires 0 <= i < |xs| => Trim(xs[i]))
  }

  lemma {:induction false} TrimLeftOnlyDrops(s: string, c: char)
    requires c in TrimLeft(s)
    ensures c in s
  {
    if s != [] && IsSpace(s[0]) {
      TrimLeftOnlyDrops(s[1..], c);
    }
  }

  lemma TrimOnlyDrops(s: string, c: char)
    requires c in Trim(s)
    ensures c in s
  {
    TrimLeftOnlyDrops(s, c);
  }

  /** strings.Split on one character: one part more than there are separators. */
  function Split(s: string, sep: char): (parts: seq<string>)
    ensures |parts| > 0
    ensures forall i :: 0 <= i < |parts| ==> sep !in parts[i]
  {
    if s == [] then [[]]
    else
      var rest := Split(s[1..], sep);
      if s[0] == sep then [[]] + rest else [[s[0]] + rest[0]] + rest[1..]
  }

  function Join(parts: seq<string>, sep: char): string {
    if parts == [] then [] else if |parts| == 1 then parts[0] else parts[0] + [sep] + Join(parts[1..], sep)
  }

  lemma {:induction false} SplitOnePart(s: string, sep: char)
    requires sep !in s
    ensures Split(s, sep) == [s]
  {
    if s != [] {
      SplitOnePart(s[1..], sep);
      assert s == [s[0]] + s[1..];
    }
  }

  lemma {:induction false} SplitFirstPart(s: string, rest: string, sep: char)
    requires sep !in s
    ensures Split(s + [sep] + rest, sep) == [s] + Split(rest, sep)
  {
    var all := s + [sep] + rest;
    if s == [] {
      assert all[1..] == rest;
    } else {
      assert all[1..] == s[1..] + [sep] + rest;
      SplitFirstPart(s[1..], rest, sep);
      assert s == [s[0]] + s[1..];
    }
  }

  /** Joining and splitting again gives the parts back, when none holds the separator. */
  lemma {:induction false} SplitUndoesJoin(parts: seq<string>, sep: char)
    requires parts != []
    requires forall i :: 0 <= i < |parts| ==> sep !in parts[i]
    ensures Split(Join(parts, sep), sep) == parts
  {
    if |parts| == 1 {
      SplitOnePart(parts[0], sep);
    } else {
      SplitUndoesJoin(parts[1..], sep);
      SplitFirstPart(parts[0], Join(parts[1..], sep), sep);
      assert parts == [parts[0]] + parts[1..];
    }
  }

  /** Splitting loses nothing: joining gives the text back. */
  lemma {:induction false} JoinUndoesSplit(s: string, sep: char)
    ensures Join(Split(s, sep), sep) == s
  {
    if s != [] {
      var rest := Split(s[1..], sep);
      JoinUndoesSplit(s[1..], sep);
      assert s == [s[0]] + s[1..];
      if s[0] == sep {
        assert ([[]] + rest)[1..] == rest;
      } else {
        var head := [s[0]] + rest[0];
        assert ([head] + rest[1..])[1..] == rest[1..];
        if |rest| > 1 {
          assert Join([head] + rest[1..], sep) == head + [sep] + Join(rest[1..], sep);
        }
      }
    }
  }

  // ---------------------------------------------------------------- decimal numbers

  predicate IsDigit(c: char) {
    '0' <= c <= '9'
  }

  predicate AllDigits(s: string) {
    forall i :: 0 <= i < |s| ==> IsDigit(s[i])
  }

  function Digits(n: nat): (s: string)
    ensures s != [] && AllDigits(s)
  {
    var last := ['0' + (n % 10) as char];
    if n < 10 then last else Digits(n / 10) + last
  }

  function Value(s: string): nat
    requires AllDigits(s)
  {
    if s == [] then 0 else 10 * Value(s[..|s| - 1]) + (s[|s| - 1] - '0') as nat
  }

  lemma {:induction false} ValueUndoesDigits(n: nat)
    ensures Value(Digits(n)) == n
  {
    if n < 10 {
      assert Digits(n)[..0] == [];
    } else {
      ValueUndoesDigits(n / 10);
      assert Digits(n)[..|Digits(n)| - 1] == Digits(n / 10);
    }
  }

  const MAX_INT64: int := 0x7FFF_FFFF_FFFF_FFFF

  /** strconv.ParseInt in base ten for 64 bits (strconv.Atoi on a 64-bit machine). */
  function ParseInt(s: string): (r: Option<int>)
    ensures r.Some? ==> -MAX_INT64 - 1 <= r.value <= MAX_INT64
  {
    var signed := s != [] && (s[0] == '+' || s[0] == '-');
    var digits := if signed then s[1..] else s;
    if digits == [] || !AllDigits(digits) then None
    else
      var v: int := Value(digits);
      var n := if signed && s[0] == '-' then -v else v;
      if -MAX_INT64 - 1 <= n <= MAX_INT64 then Some(n) else None
  }

  lemma ParseUndoesDigits(n: nat)
    requires n <= MAX_INT64
    ensures ParseInt(Digits(n)) == Some(n)
  {
    ValueUndoesDigits(n);
    assert IsDigit(Digits(n)[0]);
  }

  /** A number out of range is refused. */
  lemma ParseUnsigned(n: nat)
    ensures ParseInt(Digits(n)) == if n <= 0x7FFF_FFFF_FFFF_FFFF then Some(n) else None
  {
    hide Value, Digits;
    ValueUndoesDigits(n);
    assert IsDigit(Digits(n)[0]);
  }

  /** A sign is read as one; there is one more negative number than there are positive ones. */
  lemma ParseSigned(n: nat)
    ensures ParseInt("+" + Digits(n)) == if n <= 0x7FFF_FFFF_FFFF_FFFF then Some(n) else None
    ensures ParseInt("-" + Digits(n)) == if n <= 0x8000_0000_0000_0000 then Some(0 - n) else None
    ensures ParseInt("") == ParseInt("-") == None
  {
    hide Value, Digits;
    ValueUndoesDigits(n);
    var plus, minus := "+" + Digits(n), "-" + Digits(n);
    assert plus[0] == '+' && plus[1..] == Digits(n);
    assert minus[0] == '-' && minus[1..] == Digits(n);
  }
}
