/** The string functions of Go's library that the model relies on. */
module Text {
  import opened Wrappers
  import opened BigEndian

  /** A character in front of what has been split: it starts a new part or extends the first. */
  function Extend(c: char, sep: char, rest: seq<string>): (parts: seq<string>)
    requires |rest| >= 1
    ensures |parts| >= 1
  {
    if c == sep then [""] + rest else [[c] + rest[0]] + rest[1..]
  }

  /** strings.Split with a one-character separator. */
  function Split(s: string, sep: char): (parts: seq<string>)
    ensures |parts| >= 1
  {
    if s == "" then [""] else Extend(s[0], sep, Split(s[1..], sep))
  }

  lemma ExtendAppend(c: char, sep: char, left: seq<string>, right: seq<string>)
    requires |left| >= 1
    ensures Extend(c, sep, left + right) == Extend(c, sep, left) + right
  {
    assert (left + right)[0] == left[0] && (left + right)[1..] == left[1..] + right;
  }

  lemma TailOf(a: string, b: string)
    requires a != ""
    ensures (a + b)[0] == a[0] && (a + b)[1..] == a[1..] + b
  {
  }

  lemma {:induction false} SplitAt(a: string, sep: char, b: string)
    ensures Split(a + [sep] + b, sep) == Split(a, sep) + Split(b, sep)
  {
    assert a + [sep] + b == a + ([sep] + b);
    if a == "" {
      assert ([sep] + b)[1..] == b;
    } else {
      SplitAt(a[1..], sep, b);
      TailOf(a, [sep] + b);
      assert a[1..] + [sep] + b == a[1..] + ([sep] + b);
      ExtendAppend(a[0], sep, Split(a[1..], sep), Split(b, sep));
    }
  }

  lemma {:induction false} SplitWithout(s: string, sep: char)
    requires sep !in s
    ensures Split(s, sep) == [s]
  {
    if s != "" {
      SplitWithout(s[1..], sep);
      assert s == [s[0]] + s[1..];
    }
  }

  lemma {:induction false} PartsHaveNoSeparator(s: string, sep: char)
    ensures forall p | p in Split(s, sep) :: sep !in p
  {
    if s != "" {
      PartsHaveNoSeparator(s[1..], sep);
    }
  }

  function Join(parts: seq<string>, sep: char): string
    requires |parts| >= 1
  {
    if |parts| == 1 then parts[0] else parts[0] + [sep] + Join(parts[1..], sep)
  }

  lemma {:induction false} SplitOfJoin(parts: seq<string>, sep: char)
    requires |parts| >= 1 && forall p | p in parts :: sep !in p
    ensures Split(Join(parts, sep), sep) == parts
  {
    SplitWithout(parts[0], sep);
    if |parts| > 1 {
      SplitAt(parts[0], sep, Join(parts[1..], sep));
      SplitOfJoin(parts[1..], sep);
      assert parts == [parts[0]] + parts[1..];
    }
  }

  lemma {:induction false} JoinOfSplit(s: string, sep: char)
    ensures Join(Split(s, sep), sep) == s
  {
    if s != "" {
      JoinOfSplit(s[1..], sep);
      JoinOfExtend(s[0], sep, Split(s[1..], sep));
      assert s == [s[0]] + s[1..];
    }
  }

  lemma JoinOfExtend(c: char, sep: char, rest: seq<string>)
    requires |rest| >= 1
    ensures Join(Extend(c, sep, rest), sep) == [c] + Join(rest, sep)
  {
    var all := Extend(c, sep, rest);
    if c == sep {
      assert all[1..] == rest;
    } else {
      assert all[1..] == rest[1..];
    }
  }

  /** There is one part more than there are separators. */
  lemma {:induction false} PartsCount(s: string, sep: char)
    ensures |Split(s, sep)| == multiset(s)[sep] + 1
  {
    if s != "" {
      PartsCount(s[1..], sep);
      assert s == [s[0]] + s[1..];
      assert multiset([s[0]])[sep] == if s[0] == sep then 1 else 0;
    }
  }

  /** strings.Contains. */
  predicate Contains(s: string, t: string) {
    t <= s || (s != "" && Contains(s[1..], t))
  }

  lemma {:induction false} OccurrenceIsFound(a: string, t: string, b: string)
    ensures Contains(a + t + b, t)
  {
    if a == "" {
      assert a + t + b == t + b;
    } else {
      OccurrenceIsFound(a[1..], t, b);
      assert (a + t + b)[1..] == a[1..] + t + b;
    }
  }

  lemma {:induction false} FoundIsOccurrence(s: string, t: string) returns (a: string, b: string)
    requires Contains(s, t)
    ensures s == a + t + b
  {
    if t <= s {
      a, b := "", s[|t|..];
    } else {
      a, b := FoundIsOccurrence(s[1..], t);
      a := [s[0]] + a;
    }
  }

  // ---------------------------------------------------------------- hexadecimal

  predicate IsHexDigit(c: char) {
    '0' <= c <= '9' || 'a' <= c <= 'f' || 'A' <= c <= 'F'
  }

  predicate AllHex(s: string) {
    forall c | c in s :: IsHexDigit(c)
  }

  function DigitValue(c: char): (d: int)
    requires IsHexDigit(c)
    ensures 0 <= d < 16
  {
    if c <= '9' then c as int - '0' as int
    else if c >= 'a' then c as int - 'a' as int + 10
    else c as int - 'A' as int + 10
  }

  function HexDigit(d: int): (c: char)
    requires 0 <= d < 16
    ensures IsHexDigit(c) && DigitValue(c) == d
  {
    if d < 10 then ('0' as int + d) as char else ('a' as int + d - 10) as char
  }

  /** hex.EncodeToString. */
  function HexEncode(b: seq<byte>): string {
    if b == [] then "" else [HexDigit(b[0] / 16), HexDigit(b[0] % 16)] + HexEncode(b[1..])
  }

  /** hex.DecodeString. */
  function HexDecode(s: string): Option<seq<byte>> {
    if s == "" then Some([])
    else if |s| == 1 || !IsHexDigit(s[0]) || !IsHexDigit(s[1]) then None
    else
      var rest := HexDecode(s[2..]);
      if rest.None? then None else Some([16 * DigitValue(s[0]) + DigitValue(s[1])] + rest.value)
  }

  lemma {:induction false} HexRoundTrip(b: seq<byte>)
    ensures |HexEncode(b)| == 2 * |b| && AllHex(HexEncode(b))
    ensures HexDecode(HexEncode(b)) == Some(b)
  {
    if b != [] {
      HexRoundTrip(b[1..]);
      assert HexEncode(b)[2..] == HexEncode(b[1..]);
      assert b == [b[0]] + b[1..];
    }
  }

  const DIGITS := "0123456789abcdef"

  /** Digits in either case stand for their place in the row of digits; those printed are the
      lower-case ones. */
  lemma DigitsAre(c: char)
    ensures IsHexDigit(c) <==> c in DIGITS || c in "ABCDEF"
    ensures IsHexDigit(c) ==> DIGITS[DigitValue(c)] == (if 'A' <= c <= 'F' then (c as int + 32) as char else c)
    ensures forall d | 0 <= d < 16 :: HexDigit(d) == DIGITS[d]
  {
    if IsHexDigit(c) {
      var d := DigitValue(c);
      assert d == 0 || d == 1 || d == 2 || d == 3 || d == 4 || d == 5 || d == 6 || d == 7 || d >= 8;
    }
  }

  /** What decodes: pairs of digits, high one first. */
  lemma {:induction false} HexDecodesWhen(s: string)
    ensures HexDecode(s).Some? <==> |s| % 2 == 0 && AllHex(s)
    ensures HexDecode(s).Some? ==>
      && |HexDecode(s).value| == |s| / 2
      && forall i | 0 <= i < |s| / 2 ::
           HexDecode(s).value[i] == 16 * DigitValue(s[2 * i]) + DigitValue(s[2 * i + 1])
  {
    if |s| >= 2 {
      HexDecodesWhen(s[2..]);
      assert s == [s[0], s[1]] + s[2..];
      forall i | 1 <= i < |s| / 2 ensures s[2 * i] == s[2..][2 * (i - 1)] && s[2 * i + 1] == s[2..][2 * (i - 1) + 1] {
      }
    } else if |s| == 1 {
      assert HexDecode(s) == None;
    }
  }
}
