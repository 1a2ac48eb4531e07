/**
 * The pieces of Ruby string handling the core relies on: `Integer#to_s`
 * inside string interpolation, `String#split` with a string separator, and
 * `String#downcase` on constant names.
 */
module Text {
  import opened Wrappers

  // ---------------------------------------------------------------------
  // Decimal numerals (Integer#to_s) and their parser
  // ---------------------------------------------------------------------

  predicate IsDigit(c: char) {
    '0' <= c <= '9'
  }

  predicate AllDigits(s: string) {
    forall i :: 0 <= i < |s| ==> IsDigit(s[i])
  }

  function Digit(d: nat): (c: char)
    requires d < 10
    ensures IsDigit(c) && DigitValue(c) == d
  {
    ('0' as int + d) as char
  }

  function DigitValue(c: char): (d: nat)
    requires IsDigit(c)
    ensures d < 10
  {
    c as int - '0' as int
  }

  /** The digits of `n`, most significant first, without leading zeros. */
  function NatDigits(n: nat): (s: string)
    ensures |s| > 0 && AllDigits(s)
    ensures |s| > 1 ==> s[0] != '0'
    decreases n
  {
    if n < 10 then [Digit(n)] else NatDigits(n / 10) + [Digit(n % 10)]
  }

  /** The number a string of digits denotes. */
  function NatValue(s: string): nat
    requires AllDigits(s)
  {
    if s == [] then 0 else NatValue(s[..|s| - 1]) * 10 + DigitValue(s[|s| - 1])
  }

  lemma {:induction false} NatDigitsRoundTrip(n: nat)
    ensures NatValue(NatDigits(n)) == n
  {
    if n >= 10 {
      var s := NatDigits(n);
      assert s[..|s| - 1] == NatDigits(n / 10);
      NatDigitsRoundTrip(n / 10);
    }
  }

  /** Ruby's `Integer#to_s`: a minus sign for negative numbers, then the digits. */
  function DecimalString(i: int): (s: string)
  {
    if i < 0 then "-" + NatDigits(-i) else NatDigits(i)
  }

  /** Reads back a numeral written by `DecimalString`; `None` for anything else. */
  function ParseDecimal(s: string): Option<int>
  {
    if |s| > 1 && s[0] == '-' && AllDigits(s[1..]) then Some(-(NatValue(s[1..]) as int))
    else if |s| > 0 && AllDigits(s) then Some(NatValue(s))
    else None
  }

  lemma {:induction false} DecimalRoundTrip(i: int)
    ensures ParseDecimal(DecimalString(i)) == Some(i)
  {
    if i < 0 {
      var s := DecimalString(i);
      assert s[1..] == NatDigits(-i);
      NatDigitsRoundTrip(-i);
    } else {
      NatDigitsRoundTrip(i);
    }
  }

  // ---------------------------------------------------------------------
  // Labels of the form prefix + id + separator + name
  // ---------------------------------------------------------------------

  predicate IsNumeralChar(c: char) {
    c == '-' || IsDigit(c)
  }

  /** The length of the longest prefix of `s` made of numeral characters. */
  function NumeralSpan(s: string): (k: nat)
    ensures k <= |s|
  {
    if s != [] && IsNumeralChar(s[0]) then 1 + NumeralSpan(s[1..]) else 0
  }

  lemma {:induction false} NumeralSpanOfConcat(a: string, b: string)
    requires forall i :: 0 <= i < |a| ==> IsNumeralChar(a[i])
    requires b == [] || !IsNumeralChar(b[0])
    ensures NumeralSpan(a + b) == |a|
  {
    if a != [] {
      assert (a + b)[1..] == a[1..] + b;
      NumeralSpanOfConcat(a[1..], b);
    } else {
      assert a + b == b;
    }
  }

  /** The string Ruby builds from `"#{prefix}#{id}#{sep}#{name}"`-shaped interpolation. */
  function Label(prefix: string, id: int, sep: string, name: string): string {
    prefix + DecimalString(id) + sep + name
  }

  /** Recovers the id and the name from a label; `None` when the label does not have that shape. */
  function ParseLabel(prefix: string, sep: string, text: string): Option<(int, string)> {
    if |text| < |prefix| || text[..|prefix|] != prefix then None
    else
      var rest := text[|prefix|..];
      var k := NumeralSpan(rest);
      var id := ParseDecimal(rest[..k]);
      var tail := rest[k..];
      if id.None? || |tail| < |sep| || tail[..|sep|] != sep then None
      else Some((id.value, tail[|sep|..]))
  }

  /** A label determines the id and the name it was built from, whenever the separator does not start like a numeral. */
  lemma {:induction false} LabelRoundTrip(prefix: string, id: int, sep: string, name: string)
    requires sep != [] && !IsNumeralChar(sep[0])
    ensures ParseLabel(prefix, sep, Label(prefix, id, sep, name)) == Some((id, name))
  {
    var s := Label(prefix, id, sep, name);
    var numeral := DecimalString(id);
    assert s[..|prefix|] == prefix;
    var rest := s[|prefix|..];
    assert rest == numeral + (sep + name);
    NumeralSpanOfConcat(numeral, sep + name);
    assert rest[..|numeral|] == numeral;
    assert rest[|numeral|..] == sep + name;
    DecimalRoundTrip(id);
  }

  lemma LabelInjective(prefix: string, sep: string, id1: int, name1: string, id2: int, name2: string)
    requires sep != [] && !IsNumeralChar(sep[0])
    requires Label(prefix, id1, sep, name1) == Label(prefix, id2, sep, name2)
    ensures id1 == id2 && name1 == name2
  {
    LabelRoundTrip(prefix, id1, sep, name1);
    LabelRoundTrip(prefix, id2, sep, name2);
  }

  // ---------------------------------------------------------------------
  // String#split with a string separator
  // ---------------------------------------------------------------------

  predicate OccursAt(s: string, sep: string, j: nat) {
    j + |sep| <= |s| && s[j..j + |sep|] == sep
  }

  /** Dropping the first character moves every later occurrence one place to the left. */
  lemma OccursAfterFirst(s: string, sep: string)
    requires s != []
    ensures forall j: nat :: OccursAt(s, sep, j) && j > 0 ==> OccursAt(s[1..], sep, j - 1)
    ensures forall k: nat :: OccursAt(s[1..], sep, k) ==> OccursAt(s, sep, k + 1)
  {
    forall j: nat | OccursAt(s, sep, j) && j > 0 ensures OccursAt(s[1..], sep, j - 1) {
      assert s[1..][j - 1..j - 1 + |sep|] == s[j..j + |sep|];
    }
    forall k: nat | OccursAt(s[1..], sep, k) ensures OccursAt(s, sep, k + 1) {
      assert s[1..][k..k + |sep|] == s[k + 1..k + 1 + |sep|];
    }
  }

  /** The first position at which `sep` occurs in `s`, scanning left to right. */
  function IndexOf(s: string, sep: string): (r: Option<nat>)
    requires sep != []
    ensures r.Some? ==> OccursAt(s, sep, r.value)
    ensures forall j: nat :: OccursAt(s, sep, j) ==> r.Some? && r.value <= j
  {
    if |s| < |sep| then None
    else if s[..|sep|] == sep then Some(0)
    else
      OccursAfterFirst(s, sep);
      match IndexOf(s[1..], sep)
      case None => None
      case Some(k) => Some(k + 1)
  }

  /** All the fields between occurrences of `sep`, empty ones included. */
  function Split(s: string, sep: string): (parts: seq<string>)
    requires sep != []
    ensures |parts| > 0
    decreases |s|
  {
    match IndexOf(s, sep)
    case None => [s]
    case Some(i) => [s[..i]] + Split(s[i + |sep|..], sep)
  }

  function Join(parts: seq<string>, sep: string): string
    requires |parts| > 0
  {
    if |parts| == 1 then parts[0] else parts[0] + sep + Join(parts[1..], sep)
  }

  lemma JoinCons(head: string, parts: seq<string>, sep: string)
    requires |parts| > 0
    ensures Join([head] + parts, sep) == head + sep + Join(parts, sep)
  {
    assert ([head] + parts)[1..] == parts;
  }

  lemma Reassemble(s: string, sep: string, i: nat)
    requires OccursAt(s, sep, i)
    ensures s == s[..i] + sep + s[i + |sep|..]
  {
    assert s[i..i + |sep|] == sep;
  }

  /** Splitting loses nothing: joining the fields back gives the original string. */
  lemma {:induction false} SplitJoin(s: string, sep: string)
    requires sep != []
    ensures Join(Split(s, sep), sep) == s
    decreases |s|
  {
    var r := IndexOf(s, sep);
    if r.Some? {
      var i := r.value;
      var head := s[..i];
      var tail := s[i + |sep|..];
      calc {
        Join(Split(s, sep), sep);
        Join([head] + Split(tail, sep), sep);
        { JoinCons(head, Split(tail, sep), sep); }
        head + sep + Join(Split(tail, sep), sep);
        { SplitJoin(tail, sep); }
        head + sep + tail;
        { Reassemble(s, sep, i); }
        s;
      }
    }
  }

  predicate NoChar(s: string, c: char) {
    forall i :: 0 <= i < |s| ==> s[i] != c
  }

  lemma {:induction false} IndexOfAfterFreePrefix(a: string, sep: string, b: string)
    requires sep != [] && NoChar(a, sep[0])
    ensures IndexOf(a + sep + b, sep) == Some(|a|)
  {
    var s := a + sep + b;
    assert OccursAt(s, sep, |a|) by { assert s[|a|..|a| + |sep|] == sep; }
    forall j: nat | j < |a| ensures !OccursAt(s, sep, j) {
      assert s[j] == a[j];
      assert j + |sep| <= |s| ==> s[j..j + |sep|][0] == s[j];
    }
  }

  lemma NoOccurrence(s: string, sep: string)
    requires sep != [] && NoChar(s, sep[0])
    ensures IndexOf(s, sep) == None
  {
    forall j: nat | j < |s| ensures !OccursAt(s, sep, j) {
      assert j + |sep| <= |s| ==> s[j..j + |sep|][0] == s[j];
    }
  }

  /** Splitting a joined sequence of names free of the separator's first character gives the names back. */
  lemma {:induction false} JoinSplit(parts: seq<string>, sep: string)
    requires |parts| > 0 && sep != []
    requires forall k :: 0 <= k < |parts| ==> NoChar(parts[k], sep[0])
    ensures Split(Join(parts, sep), sep) == parts
  {
    if |parts| == 1 {
      NoOccurrence(parts[0], sep);
    } else {
      var head := parts[0];
      var tail := Join(parts[1..], sep);
      calc {
        Split(Join(parts, sep), sep);
        Split(head + sep + tail, sep);
        { IndexOfAfterFreePrefix(head, sep, tail);
          assert (head + sep + tail)[..|head|] == head;
          assert (head + sep + tail)[|head| + |sep|..] == tail; }
        [head] + Split(tail, sep);
        { JoinSplit(parts[1..], sep); }
        [head] + parts[1..];
        parts;
      }
    }
  }

  /** Ruby removes the trailing empty fields from the result of `split`. */
  function DropTrailingEmpty(parts: seq<string>): (r: seq<string>)
    ensures r <= parts
    ensures r == [] || r[|r| - 1] != ""
    ensures forall k :: |r| <= k < |parts| ==> parts[k] == ""
  {
    if parts == [] || parts[|parts| - 1] != "" then parts
    else DropTrailingEmpty(parts[..|parts| - 1])
  }

  /** `s.split(sep)` for a non-empty string separator. */
  function RubySplit(s: string, sep: string): seq<string>
    requires sep != []
  {
    DropTrailingEmpty(Split(s, sep))
  }

  // ---------------------------------------------------------------------
  // String#downcase on ASCII letters
  // ---------------------------------------------------------------------

  function LowerChar(c: char): char {
    if 'A' <= c <= 'Z' then (c as int + 32) as char else c
  }

  function Downcase(s: string): (r: string)
    ensures |r| == |s|
    ensures forall i :: 0 <= i < |s| ==> r[i] == LowerChar(s[i])
  {
    if s == [] then [] else [LowerChar(s[0])] + Downcase(s[1..])
  }
}
