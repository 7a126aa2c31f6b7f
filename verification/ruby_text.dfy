/**
 * The Ruby String primitives that the library leans on, written out for ASCII text:
 * character classes of Ruby regular expressions, `downcase`, `strip`, `chomp`,
 * `to_i`, `Integer#to_s`, `start_with?`/`end_with?`, and the line-by-line view of a
 * `StringIO` (`readline` and `each_line`).
 */
module RubyText {

  datatype Option<+T> = None | Some(value: T)

  // ---------------------------------------------------------------------------
  // Character classes (Ruby regular expressions are ASCII-only for these classes)

  /** `\s`: space, tab, line feed, carriage return, form feed, vertical tab */
  predicate IsSpace(c: char) {
    c == ' ' || c == '\t' || c == '\n' || c == '\r' || c == '\U{C}' || c == '\U{B}'
  }

  /** `\d` */
  predicate IsDigit(c: char) { '0' <= c <= '9' }

  /** `[A-Z]` */
  predicate IsUpper(c: char) { 'A' <= c <= 'Z' }

  /** `\w`: letters, digits and underscore */
  predicate IsWordChar(c: char) {
    'a' <= c <= 'z' || IsUpper(c) || IsDigit(c) || c == '_'
  }

  /** the characters `String#strip` removes: the `\s` characters and NUL */
  predicate IsStripChar(c: char) { IsSpace(c) || c == '\0' }

  // ---------------------------------------------------------------------------
  // downcase

  function DowncaseChar(c: char): (r: char)
    ensures !IsUpper(r)
    ensures IsUpper(c) ==> r as int == c as int + 32
    ensures !IsUpper(c) ==> r == c
  {
    if IsUpper(c) then (c as int + 32) as char else c
  }

  /** `String#downcase` on ASCII text */
  function Downcase(s: string): (r: string)
    ensures |r| == |s|
    ensures forall i :: 0 <= i < |s| ==> r[i] == DowncaseChar(s[i])
  {
    seq(|s|, i requires 0 <= i < |s| => DowncaseChar(s[i]))
  }

  /** `[a-z]` */
  predicate IsLower(c: char) { 'a' <= c <= 'z' }

  function UpcaseChar(c: char): (r: char)
    ensures !IsLower(r)
    ensures IsLower(c) ==> r as int == c as int - 32
    ensures !IsLower(c) ==> r == c
  {
    if IsLower(c) then (c as int - 32) as char else c
  }

  /** `String#upcase` on ASCII text */
  function Upcase(s: string): (r: string)
    ensures |r| == |s|
    ensures forall i :: 0 <= i < |s| ==> r[i] == UpcaseChar(s[i])
  {
    seq(|s|, i requires 0 <= i < |s| => UpcaseChar(s[i]))
  }

  predicate NoUpper(s: string) {
    forall i :: 0 <= i < |s| ==> !IsUpper(s[i])
  }

  lemma DowncaseNoUpper(s: string)
    ensures NoUpper(Downcase(s))
  {
  }

  // ---------------------------------------------------------------------------
  // strip and chomp

  function StripLeft(s: string): (r: string)
    ensures r == [] || !IsStripChar(r[0])
    ensures |r| <= |s| && r == s[|s| - |r|..]
  {
    if s != [] && IsStripChar(s[0]) then StripLeft(s[1..]) else s
  }

  function StripRight(s: string): (r: string)
    ensures r == [] || !IsStripChar(r[|r| - 1])
    ensures |r| <= |s| && r == s[..|r|]
  {
    if s != [] && IsStripChar(s[|s| - 1]) then StripRight(s[..|s| - 1]) else s
  }

  /** `String#strip`: drop the leading and trailing whitespace and NUL characters */
  function Strip(s: string): (r: string)
    ensures r == [] || (!IsStripChar(r[0]) && !IsStripChar(r[|r| - 1]))
    ensures |r| <= |s|
  {
    StripRight(StripLeft(s))
  }

  /** A string with no leading or trailing strip characters is its own strip. */
  lemma StripOfStripped(s: string)
    requires s == [] || (!IsStripChar(s[0]) && !IsStripChar(s[|s| - 1]))
    ensures Strip(s) == s
  {
  }

  /** Stripping a value that ends with the carriage return of its line gives the value back. */
  lemma StripDropsCr(v: string)
    requires v != [] && !IsStripChar(v[0]) && !IsStripChar(v[|v| - 1])
    ensures Strip(v + "\r") == v
  {
    var s := v + "\r";
    assert StripLeft(s) == s;
    assert s[..|s| - 1] == v;
    assert StripRight(s) == StripRight(v);
  }

  /** `String#chomp` with no argument: remove one trailing "\r\n", "\n" or "\r" */
  function Chomp(s: string): (r: string)
    ensures r == s || (|s| >= 1 && r == s[..|s| - 1]) || (|s| >= 2 && r == s[..|s| - 2])
    ensures |s| >= 2 && s[|s| - 2..] == "\r\n" ==> r == s[..|s| - 2]
    ensures s == [] || (s[|s| - 1] != '\n' && s[|s| - 1] != '\r') ==> r == s
  {
    if |s| >= 2 && s[|s| - 2] == '\r' && s[|s| - 1] == '\n' then s[..|s| - 2]
    else if s != [] && (s[|s| - 1] == '\n' || s[|s| - 1] == '\r') then s[..|s| - 1]
    else s
  }

  // ---------------------------------------------------------------------------
  // prefixes and suffixes

  predicate StartsWith(s: string, p: string) { |p| <= |s| && s[..|p|] == p }

  predicate EndsWith(s: string, p: string) { |p| <= |s| && s[|s| - |p|..] == p }

  // ---------------------------------------------------------------------------
  // Decimal numbers: Integer#to_s and String#to_i

  function DigitValue(c: char): nat requires IsDigit(c) { c as int - '0' as int }

  function DigitChar(d: nat): (c: char)
    requires d < 10
    ensures IsDigit(c) && DigitValue(c) == d
  {
    ('0' as int + d) as char
  }

  /** The value of a string of decimal digits, most significant first. */
  function DigitsValue(s: string): nat
    requires forall i :: 0 <= i < |s| ==> IsDigit(s[i])
  {
    if s == [] then 0 else DigitsValue(s[..|s| - 1]) * 10 + DigitValue(s[|s| - 1])
  }

  /** The decimal digits of a natural number, with no leading zero. */
  function NatToDigits(n: nat): (s: string)
    ensures |s| >= 1
    ensures forall i :: 0 <= i < |s| ==> IsDigit(s[i])
    ensures DigitsValue(s) == n
    decreases n
  {
    if n < 10 then [DigitChar(n)]
    else
      var s := NatToDigits(n / 10) + [DigitChar(n % 10)];
      assert s[..|s| - 1] == NatToDigits(n / 10);
      s
  }

  /** `Integer#to_s` */
  function IntToS(n: int): (s: string)
    ensures |s| >= 1
  {
    if n < 0 then "-" + NatToDigits(-n) else NatToDigits(n)
  }

  /** The character classes that the library's regular expressions use. */
  datatype CharClass =
    | Space        // \s
    | Digit        // \d
    | Word         // \w
    | WordDash     // [\w-]
    | WordDotDash  // [\w\.-]
    | DigitDash    // [\d-]
    | HexDash      // [0-9a-fA-F-]

  predicate InClass(c: char, k: CharClass) {
    match k
    case Space => IsSpace(c)
    case Digit => IsDigit(c)
    case Word => IsWordChar(c)
    case WordDash => IsWordChar(c) || c == '-'
    case WordDotDash => IsWordChar(c) || c == '.' || c == '-'
    case DigitDash => IsDigit(c) || c == '-'
    case HexDash => IsDigit(c) || 'a' <= c <= 'f' || 'A' <= c <= 'F' || c == '-'
  }

  predicate AllIn(s: string, i: nat, j: nat, k: CharClass)
    requires i <= j <= |s|
  {
    forall t :: i <= t < j ==> InClass(s[t], k)
  }

  /** The end of the longest run of class-`k` characters that starts at `i` (a greedy `k*`). */
  function RunEnd(s: string, i: nat, k: CharClass): (j: nat)
    requires i <= |s|
    ensures i <= j <= |s|
    ensures AllIn(s, i, j, k)
    ensures j == |s| || !InClass(s[j], k)
    decreases |s| - i
  {
    if i < |s| && InClass(s[i], k) then RunEnd(s, i + 1, k) else i
  }

  /** A run is determined by its characters: any maximal run from `i` ends where RunEnd says. */
  lemma {:induction false} RunEndIs(s: string, i: nat, j: nat, k: CharClass)
    requires i <= j <= |s|
    requires AllIn(s, i, j, k)
    requires j == |s| || !InClass(s[j], k)
    ensures RunEnd(s, i, k) == j
    decreases j - i
  {
    if i < j { RunEndIs(s, i + 1, j, k); }
  }

  /** Runs do not depend on the text before them. */
  lemma RunEndShift(a: string, b: string, i: nat, k: CharClass)
    requires i <= |b|
    ensures RunEnd(a + b, |a| + i, k) == |a| + RunEnd(b, i, k)
  {
    var j := RunEnd(b, i, k);
    var s := a + b;
    assert AllIn(s, |a| + i, |a| + j, k) by {
      forall t | |a| + i <= t < |a| + j ensures InClass(s[t], k) { assert s[t] == b[t - |a|]; }
    }
    if j < |b| { assert s[|a| + j] == b[j]; }
    RunEndIs(s, |a| + i, |a| + j, k);
  }

  /** A run that covers `[i, j)` ends at `j` or later. */
  lemma {:induction false} RunEndCovers(s: string, i: nat, j: nat, k: CharClass)
    requires i <= j <= |s| && AllIn(s, i, j, k)
    ensures j <= RunEnd(s, i, k)
    decreases j - i
  {
    if i < j { RunEndCovers(s, i + 1, j, k); }
  }

  /**
   * `String#to_i`: skip leading whitespace, read an optional sign and the longest run
   * of decimal digits that follows; a string with no such digits converts to 0. Ruby
   * also reads a single `_` between two digits as a separator (`"1_0".to_i == 10`); the
   * model stops at the `_`, which no text read here contains.
   */
  function ToI(s: string): int {
    var i := RunEnd(s, 0, Space);
    var negative := i < |s| && s[i] == '-';
    var j := if i < |s| && (s[i] == '-' || s[i] == '+') then i + 1 else i;
    var k := RunEnd(s, j, Digit);
    var v: int := DigitsValue(s[j..k]);
    if negative then -v else v
  }

  /** `to_i` reads back what `to_s` wrote: the decimal round trip. */
  lemma IntToSRoundTrip(n: int)
    ensures ToI(IntToS(n)) == n
  {
    var s := IntToS(n);
    RunEndIs(s, 0, 0, Space);
    if n < 0 {
      var d := NatToDigits(-n);
      assert s[1..] == d;
      RunEndIs(s, 1, |s|, Digit);
      assert s[0] == '-';
      assert s[1..|s|] == d;
      assert DigitsValue(d) == -n;
    } else {
      RunEndIs(s, 0, |s|, Digit);
      assert s[0..|s|] == s;
    }
  }

  // ---------------------------------------------------------------------------
  // StringIO: readline and each_line

  /** The index of the first '\n' at or after `i`, or |s| when there is none. */
  function LineEnd(s: string, i: nat): (j: nat)
    requires i <= |s|
    ensures i <= j <= |s|
    ensures forall k :: i <= k < j ==> s[k] != '\n'
    ensures j == |s| || s[j] == '\n'
    decreases |s| - i
  {
    if i < |s| && s[i] != '\n' then LineEnd(s, i + 1) else i
  }

  /** Length of the first line of `s`, its '\n' included when it has one. */
  function FirstLineLength(s: string): (n: nat)
    ensures n <= |s|
    ensures s != [] ==> n > 0
  {
    var j := LineEnd(s, 0);
    if j < |s| then j + 1 else j
  }

  /**
   * `StringIO#readline` on a fresh stream: the first line (with its '\n') and what
   * remains; `None` stands for the EOFError that an empty stream raises.
   */
  function ReadLine(s: string): (r: Option<(string, string)>)
    ensures r.None? <==> s == []
    ensures r.Some? ==> r.value.0 + r.value.1 == s && r.value.0 != []
    ensures r.Some? ==> forall k :: 0 <= k < |r.value.0| - 1 ==> r.value.0[k] != '\n'
  {
    if s == [] then None
    else
      var n := FirstLineLength(s);
      assert s[..n] + s[n..] == s;
      Some((s[..n], s[n..]))
  }

  /** `each_line`: the lines of `s`, each ending with its '\n' except perhaps the last. */
  function Lines(s: string): (ls: seq<string>)
    ensures forall i :: 0 <= i < |ls| ==> ls[i] != []
    decreases |s|
  {
    if s == [] then []
    else
      var n := FirstLineLength(s);
      [s[..n]] + Lines(s[n..])
  }

  /** Concatenating the lines gives the text back. */
  lemma LineEndShift(a: string, b: string, i: nat)
    requires i <= |b|
    ensures LineEnd(a + b, |a| + i) == |a| + LineEnd(b, i)
  {
    var j := LineEnd(b, i);
    var s := a + b;
    forall t | |a| + i <= t < |a| + j ensures s[t] != '\n' { assert s[t] == b[t - |a|]; }
    if j < |b| { assert s[|a| + j] == b[j]; }
    LineEndAt(s, |a| + i, |a| + j);
  }

  lemma {:induction false} LinesConcat(s: string)
    ensures Concat(Lines(s)) == s
    decreases |s|
  {
    if s != [] {
      var n := FirstLineLength(s);
      LinesConcat(s[n..]);
      assert s[..n] + s[n..] == s;
    }
  }

  function Concat(ls: seq<string>): string {
    if ls == [] then [] else ls[0] + Concat(ls[1..])
  }

  /** A text made of a newline-free line, its '\n', and more text splits there. */
  lemma LinesCons(line: string, rest: string)
    requires forall k :: 0 <= k < |line| ==> line[k] != '\n'
    ensures Lines(line + "\n" + rest) == [line + "\n"] + Lines(rest)
  {
    var s := line + "\n" + rest;
    LineEndAt(s, 0, |line|);
    assert s[..|line| + 1] == line + "\n";
    assert s[|line| + 1..] == rest;
  }

  /** A line end is determined by the characters: the first '\n' at or after `i`. */
  lemma {:induction false} LineEndAt(s: string, i: nat, j: nat)
    requires i <= j <= |s|
    requires forall k :: i <= k < j ==> s[k] != '\n'
    requires j == |s| || s[j] == '\n'
    ensures LineEnd(s, i) == j
    decreases j - i
  {
    if i < j { LineEndAt(s, i + 1, j); }
  }

  /** `readline` on a stream that starts with a complete line returns that line and leaves the rest. */
  lemma ReadLineOf(line: string, rest: string)
    requires line != [] && line[|line| - 1] == '\n'
    requires forall k :: 0 <= k < |line| - 1 ==> line[k] != '\n'
    ensures ReadLine(line + rest) == Some((line, rest))
  {
    var s := line + rest;
    LineEndAt(s, 0, |line| - 1);
    assert s[..|line|] == line;
    assert s[|line|..] == rest;
  }

  // ---------------------------------------------------------------------------
  // Hash

  /** `Hash#[]`: nil for a missing key. */
  function HashGet<K, V>(h: map<K, V>, k: K): (r: Option<V>)
    ensures r.Some? <==> k in h
    ensures r.Some? ==> r.value == h[k]
  {
    if k in h then Some(h[k]) else None
  }

  /** `x.to_s` of a description field: a missing one (nil) gives "". */
  function FieldText(description: map<string, string>, key: string): (t: string)
    ensures key in description ==> t == description[key]
    ensures key !in description ==> t == ""
  {
    if key in description then description[key] else ""
  }

  // ---------------------------------------------------------------------------
  // nil

  /** `x ||= d` */
  function OrElse<T>(x: Option<T>, d: T): (r: T)
    ensures x.Some? ==> r == x.value
    ensures x.None? ==> r == d
  {
    if x.Some? then x.value else d
  }

  /** `value.to_s` where `value` may be nil (`nil.to_s` is ""). */
  function OrEmpty(v: Option<string>): (s: string)
    ensures v.Some? ==> s == v.value
    ensures v.None? ==> s == ""
  {
    if v.Some? then v.value else ""
  }

  /** `value.to_i` where `value` may be nil (`nil.to_i` is 0). */
  function NilToI(v: Option<string>): int {
    if v.Some? then ToI(v.value) else 0
  }

  // ---------------------------------------------------------------------------
  // `match(/(\d+)/)`: the leftmost run of decimal digits

  /** The first index at or after `i` that holds a digit, or |s| when there is none. */
  function DigitRunStart(s: string, i: nat): (j: nat)
    requires i <= |s|
    ensures i <= j <= |s|
    ensures forall k :: i <= k < j ==> !IsDigit(s[k])
    ensures j == |s| || IsDigit(s[j])
    decreases |s| - i
  {
    if i < |s| && !IsDigit(s[i]) then DigitRunStart(s, i + 1) else i
  }

  lemma {:induction false} DigitRunStartIs(s: string, i: nat, j: nat)
    requires i <= j <= |s|
    requires forall k :: i <= k < j ==> !IsDigit(s[k])
    requires j == |s| || IsDigit(s[j])
    ensures DigitRunStart(s, i) == j
    decreases j - i
  {
    if i < j { DigitRunStartIs(s, i + 1, j); }
  }

  /** `$1` of `s.match(/(\d+)/)`: the leftmost digit run, taken whole; None is the nil match of a string without digits. */
  function FirstDigits(s: string): (d: Option<string>)
    ensures d.None? <==> forall k :: 0 <= k < |s| ==> !IsDigit(s[k])
    ensures d.Some? ==> d.value != [] && forall k :: 0 <= k < |d.value| ==> IsDigit(d.value[k])
  {
    var i := DigitRunStart(s, 0);
    if i == |s| then None
    else
      var j := RunEnd(s, i, Digit);
      assert forall k :: i <= k < j ==> IsDigit(s[k]);
      Some(s[i..j])
  }

  /** Text without digits, a digit run, and a non-digit: the run is what the match captures. */
  lemma FirstDigitsOf(prefix: string, digits: string, rest: string)
    requires forall k :: 0 <= k < |prefix| ==> !IsDigit(prefix[k])
    requires digits != [] && forall k :: 0 <= k < |digits| ==> IsDigit(digits[k])
    requires rest == [] || !IsDigit(rest[0])
    ensures FirstDigits(prefix + digits + rest) == Some(digits)
  {
    var s := prefix + digits + rest;
    var i := |prefix|;
    var j := i + |digits|;
    assert s[i] == digits[0];
    DigitRunStartIs(s, 0, i);
    assert AllIn(s, i, j, Digit) by {
      forall t | i <= t < j ensures InClass(s[t], Digit) { assert s[t] == digits[t - i]; }
    }
    if rest != [] { assert s[j] == rest[0]; }
    RunEndIs(s, i, j, Digit);
    assert s[i..j] == digits;
  }

  /** `to_i` of a digit string is its value. */
  lemma ToIOfDigits(d: string)
    requires d != [] && forall k :: 0 <= k < |d| ==> IsDigit(d[k])
    ensures ToI(d) == DigitsValue(d)
  {
    RunEndIs(d, 0, 0, Space);
    RunEndIs(d, 0, |d|, Digit);
    assert d[0..|d|] == d;
  }

  // ---------------------------------------------------------------------------
  // Array

  /**
   * `Array#delete(e)` (and `delete_if { |x| x == e }`): every occurrence of `e` goes, the
   * others stay as many times; `ArrayDeleteKeepsOrder` states that they stay in order.
   */
  function ArrayDelete<T(==)>(s: seq<T>, e: T): (r: seq<T>)
    ensures e !in r && forall x :: x in r ==> x in s
    ensures forall x :: x in s && x != e ==> multiset(r)[x] == multiset(s)[x]
  {
    if s == [] then []
    else
      assert s == [s[0]] + s[1..];
      (if s[0] == e then [] else [s[0]]) + ArrayDelete(s[1..], e)
  }

  /** Deleting from a concatenation deletes from each part: the kept elements stay in their order. */
  lemma {:induction false} ArrayDeleteKeepsOrder<T>(a: seq<T>, b: seq<T>, e: T)
    ensures ArrayDelete(a + b, e) == ArrayDelete(a, e) + ArrayDelete(b, e)
  {
    if a == [] {
      assert a + b == b;
    } else {
      var head := if a[0] == e then [] else [a[0]];
      ArrayDeleteKeepsOrder(a[1..], b, e);
      calc {
        ArrayDelete(a + b, e);
        { assert (a + b)[0] == a[0] && (a + b)[1..] == a[1..] + b; }
        head + ArrayDelete(a[1..] + b, e);
        head + (ArrayDelete(a[1..], e) + ArrayDelete(b, e));
        (head + ArrayDelete(a[1..], e)) + ArrayDelete(b, e);
        ArrayDelete(a, e) + ArrayDelete(b, e);
      }
    }
  }
}
