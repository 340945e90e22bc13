/** String helpers used by the runner, the stores and the version parsers:
    prefix and substring tests, ASCII case and whitespace, trimming,
    splitting on a separator, and decimal numerals. Strings are sequences of
    Unicode scalar values; only the ASCII parts of case folding and
    whitespace are modelled. */
module Text {

  predicate StartsWith(s: string, prefix: string) {
    |prefix| <= |s| && s[..|prefix|] == prefix
  }

  predicate EndsWith(s: string, suffix: string) {
    |suffix| <= |s| && s[|s| - |suffix|..] == suffix
  }

  /** `part` occurs in `s` starting at index `i`. */
  predicate OccursAt(s: string, part: string, i: int) {
    0 <= i && i + |part| <= |s| && s[i..i + |part|] == part
  }

  /** `s` holds `part` somewhere (Rust `str::contains`, JS `includes`). */
  predicate Contains(s: string, part: string) {
    exists i | 0 <= i <= |s| - |part| :: OccursAt(s, part, i)
  }

  // ---------------------------------------------------------------------
  // ASCII case

  function LowerChar(c: char): (d: char)
    ensures 'A' <= c <= 'Z' ==> d as int == c as int + 32
    ensures !('A' <= c <= 'Z') ==> d == c
  {
    if 'A' <= c <= 'Z' then (c as int + 32) as char else c
  }

  /** JavaScript `toLowerCase`, restricted to ASCII letters. */
  function ToLower(s: string): (r: string)
    ensures |r| == |s|
    ensures forall i :: 0 <= i < |s| ==> r[i] == LowerChar(s[i])
    ensures forall i :: 0 <= i < |r| ==> !('A' <= r[i] <= 'Z')
  {
    seq(|s|, i requires 0 <= i < |s| => LowerChar(s[i]))
  }

  lemma ToLowerIdempotent(s: string)
    ensures ToLower(ToLower(s)) == ToLower(s)
  {
    var once := ToLower(s);
    assert forall i :: 0 <= i < |once| ==> LowerChar(once[i]) == once[i];
  }

  // ---------------------------------------------------------------------
  // Whitespace and trimming

  /** ASCII whitespace: space, tab, line feed, vertical tab, form feed, carriage return. */
  predicate IsSpace(c: char) {
    c == ' ' || c == '\t' || c == '\n' || c == '\r' || c == '\U{0B}' || c == '\U{0C}'
  }

  /** Drops every trailing character that `drop` selects. */
  function TrimEndBy(s: string, drop: char -> bool): (r: string)
    ensures StartsWith(s, r)
    ensures r == [] || !drop(r[|r| - 1])
    ensures forall i :: |r| <= i < |s| ==> drop(s[i])
    decreases |s|
  {
    if s != [] && drop(s[|s| - 1]) then TrimEndBy(s[..|s| - 1], drop) else s
  }

  /** Drops every leading character that `drop` selects. */
  function TrimStartBy(s: string, drop: char -> bool): (r: string)
    ensures EndsWith(s, r)
    ensures r == [] || !drop(r[0])
    ensures forall i :: 0 <= i < |s| - |r| ==> drop(s[i])
    decreases |s|
  {
    if s != [] && drop(s[0]) then TrimStartBy(s[1..], drop) else s
  }

  /** Trailing characters that are all dropped do not change the result. */
  lemma {:induction false} TrimEndByDroppedSuffix(s: string, t: string, drop: char -> bool)
    requires forall i :: 0 <= i < |t| ==> drop(t[i])
    ensures TrimEndBy(s + t, drop) == TrimEndBy(s, drop)
    decreases |t|
  {
    if t != [] {
      var u := t[..|t| - 1];
      assert (s + t)[..|s + t| - 1] == s + u;
      TrimEndByDroppedSuffix(s, u, drop);
    } else {
      assert s + t == s;
    }
  }

  /** Leading characters that are all dropped do not change the result. */
  lemma {:induction false} TrimStartByDroppedPrefix(t: string, s: string, drop: char -> bool)
    requires forall i :: 0 <= i < |t| ==> drop(t[i])
    ensures TrimStartBy(t + s, drop) == TrimStartBy(s, drop)
    decreases |t|
  {
    if t != [] {
      assert (t + s)[1..] == t[1..] + s;
      TrimStartByDroppedPrefix(t[1..], s, drop);
    } else {
      assert t + s == s;
    }
  }

  /** A text made of three parts starts with the first, ends with the last,
      and holds the middle one exactly between them. */
  lemma ThreeParts(head: string, mid: string, tail: string)
    ensures var full := head + (mid + tail);
      && |full| == |head| + |mid| + |tail|
      && StartsWith(full, head) && EndsWith(full, tail)
      && full[|head|..|full| - |tail|] == mid
  {
    var full := head + (mid + tail);
    assert full[..|head|] == head;
    assert full[|head|..] == mid + tail;
    assert full[|full| - |tail|..] == tail;
    assert full[|head|..|full| - |tail|] == (mid + tail)[..|mid|];
  }

  /** The last character kept by `TrimEndBy` is never one it drops. */
  lemma TrimEndLast(s: string)
    ensures var r := TrimEndBy(s, IsSpace);
      r == [] || !IsSpace(r[|r| - 1])
  {
  }

  /** Rust `str::trim_end`. */
  function TrimEnd(s: string): string {
    TrimEndBy(s, IsSpace)
  }

  /** Rust `str::trim`. */
  function Trim(s: string): string {
    TrimStartBy(TrimEndBy(s, IsSpace), IsSpace)
  }

  /** Rust `str::trim_matches(c)`: every leading and trailing `c` removed. */
  function TrimMatches(s: string, c: char): string {
    TrimStartBy(TrimEndBy(s, x => x == c), x => x == c)
  }

  /** One `c` on each side of a value that neither starts nor ends with `c`
      is exactly what `TrimMatches` removes. */
  lemma TrimMatchesWrapped(c: char, e: string)
    requires e != [] && e[0] != c && e[|e| - 1] != c
    ensures TrimMatches([c] + e + [c], c) == e
  {
    var drop := x => x == c;
    TrimEndByDroppedSuffix([c] + e, [c], drop);
    assert TrimEndBy([c] + e, drop) == [c] + e;
    TrimStartByDroppedPrefix([c], e, drop);
    assert TrimStartBy(e, drop) == e;
  }

  // ---------------------------------------------------------------------
  // Splitting on a separator (JS `split(c)` and Rust `split(c)` agree for a
  // single-character separator: "" splits into [""]).

  function Split(s: string, sep: char): (parts: seq<string>)
    ensures |parts| >= 1
    ensures forall i :: 0 <= i < |parts| ==> sep !in parts[i]
  {
    if s == [] then [""]
    else
      var rest := Split(s[1..], sep);
      if s[0] == sep then [""] + rest
      else [[s[0]] + rest[0]] + rest[1..]
  }

  function Join(parts: seq<string>, sep: char): string
    requires |parts| >= 1
  {
    if |parts| == 1 then parts[0] else parts[0] + [sep] + Join(parts[1..], sep)
  }

  lemma {:induction false} JoinSplit(s: string, sep: char)
    ensures Join(Split(s, sep), sep) == s
  {
    if s != [] {
      var rest := Split(s[1..], sep);
      JoinSplit(s[1..], sep);
      if s[0] == sep {
        assert Split(s, sep) == [""] + rest;
        assert ([""] + rest)[1..] == rest;
      } else {
        var parts := Split(s, sep);
        assert parts == [[s[0]] + rest[0]] + rest[1..];
        if |rest| == 1 {
          assert Join(parts, sep) == [s[0]] + rest[0];
        } else {
          assert parts[1..] == rest[1..];
          assert Join(rest, sep) == rest[0] + [sep] + Join(rest[1..], sep);
        }
      }
    }
  }

  lemma {:induction false} SplitJoin(parts: seq<string>, sep: char)
    requires |parts| >= 1
    requires forall i :: 0 <= i < |parts| ==> sep !in parts[i]
    ensures Split(Join(parts, sep), sep) == parts
    decreases |parts|, |parts[0]|
  {
    var p := parts[0];
    if p == [] {
      if |parts| > 1 {
        SplitJoin(parts[1..], sep);
        var s := Join(parts, sep);
        assert s == [sep] + Join(parts[1..], sep);
        assert s[1..] == Join(parts[1..], sep);
      }
    } else {
      var shorter := [p[1..]] + parts[1..];
      assert sep !in p[1..] by {
        forall k | 0 <= k < |p[1..]| ensures p[1..][k] != sep { assert p[1..][k] == p[k + 1]; }
      }
      SplitJoin(shorter, sep);
      var s := Join(parts, sep);
      if |parts| == 1 {
        assert Join(shorter, sep) == p[1..];
        assert s[1..] == p[1..];
      } else {
        assert shorter[1..] == parts[1..];
        assert Join(shorter, sep) == p[1..] + [sep] + Join(parts[1..], sep);
        assert s[1..] == Join(shorter, sep);
      }
      assert s[0] == p[0] && p[0] != sep;
      assert [p[0]] + p[1..] == p;
      assert [[p[0]] + p[1..]] + parts[1..] == parts;
    }
  }

  // ---------------------------------------------------------------------
  // Decimal numerals

  predicate IsDigit(c: char) {
    '0' <= c <= '9'
  }

  predicate AllDigits(s: string) {
    forall i :: 0 <= i < |s| ==> IsDigit(s[i])
  }

  /** The value of a string of decimal digits; the empty string reads as 0. */
  function DecimalValue(s: string): nat
    requires AllDigits(s)
  {
    if s == [] then 0 else DecimalValue(s[..|s| - 1]) * 10 + (s[|s| - 1] as int - '0' as int)
  }

  function DigitChar(d: nat): (c: char)
    requires d < 10
    ensures IsDigit(c) && c as int - '0' as int == d
  {
    ('0' as int + d) as char
  }

  /** Decimal rendering of a natural number, as Rust's `to_string` and `format!`
      and JavaScript's template literals print it. */
  function NatToString(n: nat): (s: string)
    ensures 1 <= |s| && AllDigits(s)
    ensures DecimalValue(s) == n
    ensures |s| > 1 ==> s[0] != '0'
  {
    if n < 10 then [DigitChar(n)]
    else
      var front := NatToString(n / 10);
      var s := front + [DigitChar(n % 10)];
      assert s[..|s| - 1] == front;
      s
  }

}
