/** Decimal numbers in text, as the puzzle inputs write them and as Rust's
    `str::parse` and `to_string` read and print them. */
module Parse {
  import opened Wrappers

  const U32_MAX: nat := 0xFFFF_FFFF
  const U64_MAX: nat := 0xFFFF_FFFF_FFFF_FFFF
  const USIZE_MAX: nat := 0xFFFF_FFFF_FFFF_FFFF
  const I32_MIN: int := -0x8000_0000
  const I32_MAX: int := 0x7FFF_FFFF
  const I64_MIN: int := -0x8000_0000_0000_0000
  const I64_MAX: int := 0x7FFF_FFFF_FFFF_FFFF

  predicate IsDigit(c: char) {
    '0' <= c <= '9'
  }

  function DigitValue(c: char): (d: nat)
    requires IsDigit(c)
    ensures d < 10
  {
    c as int - '0' as int
  }

  function DigitChar(d: nat): (c: char)
    requires d < 10
    ensures IsDigit(c) && DigitValue(c) == d
  {
    ('0' as int + d) as char
  }

  predicate AllDigits(s: string) {
    forall i :: 0 <= i < |s| ==> IsDigit(s[i])
  }

  /** The value of a string of decimal digits, most significant first. */
  function DecimalValue(s: string): nat
    requires AllDigits(s)
    decreases |s|
  {
    if s == [] then 0 else 10 * DecimalValue(s[..|s| - 1]) + DigitValue(s[|s| - 1])
  }

  /** `to_string` of a natural number: its decimal digits without leading zeros. */
  function DecimalString(n: nat): (s: string)
    ensures 1 <= |s| && AllDigits(s)
    ensures |s| > 1 ==> s[0] != '0'
    ensures DecimalValue(s) == n
    decreases n
  {
    if n < 10 then [DigitChar(n)]
    else
      var init := DecimalString(n / 10);
      var s := init + [DigitChar(n % 10)];
      assert s[..|s| - 1] == init;
      s
  }

  /** Rust's `FromStr` for an unsigned integer type whose largest value is
      `max`: an optional `+`, then at least one digit, and a value that fits. */
  function ParseUnsigned(s: string, max: nat): (r: Option<nat>)
    ensures r.Some? ==> r.value <= max
    ensures r.Some? <==> var ds := if |s| > 0 && s[0] == '+' then s[1..] else s;
      |ds| > 0 && AllDigits(ds) && DecimalValue(ds) <= max
  {
    var digits := if |s| > 0 && s[0] == '+' then s[1..] else s;
    if |digits| > 0 && AllDigits(digits) && DecimalValue(digits) <= max then Some(DecimalValue(digits)) else None
  }

  /** Rust's `FromStr` for a signed integer type with range `min..=max`: an
      optional `+` or `-`, then at least one digit, and a value that fits. */
  function ParseSigned(s: string, min: int, max: int): (r: Option<int>)
    ensures r.Some? ==> min <= r.value <= max
  {
    var negative := |s| > 0 && s[0] == '-';
    var digits := if |s| > 0 && (s[0] == '+' || s[0] == '-') then s[1..] else s;
    if |digits| > 0 && AllDigits(digits) then
      var v: int := if negative then 0 - DecimalValue(digits) as int else DecimalValue(digits);
      if min <= v <= max then Some(v) else None
    else None
  }

  /** The value of the digits `ds`, negated when a `-` preceded them. */
  function SignedValue(negative: bool, ds: string): int
    requires AllDigits(ds)
  {
    if negative then 0 - DecimalValue(ds) as int else DecimalValue(ds)
  }

  /** Signed parsing succeeds exactly on an optional sign, then at least one
      digit, with a value in range; the value is that of the digits, negated
      after a `-`. */
  lemma ParseSignedSpec(s: string, min: int, max: int)
    ensures var ds := if |s| > 0 && (s[0] == '+' || s[0] == '-') then s[1..] else s;
      var r := ParseSigned(s, min, max);
      (r.Some? <==> |ds| > 0 && AllDigits(ds) && min <= SignedValue(|s| > 0 && s[0] == '-', ds) <= max) &&
      (r.Some? ==> r.value == SignedValue(|s| > 0 && s[0] == '-', ds))
  {
  }

  /** Without a sign, signed parsing agrees with unsigned parsing; with a
      `-`, it gives the negation of the unsigned value, bounded by `-min`. */
  lemma ParseSignedViaUnsigned(t: string, min: int, max: int)
    requires min <= 0 <= max && (|t| == 0 || (t[0] != '+' && t[0] != '-'))
    ensures ParseSigned(t, min, max) == (match ParseUnsigned(t, max) case None => None case Some(v) => Some(v as int))
    ensures ParseSigned("-" + t, min, max) == (match ParseUnsigned(t, -min) case None => None case Some(v) => Some(0 - v))
  {
    assert ("-" + t)[1..] == t;
  }

  /** `to_string` of an integer: a `-` in front of a negative one. */
  function SignedString(n: int): (s: string) {
    if n < 0 then "-" + DecimalString(-n) else DecimalString(n)
  }

  /** Parsing reads back what printing wrote. */
  lemma ParseUnsignedRoundTrip(n: nat, max: nat)
    requires n <= max
    ensures ParseUnsigned(DecimalString(n), max) == Some(n)
  {
  }

  lemma ParseSignedRoundTrip(n: int, min: int, max: int)
    requires min <= n <= max
    ensures ParseSigned(SignedString(n), min, max) == Some(n)
  {
    if n < 0 {
      assert SignedString(n)[1..] == DecimalString(-n);
    }
  }

  /** A `+` sign is accepted and changes nothing. */
  lemma ParseUnsignedPlus(s: string, max: nat)
    requires |s| > 0 && s[0] != '+'
    ensures ParseUnsigned("+" + s, max) == ParseUnsigned(s, max)
  {
    assert ("+" + s)[1..] == s;
  }

  /** `char::is_ascii_whitespace`: space, tab, line feed, form feed, carriage return. */
  predicate IsAsciiWhitespace(c: char) {
    c == ' ' || c == '\t' || c == '\n' || c as int == 12 || c == '\r'
  }

  predicate IsWord(w: string) {
    |w| > 0 && forall i :: 0 <= i < |w| ==> !IsAsciiWhitespace(w[i])
  }

  /** The words of `s` after the partial word `cur`. */
  function WordsFrom(s: string, cur: string): (r: seq<string>)
    ensures (cur == [] || IsWord(cur)) ==> forall i :: 0 <= i < |r| ==> IsWord(r[i])
    decreases |s|
  {
    if s == [] then (if cur == [] then [] else [cur])
    else if IsAsciiWhitespace(s[0]) then (if cur == [] then [] else [cur]) + WordsFrom(s[1..], [])
    else WordsFrom(s[1..], cur + [s[0]])
  }

  /** `str::split_ascii_whitespace`: the maximal runs of non-whitespace characters. */
  function Words(s: string): (r: seq<string>)
    ensures forall i :: 0 <= i < |r| ==> IsWord(r[i])
  {
    WordsFrom(s, [])
  }

  /** The words joined by single spaces. */
  function Unwords(ws: seq<string>): string {
    if ws == [] then "" else if |ws| == 1 then ws[0] else ws[0] + " " + Unwords(ws[1..])
  }

  lemma {:induction false} WordsFromWord(w: string, rest: string, cur: string)
    requires forall i :: 0 <= i < |w| ==> !IsAsciiWhitespace(w[i])
    ensures WordsFrom(w + rest, cur) == WordsFrom(rest, cur + w)
    decreases |w|
  {
    if w == [] {
      assert w + rest == rest;
      assert cur + w == cur;
    } else {
      assert (w + rest)[0] == w[0] && (w + rest)[1..] == w[1..] + rest;
      WordsFromWord(w[1..], rest, cur + [w[0]]);
      assert cur + [w[0]] + w[1..] == cur + w;
    }
  }

  /** Splitting text made of words and single spaces gives the words back. */
  lemma {:induction false} WordsOfUnwords(ws: seq<string>)
    requires forall i :: 0 <= i < |ws| ==> IsWord(ws[i])
    ensures Words(Unwords(ws)) == ws
    decreases |ws|
  {
    var empty: string := [];
    if |ws| == 1 {
      WordsFromWord(ws[0], [], []);
      assert ws[0] + [] == ws[0];
      assert empty + ws[0] == ws[0];
    } else if |ws| > 1 {
      var rest := Unwords(ws[1..]);
      WordsOfUnwords(ws[1..]);
      assert Unwords(ws) == ws[0] + (" " + rest);
      WordsFromWord(ws[0], " " + rest, []);
      assert empty + ws[0] == ws[0];
      assert (" " + rest)[1..] == rest;
      assert WordsFrom(" " + rest, ws[0]) == [ws[0]] + WordsFrom(rest, []);
      assert ws == [ws[0]] + ws[1..];
    }
  }

  /** Each word parsed as a signed integer, collected; `None` as soon as one fails. */
  function ParseSignedAll(ws: seq<string>, min: int, max: int): (r: Option<seq<int>>)
    ensures r.Some? <==> forall i :: 0 <= i < |ws| ==> ParseSigned(ws[i], min, max).Some?
    ensures r.Some? ==> |r.value| == |ws| && forall i :: 0 <= i < |ws| ==> Some(r.value[i]) == ParseSigned(ws[i], min, max)
  {
    if ws == [] then Some([])
    else
      match ParseSigned(ws[0], min, max)
      case None => None
      case Some(v) =>
        match ParseSignedAll(ws[1..], min, max)
        case None => None
        case Some(rest) => Some([v] + rest)
  }

  /** `str::split_once`: the text before the first separator and the text
      after it, or `None` when there is no separator. */
  function SplitOnce<T(==)>(s: seq<T>, sep: T): (r: Option<(seq<T>, seq<T>)>)
    ensures r.Some? <==> sep in s
    ensures r.Some? ==> s == r.value.0 + [sep] + r.value.1 && sep !in r.value.0
  {
    if s == [] then None
    else if s[0] == sep then Some(([], s[1..]))
    else
      match SplitOnce(s[1..], sep)
      case None => None
      case Some(parts) => Some(([s[0]] + parts.0, parts.1))
  }

  /** `str::split` on one separator character (and `slice::split` on one
      separator item): the pieces between separators,
      empty ones included, so there is always one more piece than separators. */
  function SplitOn<T(==)>(s: seq<T>, sep: T): (r: seq<seq<T>>)
    ensures |r| >= 1
    decreases |s|
  {
    if s == [] then [[]]
    else
      var rest := SplitOn(s[..|s| - 1], sep);
      var c := s[|s| - 1];
      if c == sep then rest + [[]] else rest[..|rest| - 1] + [rest[|rest| - 1] + [c]]
  }

  /** No piece holds the separator. */
  lemma {:induction false} SplitOnFree<T>(s: seq<T>, sep: T)
    ensures forall i :: 0 <= i < |SplitOn(s, sep)| ==> sep !in SplitOn(s, sep)[i]
    decreases |s|
  {
    if s != [] {
      SplitOnFree(s[..|s| - 1], sep);
      var rest := SplitOn(s[..|s| - 1], sep);
      var c := s[|s| - 1];
      if c != sep {
        assert sep !in rest[|rest| - 1] + [c];
      }
    }
  }

  /** The pieces joined back with the separator between them. */
  function JoinWith<T>(parts: seq<seq<T>>, sep: T): seq<T>
    decreases |parts|
  {
    if parts == [] then []
    else if |parts| == 1 then parts[0]
    else JoinWith(parts[..|parts| - 1], sep) + [sep] + parts[|parts| - 1]
  }

  lemma {:induction false} JoinLastPiece<T>(parts: seq<seq<T>>, sep: T, c: T)
    requires |parts| >= 1
    ensures JoinWith(parts[..|parts| - 1] + [parts[|parts| - 1] + [c]], sep) == JoinWith(parts, sep) + [c]
  {
    var q := parts[..|parts| - 1] + [parts[|parts| - 1] + [c]];
    assert q[..|q| - 1] == parts[..|parts| - 1];
  }

  /** Joining the pieces gives the text back. */
  lemma {:induction false} JoinOfSplit<T>(s: seq<T>, sep: T)
    ensures JoinWith(SplitOn(s, sep), sep) == s
    decreases |s|
  {
    if s != [] {
      JoinOfSplit(s[..|s| - 1], sep);
      JoinSplitStep(s, sep);
    }
  }

  /** One more character keeps the split-then-join round trip. */
  lemma JoinSplitStep<T>(s: seq<T>, sep: T)
    requires s != [] && JoinWith(SplitOn(s[..|s| - 1], sep), sep) == s[..|s| - 1]
    ensures JoinWith(SplitOn(s, sep), sep) == s
  {
    LastBack(s);
    if s[|s| - 1] == sep {
      JoinSplitSeparator(s, sep);
    } else {
      JoinSplitItem(s, sep);
    }
  }

  /** A trailing separator opens an empty piece. */
  lemma JoinSplitSeparator<T>(s: seq<T>, sep: T)
    requires s != [] && s[|s| - 1] == sep
    ensures JoinWith(SplitOn(s, sep), sep) == JoinWith(SplitOn(s[..|s| - 1], sep), sep) + [sep]
  {
    JoinEmptyPiece(SplitOn(s[..|s| - 1], sep), sep);
  }

  /** Any other trailing item extends the last piece. */
  lemma JoinSplitItem<T>(s: seq<T>, sep: T)
    requires s != [] && s[|s| - 1] != sep
    ensures JoinWith(SplitOn(s, sep), sep) == JoinWith(SplitOn(s[..|s| - 1], sep), sep) + [s[|s| - 1]]
  {
    JoinLastPiece(SplitOn(s[..|s| - 1], sep), sep, s[|s| - 1]);
  }

  /** An empty last piece joins as a trailing separator. */
  lemma JoinEmptyPiece<T>(parts: seq<seq<T>>, sep: T)
    requires |parts| >= 1
    ensures JoinWith(parts + [[]], sep) == JoinWith(parts, sep) + [sep]
  {
    var q := parts + [[]];
    assert q[..|q| - 1] == parts;
  }

  lemma LastBack<T>(s: seq<T>)
    requires |s| > 0
    ensures s[..|s| - 1] + [s[|s| - 1]] == s
  {
  }

  /** Splitting pieces free of the separator, joined by it, gives the pieces back. */
  lemma {:induction false} SplitOfJoin<T>(parts: seq<seq<T>>, sep: T)
    requires |parts| >= 1 && forall i :: 0 <= i < |parts| ==> sep !in parts[i]
    ensures SplitOn(JoinWith(parts, sep), sep) == parts
    decreases |parts|, |parts[|parts| - 1]|
  {
    var last := parts[|parts| - 1];
    if last == [] {
      if |parts| == 1 {
        assert JoinWith(parts, sep) == [];
      } else {
        var init := parts[..|parts| - 1];
        SplitOfJoin(init, sep);
        var j := JoinWith(init, sep) + [sep];
        assert JoinWith(parts, sep) == j;
        assert j[..|j| - 1] == JoinWith(init, sep);
        assert parts == init + [[]];
      }
    } else {
      var shorter := parts[..|parts| - 1] + [last[..|last| - 1]];
      assert shorter[|shorter| - 1] + [last[|last| - 1]] == last;
      assert shorter[..|shorter| - 1] + [last] == parts;
      SplitOfJoin(shorter, sep);
      JoinLastPiece(shorter, sep, last[|last| - 1]);
      var j := JoinWith(parts, sep);
      assert j[..|j| - 1] == JoinWith(shorter, sep);
      assert last[|last| - 1] != sep by {
        assert last[|last| - 1] in last;
      }
    }
  }

  /** Two separator-free pieces joined by the separator split back into those two. */
  lemma SplitTwo(x: string, y: string, sep: char)
    requires sep !in x && sep !in y
    ensures SplitOn(x + [sep] + y, sep) == [x, y]
  {
    var parts := [x, y];
    assert parts[..1] == [x];
    assert JoinWith(parts, sep) == x + [sep] + y;
    SplitOfJoin(parts, sep);
  }

  /** Decimal digits never contain a non-digit separator. */
  lemma NoSeparatorInDecimal(n: nat, sep: char)
    requires !IsDigit(sep)
    ensures sep !in DecimalString(n)
  {
  }

  /** Each piece parsed as an unsigned integer, collected; `None` as soon as one fails. */
  function ParseUnsignedAll(ws: seq<string>, max: nat): (r: Option<seq<nat>>)
    ensures r.Some? <==> forall i :: 0 <= i < |ws| ==> ParseUnsigned(ws[i], max).Some?
    ensures r.Some? ==> |r.value| == |ws| && forall i :: 0 <= i < |ws| ==> Some(r.value[i]) == ParseUnsigned(ws[i], max)
  {
    if ws == [] then Some([])
    else
      match ParseUnsigned(ws[0], max)
      case None => None
      case Some(v) =>
        match ParseUnsignedAll(ws[1..], max)
        case None => None
        case Some(rest) => Some([v] + rest)
  }
}
