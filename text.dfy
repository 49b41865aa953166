/**
 * The JavaScript string built-ins the pages rely on, written out:
 * `String.prototype.trim`, `split(',')`, the `split/map(trim)/filter` chain
 * that turns comma-separated text into a list, string concatenation in a loop,
 * and `parseInt` with its default radix.
 */
module Text {
  import Wrappers

  /**
   * The code points ECMAScript's `trim` removes: WhiteSpace (TAB, VT, FF, SP,
   * NBSP, ZWNBSP and every Zs code point) and LineTerminator (LF, CR, LS, PS).
   */
  predicate IsSpace(c: char) {
    c in SpaceChars || '\U{2000}' <= c <= '\U{200A}'
  }

  const SpaceChars: set<char> := {
    '\t', '\n', '\U{B}', '\U{C}', '\r', ' ', '\U{A0}', '\U{1680}',
    '\U{2028}', '\U{2029}', '\U{202F}', '\U{205F}', '\U{3000}', '\U{FEFF}'
  }

  /** How many white-space characters `s` starts with. */
  function LeadingSpaces(s: string): (n: nat)
    ensures n <= |s|
    ensures forall i :: 0 <= i < n ==> IsSpace(s[i])
    ensures n < |s| ==> !IsSpace(s[n])
  {
    if s != [] && IsSpace(s[0]) then 1 + LeadingSpaces(s[1..]) else 0
  }
  /** How many white-space characters `s` ends with. */
  function TrailingSpaces(s: string): (n: nat)
    ensures n <= |s|
    ensures forall i :: |s| - n <= i < |s| ==> IsSpace(s[i])
    ensures n < |s| ==> !IsSpace(s[|s| - 1 - n])
  {
    if s != [] && IsSpace(s[|s| - 1]) then 1 + TrailingSpaces(s[..|s| - 1]) else 0
  }
  /** `s.trimStart()`. */
  function TrimStart(s: string): string { s[LeadingSpaces(s)..] }
  /**
   * `s.trim()`: the infix of `s` left after removing the white space at both ends;
   * empty exactly when `s` is all white space, otherwise it starts and ends with a
   * character that is not white space.
   */
  function Trim(s: string): (r: string)
    ensures var k := LeadingSpaces(s);
      && k + |r| <= |s| && r == s[k..k + |r|]
      && (forall i :: 0 <= i < k ==> IsSpace(s[i]))
      && (forall i :: k + |r| <= i < |s| ==> IsSpace(s[i]))
    ensures r == [] <==> forall i :: 0 <= i < |s| ==> IsSpace(s[i])
    ensures r != [] ==> !IsSpace(r[0]) && !IsSpace(r[|r| - 1])
  {
    var k := LeadingSpaces(s);
    var t := s[k..];
    var e := TrailingSpaces(t);
    var r := t[..|t| - e];
    assert r == s[k..k + |r|];
    assert forall i :: k + |r| <= i < |s| ==> IsSpace(s[i]) by {
      forall i | k + |r| <= i < |s| ensures IsSpace(s[i]) { assert s[i] == t[i - k]; }
    }
    assert r != [] ==> r[0] == s[k] && r[|r| - 1] == t[|t| - 1 - e];
    r
  }
  /** A string `trim` leaves alone. */
  predicate IsTrimmed(s: string) {
    s == [] || (!IsSpace(s[0]) && !IsSpace(s[|s| - 1]))
  }

  lemma TrimOfTrimmed(s: string)
    requires IsTrimmed(s)
    ensures Trim(s) == s
  {
  }

  /** Trimming twice is trimming once. */
  lemma TrimIdempotent(s: string)
    ensures Trim(Trim(s)) == Trim(s)
  {
    TrimOfTrimmed(Trim(s));
  }

  /**
   * `s.split(sep)` for a one-character separator: the maximal separator-free
   * pieces between occurrences of `sep`, always at least one (`"".split(',')` is `[""]`).
   */
  function Split(s: string, sep: char): (r: seq<string>)
    ensures |r| >= 1
    ensures forall i :: 0 <= i < |r| ==> sep !in r[i]
  {
    if s == [] then [[]]
    else
      var rest := Split(s[1..], sep);
      if s[0] == sep then [[]] + rest
      else [[s[0]] + rest[0]] + rest[1..]
  }

  /** `xs.join(sep)`. */
  function Join(xs: seq<string>, sep: char): string {
    if xs == [] then []
    else if |xs| == 1 then xs[0]
    else xs[0] + [sep] + Join(xs[1..], sep)
  }

  /** Splitting and joining again gives back the text. */
  lemma {:induction false} JoinSplit(s: string, sep: char)
    ensures Join(Split(s, sep), sep) == s
  {
    if s != [] {
      var rest := Split(s[1..], sep);
      JoinSplit(s[1..], sep);
      if s[0] == sep {
        assert Split(s, sep) == [[]] + rest;
        assert ([[]] + rest)[1..] == rest;
      } else {
        var r := Split(s, sep);
        assert r == [[s[0]] + rest[0]] + rest[1..];
        if |rest| == 1 {
          assert r == [[s[0]] + rest[0]];
        } else {
          assert r[1..] == rest[1..];
          assert Join(rest, sep) == rest[0] + [sep] + Join(rest[1..], sep);
        }
      }
    }
  }

  lemma {:induction false} SplitWithoutSep(a: string, sep: char)
    requires sep !in a
    ensures Split(a, sep) == [a]
  {
    if a != [] {
      assert a[0] != sep && sep !in a[1..] by { assert a == [a[0]] + a[1..]; }
      SplitWithoutSep(a[1..], sep);
      assert [a[0]] + a[1..] == a;
    }
  }

  lemma {:induction false} SplitAtSep(a: string, b: string, sep: char)
    requires sep !in a
    ensures Split(a + [sep] + b, sep) == [a] + Split(b, sep)
  {
    if a == [] {
      assert [] + [sep] + b == [sep] + b;
      assert ([sep] + b)[1..] == b;
    } else {
      assert (a + [sep] + b)[1..] == a[1..] + [sep] + b;
      SplitAtSep(a[1..], b, sep);
      assert [a[0]] + a[1..] == a;
    }
  }

  /** Joining separator-free pieces and splitting again gives back the pieces. */
  lemma {:induction false} SplitJoin(xs: seq<string>, sep: char)
    requires |xs| >= 1
    requires forall i :: 0 <= i < |xs| ==> sep !in xs[i]
    ensures Split(Join(xs, sep), sep) == xs
  {
    if |xs| == 1 {
      SplitWithoutSep(xs[0], sep);
    } else {
      SplitJoin(xs[1..], sep);
      SplitAtSep(xs[0], Join(xs[1..], sep), sep);
      assert [xs[0]] + xs[1..] == xs;
    }
  }

  /** `xs.map(s => s.trim())`. */
  function TrimAll(xs: seq<string>): seq<string>
  {
    seq(|xs|, i requires 0 <= i < |xs| => Trim(xs[i]))
  }

  /** `xs.filter(s => s)`: keeps the non-empty (truthy) strings, in order. */
  function NonEmpty(xs: seq<string>): (r: seq<string>)
    ensures |r| <= |xs|
    ensures forall x :: x in r <==> x in xs && x != []
    ensures forall x :: x != [] ==> multiset(r)[x] == multiset(xs)[x]
  {
    if xs == [] then []
    else
      assert xs == [xs[0]] + xs[1..];
      (if xs[0] == [] then [] else [xs[0]]) + NonEmpty(xs[1..])
  }

  /** Filtering a concatenation filters each part in turn, so the order is kept. */
  lemma {:induction false} NonEmptyAppend(a: seq<string>, b: seq<string>)
    ensures NonEmpty(a + b) == NonEmpty(a) + NonEmpty(b)
  {
    if a != [] {
      NonEmptyAppend(a[1..], b);
      assert (a + b)[0] == a[0];
      assert (a + b)[1..] == a[1..] + b;
    } else {
      assert a + b == b;
    }
  }

  /** An item the comma-list parser can produce. */
  predicate IsItem(x: string) {
    x != [] && ',' !in x && IsTrimmed(x)
  }

  /** Trims each field and keeps the non-empty results, in order. */
  function ItemsOf(fields: seq<string>): (r: seq<string>)
    ensures forall x :: x in r ==> x != [] && IsTrimmed(x)
  {
    if fields == [] then []
    else
      var t := Trim(fields[0]);
      (if t == [] then [] else [t]) + ItemsOf(fields[1..])
  }

  /** `ItemsOf` is the composition the source writes: map trim, then filter. */
  lemma {:induction false} ItemsOfIsTrimThenFilter(fields: seq<string>)
    ensures ItemsOf(fields) == NonEmpty(TrimAll(fields))
  {
    if fields != [] {
      ItemsOfIsTrimThenFilter(fields[1..]);
      assert TrimAll(fields)[1..] == TrimAll(fields[1..]);
    }
  }

  lemma {:induction false} ItemsOfKeepsOut(fields: seq<string>, c: char)
    requires forall i :: 0 <= i < |fields| ==> c !in fields[i]
    ensures forall x :: x in ItemsOf(fields) ==> c !in x
  {
    if fields != [] {
      TrimKeepsOut(fields[0], c);
      ItemsOfKeepsOut(fields[1..], c);
    }
  }

  /**
   * `text.split(',').map(s => s.trim()).filter(s => s)`: every item is non-empty,
   * comma-free and trimmed.
   */
  function Items(text: string): (r: seq<string>)
    ensures forall x :: x in r ==> IsItem(x)
  {
    ItemsOfKeepsOut(Split(text, ','), ',');
    ItemsOf(Split(text, ','))
  }

  lemma TrimAllMembership(fields: seq<string>)
    ensures forall x :: x in TrimAll(fields) <==> exists f :: f in fields && x == Trim(f)
  {
    var trimmed := TrimAll(fields);
    forall x ensures x in trimmed <==> exists f :: f in fields && x == Trim(f) {
      if x in trimmed {
        var i :| 0 <= i < |trimmed| && trimmed[i] == x;
        assert fields[i] in fields;
      }
      if exists f :: f in fields && x == Trim(f) {
        var f :| f in fields && x == Trim(f);
        var i :| 0 <= i < |fields| && fields[i] == f;
        assert trimmed[i] == x;
      }
    }
  }

  /** The items are exactly the non-empty trimmed comma-separated fields. */
  lemma ItemsAreTrimmedFields(text: string)
    ensures forall x :: x in Items(text) <==> x != [] && exists f :: f in Split(text, ',') && x == Trim(f)
  {
    var fields := Split(text, ',');
    ItemsOfIsTrimThenFilter(fields);
    TrimAllMembership(fields);
    assert Items(text) == NonEmpty(TrimAll(fields));
  }

  /** Trimming never brings in a character the text did not have. */
  lemma TrimKeepsOut(s: string, c: char)
    requires c !in s
    ensures c !in Trim(s)
  {
  }

  lemma {:induction false} NonEmptyOfNonEmpty(xs: seq<string>)
    requires forall i :: 0 <= i < |xs| ==> xs[i] != []
    ensures NonEmpty(xs) == xs
  {
    if xs != [] {
      NonEmptyOfNonEmpty(xs[1..]);
      assert [xs[0]] + xs[1..] == xs;
    }
  }

  lemma TrimAllOfTrimmed(xs: seq<string>)
    requires forall i :: 0 <= i < |xs| ==> IsTrimmed(xs[i])
    ensures TrimAll(xs) == xs
  {
    forall i | 0 <= i < |xs| ensures Trim(xs[i]) == xs[i] {
      TrimOfTrimmed(xs[i]);
    }
  }

  /** Items written back as `a,b,c` parse to the same list: the parser loses no item. */
  lemma ItemsOfJoin(xs: seq<string>)
    requires forall i :: 0 <= i < |xs| ==> IsItem(xs[i])
    ensures Items(Join(xs, ',')) == xs
  {
    if xs == [] {
      ItemsOfEmpty();
    } else {
      var text := Join(xs, ',');
      ItemsOfIsTrimThenFilter(xs);
      assert Split(text, ',') == xs by { SplitJoin(xs, ','); }
      assert TrimAll(xs) == xs by { TrimAllOfTrimmed(xs); }
      assert NonEmpty(xs) == xs by { NonEmptyOfNonEmpty(xs); }
    }
  }

  lemma ItemsOfEmpty()
    ensures Items([]) == []
  {
    assert Split([], ',') == [[]];
    assert TrimAll([[]]) == [[]];
  }

  /** Concatenation of a list of strings, as `+=` in a loop builds it. */
  function Concat(parts: seq<string>): string {
    if parts == [] then [] else Concat(parts[..|parts| - 1]) + parts[|parts| - 1]
  }

  // ---- parseInt ----

  predicate IsDecimalDigit(c: char) { '0' <= c <= '9' }

  predicate IsHexDigit(c: char) {
    IsDecimalDigit(c) || ('a' <= c <= 'f') || ('A' <= c <= 'F')
  }

  function DigitValue(c: char): (v: nat)
    requires IsHexDigit(c)
    ensures v < 16
    ensures IsDecimalDigit(c) ==> v < 10
  {
    if IsDecimalDigit(c) then (c as int - '0' as int)
    else if 'a' <= c <= 'f' then (c as int - 'a' as int) + 10
    else (c as int - 'A' as int) + 10
  }

  predicate IsDigitOf(c: char, radix: nat) {
    if radix == 16 then IsHexDigit(c) else IsDecimalDigit(c)
  }

  /** The longest prefix of `s` made of digits of the radix. */
  function DigitPrefix(s: string, radix: nat): (d: string)
    ensures |d| <= |s| && d == s[..|d|]
    ensures forall i :: 0 <= i < |d| ==> IsDigitOf(d[i], radix)
    ensures |d| < |s| ==> !IsDigitOf(s[|d|], radix)
  {
    if s != [] && IsDigitOf(s[0], radix) then [s[0]] + DigitPrefix(s[1..], radix) else []
  }

  /** The value of a digit string in the radix, most significant digit first. */
  function DigitsValue(d: string, radix: nat): nat
    requires radix == 10 || radix == 16
    requires forall i :: 0 <= i < |d| ==> IsDigitOf(d[i], radix)
  {
    if d == [] then 0
    else
      var high := d[..|d| - 1];
      assert forall i :: 0 <= i < |high| ==> IsDigitOf(high[i], radix) by {
        forall i | 0 <= i < |high| ensures IsDigitOf(high[i], radix) { assert high[i] == d[i]; }
      }
      assert IsDigitOf(d[|d| - 1], radix);
      var v := DigitsValue(high, radix);
      (if radix == 16 then v * 16 else v * 10) + DigitValue(d[|d| - 1])
  }

  /** `s` after its leading white space and at most one `+` or `-` sign. */
  function Unsigned(s: string): string {
    var t := TrimStart(s);
    if t != [] && (t[0] == '-' || t[0] == '+') then t[1..] else t
  }

  /** Whether the text after the sign starts with `0x` or `0X`, which selects radix 16. */
  predicate HexPrefixed(u: string) {
    |u| >= 2 && u[0] == '0' && (u[1] == 'x' || u[1] == 'X')
  }

  function RadixOf(u: string): nat {
    if HexPrefixed(u) then 16 else 10
  }

  /** The text where the digits are read: after the sign and any `0x` prefix. */
  function Numeral(u: string): string {
    if HexPrefixed(u) then u[2..] else u
  }

  /**
   * `parseInt(s)` without a radix: leading white space is skipped, one `+` or `-`
   * is taken as the sign, a `0x`/`0X` prefix selects radix 16, and the longest run
   * of digits that follows is the value; `None` stands for `NaN`, which is the
   * result exactly when no digit of the radix comes right after the sign and prefix.
   */
  function ParseInt(s: string): (r: Wrappers.Option<int>)
    ensures var u := Unsigned(s);
      r.None? <==> Numeral(u) == [] || !IsDigitOf(Numeral(u)[0], RadixOf(u))
    ensures r.Some? && r.value < 0 ==> TrimStart(s) != [] && TrimStart(s)[0] == '-'
  {
    var t := TrimStart(s);
    var negative := t != [] && t[0] == '-';
    var u := Unsigned(s);
    var radix := RadixOf(u);
    var digits := DigitPrefix(Numeral(u), radix);
    if digits == [] then Wrappers.None
    else
      var magnitude: int := DigitsValue(digits, radix);
      Wrappers.Some(if negative then -magnitude else magnitude)
  }

  /** The decimal text of a natural number, as `String(n)` writes it. */
  function DecimalText(n: nat): (s: string)
    ensures s != []
    ensures forall i :: 0 <= i < |s| ==> IsDecimalDigit(s[i])
  {
    var digit := ['0' + (n % 10) as char];
    if n < 10 then digit else DecimalText(n / 10) + digit
  }

  lemma {:induction false} DecimalValue(n: nat)
    ensures DigitsValue(DecimalText(n), 10) == n
  {
    var s := DecimalText(n);
    if n >= 10 {
      DecimalValue(n / 10);
      assert s[..|s| - 1] == DecimalText(n / 10);
    }
  }

  lemma {:induction false} DigitPrefixOfDigits(s: string, radix: nat)
    requires forall i :: 0 <= i < |s| ==> IsDigitOf(s[i], radix)
    ensures DigitPrefix(s, radix) == s
  {
    if s != [] {
      DigitPrefixOfDigits(s[1..], radix);
      assert [s[0]] + s[1..] == s;
    }
  }

  /**
   * The decimal text of a number, followed by text that does not start with a digit
   * (nor with `x` or `X` after a lone `0`), carries no hexadecimal prefix.
   */
  lemma DecimalNotHex(n: nat, rest: string)
    requires rest == [] || !IsDecimalDigit(rest[0])
    requires n == 0 && rest != [] ==> rest[0] != 'x' && rest[0] != 'X'
    ensures !HexPrefixed(DecimalText(n) + rest)
  {
    var d := DecimalText(n);
    if n >= 10 {
      assert |d| >= 2 && (d + rest)[1] == d[1];
    }
  }

  /** What `parseInt` does with decimal text followed by text that stops the digit run. */
  lemma ParseIntOfDecimalThen(n: nat, rest: string)
    requires rest == [] || !IsDecimalDigit(rest[0])
    requires n == 0 && rest != [] ==> rest[0] != 'x' && rest[0] != 'X'
    ensures ParseInt(DecimalText(n) + rest) == Wrappers.Some(n)
    ensures var negated: int := -(n as int); ParseInt("-" + (DecimalText(n) + rest)) == Wrappers.Some(negated)
  {
    var d := DecimalText(n);
    var u := d + rest;
    DecimalNotHex(n, rest);
    DigitPrefixStops(d, rest, 10);
    DecimalValue(n);
    assert u[0] == d[0];
    assert LeadingSpaces(u) == 0;
    assert TrimStart(u) == u && Unsigned(u) == u;
    assert Numeral(u) == u && RadixOf(u) == 10;
    var s := "-" + u;
    assert LeadingSpaces(s) == 0;
    assert TrimStart(s) == s && s[1..] == u && Unsigned(s) == u;
  }

  /** `parseInt` reads back the decimal text of every natural number. */
  lemma ParseIntOfDecimal(n: nat)
    ensures ParseInt(DecimalText(n)) == Wrappers.Some(n)
  {
    ParseIntOfDecimalThen(n, []);
    assert DecimalText(n) + [] == DecimalText(n);
  }

  /** A minus sign in front of the decimal text negates the value. */
  lemma ParseIntOfNegative(n: nat)
    ensures var negated: int := -(n as int); ParseInt("-" + DecimalText(n)) == Wrappers.Some(negated)
  {
    ParseIntOfDecimalThen(n, []);
    assert DecimalText(n) + [] == DecimalText(n);
  }

  /** White space in front of a string adds to its leading white space. */
  lemma {:induction false} LeadingSpacesAppend(w: string, s: string)
    requires forall i :: 0 <= i < |w| ==> IsSpace(w[i])
    ensures LeadingSpaces(w + s) == |w| + LeadingSpaces(s)
  {
    if w != [] {
      LeadingSpacesAppend(w[1..], s);
      assert (w + s)[0] == w[0];
      assert (w + s)[1..] == w[1..] + s;
    } else {
      assert w + s == s;
    }
  }

  /** White space before the number changes nothing. */
  lemma ParseIntSkipsSpaces(w: string, s: string)
    requires forall i :: 0 <= i < |w| ==> IsSpace(w[i])
    ensures ParseInt(w + s) == ParseInt(s)
  {
    LeadingSpacesAppend(w, s);
    var k := LeadingSpaces(s);
    assert (w + s)[|w| + k..] == s[k..];
    assert TrimStart(w + s) == TrimStart(s);
    assert Unsigned(w + s) == Unsigned(s);
  }

  /** The digit run stops at the first character that is not a digit of the radix. */
  lemma {:induction false} DigitPrefixStops(d: string, rest: string, radix: nat)
    requires forall i :: 0 <= i < |d| ==> IsDigitOf(d[i], radix)
    requires rest == [] || !IsDigitOf(rest[0], radix)
    ensures DigitPrefix(d + rest, radix) == d
  {
    if d != [] {
      DigitPrefixStops(d[1..], rest, radix);
      assert (d + rest)[1..] == d[1..] + rest;
      assert [d[0]] + d[1..] == d;
    }
  }

  /**
   * Complete `parseInt` text: leading white space, an optional sign and an optional
   * `0x`/`0X` prefix followed by one or more digits of the radix, and nothing else.
   */
  predicate IsNumeral(s: string) {
    var u := Unsigned(s);
    Numeral(u) != [] && forall i :: 0 <= i < |Numeral(u)| ==> IsDigitOf(Numeral(u)[i], RadixOf(u))
  }

  /** Text after the leading white space is kept when more is appended. */
  lemma {:induction false} LeadingSpacesBefore(s: string, rest: string)
    requires LeadingSpaces(s) < |s|
    ensures LeadingSpaces(s + rest) == LeadingSpaces(s)
  {
    assert (s + rest)[0] == s[0];
    if IsSpace(s[0]) {
      LeadingSpacesBefore(s[1..], rest);
      assert (s + rest)[1..] == s[1..] + rest;
    }
  }

  /** Appending to text that is not all white space appends after its leading white space. */
  lemma TrimStartAppend(s: string, rest: string)
    requires TrimStart(s) != []
    ensures TrimStart(s + rest) == TrimStart(s) + rest
  {
    LeadingSpacesBefore(s, rest);
    var k := LeadingSpaces(s);
    assert (s + rest)[k..] == s[k..] + rest;
  }

  /** Appending to text that is not all white space appends after its sign. */
  lemma UnsignedAppend(s: string, rest: string)
    requires TrimStart(s) != []
    ensures TrimStart(s + rest) != [] && TrimStart(s + rest)[0] == TrimStart(s)[0]
    ensures Unsigned(s + rest) == Unsigned(s) + rest
  {
    TrimStartAppend(s, rest);
    var t := TrimStart(s);
    assert (t + rest)[0] == t[0];
    if t[0] == '-' || t[0] == '+' {
      assert (t + rest)[1..] == t[1..] + rest;
    }
  }

  /** Appending to text with a digit where the digits are read keeps its radix and prefix. */
  lemma NumeralAppend(u: string, rest: string)
    requires Numeral(u) != []
    requires !(u == "0" && rest != [] && (rest[0] == 'x' || rest[0] == 'X'))
    ensures RadixOf(u + rest) == RadixOf(u)
    ensures Numeral(u + rest) == Numeral(u) + rest
  {
    if |u| >= 2 {
      assert (u + rest)[0] == u[0] && (u + rest)[1] == u[1];
      assert HexPrefixed(u + rest) == HexPrefixed(u);
      if HexPrefixed(u) {
        assert (u + rest)[2..] == u[2..] + rest;
      }
    } else if rest != [] {
      assert (u + rest)[0] == u[0] && (u + rest)[1] == rest[0];
    }
  }

  /**
   * Text after the digit run does not change the result: `parseInt("42 years")` is
   * 42 and `parseInt(" -0x1Fg")` is -31. The one exception is an `x` or `X` right
   * after a lone `0`, which turns the `0` into a hexadecimal prefix.
   */
  lemma ParseIntIgnoresTrailing(s: string, rest: string)
    requires IsNumeral(s)
    requires rest == [] || !IsDigitOf(rest[0], RadixOf(Unsigned(s)))
    requires !(Unsigned(s) == "0" && rest != [] && (rest[0] == 'x' || rest[0] == 'X'))
    ensures ParseInt(s + rest) == ParseInt(s)
  {
    var u := Unsigned(s);
    var radix := RadixOf(u);
    var d := Numeral(u);
    assert TrimStart(s) != [];
    UnsignedAppend(s, rest);
    NumeralAppend(u, rest);
    DigitPrefixStops(d, rest, radix);
    DigitPrefixOfDigits(d, radix);
    assert Unsigned(s + rest) == u + rest;
    assert DigitPrefix(Numeral(Unsigned(s + rest)), RadixOf(Unsigned(s + rest))) == d;
    assert DigitPrefix(Numeral(u), radix) == d;
  }

  /** Decimal text of a natural number, with or without a minus sign, is complete numeral text. */
  lemma DecimalIsNumeral(n: nat)
    ensures IsNumeral(DecimalText(n))
    ensures IsNumeral("-" + DecimalText(n))
  {
    var d := DecimalText(n);
    DecimalNotHex(n, []);
    assert d + [] == d;
    assert d[0] == d[0];
    assert LeadingSpaces(d) == 0 && TrimStart(d) == d;
    var m := "-" + d;
    assert LeadingSpaces(m) == 0 && TrimStart(m) == m && m[1..] == d;
  }
}
