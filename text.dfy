/** String operations the pages rely on: ASCII case mapping (`toLowerCase`,
    `toUpperCase`), substring search (`includes`), decimal rendering of
    integers (`String(n)`), en-US thousands grouping (`toLocaleString()`) and
    `join(", ")`, each with the reading-back function that serves as its partner. */
module Text {

  // ---------------------------------------------------------------------------
  // Case mapping (ASCII letters only)

  function LowerChar(c: char): char {
    if 'A' <= c <= 'Z' then (c as int + 32) as char else c
  }

  function UpperChar(c: char): char {
    if 'a' <= c <= 'z' then (c as int - 32) as char else c
  }

  /** `s.toLowerCase()`: no upper-case letter is left, each upper-case letter
      becomes its lower-case partner (32 code points further), and every
      other character is kept in place. */
  function Lower(s: string): (r: string)
    ensures |r| == |s|
    ensures forall i :: 0 <= i < |s| ==> r[i] == LowerChar(s[i])
    ensures forall i :: 0 <= i < |s| ==> !IsUpperLetter(r[i])
    ensures forall i :: 0 <= i < |s| && IsUpperLetter(s[i]) ==> r[i] as int == s[i] as int + 32
    ensures forall i :: 0 <= i < |s| && !IsUpperLetter(s[i]) ==> r[i] == s[i]
  {
    seq(|s|, i requires 0 <= i < |s| => LowerChar(s[i]))
  }

  /** `s.toUpperCase()`: no lower-case letter is left, each lower-case letter
      becomes its upper-case partner (32 code points back), and every other
      character is kept in place. */
  function Upper(s: string): (r: string)
    ensures |r| == |s|
    ensures forall i :: 0 <= i < |s| ==> r[i] == UpperChar(s[i])
    ensures forall i :: 0 <= i < |s| ==> !('a' <= r[i] <= 'z')
    ensures forall i :: 0 <= i < |s| && 'a' <= s[i] <= 'z' ==> r[i] as int == s[i] as int - 32
    ensures forall i :: 0 <= i < |s| && !('a' <= s[i] <= 'z') ==> r[i] == s[i]
  {
    seq(|s|, i requires 0 <= i < |s| => UpperChar(s[i]))
  }

  predicate IsUpperLetter(c: char) { 'A' <= c <= 'Z' }

  /** A lower-cased string holds no upper-case letter, and lower-casing it again changes nothing. */
  lemma LowerIsLower(s: string)
    ensures forall i :: 0 <= i < |s| ==> !IsUpperLetter(Lower(s)[i])
    ensures Lower(Lower(s)) == Lower(s)
  {
    assert forall i :: 0 <= i < |s| ==> Lower(Lower(s))[i] == Lower(s)[i];
  }

  /** Lower-casing is decided character by character. */
  lemma LowerIs(s: string, t: string)
    requires |s| == |t| && forall i :: 0 <= i < |s| ==> LowerChar(s[i]) == t[i]
    ensures Lower(s) == t
  {
    assert forall i :: 0 <= i < |s| ==> Lower(s)[i] == t[i];
  }

  /** Upper-casing first does not change the lower-case form. */
  lemma LowerOfUpper(s: string)
    ensures Lower(Upper(s)) == Lower(s)
  {
    assert forall i :: 0 <= i < |s| ==> Lower(Upper(s))[i] == Lower(s)[i];
  }

  // ---------------------------------------------------------------------------
  // Substring search

  /** `q` occurs in `s` starting at offset `i`. */
  predicate OccursAt(s: string, q: string, i: int) {
    0 <= i && i + |q| <= |s| && s[i..i + |q|] == q
  }

  /** `s.includes(q)` */
  predicate Contains(s: string, q: string)
    decreases |s|
  {
    if |q| > |s| then false
    else if s[..|q|] == q then true
    else Contains(s[1..], q)
  }

  /** The scanning definition finds exactly the offsets at which `q` occurs. */
  lemma {:induction false} ContainsIff(s: string, q: string)
    ensures Contains(s, q) <==> exists i :: OccursAt(s, q, i)
    decreases |s|
  {
    if |q| > |s| {
    } else if s[..|q|] == q {
      assert OccursAt(s, q, 0);
    } else {
      ContainsIff(s[1..], q);
      if Contains(s[1..], q) {
        var i :| OccursAt(s[1..], q, i);
        assert s[1..][i..i + |q|] == s[i + 1..i + 1 + |q|];
        assert OccursAt(s, q, i + 1);
      }
      if exists i :: OccursAt(s, q, i) {
        var i :| OccursAt(s, q, i);
        assert i != 0;
        assert s[1..][i - 1..i - 1 + |q|] == s[i..i + |q|];
        assert OccursAt(s[1..], q, i - 1);
      }
    }
  }

  /** Every string contains the empty string. */
  lemma ContainsEmpty(s: string)
    ensures Contains(s, "")
  {
  }

  // ---------------------------------------------------------------------------
  // Decimal rendering of integers

  predicate IsDigit(c: char) { '0' <= c <= '9' }

  predicate AllDigits(s: string) { forall i :: 0 <= i < |s| ==> IsDigit(s[i]) }

  function DigitChar(d: nat): char
    requires d < 10
  {
    ('0' as int + d) as char
  }

  function DigitValue(c: char): nat
    requires IsDigit(c)
  {
    c as int - '0' as int
  }

  /** `String(n)` for a non-negative integer: decimal digits, no leading zero. */
  function NatString(n: nat): (r: string)
    ensures |r| > 0 && AllDigits(r)
    ensures |r| > 1 ==> r[0] != '0'
  {
    if n < 10 then [DigitChar(n)] else NatString(n / 10) + [DigitChar(n % 10)]
  }

  /** Reads a string of decimal digits back as a number. */
  function ParseNat(s: string): nat
    requires AllDigits(s)
  {
    if s == [] then 0 else 10 * ParseNat(s[..|s| - 1]) + DigitValue(s[|s| - 1])
  }

  /** Rendering a number in decimal and reading it back gives the number. */
  lemma {:induction false} ParseNatString(n: nat)
    ensures ParseNat(NatString(n)) == n
  {
    if n >= 10 {
      var s := NatString(n);
      assert s[..|s| - 1] == NatString(n / 10);
      ParseNatString(n / 10);
    }
  }

  /** `String(i)` for any integer: a leading '-' for negative values. */
  function IntString(i: int): string {
    if i < 0 then "-" + NatString(-i) else NatString(i)
  }

  /** `String(i)` starts with '-' exactly for a negative number, and the
      digits after any sign read back as the magnitude. */
  lemma IntStringSpec(i: int)
    ensures var r := IntString(i);
            r != "" && (r[0] == '-' <==> i < 0) &&
            var digits := if i < 0 then r[1..] else r;
            digits != "" && AllDigits(digits) && ParseNat(digits) == if i < 0 then -i else i
  {
    if i < 0 {
      ParseNatString(-i);
      assert IntString(i)[1..] == NatString(-i);
    } else {
      ParseNatString(i);
    }
  }

  // ---------------------------------------------------------------------------
  // en-US thousands grouping

  /** Inserts a ',' before every group of three digits counted from the right. */
  function GroupThousands(digits: string): string
    decreases |digits|
  {
    if |digits| <= 3 then digits
    else GroupThousands(digits[..|digits| - 3]) + "," + digits[|digits| - 3..]
  }

  /** `n.toLocaleString()` in the en-US locale, for an integer `n`. */
  function Grouped(n: int): string {
    if n < 0 then "-" + GroupThousands(NatString(-n)) else GroupThousands(NatString(n))
  }

  function WithoutCommas(s: string): string {
    if s == [] then [] else (if s[0] == ',' then [] else [s[0]]) + WithoutCommas(s[1..])
  }

  lemma {:induction false} WithoutCommasAppend(a: string, b: string)
    ensures WithoutCommas(a + b) == WithoutCommas(a) + WithoutCommas(b)
  {
    if a == [] {
      assert a + b == b;
    } else {
      assert (a + b)[1..] == a[1..] + b;
      WithoutCommasAppend(a[1..], b);
    }
  }

  lemma {:induction false} WithoutCommasOfDigits(s: string)
    requires AllDigits(s)
    ensures WithoutCommas(s) == s
  {
    if s != [] {
      WithoutCommasOfDigits(s[1..]);
    }
  }

  /** Removing the commas from "," followed by digits leaves the digits. */
  lemma CommaThenDigits(tail: string)
    requires AllDigits(tail)
    ensures WithoutCommas("," + tail) == tail
  {
    WithoutCommasAppend(",", tail);
    WithoutCommasOfDigits(tail);
    assert WithoutCommas(",") == "";
  }

  /** Deleting the separators from a grouped digit string gives the digits back. */
  lemma {:induction false} GroupThousandsRoundTrip(digits: string)
    requires AllDigits(digits)
    ensures WithoutCommas(GroupThousands(digits)) == digits
    decreases |digits|
  {
    if |digits| <= 3 {
      WithoutCommasOfDigits(digits);
    } else {
      var head, tail := digits[..|digits| - 3], digits[|digits| - 3..];
      assert AllDigits(head) && AllDigits(tail);
      var g := GroupThousands(head);
      assert GroupThousands(digits) == g + ("," + tail);
      GroupThousandsRoundTrip(head);
      WithoutCommasAppend(g, "," + tail);
      CommaThenDigits(tail);
      assert head + tail == digits;
    }
  }

  /** The en-US layout of a grouped number: digits with a comma exactly at
      the positions a multiple of four characters from the end, so every
      group after a comma has three digits and the leading group has one to
      three. */
  predicate IsGrouped(s: string) {
    |s| > 0 && |s| % 4 != 0 &&
    forall i :: 0 <= i < |s| ==>
      (s[i] == ',' <==> (|s| - i) % 4 == 0) && (s[i] != ',' ==> IsDigit(s[i]))
  }

  /** One to three digits are a grouped number on their own. */
  lemma ShortIsGrouped(digits: string)
    requires 1 <= |digits| <= 3 && AllDigits(digits)
    ensures IsGrouped(digits)
  {
    forall i | 0 <= i < |digits|
      ensures (digits[i] == ',' <==> (|digits| - i) % 4 == 0) && (digits[i] != ',' ==> IsDigit(digits[i]))
    {
      assert 1 <= |digits| - i <= 3;
    }
  }

  /** Appending a comma and three digits to a grouped number keeps the layout. */
  lemma GroupedAppend(g: string, tail: string)
    requires IsGrouped(g) && |tail| == 3 && AllDigits(tail)
    ensures IsGrouped(g + "," + tail)
  {
    var t := g + "," + tail;
    assert |t| == |g| + 4;
    assert |t| % 4 == |g| % 4;
    forall i | 0 <= i < |t|
      ensures (t[i] == ',' <==> (|t| - i) % 4 == 0) && (t[i] != ',' ==> IsDigit(t[i]))
    {
      if i < |g| {
        assert t[i] == g[i];
        assert (|t| - i) % 4 == (|g| - i) % 4;
      } else if i == |g| {
        assert t[i] == ',';
      } else {
        assert t[i] == tail[i - |g| - 1];
        assert 1 <= |t| - i <= 3;
      }
    }
  }

  /** Grouping any non-empty digit string gives the en-US layout. */
  lemma {:induction false} GroupThousandsShape(digits: string)
    requires digits != "" && AllDigits(digits)
    ensures IsGrouped(GroupThousands(digits))
    decreases |digits|
  {
    if |digits| <= 3 {
      ShortIsGrouped(digits);
    } else {
      var head, tail := digits[..|digits| - 3], digits[|digits| - 3..];
      assert AllDigits(head) && AllDigits(tail);
      GroupThousandsShape(head);
      assert GroupThousands(digits) == GroupThousands(head) + "," + tail;
      GroupedAppend(GroupThousands(head), tail);
    }
  }

  /** `n.toLocaleString()` is the en-US layout, after a minus sign for a
      negative `n`. */
  lemma GroupedShape(n: int)
    ensures n >= 0 ==> IsGrouped(Grouped(n))
    ensures n < 0 ==> Grouped(n)[0] == '-' && IsGrouped(Grouped(n)[1..])
  {
    if n < 0 {
      GroupThousandsShape(NatString(-n));
      assert Grouped(n)[1..] == GroupThousands(NatString(-n));
    } else {
      GroupThousandsShape(NatString(n));
    }
  }

  /** The grouped rendering is the decimal rendering with separators added:
      removing the commas from `n.toLocaleString()` gives `String(n)`. */
  lemma GroupedIsDecimal(n: int)
    ensures WithoutCommas(Grouped(n)) == IntString(n)
  {
    if n < 0 {
      GroupThousandsRoundTrip(NatString(-n));
      WithoutCommasAppend("-", GroupThousands(NatString(-n)));
    } else {
      GroupThousandsRoundTrip(NatString(n));
    }
  }

  /** Numbers below 1000 carry no separator; 5000 is written "5,000". */
  lemma GroupedExamples()
    ensures Grouped(999) == "999"
    ensures Grouped(5000) == "5,000"
    ensures Grouped(120000) == "120,000"
  {
    assert NatString(50) == "50";
    assert NatString(500) == "500";
    assert NatString(5000) == "5000";
    assert NatString(12) == "12";
    assert NatString(120) == "120";
    assert NatString(1200) == "1200";
    assert NatString(12000) == "12000";
    assert NatString(120000) == "120000";
  }

  // ---------------------------------------------------------------------------
  // Joining and splitting lists

  /** `items.join(sep)` */
  function Join(items: seq<string>, sep: string): string {
    if |items| == 0 then ""
    else if |items| == 1 then items[0]
    else items[0] + sep + Join(items[1..], sep)
  }

  /** Splits `s` at every occurrence of ", ". */
  function SplitAtCommaSpace(s: string): (parts: seq<string>)
    ensures |parts| >= 1
    decreases |s|
  {
    if |s| == 0 then [""]
    else if |s| >= 2 && s[..2] == ", " then [""] + SplitAtCommaSpace(s[2..])
    else
      var rest := SplitAtCommaSpace(s[1..]);
      [[s[0]] + rest[0]] + rest[1..]
  }

  predicate CommaFree(s: string) { forall i :: 0 <= i < |s| ==> s[i] != ',' }

  lemma {:induction false} SplitAfterCommaFree(x: string, t: string)
    requires CommaFree(x)
    ensures SplitAtCommaSpace(x + t) ==
            [x + SplitAtCommaSpace(t)[0]] + SplitAtCommaSpace(t)[1..]
    decreases |x|
  {
    if x == [] {
      var parts := SplitAtCommaSpace(t);
      assert x + t == t;
      assert x + parts[0] == parts[0];
      assert [parts[0]] + parts[1..] == parts;
    } else {
      assert (x + t)[0] == x[0];
      assert (x + t)[1..] == x[1..] + t;
      SplitAfterCommaFree(x[1..], t);
      assert [x[0]] + (x[1..] + SplitAtCommaSpace(t)[0]) == x + SplitAtCommaSpace(t)[0];
    }
  }

  /** Joining comma-free items with ", " and splitting the result at ", "
      gives the items back, in order. */
  lemma {:induction false} JoinSplitRoundTrip(items: seq<string>)
    requires |items| > 0
    requires forall k :: 0 <= k < |items| ==> CommaFree(items[k])
    ensures SplitAtCommaSpace(Join(items, ", ")) == items
  {
    if |items| == 1 {
      SplitAfterCommaFree(items[0], "");
      assert items[0] + "" == items[0];
    } else {
      var rest := Join(items[1..], ", ");
      JoinSplitRoundTrip(items[1..]);
      assert Join(items, ", ") == items[0] + (", " + rest);
      var tail := ", " + rest;
      assert tail[..2] == ", " && tail[2..] == rest;
      assert SplitAtCommaSpace(tail) == [""] + items[1..];
      SplitAfterCommaFree(items[0], tail);
      assert items[0] + "" == items[0];
    }
  }
}
