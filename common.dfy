/** Values and string helpers shared by the comment, submission and client modules. */
module Common {

  /** A JavaScript value that may be `undefined`. */
  datatype Option<+T> = None | Some(value: T)

  /** The outcome of a call that either resolves with a value or throws/rejects with an error. */
  datatype Result<+T, +E> = Ok(value: T) | Err(error: E)

  /** JavaScript truthiness of a possibly-undefined string: present and not empty. */
  predicate Truthy(s: Option<string>) {
    s.Some? && s.value != ""
  }

  // ---------------------------------------------------------------------------
  // String.prototype.includes

  /** `haystack.includes(needle)`: the needle starts at some position of the haystack. */
  predicate Includes(haystack: string, needle: string)
    decreases |haystack|
  {
    needle <= haystack || (|haystack| > 0 && Includes(haystack[1..], needle))
  }

  /** The needle occurs in the haystack starting at index `i`. */
  ghost predicate OccursAt(haystack: string, needle: string, i: int) {
    0 <= i && i + |needle| <= |haystack| && haystack[i..i + |needle|] == needle
  }

  /** `Includes` agrees with the positional definition of a substring. */
  lemma {:induction false} IncludesIffOccurs(haystack: string, needle: string)
    ensures Includes(haystack, needle) <==> exists i :: OccursAt(haystack, needle, i)
    decreases |haystack|
  {
    if needle <= haystack {
      assert OccursAt(haystack, needle, 0);
    } else {
      assert !OccursAt(haystack, needle, 0);
      if |haystack| > 0 {
        var tail := haystack[1..];
        IncludesIffOccurs(tail, needle);
        if Includes(tail, needle) {
          var j :| OccursAt(tail, needle, j);
          assert haystack[j + 1..j + 1 + |needle|] == tail[j..j + |needle|];
          assert OccursAt(haystack, needle, j + 1);
        } else {
          forall i | OccursAt(haystack, needle, i) ensures false {
            assert i > 0;
            assert tail[i - 1..i - 1 + |needle|] == haystack[i..i + |needle|];
            assert OccursAt(tail, needle, i - 1);
          }
        }
      }
    }
  }

  /** A witness position is enough to establish `Includes`. */
  lemma IncludesAt(haystack: string, needle: string, i: int)
    requires OccursAt(haystack, needle, i)
    ensures Includes(haystack, needle)
  {
    IncludesIffOccurs(haystack, needle);
  }

  // ---------------------------------------------------------------------------
  // Decimal rendering of counters in template literals

  predicate IsDigit(c: char) {
    '0' <= c <= '9'
  }

  predicate AllDigits(s: string) {
    forall i :: 0 <= i < |s| ==> IsDigit(s[i])
  }

  function DigitChar(d: nat): (c: char)
    requires d < 10
    ensures IsDigit(c) && c as int - '0' as int == d
  {
    (d + '0' as int) as char
  }

  /** `${n}` for a non-negative integer: its shortest decimal numeral. */
  function Decimal(n: nat): (s: string)
    ensures |s| >= 1 && AllDigits(s)
    ensures s[0] == '0' <==> n == 0
    decreases n
  {
    if n < 10 then [DigitChar(n)] else Decimal(n / 10) + [DigitChar(n % 10)]
  }

  /** The number a string of decimal digits denotes. */
  function DecimalValue(s: string): nat
    requires AllDigits(s)
  {
    if s == [] then 0
    else DecimalValue(s[..|s| - 1]) * 10 + (s[|s| - 1] as int - '0' as int)
  }

  /** Reading a rendered counter back gives the counter. */
  lemma {:induction false} DecimalRoundTrip(n: nat)
    ensures DecimalValue(Decimal(n)) == n
    decreases n
  {
    var s := Decimal(n);
    if n >= 10 {
      DecimalRoundTrip(n / 10);
      assert s[..|s| - 1] == Decimal(n / 10);
    }
  }

  /** The longest prefix of `s` made of decimal digits. */
  function LeadingDigits(s: string): (r: string)
    ensures r <= s && AllDigits(r)
    ensures |r| < |s| ==> !IsDigit(s[|r|])
  {
    if s != [] && IsDigit(s[0]) then [s[0]] + LeadingDigits(s[1..]) else []
  }

  /** A numeral followed by a non-digit is exactly the leading digit run. */
  lemma {:induction false} LeadingDigitsOfNumeral(digits: string, s: string)
    requires AllDigits(digits) && digits <= s
    requires |digits| < |s| && !IsDigit(s[|digits|])
    ensures LeadingDigits(s) == digits
  {
    if digits != [] {
      assert s[1..][|digits| - 1] == s[|digits|];
      LeadingDigitsOfNumeral(digits[1..], s[1..]);
    }
  }
}
