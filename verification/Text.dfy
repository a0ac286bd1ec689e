/** Characters, UTF-8 lengths and the byte-capped texts kept in a captured record. */
module Text {

  type Byte = x: int | 0 <= x < 256

  datatype Option<+T> = None | Some(value: T)

  lemma Associative<T>(a: seq<T>, b: seq<T>, c: seq<T>)
    ensures a + (b + c) == (a + b) + c
  {
  }

  lemma EmptyIsUnit<T>(a: seq<T>)
    ensures a + [] == a
  {
  }

  lemma PrefixStays<T>(a: seq<T>, b: seq<T>, c: seq<T>)
    requires b <= c
    ensures a + b <= a + c
  {
    assert c == b + c[|b|..];
    Associative(a, b, c[|b|..]);
  }

  lemma MiddlePart<T>(whole: seq<T>, before: seq<T>, added: seq<T>)
    requires before + added <= whole
    ensures |before| <= |before + added| <= |whole| && whole[..|before|] == before
    ensures whole[|before|..|before + added|] == added
  {
    var to := |before + added|;
    assert whole[..to] == before + added;
    assert whole[|before|..to] == whole[..to][|before|..];
  }

  lemma Split<T>(a: seq<T>)
    requires a != []
    ensures a == a[..|a| - 1] + [a[|a| - 1]]
  {
  }

  lemma SliceNext<T>(a: seq<T>, m: nat, n: nat)
    requires m < n <= |a|
    ensures a[m..n] == a[m..n - 1] + [a[n - 1]]
  {
  }

  lemma TakeNext<T>(a: seq<T>, n: nat)
    requires n < |a|
    ensures a[..n + 1] == a[..n] + [a[n]]
  {
  }

  lemma DropDrop<T>(a: seq<T>, m: nat, n: nat)
    requires m + n <= |a|
    ensures a[m..][n..] == a[m + n..]
  {
  }

  /** The n-th of a script of answers; whoever is asked more often keeps answering `rest`. */
  function Nth<T>(answers: seq<T>, n: nat, rest: T): T {
    if n < |answers| then answers[n] else rest
  }

  /** The Unicode White_Space property. */
  predicate IsWhitespace(c: char) {
    var u := c as int;
    || 0x09 <= u <= 0x0D || u == 0x20 || u == 0x85 || u == 0xA0 || u == 0x1680
    || 0x2000 <= u <= 0x200A || u == 0x2028 || u == 0x2029 || u == 0x202F
    || u == 0x205F || u == 0x3000
  }

  /** The Unicode general category Cc. */
  predicate IsControl(c: char) {
    var u := c as int;
    u <= 0x1F || 0x7F <= u <= 0x9F
  }

  /** The 25 code points with the White_Space property, and the 65 control characters, listed. */
  lemma SpacesAndControls(c: char)
    ensures IsWhitespace(c) <==>
      c as int in {9, 10, 11, 12, 13, 32, 133, 160, 5760, 8192, 8193, 8194, 8195, 8196, 8197, 8198, 8199, 8200, 8201,
                   8202, 8232, 8233, 8239, 8287, 12288}
    ensures IsControl(c) <==> 0 <= c as int < 32 || 127 <= c as int < 160
  {
  }

  /** What `trim().is_empty()` asks of a text. */
  predicate Blank(s: string) {
    forall i | 0 <= i < |s| :: IsWhitespace(s[i])
  }

  function CharBytes(c: char): (n: nat)
    ensures 1 <= n <= 4
  {
    var u := c as int;
    if u < 0x80 then 1 else if u < 0x800 then 2 else if u < 0x10000 then 3 else 4
  }

  /** The UTF-8 length of a text. */
  function Utf8Len(s: string): nat {
    if s == [] then 0 else Utf8Len(s[..|s| - 1]) + CharBytes(s[|s| - 1])
  }

  /** A character takes one byte up to seven bits, two up to eleven, three up to sixteen, and else four. */
  lemma Utf8Widths(s: string, c: char)
    ensures Utf8Len(s + [c]) == Utf8Len(s) +
            (if c as int < 128 then 1 else if c as int < 2048 then 2 else if c as int < 65536 then 3 else 4)
    ensures Utf8Len("") == 0
  {
    assert (s + [c])[..|s|] == s;
  }

  lemma {:induction false} Utf8LenMonotone(s: string, i: nat, j: nat)
    requires i <= j <= |s|
    ensures Utf8Len(s[..i]) + (j - i) <= Utf8Len(s[..j])
  {
    if i < j {
      Utf8LenMonotone(s, i, j - 1);
      assert s[..j][..j - 1] == s[..j - 1];
    }
  }

  function Decimal(n: nat): string {
    if n < 10 then [('0' as int + n) as char] else Decimal(n / 10) + Decimal(n % 10)
  }

  /** The number a row of digits stands for. */
  function NumberOf(digits: string): int {
    if digits == [] then 0 else 10 * NumberOf(digits[..|digits| - 1]) + (digits[|digits| - 1] as int - '0' as int)
  }

  /** The decimal digits of a number read back as it, without a leading zero. */
  lemma {:induction false} DecimalReadsBack(n: nat)
    ensures Decimal(n) != [] && forall i | 0 <= i < |Decimal(n)| :: '0' <= Decimal(n)[i] <= '9'
    ensures NumberOf(Decimal(n)) == n && (0 < n ==> Decimal(n)[0] != '0')
  {
    if 10 <= n {
      DecimalReadsBack(n / 10);
      assert Decimal(n)[..|Decimal(n)| - 1] == Decimal(n / 10);
    }
  }

  /** A text cut to a byte cap, with the length it had. */
  datatype Kept = Kept(text: string, originalBytes: nat)

  /** How many characters from `from` on still fit when `room` bytes are left. */
  function Fitting(text: string, from: nat, room: nat): (n: nat)
    requires from <= |text|
    ensures from <= n <= |text|
    decreases |text| - from
  {
    if from == |text| || room < CharBytes(text[from]) then from
    else Fitting(text, from + 1, room - CharBytes(text[from]))
  }

  function Keep(text: string, cap: nat): Kept {
    Kept(text[..Fitting(text, 0, cap)], Utf8Len(text))
  }

  lemma {:induction false} FittingIsLongest(text: string, from: nat, cap: nat)
    requires from <= |text| && Utf8Len(text[..from]) <= cap
    ensures var n := Fitting(text, from, cap - Utf8Len(text[..from]));
            && Utf8Len(text[..n]) <= cap
            && (n < |text| ==> cap < Utf8Len(text[..n + 1]))
    decreases |text| - from
  {
    hide CharBytes;
    if from < |text| {
      assert text[..from + 1][..from] == text[..from] && text[..from + 1][from] == text[from];
      if CharBytes(text[from]) <= cap - Utf8Len(text[..from]) {
        FittingIsLongest(text, from + 1, cap);
      }
    }
  }

  /**
   * A kept text is the longest character prefix that fits the byte cap, and it is the whole text
   * exactly when the whole text fits.
   */
  lemma KeepIsLongestPrefix(text: string, cap: nat)
    ensures Keep(text, cap).text <= text
    ensures Utf8Len(Keep(text, cap).text) <= cap
    ensures forall n: nat | n <= |text| && Utf8Len(text[..n]) <= cap :: n <= |Keep(text, cap).text|
    ensures Keep(text, cap).text == text <==> Utf8Len(text) <= cap
  {
    assert text[..0] == [];
    FittingIsLongest(text, 0, cap);
    var n := Fitting(text, 0, cap);
    forall k: nat | k <= |text| && Utf8Len(text[..k]) <= cap
      ensures k <= n
    {
      if n < k { Utf8LenMonotone(text, n + 1, k); }
    }
    assert text[..|text|] == text;
  }
}
