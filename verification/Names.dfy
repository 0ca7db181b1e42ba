/** The names that the export passes generate, and why no two of them coincide. */
module Names {
  function Digit(d: nat): char
    requires d < 10
  {
    "0123456789"[d]
  }

  function Decimal(n: nat): string {
    if n < 10 then [Digit(n)] else Decimal(n / 10) + [Digit(n % 10)]
  }

  predicate IsDigit(c: char) { '0' <= c <= '9' }

  /** The number that a string of digits denotes. */
  function ValueOf(s: string): int {
    if s == "" then 0 else ValueOf(s[..|s| - 1]) * 10 + (s[|s| - 1] as int - '0' as int)
  }

  lemma {:induction false} DecimalValue(n: nat)
    ensures ValueOf(Decimal(n)) == n
    ensures forall k :: 0 <= k < |Decimal(n)| ==> IsDigit(Decimal(n)[k])
  {
    var s := Decimal(n);
    if n >= 10 {
      DecimalValue(n / 10);
      assert s[..|s| - 1] == Decimal(n / 10);
    } else {
      assert s[..|s| - 1] == "";
    }
  }

  function LeadingDigits(s: string): string {
    if s != "" && IsDigit(s[0]) then [s[0]] + LeadingDigits(s[1..]) else ""
  }

  lemma {:induction false} LeadingDigitsOf(digits: string, rest: string)
    requires forall k :: 0 <= k < |digits| ==> IsDigit(digits[k])
    requires rest == "" || !IsDigit(rest[0])
    ensures LeadingDigits(digits + rest) == digits
  {
    if digits == "" {
      assert digits + rest == rest;
    } else {
      LeadingDigitsOf(digits[1..], rest);
      assert (digits + rest)[1..] == digits[1..] + rest;
    }
  }

  datatype Part = CROP_STARTS | CROP_ENDS | CROP_AXES | CROP_STEPS | POSITIVE_PADS

  function Suffix(part: Part): string {
    match part
    case CROP_STARTS => "_starts"
    case CROP_ENDS => "_ends"
    case CROP_AXES => "_axes"
    case CROP_STEPS => "_steps"
    case POSITIVE_PADS => ""
  }

  function Stem(part: Part): string {
    if part == POSITIVE_PADS then "__denoize_positive_pad_" else "__denoize_pad_crop_"
  }

  /** The name of an initializer generated for the node at position `index`. */
  function GeneratedName(index: nat, part: Part): string {
    Stem(part) + Decimal(index) + Suffix(part)
  }

  lemma {:induction false} PartFromText(l: Part, m: Part)
    requires Suffix(l) == Suffix(m)
    ensures l == m
  {
    assert |Suffix(CROP_STARTS)| == 7 && |Suffix(CROP_ENDS)| == 5 && |Suffix(CROP_AXES)| == 5
        && |Suffix(CROP_STEPS)| == 6 && |Suffix(POSITIVE_PADS)| == 0;
    assert Suffix(CROP_ENDS)[1] != Suffix(CROP_AXES)[1];
  }

  lemma {:induction false} SameStem(l: Part, x: string, m: Part, y: string)
    requires Stem(l) + x == Stem(m) + y
    ensures Stem(l) == Stem(m) && x == y
  {
    var a, b := Stem(l) + x, Stem(m) + y;
    assert a[11] == Stem(l)[11] && b[11] == Stem(m)[11];
    var n := |Stem(l)|;
    assert a[n..] == x && b[n..] == y;
  }

  lemma {:induction false} GeneratedNameInjective(i: nat, l: Part, j: nat, m: Part)
    requires GeneratedName(i, l) == GeneratedName(j, m)
    ensures i == j && l == m
  {
    Associate(Stem(l), Decimal(i), Suffix(l));
    Associate(Stem(m), Decimal(j), Suffix(m));
    SameStem(l, Decimal(i) + Suffix(l), m, Decimal(j) + Suffix(m));
    DigitsEnd(i, l);
    DigitsEnd(j, m);
    SplitAfterDigits(Decimal(i), Suffix(l), Decimal(j), Suffix(m));
    PartFromText(l, m);
  }

  lemma {:induction false} Associate(a: string, b: string, c: string)
    ensures a + b + c == a + (b + c)
  {
  }

  lemma {:induction false} SplitAfterDigits(d: string, s: string, e: string, t: string)
    requires d + s == e + t && LeadingDigits(d + s) == d && LeadingDigits(e + t) == e
    ensures d == e && s == t
  {
    assert (d + s)[|d|..] == s && (e + t)[|e|..] == t;
  }

  lemma {:induction false} DigitsEnd(i: nat, l: Part)
    ensures LeadingDigits(Decimal(i) + Suffix(l)) == Decimal(i)
    ensures ValueOf(Decimal(i)) == i
  {
    DecimalValue(i);
    LeadingDigitsOf(Decimal(i), Suffix(l));
  }

  /** Names of intermediate tensors end in a letter that no generated initializer name ends in. */
  lemma {:induction false} GeneratedNameEnd(index: nat, part: Part, name: string, tail: string)
    requires tail == "__cropped" || tail == "__expanded"
    ensures GeneratedName(index, part) != name + tail
  {
    var g, t := GeneratedName(index, part), name + tail;
    DecimalValue(index);
    assert t[|t| - 1] == tail[|tail| - 1] == 'd';
    if part == POSITIVE_PADS {
      assert g[|g| - 1] == Decimal(index)[|Decimal(index)| - 1];
    } else {
      assert g[|g| - 1] == Suffix(part)[|Suffix(part)| - 1] == 's';
    }
  }

  lemma {:induction false} SameTail(a: string, b: string, tail: string)
    requires a + tail == b + tail
    ensures a == b
  {
    assert |a| == |b|;
    assert a == (a + tail)[..|a|] && b == (b + tail)[..|b|];
  }

  lemma {:induction false} TailsDiffer(a: string, b: string)
    ensures a + "__expanded" != b + "__cropped"
  {
    var s, t := a + "__expanded", b + "__cropped";
    assert s[|s| - 3] == 'd' && t[|t| - 3] == 'p';
  }
}
