/** The names of recorded segments: the start time is written into the path and read back from it. */
module RecordNames {
  import opened Options

  // numbers

  predicate IsDigit(c: char) {
    '0' <= c <= '9'
  }

  predicate AllDigits(s: string) {
    forall k :: 0 <= k < |s| ==> IsDigit(s[k])
  }

  function Digit(n: nat): (c: char)
    requires n < 10
    ensures IsDigit(c)
  {
    "0123456789"[n]
  }

  function DigitValue(c: char): nat
    requires IsDigit(c)
  {
    c as int - '0' as int
  }

  function FormatInt(n: nat): (s: string)
    ensures s != "" && AllDigits(s)
  {
    if n < 10 then [Digit(n)] else FormatInt(n / 10) + [Digit(n % 10)]
  }

  function ParseInt(s: string): nat
    requires AllDigits(s)
  {
    if s == "" then 0 else 10 * ParseInt(s[..|s| - 1]) + DigitValue(s[|s| - 1])
  }

  function Pow10(n: nat): nat {
    if n == 0 then 1 else 10 * Pow10(n - 1)
  }

  function Zeros(n: nat): (s: string)
    ensures |s| == n && AllDigits(s)
  {
    seq(n, _ => '0')
  }

  function LeadingZeros(v: nat, size: nat): (s: string)
    ensures AllDigits(s)
  {
    var out := FormatInt(v);
    if |out| >= size then out else Zeros(size - |out|) + out
  }

  lemma {:induction false} FormatParses(n: nat)
    ensures ParseInt(FormatInt(n)) == n
    decreases n
  {
    if n >= 10 {
      FormatParses(n / 10);
      var s := FormatInt(n);
      assert s[..|s| - 1] == FormatInt(n / 10);
    }
  }

  /** The number of digits. */
  lemma {:induction false} FormatLength(n: nat, size: nat)
    requires size > 0
    ensures |FormatInt(n)| <= size <==> n < Pow10(size)
    decreases n
  {
    if n < 10 {
      PowersGrow(1, size);
    } else if size > 1 {
      FormatLength(n / 10, size - 1);
      assert n / 10 < Pow10(size - 1) <==> n < 10 * Pow10(size - 1);
    }
  }

  lemma {:induction false} PowersGrow(m: nat, n: nat)
    requires m <= n
    ensures 0 < Pow10(m) <= Pow10(n)
    decreases n
  {
    if m < n {
      PowersGrow(m, n - 1);
    } else if m > 0 {
      PowersGrow(m - 1, n - 1);
    }
  }

  lemma {:induction false} ZerosParse(n: nat, s: string)
    requires AllDigits(s)
    ensures AllDigits(Zeros(n) + s) && ParseInt(Zeros(n) + s) == ParseInt(s)
    decreases |s|, n
  {
    var all := Zeros(n) + s;
    if s != "" {
      ZerosParse(n, s[..|s| - 1]);
      assert all[..|all| - 1] == Zeros(n) + s[..|s| - 1];
    } else if n > 0 {
      ZerosParse(n - 1, s);
      assert all[..|all| - 1] == Zeros(n - 1) + s;
    }
  }

  /** Padding keeps the value, and gives the wanted width if and only if the number is not too big. */
  lemma {:induction false} LeadingZerosParse(v: nat, size: nat)
    requires size > 0
    ensures ParseInt(LeadingZeros(v, size)) == v
    ensures |LeadingZeros(v, size)| == size <==> v < Pow10(size)
  {
    FormatParses(v);
    FormatLength(v, size);
    var out := FormatInt(v);
    if |out| < size {
      ZerosParse(size - |out|, out);
    }
  }

  /** The padding, zero by zero. */
  method PadWithZeros(v: nat, size: nat) returns (s: string)
    ensures s == LeadingZeros(v, size)
  {
    var out := FormatInt(v);
    if |out| >= size {
      return out;
    }
    var out2 := "";
    var i := 0;
    while i < size - |out|
      invariant i <= size - |out| && out2 == Zeros(i)
    {
      out2 := out2 + "0";
      i := i + 1;
    }
    return out2 + out;
  }

  // time zones, in seconds east of UTC

  function EncodeZone(off: int): string {
    if off == 0 then "Z"
    else
      var a := if off > 0 then off else -off;
      (if off > 0 then "+" else "-") + LeadingZeros(a / 60 / 60, 2) + LeadingZeros((a / 60) % 60, 2)
  }

  predicate IsZone(s: string) {
    s == "Z" || (|s| == 5 && (s[0] == '+' || s[0] == '-') && AllDigits(s[1..]))
  }

  /** Minutes are taken for hours, and always count as positive. */
  function DecodeZone(s: string): int
    requires IsZone(s)
  {
    if s == "Z" then 0
    else
      var sign := if s[0] == '+' then 1 else -1;
      assert AllDigits(s[1..3]) && AllDigits(s[3..5]) by {
        assert forall k :: 1 <= k < 5 ==> s[k] == s[1..][k - 1];
      }
      sign * ParseInt(s[1..3]) * 3600 + ParseInt(s[3..5]) * 3600
  }

  lemma {:induction false} ZoneIsZone(off: int)
    requires -360000 < off < 360000
    ensures IsZone(EncodeZone(off))
  {
    if off != 0 {
      var a := if off > 0 then off else -off;
      TwoDigits(a / 60 / 60);
      TwoDigits((a / 60) % 60);
    }
  }

  lemma {:induction false} TwoDigits(v: nat)
    requires v < 100
    ensures |LeadingZeros(v, 2)| == 2 && ParseInt(LeadingZeros(v, 2)) == v
  {
    assert Pow10(2) == 100;
    LeadingZerosParse(v, 2);
  }

  function Hours(off: int): nat {
    (if off > 0 then off else -off) / 60 / 60
  }

  function Minutes(off: int): nat {
    ((if off > 0 then off else -off) / 60) % 60
  }

  lemma {:induction false} ZoneDecodes(off: int)
    requires -360000 < off < 360000 && off != 0
    ensures IsZone(EncodeZone(off))
    ensures DecodeZone(EncodeZone(off)) == (if off > 0 then 3600 * Hours(off) else -3600 * Hours(off)) +
            3600 * Minutes(off)
  {
    ZoneIsZone(off);
    var h, m, s := Hours(off), Minutes(off), EncodeZone(off);
    TwoDigits(h);
    TwoDigits(m);
    assert s[1..3] == LeadingZeros(h, 2) && s[3..5] == LeadingZeros(m, 2);
  }

  lemma {:induction false} Split(a: nat)
    ensures a == 3600 * (a / 60 / 60) + 60 * ((a / 60) % 60) + a % 60
    ensures a % 3600 == 60 * ((a / 60) % 60) + a % 60
  {
  }

  /** A time zone is read back as it was if and only if it is a whole number of hours. */
  lemma {:induction false} ZoneRoundTripIff(off: int)
    requires -360000 < off < 360000
    ensures IsZone(EncodeZone(off)) && (DecodeZone(EncodeZone(off)) == off <==> off % 3600 == 0)
  {
    if off != 0 {
      ZoneDecodes(off);
      var a := if off > 0 then off else -off;
      Split(a);
      WholeHours(off);
    }
  }

  lemma {:induction false} WholeHours(off: int)
    ensures off % 3600 == 0 <==> -off % 3600 == 0
  {
    assert off == 3600 * (off / 3600) + off % 3600;
  }
}
