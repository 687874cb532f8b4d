/** Strings and numbers as board_id.py reads and writes them. */
module BoardNumbers {
  import opened Wrappers
  import opened Bits

  // ---------------------------------------------------------------- strings

  /** What stands before and after the last c, if there is one. */
  function CutLast(s: string, c: char): Option<(string, string)>
    decreases |s|
  {
    if s == "" then None
    else if s[|s| - 1] == c then Some((s[..|s| - 1], ""))
    else match CutLast(s[..|s| - 1], c)
      case None => None
      case Some(cut) => Some((cut.0, cut.1 + [s[|s| - 1]]))
  }

  lemma {:induction false} CutJoins(s: string, c: char)
    ensures match CutLast(s, c)
            case None => c !in s
            case Some(cut) => s == cut.0 + [c] + cut.1 && c !in cut.1
    decreases |s|
  {
    if s != "" {
      CutJoins(s[..|s| - 1], c);
      assert s == s[..|s| - 1] + [s[|s| - 1]];
    }
  }

  lemma {:induction false} JoinCuts(a: string, c: char, b: string)
    requires c !in b
    ensures CutLast(a + [c] + b, c) == Some((a, b))
    decreases |b|
  {
    var s := a + [c] + b;
    if b == "" {
      assert s[..|s| - 1] == a;
    } else {
      var d := b[..|b| - 1];
      assert s[..|s| - 1] == a + [c] + d && s[|s| - 1] == b[|b| - 1];
      assert b == d + [b[|b| - 1]];
      JoinCuts(a, c, d);
    }
  }

  lemma NoCut(s: string, c: char)
    requires c !in s
    ensures CutLast(s, c) == None
  {
    hide CutLast;
    CutJoins(s, c);
  }

  lemma CutUnique(a: string, b: string, c: char, x: string, y: string)
    requires a + [c] + b == x + [c] + y && c !in b && c !in y
    ensures a == x && b == y
  {
    hide CutLast;
    JoinCuts(a, c, b);
    JoinCuts(x, c, y);
  }

  function Count(s: string, c: char): nat {
    if s == "" then 0 else Count(s[..|s| - 1], c) + if s[|s| - 1] == c then 1 else 0
  }

  lemma {:induction false} CountConcat(a: string, b: string, c: char)
    ensures Count(a + b, c) == Count(a, c) + Count(b, c)
    decreases |b|
  {
    if b == "" {
      assert a + b == a;
    } else {
      assert (a + b)[..|a + b| - 1] == a + b[..|b| - 1];
      CountConcat(a, b[..|b| - 1], c);
    }
  }

  lemma {:induction false} CountNone(s: string, c: char)
    requires c !in s
    ensures Count(s, c) == 0
    decreases |s|
  {
    if s != "" { CountNone(s[..|s| - 1], c); }
  }

  lemma CountOne(c: char)
    ensures Count([c], c) == 1
  {
    assert [c][..0] == "";
  }

  // ---------------------------------------------------------------- writing numbers

  function DigitChar(d: nat): char
    requires d < 16
  {
    (if d < 10 then '0' as int + d else 'a' as int + d - 10) as char
  }

  /** A number in base 10 or 16, without leading zeros. */
  function Digits(n: nat, base: nat): (s: string)
    requires 2 <= base <= 16
    ensures |s| > 0
  {
    if n < base then [DigitChar(n)] else Digits(n / base, base) + [DigitChar(n % base)]
  }

  /** Zeros in front, up to a width. */
  function Padded(s: string, width: nat): (r: string)
    ensures |r| == if |s| >= width then |s| else width
  {
    if |s| >= width then s else ['0'] + Padded(s, width - 1)
  }

  // ---------------------------------------------------------------- reading numbers

  function DigitValue(c: char): Option<nat> {
    if '0' <= c <= '9' then Some(c as int - '0' as int)
    else if 'a' <= c <= 'f' then Some(c as int - 'a' as int + 10)
    else if 'A' <= c <= 'F' then Some(c as int - 'A' as int + 10)
    else None
  }

  function Digitwise(s: string, base: nat): Option<nat> {
    if s == "" then Some(0)
    else
      var d := DigitValue(s[|s| - 1]);
      var rest := Digitwise(s[..|s| - 1], base);
      if d.Some? && d.value < base && rest.Some? then Some(rest.value * base + d.value) else None
  }

  predicate IsSpace(c: char) { c == ' ' || 9 <= c as int <= 13 || 28 <= c as int <= 31 }

  function Strip(s: string): string
    decreases |s|
  {
    if s != "" && IsSpace(s[0]) then Strip(s[1..])
    else if s != "" && IsSpace(s[|s| - 1]) then Strip(s[..|s| - 1])
    else s
  }

  /** Single underscores may stand between digits. */
  predicate Underscored(s: string) {
    s != "" && s[0] != '_' && s[|s| - 1] != '_' && NoTwo(s)
  }

  predicate NoTwo(s: string) {
    |s| < 2 || (!(s[|s| - 1] == '_' && s[|s| - 2] == '_') && NoTwo(s[..|s| - 1]))
  }

  function Joined(s: string): string {
    if s == "" then "" else Joined(s[..|s| - 1]) + if s[|s| - 1] == '_' then "" else [s[|s| - 1]]
  }

  function Unsigned(s: string, base: nat): Option<nat> {
    if base == 16 && |s| > 2 && s[0] == '0' && (s[1] == 'x' || s[1] == 'X') then
      var t := if s[2] == '_' then s[3..] else s[2..];
      if Underscored(t) then Digitwise(Joined(t), base) else None
    else if Underscored(s) then Digitwise(Joined(s), base) else None
  }

  /** Python's int() of an ASCII string: blanks around it, a sign, a 0x before hexadecimal digits
      of either case, underscores. */
  function PyInt(s: string, base: nat): (r: Option<int>)
    ensures s == "" ==> r.None?
  {
    var t := Strip(s);
    if t != "" && t[0] == '+' then Unsigned(t[1..], base)
    else if t != "" && t[0] == '-' then
      var u := Unsigned(t[1..], base);
      if u.Some? then Some(-(u.value as int)) else None
    else Unsigned(t, base)
  }

  // ---------------------------------------------------------------- plain numbers

  predicate IsDigit(c: char, base: nat) {
    var d := DigitValue(c); d.Some? && d.value < base && d.value < 16 && DigitChar(d.value) == c
  }

  /** Digits of the base, lower case, and nothing else. */
  predicate Plain(s: string, base: nat) { s != "" && forall i :: 0 <= i < |s| ==> IsDigit(s[i], base) }

  lemma {:induction false} JoinedPlain(s: string, base: nat)
    requires forall i :: 0 <= i < |s| ==> IsDigit(s[i], base)
    ensures Joined(s) == s && NoTwo(s) && Digitwise(s, base).Some?
    decreases |s|
  {
    if s != "" {
      JoinedPlain(s[..|s| - 1], base);
      assert s == s[..|s| - 1] + [s[|s| - 1]];
      assert IsDigit(s[|s| - 1], base);
    }
  }

  /** Plain digits are read digit by digit. */
  lemma PlainInt(s: string, base: nat)
    requires Plain(s, base)
    ensures Digitwise(s, base).Some? && PyInt(s, base) == Some(Digitwise(s, base).value)
  {
    hide Digitwise, Joined;
    JoinedPlain(s, base);
    assert IsDigit(s[0], base) && IsDigit(s[|s| - 1], base);
    assert |s| > 1 ==> IsDigit(s[1], base);
    assert Strip(s) == s;
    assert Underscored(s);
  }

  lemma NotIn(s: string, base: nat, c: char)
    requires Plain(s, base) && DigitValue(c).None?
    ensures c !in s
  {
  }

  lemma DigitIs(d: nat, base: nat)
    requires d < base <= 16
    ensures DigitValue(DigitChar(d)) == Some(d) && IsDigit(DigitChar(d), base)
  {
  }

  lemma {:induction false} DigitsRead(n: nat, base: nat)
    requires 2 <= base <= 16
    ensures Digitwise(Digits(n, base), base) == Some(n) && Plain(Digits(n, base), base)
    decreases n
  {
    hide DigitValue, DigitChar, IsDigit;
    var s := Digits(n, base);
    if n < base {
      DigitIs(n, base);
      assert s[..0] == "" && Digitwise(s[..0], base) == Some(0);
    } else {
      DivMod(n, base);
      Smaller(n, base);
      DigitsRead(n / base, base);
      DigitIs(n % base, base);
      assert s[..|s| - 1] == Digits(n / base, base);
    }
  }

  lemma Smaller(n: nat, base: nat)
    requires base >= 2 && n >= base
    ensures 0 < n / base < n
  {
  }

  lemma {:induction false} PaddedReads(s: string, width: nat, base: nat, n: nat)
    requires 2 <= base <= 16 && Digitwise(s, base) == Some(n) && Plain(s, base)
    ensures Digitwise(Padded(s, width), base) == Some(n) && Plain(Padded(s, width), base)
    decreases width
  {
    hide Digitwise, DigitValue, DigitChar;
    if |s| < width {
      var t := Padded(s, width - 1);
      PaddedReads(s, width - 1, base, n);
      ZeroInFront(t, base);
      ZeroPlain(t, base);
    }
  }

  lemma ZeroPlain(s: string, base: nat)
    requires base > 0 && Plain(s, base)
    ensures Plain(['0'] + s, base)
  {
    hide DigitValue;
    assert IsDigit('0', base) by { ZeroIsDigit(base); }
    var t := ['0'] + s;
    forall i | 0 <= i < |t| ensures IsDigit(t[i], base) {
      if i > 0 { assert t[i] == s[i - 1]; }
    }
  }

  lemma ZeroIsDigit(base: nat)
    requires base > 0
    ensures IsDigit('0', base)
  {
  }

  lemma {:induction false} ZeroInFront(s: string, base: nat)
    requires base > 0
    ensures Digitwise(['0'] + s, base) == Digitwise(s, base)
    decreases |s|
  {
    var t := ['0'] + s;
    if s == "" {
      assert t[..0] == "" && Digitwise(t[..0], base) == Some(0);
    } else {
      assert t[..|t| - 1] == ['0'] + s[..|s| - 1];
      ZeroInFront(s[..|s| - 1], base);
    }
  }

  // ---------------------------------------------------------------- and back

  lemma {:induction false} PaddedLast(s: string, c: char, width: nat)
    requires width > 0
    ensures Padded(s + [c], width) == Padded(s, width - 1) + [c]
    decreases width
  {
    if |s| + 1 < width { PaddedLast(s, c, width - 1); }
  }

  lemma {:induction false} PaddedZero(width: nat)
    requires width > 0
    ensures Padded("0", width) == Padded("", width)
    decreases width
  {
    if width > 1 { PaddedZero(width - 1); }
    else { assert Padded("", 0) == ""; assert ['0'] + "" == "0"; }
  }

  /** Plain digits are the number they stand for, padded to their length. */
  lemma {:induction false} PaddedIsAll(s: string, base: nat, n: nat)
    requires 2 <= base <= 16 && Plain(s, base) && Digitwise(s, base) == Some(n)
    ensures Padded(Digits(n, base), |s|) == s
    decreases |s|
  {
    hide DigitValue, Padded;
    var t, c := s[..|s| - 1], s[|s| - 1];
    assert s == t + [c] && IsDigit(c, base);
    var d, m := DigitValue(c).value, Digitwise(t, base).value;
    DivUnique(n, base, m, d);
    if t == "" {
      assert Digits(n, base) == [c];
      PaddedWide([c], 1);
    } else {
      assert Plain(t, base);
      PaddedIsAll(t, base, m);
      if n < base {
        SmallQuotient(n, base, m);
        assert Digits(n, base) == "" + [c] && Digits(0, base) == "0";
        PaddedZero(|t|);
        PaddedLast("", c, |s|);
      } else {
        PaddedLast(Digits(m, base), c, |s|);
      }
    }
  }

  lemma SmallQuotient(n: nat, base: nat, m: nat)
    requires base >= 2 && n < base && m == n / base
    ensures m == 0
  {
  }

  lemma PaddedWide(s: string, width: nat)
    requires |s| >= width
    ensures Padded(s, width) == s
  {
  }

  predicate NoLeadingZero(s: string) { |s| == 1 || (|s| > 1 && s[0] != '0') }

  /** Without a leading zero they are just that number. */
  lemma DigitsIsAll(s: string, base: nat, n: nat)
    requires 2 <= base <= 16 && Plain(s, base) && Digitwise(s, base) == Some(n) && NoLeadingZero(s)
    ensures Digits(n, base) == s
  {
    hide Digits, Digitwise, Plain;
    PaddedIsAll(s, base, n);
  }

  lemma {:induction false} LeadingDigit(n: nat, base: nat)
    requires 2 <= base <= 16
    ensures NoLeadingZero(Digits(n, base)) && (n > 0 ==> Digits(n, base)[0] != '0')
    decreases n
  {
    if n >= base {
      Smaller(n, base);
      LeadingDigit(n / base, base);
    }
  }

  function Power(base: nat, w: nat): nat { if w == 0 then 1 else base * Power(base, w - 1) }

  lemma {:induction false} DigitsLength(n: nat, base: nat, w: nat)
    requires 2 <= base <= 16 && w > 0 && n < Power(base, w)
    ensures |Digits(n, base)| <= w
    decreases w
  {
    if n >= base {
      Smaller(n, base);
      DivMod(n, base);
      QuotientBelow(n, base, Power(base, w - 1));
      DigitsLength(n / base, base, w - 1);
    }
  }

  lemma QuotientBelow(n: nat, base: nat, p: nat)
    requires base >= 2 && n < base * p
    ensures n / base < p
  {
    DivMod(n, base);
    var q := n / base;
    if q >= p { NotLess(q, p, base); }
  }

  lemma NotLess(q: nat, p: nat, base: nat)
    requires q >= p
    ensures q * base >= base * p
  {
    assert q * base == base * p + (q - p) * base;
  }
}
