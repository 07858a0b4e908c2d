/** File names of log entries: at least eight lower-case hex digits and ".bin". */
module LogNames {

  datatype Option<+T> = None | Some(value: T)

  const U64_LIMIT: nat := 0x1_0000_0000_0000_0000

  type U64 = n: nat | n < U64_LIMIT

  const BIN := ".bin"
  const TMP := ".tmp"

  function HexDigit(d: nat): char
    requires d < 16
  {
    "0123456789abcdef"[d]
  }

  function DigitValue(c: char): Option<nat> {
    if '0' <= c <= '9' then Some(c as int - '0' as int)
    else if 'a' <= c <= 'f' then Some(c as int - 'a' as int + 10)
    else if 'A' <= c <= 'F' then Some(c as int - 'A' as int + 10)
    else None
  }

  function Hex(n: nat): string {
    if n < 16 then [HexDigit(n)] else Hex(n / 16) + [HexDigit(n % 16)]
  }

  function Zeros(k: nat): string {
    if k == 0 then "" else Zeros(k - 1) + ['0']
  }

  /** `format!("{:08x}.bin", index)` */
  function LogEntryFilename(index: U64): string {
    var digits := Hex(index);
    (if |digits| < 8 then Zeros(8 - |digits|) + digits else digits) + BIN
  }

  /** The digit loop of `from_str_radix`, with its overflow check at every digit. */
  function FromDigits(s: string): Option<U64> {
    if s == "" then Some(0) else
      match (FromDigits(s[..|s| - 1]), DigitValue(s[|s| - 1]))
      case (Some(high), Some(d)) => if high * 16 + d < U64_LIMIT then Some(high * 16 + d) else None
      case _ => None
  }

  /** `u64::from_str_radix(s, 16)`: no empty input, one optional plus sign. */
  function FromRadix16(s: string): Option<U64> {
    if s == "" || s == "+" then None
    else if s[0] == '+' then FromDigits(s[1..])
    else FromDigits(s)
  }

  predicate EndsWith(s: string, suffix: string) {
    |suffix| <= |s| && s[|s| - |suffix|..] == suffix
  }

  function ParseLogIndex(name: string): Option<U64> {
    if EndsWith(name, BIN) then FromRadix16(name[..|name| - |BIN|]) else None
  }

  /** `path.with_extension("tmp")` of a file named `*.bin`. */
  function TempName(name: string): string
    requires EndsWith(name, BIN)
  {
    name[..|name| - |BIN|] + TMP
  }

  lemma {:induction false} ZerosParse(k: nat)
    ensures |Zeros(k)| == k
    ensures FromDigits(Zeros(k)) == Some(0)
    ensures '+' !in Zeros(k)
  {
    if k > 0 {
      ZerosParse(k - 1);
      assert Zeros(k)[..k - 1] == Zeros(k - 1);
    }
  }

  lemma {:induction false} DigitRoundTrip(d: nat)
    requires d < 16
    ensures DigitValue(HexDigit(d)) == Some(d)
    ensures HexDigit(d) != '+'
  {}

  lemma {:induction false} FromDigitsSnoc(s: string, d: nat)
    requires d < 16 && FromDigits(s).Some?
    requires FromDigits(s).value * 16 + d < U64_LIMIT
    ensures FromDigits(s + [HexDigit(d)]) == Some(FromDigits(s).value * 16 + d)
  {
    DigitRoundTrip(d);
    var t := s + [HexDigit(d)];
    assert t[..|t| - 1] == s;
  }

  lemma {:induction false} HexNoPlus(n: nat)
    ensures '+' !in Hex(n) && |Hex(n)| > 0
  {
    DigitRoundTrip(n % 16);
    if n >= 16 { HexNoPlus(n / 16); }
  }

  lemma {:induction false} HexParse(k: nat, n: nat)
    requires n < U64_LIMIT
    ensures FromDigits(Zeros(k) + Hex(n)) == Some(n)
    decreases n
  {
    if n < 16 {
      ZerosParse(k);
      FromDigitsSnoc(Zeros(k), n);
    } else {
      var high := Zeros(k) + Hex(n / 16);
      HexParse(k, n / 16);
      FromDigitsSnoc(high, n % 16);
      assert Zeros(k) + Hex(n) == high + [HexDigit(n % 16)];
    }
  }

  lemma {:induction false} StripBin(stem: string)
    ensures EndsWith(stem + BIN, BIN)
    ensures (stem + BIN)[..|stem + BIN| - |BIN|] == stem
  {}

  lemma {:induction false} StemParses(k: nat, i: U64)
    ensures FromRadix16(Zeros(k) + Hex(i)) == Some(i)
  {
    HexParse(k, i);
    HexNoPlus(i);
    ZerosParse(k);
    var stem := Zeros(k) + Hex(i);
    assert stem[0] in stem;
  }

  /** Every index survives the trip through its file name, also past eight digits. */
  lemma {:induction false} FilenameRoundTrip(i: U64)
    ensures ParseLogIndex(LogEntryFilename(i)) == Some(i)
    ensures EndsWith(LogEntryFilename(i), BIN)
  {
    var digits := Hex(i);
    var k := if |digits| < 8 then 8 - |digits| else 0;
    var stem := Zeros(k) + digits;
    StemParses(k, i);
    StripBin(stem);
    assert |digits| >= 8 ==> stem == digits;
    assert LogEntryFilename(i) == stem + BIN;
  }

  lemma {:induction false} FilenameInjective(i: U64, j: U64)
    requires LogEntryFilename(i) == LogEntryFilename(j)
    ensures i == j
  {
    FilenameRoundTrip(i);
    FilenameRoundTrip(j);
  }

  /** A temporary file is never taken for a log entry. */
  lemma {:induction false} TempNeverParses(name: string)
    requires EndsWith(name, TMP)
    ensures ParseLogIndex(name) == None
    ensures !EndsWith(name, BIN)
  {
    assert name[|name| - 4..][1] == 't';
    assert BIN[1] == 'b';
  }

  // --------------------------------------------- what the names are, exactly

  function Pow16(k: nat): nat {
    if k == 0 then 1 else 16 * Pow16(k - 1)
  }

  /** The hex digits of either case, and nothing else. */
  lemma {:induction false} DigitExactly(c: char)
    ensures DigitValue(c).Some? <==> c in "0123456789abcdefABCDEF"
    ensures forall d :: 0 <= d < 16 && (c == "0123456789abcdef"[d] || c == "0123456789ABCDEF"[d]) ==>
              DigitValue(c) == Some(d)
  {}

  predicate AllHex(s: string) {
    forall k :: 0 <= k < |s| ==> DigitValue(s[k]).Some?
  }

  /** The number a string of hex digits stands for, place by place from the left. */
  function Value(s: string): nat
    requires AllHex(s)
  {
    if s == "" then 0 else DigitValue(s[0]).value * Pow16(|s| - 1) + Value(s[1..])
  }

  lemma {:induction false} ValueSnoc(s: string)
    requires s != "" && AllHex(s)
    ensures Value(s) == 16 * Value(s[..|s| - 1]) + DigitValue(s[|s| - 1]).value
  {
    var n := |s| - 1;
    if n > 0 {
      ValueSnoc(s[1..]);
      assert s[1..][..n - 1] == s[..n][1..] && s[1..][n - 1] == s[n];
      Sixteenfold(DigitValue(s[0]).value, Pow16(n - 1));
    }
  }

  lemma {:induction false} Sixteenfold(d: nat, p: nat)
    ensures d * (16 * p) == 16 * (d * p)
  {}

  /** The digit loop accepts exactly the strings of hex digits, of either case, whose value
      fits 64 bits, and yields that value. */
  lemma {:induction false} FromDigitsExactly(s: string)
    ensures FromDigits(s).Some? <==> AllHex(s) && Value(s) < U64_LIMIT
    ensures FromDigits(s).Some? ==> FromDigits(s).value == Value(s)
  {
    if s != "" {
      var n := |s| - 1;
      FromDigitsExactly(s[..n]);
      if AllHex(s) { ValueSnoc(s); }
      assert s == s[..n] + [s[n]];
    }
  }

  /** A file name is that of a log entry exactly if it is hex digits, after an optional plus
      sign, and ".bin", and then it stands for their value. */
  lemma {:induction false} ParseExactly(name: string)
    ensures ParseLogIndex(name).Some? <==>
              && |name| > 4 && name[|name| - 4..] == ".bin"
              && var digits := Digits(name[..|name| - 4]);
                 digits != "" && AllHex(digits) && Value(digits) < U64_LIMIT
    ensures ParseLogIndex(name).Some? ==> ParseLogIndex(name).value == Value(Digits(name[..|name| - 4]))
  {
    if |name| >= 4 { FromDigitsExactly(Digits(name[..|name| - 4])); }
  }

  function Digits(stem: string): string {
    if stem != "" && stem[0] == '+' then stem[1..] else stem
  }

  predicate LowerHex(c: char) {
    '0' <= c <= '9' || 'a' <= c <= 'f'
  }

  lemma {:induction false} HexShape(n: nat)
    ensures forall k :: 0 <= k < |Hex(n)| ==> LowerHex(Hex(n)[k])
    ensures |Hex(n)| > 1 ==> Hex(n)[0] != '0'
  {
    if n >= 16 { HexShape(n / 16); } 
  }

  lemma {:induction false} ZerosShape(k: nat)
    ensures |Zeros(k)| == k && forall j :: 0 <= j < k ==> Zeros(k)[j] == '0'
  {
    if k > 0 { ZerosShape(k - 1); }
  }

  /** The file name of an entry: lower-case hex digits, at least eight, with no leading zero
      beyond that, and ".bin". */
  lemma {:induction false} FilenameShape(i: U64)
    ensures var name := LogEntryFilename(i);
            && |name| >= 12 && name[|name| - 4..] == ".bin"
            && (forall k :: 0 <= k < |name| - 4 ==> LowerHex(name[k]))
            && (|name| > 12 ==> name[0] != '0')
  {
    HexShape(i);
    if |Hex(i)| < 8 { ZerosShape(8 - |Hex(i)|); }
  }
}
