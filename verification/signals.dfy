/** Signal-name parsing of internal/signals_unix.go and
    internal/signals_windows.go (the same switch is written out inline in
    `SendSignalTool`). Signals are abstract: the seven names the tool knows,
    or a number, since the numeric value of a name differs per OS. */
module Signals {
  import opened Results

  datatype SignalName = SIGTERM | SIGKILL | SIGINT | SIGSTOP | SIGCONT | SIGUSR1 | SIGUSR2 {
    function Text(): string {
      match this
      case SIGTERM => "SIGTERM"
      case SIGKILL => "SIGKILL"
      case SIGINT => "SIGINT"
      case SIGSTOP => "SIGSTOP"
      case SIGCONT => "SIGCONT"
      case SIGUSR1 => "SIGUSR1"
      case SIGUSR2 => "SIGUSR2"
    }
  }

  /** `syscall.SIGxxx` for a known name, `syscall.Signal(n)` otherwise. */
  datatype Signal = Named(name: SignalName) | Numbered(number: int)

  // ---------------------------------------------------------------------
  // strings.ToUpper

  /** `unicode.ToUpper` on the runes whose upper case is ASCII: the ASCII
      lower-case letters, U+0131 (dotless i) and U+017F (long s). Every other
      rune is kept, which cannot change a comparison with an ASCII signal
      name or a digit string. */
  function UpperRune(c: char): (u: char)
    ensures 'a' <= c <= 'z' ==> u as int == c as int - 32
    ensures u != c ==> ('a' <= c <= 'z' || c == 'ı' || c == 'ſ')
  {
    if 'a' <= c <= 'z' then (c as int - 32) as char
    else if c == 'ı' then 'I'
    else if c == 'ſ' then 'S'
    else c
  }

  function Upper(s: string): (u: string)
    ensures |u| == |s|
    ensures forall i :: 0 <= i < |s| ==> u[i] == UpperRune(s[i])
  {
    seq(|s|, i requires 0 <= i < |s| => UpperRune(s[i]))
  }

  // ---------------------------------------------------------------------
  // strconv.Atoi

  const MinInt64: int := -0x8000_0000_0000_0000
  const MaxInt64: int := 0x7FFF_FFFF_FFFF_FFFF

  predicate IsDigit(c: char) { '0' <= c <= '9' }

  predicate AllDigits(s: string) {
    forall i :: 0 <= i < |s| ==> IsDigit(s[i])
  }

  /** The value of a decimal digit string, most significant digit first. */
  function DigitsValue(ds: string): nat
    requires AllDigits(ds)
    decreases |ds|
  {
    if ds == [] then 0
    else DigitsValue(ds[..|ds| - 1]) * 10 + (ds[|ds| - 1] as int - '0' as int)
  }

  /** `strconv.Atoi` on a 64-bit platform: an optional `+` or `-`, then at
      least one decimal digit, and a value that fits an `int`. */
  function Atoi(s: string): (r: Option<int>)
    ensures r.Some? ==> MinInt64 <= r.value <= MaxInt64
    ensures r.Some? ==> |s| > 0 && forall i :: 0 <= i < |s| ==> IsDigit(s[i]) || (i == 0 && (s[i] == '+' || s[i] == '-'))
  {
    var signed := |s| > 0 && (s[0] == '+' || s[0] == '-');
    var digits := if signed then s[1..] else s;
    if |digits| == 0 || !AllDigits(digits) then None
    else
      var v: int := if signed && s[0] == '-' then -(DigitsValue(digits) as int) else DigitsValue(digits);
      if MinInt64 <= v <= MaxInt64 then Some(v) else None
  }

  function DigitChar(d: nat): (c: char)
    requires d < 10
    ensures IsDigit(c)
  {
    ('0' as int + d) as char
  }

  /** Decimal digits of a natural number, the inverse of `DigitsValue`. */
  function DecimalDigits(n: nat): string
    decreases n
  {
    if n < 10 then [DigitChar(n)] else DecimalDigits(n / 10) + [DigitChar(n % 10)]
  }

  /** Decimal text of an integer, as `strconv.Itoa` writes it. */
  function Itoa(n: int): string {
    if n < 0 then "-" + DecimalDigits(-n) else DecimalDigits(n)
  }

  lemma {:induction false} DecimalDigitsValue(n: nat)
    ensures |DecimalDigits(n)| > 0
    ensures AllDigits(DecimalDigits(n))
    ensures DigitsValue(DecimalDigits(n)) == n
    decreases n
  {
    if n >= 10 {
      DecimalDigitsValue(n / 10);
      var ds := DecimalDigits(n);
      assert ds[..|ds| - 1] == DecimalDigits(n / 10);
    }
  }

  /** Every 64-bit integer written in decimal parses back to itself. */
  lemma AtoiItoa(n: int)
    requires MinInt64 <= n <= MaxInt64
    ensures Atoi(Itoa(n)) == Some(n)
  {
    var s := Itoa(n);
    if n < 0 {
      DecimalDigitsValue(-n);
      assert s[0] == '-' && s[1..] == DecimalDigits(-n);
    } else {
      DecimalDigitsValue(n);
      assert IsDigit(s[0]);
    }
  }

  /** No signal name survives a change of its first letter. */
  lemma NotNameText(u: string)
    requires |u| > 0 && u[0] != 'S'
    ensures !IsNameText(u)
  {
  }

  // ---------------------------------------------------------------------
  // parseSignal

  /** The upper-cased input is the text of a known signal name. */
  predicate IsNameText(u: string) {
    || u == "SIGTERM" || u == "SIGKILL" || u == "SIGINT" || u == "SIGSTOP"
    || u == "SIGCONT" || u == "SIGUSR1" || u == "SIGUSR2"
  }

  /** The names the Windows build refuses. */
  predicate UnsupportedOnWindows(u: string) {
    u == "SIGSTOP" || u == "SIGCONT" || u == "SIGUSR1" || u == "SIGUSR2"
  }

  /** `parseSignal` of internal/signals_unix.go. */
  function ParseSignalUnix(s: string): (r: Result<Signal, string>)
    // a name in any case gives that named signal
    ensures forall n: SignalName :: Upper(s) == n.Text() ==> r == Ok(Named(n))
    // otherwise a decimal integer gives that number
    ensures !IsNameText(Upper(s)) && Atoi(s).Some? ==> r == Ok(Numbered(Atoi(s).value))
    // and anything else is an error naming the input
    ensures r.Err? <==> !IsNameText(Upper(s)) && Atoi(s).None?
    ensures r.Err? ==> r.error == "invalid signal: " + s
  {
    var u := Upper(s);
    if u == "SIGTERM" then Ok(Named(SIGTERM))
    else if u == "SIGKILL" then Ok(Named(SIGKILL))
    else if u == "SIGINT" then Ok(Named(SIGINT))
    else if u == "SIGSTOP" then Ok(Named(SIGSTOP))
    else if u == "SIGCONT" then Ok(Named(SIGCONT))
    else if u == "SIGUSR1" then Ok(Named(SIGUSR1))
    else if u == "SIGUSR2" then Ok(Named(SIGUSR2))
    else
      match Atoi(s)
      case Some(n) => Ok(Numbered(n))
      case None => Err("invalid signal: " + s)
  }

  /** `parseSignal` of internal/signals_windows.go. */
  function ParseSignalWindows(s: string): (r: Result<Signal, string>)
    ensures UnsupportedOnWindows(Upper(s)) ==> r == Err("invalid signal: " + s + " (not supported on Windows)")
    ensures r.Ok? && r.value.Named? ==> r.value.name in {SIGTERM, SIGKILL, SIGINT}
  {
    var u := Upper(s);
    if u == "SIGTERM" then Ok(Named(SIGTERM))
    else if u == "SIGKILL" then Ok(Named(SIGKILL))
    else if u == "SIGINT" then Ok(Named(SIGINT))
    else if UnsupportedOnWindows(u) then Err("invalid signal: " + s + " (not supported on Windows)")
    else
      match Atoi(s)
      case Some(n) => Ok(Numbered(n))
      case None => Err("invalid signal: " + s)
  }

  /** The two builds agree on every input except the four names Windows
      refuses, which the Unix build accepts. */
  lemma WindowsAgreesWithUnix(s: string)
    ensures !UnsupportedOnWindows(Upper(s)) ==> ParseSignalWindows(s) == ParseSignalUnix(s)
    ensures UnsupportedOnWindows(Upper(s)) ==> ParseSignalWindows(s).Err? && ParseSignalUnix(s).Ok?
  {
  }

  /** A rune whose upper case is a sign or a digit is that very rune. */
  lemma UpperKeepsNumerals(c: char)
    ensures (UpperRune(c) == '+' || UpperRune(c) == '-' || IsDigit(UpperRune(c))) ==> UpperRune(c) == c
  {
  }

  /** Parsing ignores case: two inputs that upper-case alike give the same
      signal, or both an error. */
  lemma ParseIgnoresCase(s: string, t: string)
    requires Upper(s) == Upper(t)
    ensures ParseSignalUnix(s).Ok? <==> ParseSignalUnix(t).Ok?
    ensures ParseSignalUnix(s).Ok? ==> ParseSignalUnix(s).value == ParseSignalUnix(t).value
    ensures ParseSignalWindows(s).Ok? <==> ParseSignalWindows(t).Ok?
    ensures ParseSignalWindows(s).Ok? ==> ParseSignalWindows(s).value == ParseSignalWindows(t).value
  {
    if !IsNameText(Upper(s)) {
      if Atoi(s).Some? {
        NumeralsAreCaseless(s, t);
      } else if Atoi(t).Some? {
        NumeralsAreCaseless(t, s);
      }
    }
  }

  /** An input that parses as an integer is the only input with its upper
      case. */
  lemma NumeralsAreCaseless(s: string, t: string)
    requires Upper(s) == Upper(t)
    requires Atoi(s).Some?
    ensures s == t
  {
    forall i | 0 <= i < |s|
      ensures s[i] == t[i]
    {
      UpperKeepsNumerals(s[i]);
      UpperKeepsNumerals(t[i]);
      assert Upper(s)[i] == Upper(t)[i];
    }
  }

  /** A number written in decimal is parsed as that numbered signal. */
  lemma ParseNumber(n: int)
    requires MinInt64 <= n <= MaxInt64
    ensures ParseSignalUnix(Itoa(n)) == Ok(Numbered(n))
  {
    AtoiItoa(n);
    var s := Itoa(n);
    DecimalDigitsValue(if n < 0 then -n else n);
    assert s[0] == '-' || IsDigit(s[0]);
    assert Upper(s)[0] == UpperRune(s[0]) != 'S';
    NotNameText(Upper(s));
  }
}
