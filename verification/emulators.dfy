/** The `emulators` object of a `firebase.json` file, as the plugins read it:
    an ordered list of keys (object key order), each holding either a settings
    object that may carry a `port`, or a plain boolean such as
    `singleProjectMode`. */
module Emulators {
  import opened Wrappers
  import opened Text
  import opened Records

  /** The JavaScript value found under `.port`: absent, a number or a string. */
  datatype PortValue = NoPort | NumPort(n: int) | StrPort(s: string) {
    /** JavaScript truthiness: `undefined`, `0` and `''` are falsy. */
    predicate Truthy()
    {
      (NumPort? && n != 0) || (StrPort? && s != "")
    }

    /** The value as a template literal renders it. */
    function Render(): string
    {
      match this
      case NoPort => "undefined"
      case NumPort(n) => IntToString(n)
      case StrPort(s) => s
    }

    /** `isNaN(+p)`: the unary plus of a number is the number itself, of
        `undefined` is NaN, and of a string follows the StringToNumber grammar. */
    predicate IsNaN()
    {
      match this
      case NoPort => true
      case NumPort(_) => false
      case StrPort(s) => !IsNumericLiteral(Trim(s))
    }
  }

  /** A value stored under an emulator key: an object (whose `port` may be
      missing) or a boolean flag. */
  datatype EmulatorValue = Settings(port: PortValue) | Flag(flag: bool)

  /** `value?.port`: a boolean has no `port` property. */
  function PortOf(v: EmulatorValue): (p: PortValue)
    ensures v.Flag? ==> p == NoPort
  {
    match v
    case Settings(p) => p
    case Flag(_) => NoPort
  }

  type EmulatorEntries = Record<EmulatorValue>

  /** The truthy `port` values in key order, duplicates kept. */
  function TruthyPorts(entries: EmulatorEntries): (ports: seq<PortValue>)
    ensures forall i :: 0 <= i < |ports| ==> ports[i].Truthy()
    ensures forall p :: p in ports <==> p.Truthy() && exists i :: 0 <= i < |entries| && PortOf(entries[i].1) == p
  {
    if |entries| == 0 then []
    else
      var p := PortOf(entries[0].1);
      var rest := TruthyPorts(entries[1..]);
      assert forall i :: 0 <= i < |entries[1..]| ==> entries[1..][i] == entries[i + 1];
      if p.Truthy() then [p] + rest else rest
  }

  /** The parts of a parsed `firebase.json` the plugins consult. */
  datatype FirebaseJson = FirebaseJson(emulators: Option<EmulatorEntries>)

  // --- The StringToNumber grammar of ECMAScript (section 7.1.4.1.1), which
  // decides whether `+s` is NaN. Leading and trailing white space is removed
  // by the caller; the empty string converts to 0.

  predicate IsHexDigit(c: char)
  {
    IsDigit(c) || ('a' <= c <= 'f') || ('A' <= c <= 'F')
  }

  predicate NonEmptyAll(s: string, p: char -> bool)
  {
    |s| > 0 && forall i :: 0 <= i < |s| ==> p(s[i])
  }

  /** `0x…`, `0o…` or `0b…` with at least one digit of that base. */
  predicate IsNonDecimalInteger(s: string)
  {
    |s| >= 3 && s[0] == '0' &&
    (((s[1] == 'x' || s[1] == 'X') && NonEmptyAll(s[2..], IsHexDigit))
     || ((s[1] == 'o' || s[1] == 'O') && NonEmptyAll(s[2..], c => '0' <= c <= '7'))
     || ((s[1] == 'b' || s[1] == 'B') && NonEmptyAll(s[2..], c => c == '0' || c == '1')))
  }

  /** An optional exponent part `e[+-]digits`. */
  predicate IsOptionalExponent(s: string)
  {
    |s| == 0 ||
    (|s| >= 2 && (s[0] == 'e' || s[0] == 'E') &&
     (if s[1] == '+' || s[1] == '-' then NonEmptyAll(s[2..], IsDigit) else NonEmptyAll(s[1..], IsDigit)))
  }

  /** `Infinity`, or digits with an optional fraction and exponent, or a
      fraction with at least one digit and an optional exponent. */
  predicate IsUnsignedDecimal(s: string)
  {
    s == "Infinity" ||
    (var k := RunLength(s, IsDigit);
     if k > 0 then
       if k < |s| && s[k] == '.' then
         var rest := s[k + 1..];
         IsOptionalExponent(rest[RunLength(rest, IsDigit)..])
       else IsOptionalExponent(s[k..])
     else
       |s| >= 2 && s[0] == '.' &&
       var m := RunLength(s[1..], IsDigit);
       m > 0 && IsOptionalExponent(s[1 + m..]))
  }

  /** A trimmed string whose numeric conversion is not NaN. */
  predicate IsNumericLiteral(s: string)
  {
    |s| == 0 || IsNonDecimalInteger(s) ||
    (if s[0] == '+' || s[0] == '-' then IsUnsignedDecimal(s[1..]) else IsUnsignedDecimal(s))
  }

  /** A string of decimal digits is a number, as the ports written in
      `firebase.json` usually are. */
  lemma DigitsAreNumeric(s: string)
    requires AllDigits(s) && |s| > 0
    ensures !StrPort(s).IsNaN()
  {
    DigitsUnsigned(s);
    assert s[0] != '+' && s[0] != '-' by {
      assert IsDigit(s[0]);
    }
    assert IsNumericLiteral(s);
    TrimDigits(s);
  }

  lemma DigitsUnsigned(s: string)
    requires AllDigits(s) && |s| > 0
    ensures IsUnsignedDecimal(s)
  {
    DigitRun(s);
    assert s[|s|..] == "";
  }

  lemma {:induction false} DigitRun(s: string)
    requires AllDigits(s)
    ensures RunLength(s, IsDigit) == |s|
  {
    if |s| > 0 {
      DigitRun(s[1..]);
    }
  }

  lemma TrimDigits(s: string)
    requires AllDigits(s)
    ensures Trim(s) == s
  {
    assert |s| > 0 ==> !IsSpace(s[0]);
    assert TrimStart(s) == s;
    assert |s| > 0 ==> !IsSpace(s[|s| - 1]);
  }

  /** A port name such as `abc` converts to NaN. */
  lemma LettersAreNaN()
    ensures StrPort("abc").IsNaN()
  {
    assert TrimStart("abc") == "abc";
    assert TrimEnd("abc") == "abc";
    assert RunLength("abc", IsDigit) == 0;
  }
}
