/** Device keys: exactly the strings mouse-N for 1 <= N < 2^64. */
module DeviceKey {
  import opened Decimal

  const PREFIX := "mouse-"
  const MAX_U64: nat := 0xFFFF_FFFF_FFFF_FFFF

  datatype Number = NotANumber | Number(n: nat)
  datatype Key = Rejected | Key(text: string)

  /** The characters trimming removes: Unicode white space. */
  predicate IsSpace(c: char) {
    || '\t' <= c <= '\r' || c == ' ' || c == '\U{85}' || c == '\U{A0}' || c == '\U{1680}'
    || '\U{2000}' <= c <= '\U{200A}' || c in {'\U{2028}', '\U{2029}', '\U{202F}', '\U{205F}', '\U{3000}'}
  }

  function TrimStart(s: string): string {
    if s != [] && IsSpace(s[0]) then TrimStart(s[1..]) else s
  }

  function TrimEnd(s: string): string {
    if s != [] && IsSpace(s[|s| - 1]) then TrimEnd(s[..|s| - 1]) else s
  }

  function Trim(s: string): string {
    TrimEnd(TrimStart(s))
  }

  function PrintKey(n: nat): string {
    PREFIX + DigitsOf(n)
  }

  /** The suffix as a 64-bit number: digits only, no leading zero, no
      overflow, not zero. */
  function ParseNumber(s: string): Number {
    if !(PREFIX <= s) then NotANumber
    else
      var suffix := s[|PREFIX|..];
      if suffix == [] || !AllDigits(suffix) then NotANumber
      else if |suffix| > 1 && suffix[0] == '0' then NotANumber
      else if Value(suffix) > MAX_U64 || Value(suffix) == 0 then NotANumber
      else Number(Value(suffix))
  }

  /** Every check the key's constructor makes, in its order. */
  function New(s: string): Key {
    if Trim(s) == [] || s != Trim(s) then Rejected
    else
      var number := ParseNumber(s);
      if number.NotANumber? then Rejected
      else if PrintKey(number.n) != s || number.n == 0 then Rejected
      else Key(s)
  }

  function FromNumber(n: nat): Key {
    if n == 0 then Rejected else New(PrintKey(n))
  }

  lemma {:induction false} ParsesPrinted(n: nat)
    ensures ParseNumber(PrintKey(n)) == if 1 <= n <= MAX_U64 then Number(n) else NotANumber
  {
    var digits := DigitsOf(n);
    DigitsRead(n);
    assert PrintKey(n)[|PREFIX|..] == digits;
  }

  /** A parsed key is printed from its number: the canonical-form check after
      parsing never fails. */
  lemma ParsedIsCanonical(s: string)
    requires ParseNumber(s).Number?
    ensures 1 <= ParseNumber(s).n <= MAX_U64 && PrintKey(ParseNumber(s).n) == s
  {
    var suffix := s[|PREFIX|..];
    ReadsDigits(suffix);
    assert s == PREFIX + suffix;
  }

  lemma PrintedIsTrimmed(n: nat)
    ensures PrintKey(n) != [] && Trim(PrintKey(n)) == PrintKey(n)
  {
    var s := PrintKey(n);
    DigitsRead(n);
    var last := s[|s| - 1];
    assert last == DigitsOf(n)[|DigitsOf(n)| - 1] && IsDigit(last);
    assert s[0] == 'm';
  }

  /** The constructor accepts exactly the strings printed from a number
      between 1 and 2^64 - 1. */
  lemma NewAcceptsIff(s: string)
    ensures New(s) == Key(s) <==> exists n :: 1 <= n < 0x1_0000_0000_0000_0000 && s == PrintKey(n)
    ensures New(s) == Key(s) || New(s) == Rejected
  {
    if New(s) == Key(s) {
      ParsedIsCanonical(s);
    }
    if n :| 1 <= n <= MAX_U64 && s == PrintKey(n) {
      ParsesPrinted(n);
      PrintedIsTrimmed(n);
    }
  }

  /** Reading the number of a key made from a number gives it back; different
      numbers make different keys. */
  lemma NumberInvertsFromNumber(n: nat, m: nat)
    requires 1 <= n <= MAX_U64
    ensures FromNumber(n) == Key(PrintKey(n)) && ParseNumber(PrintKey(n)) == Number(n)
    ensures PrintKey(n) == PrintKey(m) ==> n == m
    ensures FromNumber(0) == Rejected
    ensures PrintKey(7) == "mouse-7"
  {
    ParsesPrinted(n);
    ParsesPrinted(m);
    PrintedIsTrimmed(n);
  }
}
