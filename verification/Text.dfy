/** The string helpers the services rely on: whitespace trimming and decimal printing. */
module Text {

  /** The characters of Unicode's White_Space property. */
  predicate IsSpace(c: char) {
    var u := c as int;
    || 0x09 <= u <= 0x0D || u == 0x20 || u == 0x85 || u == 0xA0 || u == 0x1680
    || 0x2000 <= u <= 0x200A || u == 0x2028 || u == 0x2029 || u == 0x202F || u == 0x205F || u == 0x3000
  }

  function TrimLeft(s: string): (t: string)
    ensures t != "" ==> !IsSpace(t[0]) && s != "" && t[|t| - 1] == s[|s| - 1]
  {
    if s != "" && IsSpace(s[0]) then TrimLeft(s[1..]) else s
  }

  function TrimRight(s: string): (t: string)
    ensures t <= s
    ensures t != "" ==> !IsSpace(t[|t| - 1])
  {
    if s != "" && IsSpace(s[|s| - 1]) then TrimRight(s[..|s| - 1]) else s
  }

  function Trim(s: string): string {
    TrimRight(TrimLeft(s))
  }

  predicate Blank(s: string) {
    Trim(s) == ""
  }

  lemma BlankIsEmpty(s: string)
    ensures Blank(s) <==> Trim(s) == ""
  {
    hide Trim;
  }

  /** No space at either end. */
  predicate Trimmed(s: string) {
    s != "" ==> !IsSpace(s[0]) && !IsSpace(s[|s| - 1])
  }

  /** Trimming always yields a trimmed string, and leaves exactly the trimmed strings alone. */
  lemma TrimIsTrimmed(s: string)
    ensures Trimmed(Trim(s))
    ensures Trim(s) == s <==> Trimmed(s)
    ensures Trim(Trim(s)) == Trim(s)
  {
    var t := Trim(s);
    if t != "" {
      assert t <= TrimLeft(s);
      assert t[0] == TrimLeft(s)[0];
    }
  }

  lemma EmptyIsBlank()
    ensures Blank("") && Trim("") == ""
  {
  }

  function DigitChar(d: int): char
    requires 0 <= d < 10
  {
    (0x30 + d) as char
  }

  predicate IsDigit(c: char) {
    '0' <= c <= '9'
  }

  function Digits(n: nat): (s: string)
    ensures s != ""
    ensures forall i | 0 <= i < |s| :: IsDigit(s[i])
  {
    if n < 10 then [DigitChar(n)] else Digits(n / 10) + [DigitChar(n % 10)]
  }

  /** Base-ten text of an integer, as `%d` prints it. */
  function Decimal(n: int): (s: string)
    ensures s != ""
    ensures s[0] == '-' || IsDigit(s[0])
    ensures IsDigit(s[|s| - 1])
  {
    if n < 0 then "-" + Digits(-n) else Digits(n)
  }
}
