/**
 * The `validForm` check on the checkout fields: the name matches
 * /^[a-zA-Z\s]+$/ and the phone matches /^[0-9]{10}$/.
 */
module Forms {
  import opened Text

  /** JavaScript's `\s`: the white-space and line-terminator characters, by code point. */
  predicate IsSpace(c: char)
  {
    var n := c as int;
    n == 0x09 || n == 0x0A || n == 0x0B || n == 0x0C || n == 0x0D || n == 0x20
    || n == 0xA0 || n == 0x1680 || (0x2000 <= n <= 0x200A) || n == 0x2028 || n == 0x2029
    || n == 0x202F || n == 0x205F || n == 0x3000 || n == 0xFEFF
  }

  predicate IsAsciiLetter(c: char)
  {
    'a' <= c <= 'z' || 'A' <= c <= 'Z'
  }

  /** The two character classes of the form's regular expressions. */
  datatype CharClass = NameChars | Digits

  predicate InClass(c: char, cls: CharClass)
  {
    match cls
    case NameChars => IsAsciiLetter(c) || IsSpace(c)
    case Digits => IsDigit(c)
  }

  /** Anchored `^[cls]+$`: one or more characters, each in the class. */
  function MatchPlus(s: string, cls: CharClass): (r: bool)
    ensures r <==> |s| >= 1 && forall i :: 0 <= i < |s| ==> InClass(s[i], cls)
  {
    if s == [] then false
    else InClass(s[0], cls) && (|s| == 1 || MatchPlus(s[1..], cls))
  }

  /** Anchored `^[cls]{n}$`: exactly `n` characters, each in the class. */
  function MatchCount(s: string, cls: CharClass, n: nat): (r: bool)
    ensures r <==> |s| == n && forall i :: 0 <= i < |s| ==> InClass(s[i], cls)
  {
    if n == 0 then s == []
    else s != [] && InClass(s[0], cls) && MatchCount(s[1..], cls, n - 1)
  }

  /** The checkout form may be submitted. */
  function ValidForm(name: string, phone: string): (r: bool)
    ensures r <==> |name| >= 1 && (forall i :: 0 <= i < |name| ==> IsAsciiLetter(name[i]) || IsSpace(name[i]))
                   && |phone| == 10 && (forall i :: 0 <= i < |phone| ==> '0' <= phone[i] <= '9')
  {
    MatchPlus(name, NameChars) && MatchCount(phone, Digits, 10)
  }

  /** A name of letters and a space with a ten-digit phone is accepted. */
  lemma ValidFormAccepts()
    ensures ValidForm("Jo Ann", "1234567890")
  {
    var name, phone := "Jo Ann", "1234567890";
    assert forall i :: 0 <= i < |name| ==> IsAsciiLetter(name[i]) || name[i] == ' ';
    assert forall i :: 0 <= i < |phone| ==> '0' <= phone[i] <= '9';
  }

  /** A digit in the name, a short phone or an empty name is refused. */
  lemma ValidFormRejects()
    ensures !ValidForm("Jo1", "1234567890")
    ensures !ValidForm("Jo Ann", "12345")
    ensures !ValidForm("", "1234567890")
  {
    assert !InClass("Jo1"[2], NameChars);
    assert |"12345"| != 10;
  }
}
