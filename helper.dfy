/**
 * The two helpers of the tool: reading a number that a map viewer printed
 * with thousands separators, and recognising an IPv4 address setting.
 */
module Helper {
  import opened Builtins

  // ---------------------------------------------------------------------
  // removeCommasFromNumber
  // ---------------------------------------------------------------------

  /** The characters the filter keeps, in the order the source lists them. */
  const NUMBERS: seq<char> := ['1', '2', '3', '4', '5', '6', '7', '8', '9', '0', '-']

  /** A character the filter keeps: a decimal digit or `-`. */
  predicate IsNumberChar(c: char) { IsDigit(c) || c == '-' }

  /** NUMBERS holds exactly the digits and `-`. */
  lemma NumbersAreNumberChars(c: char)
    ensures c in NUMBERS <==> IsNumberChar(c)
  {
    if IsNumberChar(c) {
      var i := if c == '-' then 10 else if c == '0' then 9 else DigitValue(c) - 1;
      assert NUMBERS[i] == c;
    }
  }

  /** The characters of `s` that are digits or `-`, in their original order. */
  function Filtered(s: string): (r: string)
    ensures forall i :: 0 <= i < |r| ==> IsNumberChar(r[i])
    ensures |r| <= |s|
  {
    if s == [] then []
    else Filtered(s[..|s| - 1]) + (if IsNumberChar(s[|s| - 1]) then [s[|s| - 1]] else [])
  }

  /** The value `removeCommasFromNumber` returns, or the ValueError `int` raises. */
  function RemoveCommas(s: string): Result<int>
  {
    PyInt(Filtered(s))
  }

  /** Builds the filtered string character by character, then parses it. */
  method RemoveCommasFromNumber(number: string) returns (r: Result<int>)
    ensures r == RemoveCommas(number)
  {
    var newString: string := "";
    var i := 0;
    while i < |number|
      invariant 0 <= i <= |number|
      invariant newString == Filtered(number[..i])
    {
      var c := number[i];
      assert number[..i + 1][..i] == number[..i];
      NumbersAreNumberChars(c);
      if c in NUMBERS {
        newString := newString + [c];
      }
      i := i + 1;
    }
    assert number[..|number|] == number;
    r := PyInt(newString);
  }

  /** The filter distributes over concatenation: it acts on each character alone. */
  lemma {:induction false} FilteredConcat(a: string, b: string)
    ensures Filtered(a + b) == Filtered(a) + Filtered(b)
  {
    if b != [] {
      var ab := a + b;
      assert ab[..|ab| - 1] == a + b[..|b| - 1];
      assert ab[|ab| - 1] == b[|b| - 1];
      FilteredConcat(a, b[..|b| - 1]);
    } else {
      assert a + b == a;
    }
  }

  /** A character survives the filter exactly when it is a digit or `-`. */
  lemma FilteredChar(c: char)
    ensures Filtered([c]) == (if IsNumberChar(c) then [c] else [])
  {
    assert [c][..0] == [];
  }

  /** A string made only of digits and `-` passes through unchanged. */
  lemma {:induction false} FilteredIdentity(s: string)
    requires forall i :: 0 <= i < |s| ==> IsNumberChar(s[i])
    ensures Filtered(s) == s
  {
    if s != [] {
      FilteredIdentity(s[..|s| - 1]);
      assert s[..|s| - 1] + [s[|s| - 1]] == s;
    }
  }

  /** The sign survives: `"-6,652"` reads as -6652. */
  lemma RemoveCommasExample()
    ensures RemoveCommas("-6,652") == Ok(-6652)
  {
    var kept := "-6652";
    FilteredExample();
    assert kept[1..] == "6652";
    DigitsExample();
  }

  lemma FilteredExample()
    ensures Filtered("-6,652") == "-6652"
  {
    var sign, tail := "-6", "652";
    assert "-6,652" == sign + [','] + tail;
    assert IsNumberChar(sign[0]) && IsNumberChar(sign[1]);
    assert IsNumberChar(tail[0]) && IsNumberChar(tail[1]) && IsNumberChar(tail[2]);
    FilteredDropsSeparator(sign, tail);
    assert sign + tail == "-6652";
  }

  /** A separator between two runs of kept characters is dropped. */
  lemma FilteredDropsSeparator(a: string, b: string)
    requires forall i :: 0 <= i < |a| ==> IsNumberChar(a[i])
    requires forall i :: 0 <= i < |b| ==> IsNumberChar(b[i])
    ensures Filtered(a + [','] + b) == a + b
  {
    FilteredConcat(a + [','], b);
    FilteredConcat(a, [',']);
    FilteredChar(',');
    FilteredIdentity(a);
    FilteredIdentity(b);
    assert Filtered(a + [',']) == a + [];
    assert a + [] == a;
  }

  lemma DigitsExample()
    ensures AllDigits("6652") && DigitsValue("6652") == 6652
  {
    var digits := "6652";
    var p := digits[..3];
    ThreeDigits(p);
    assert p[0] == '6' && p[1] == '6' && p[2] == '5' && digits[3] == '2';
  }

  /** `"-5,420"` reads as -5420: a trailing zero group is kept. */
  lemma RemoveCommasZeroGroupExample()
    ensures RemoveCommas("-5,420") == Ok(-5420)
  {
    var sign, tail := "-5", "420";
    assert "-5,420" == sign + [','] + tail;
    assert IsNumberChar(sign[0]) && IsNumberChar(sign[1]);
    assert IsNumberChar(tail[0]) && IsNumberChar(tail[1]) && IsNumberChar(tail[2]);
    FilteredDropsSeparator(sign, tail);
    var kept := sign + tail;
    assert kept == "-5420" && kept[1..] == "5420";
    var digits := "5420";
    ThreeDigits(digits[..3]);
    assert digits[..3][0] == '5' && digits[..3][1] == '4' && digits[..3][2] == '2' && digits[3] == '0';
  }

  /** Nothing left after filtering raises ValueError. */
  lemma RemoveCommasRejectsEmpty()
    ensures RemoveCommas("").Err?
    ensures RemoveCommas(",").Err?
  {
    FilteredChar(',');
  }

  /** A `-` between digits is not an integer literal: `"1-2"` raises ValueError. */
  lemma RemoveCommasRejectsInnerSign()
    ensures RemoveCommas("1-2").Err?
  {
    var s := "1-2";
    assert forall i :: 0 <= i < |s| ==> IsNumberChar(s[i]);
    FilteredIdentity(s);
    assert !IsDigit(s[1]) && !IsDigit(s[1..][0]);
  }

  /** Applied to `str(n)`, the helper returns n. */
  lemma RemoveCommasOfIntString(n: int)
    ensures RemoveCommas(IntToString(n)) == Ok(n)
  {
    var s := IntToString(n);
    assert forall i :: 0 <= i < |s| ==> IsNumberChar(s[i]) by {
      forall i | 0 <= i < |s| ensures IsNumberChar(s[i]) {
        assert s[i] == '-' || IsDigit(s[i]);
      }
    }
    FilteredIdentity(s);
    IntToStringParses(n);
  }

  // ---------------------------------------------------------------------
  // isValidIPv4Address
  // ---------------------------------------------------------------------

  /** One octet of the address pattern, alternative by alternative:
      `25[0-5]`, `2[0-4][0-9]`, `1[0-9][0-9]`, `[1-9][0-9]` and `[0-9]`. */
  predicate IsOctet(s: string)
  {
    (|s| == 3 && s[0] == '2' && s[1] == '5' && '0' <= s[2] <= '5') ||
    (|s| == 3 && s[0] == '2' && '0' <= s[1] <= '4' && IsDigit(s[2])) ||
    (|s| == 3 && s[0] == '1' && IsDigit(s[1]) && IsDigit(s[2])) ||
    (|s| == 2 && '1' <= s[0] <= '9' && IsDigit(s[1])) ||
    (|s| == 1 && IsDigit(s[0]))
  }

  /** Exactly four octets separated by dots, nothing before or after. */
  predicate IsDottedQuad(addr: string)
  {
    var parts := Split(addr, '.');
    |parts| == 4 && IsOctet(parts[0]) && IsOctet(parts[1]) && IsOctet(parts[2]) && IsOctet(parts[3])
  }

  /** The address setting accepted by the tool. */
  predicate IsValidIPv4Address(addr: string)
  {
    IsDottedQuad(addr) || addr == "localhost" || addr == "0"
  }

  /** What `str` writes for four byte values, joined with dots. */
  function Quad(a: nat, b: nat, c: nat, d: nat): string
  {
    NatToString(a) + "." + NatToString(b) + "." + NatToString(c) + "." + NatToString(d)
  }

  lemma OneDigit(s: string)
    requires |s| == 1 && AllDigits(s)
    ensures DigitsValue(s) == DigitValue(s[0])
  {
    assert s[..0] == [];
  }

  lemma TwoDigits(s: string)
    requires |s| == 2 && AllDigits(s)
    ensures DigitsValue(s) == DigitValue(s[0]) * 10 + DigitValue(s[1])
  {
    var p := s[..1];
    assert p[0] == s[0];
    OneDigit(p);
  }

  lemma ThreeDigits(s: string)
    requires |s| == 3 && AllDigits(s)
    ensures DigitsValue(s) == DigitValue(s[0]) * 100 + DigitValue(s[1]) * 10 + DigitValue(s[2])
  {
    var p := s[..2];
    assert p[0] == s[0] && p[1] == s[1];
    TwoDigits(p);
  }

  /** An octet is exactly what `str` writes for a number from 0 to 255. */
  lemma OctetIsByte(s: string)
    requires IsOctet(s)
    ensures AllDigits(s) && DigitsValue(s) < 256 && NatToString(DigitsValue(s)) == s
  {
    assert AllDigits(s);
    if |s| == 3 {
      ThreeDigits(s);
    } else if |s| == 2 {
      TwoDigits(s);
    } else {
      OneDigit(s);
    }
    CanonicalDigitsString(s);
  }

  /** Every number from 0 to 255, written by `str`, is an octet. */
  lemma ByteIsOctet(n: nat)
    requires n < 256
    ensures IsOctet(NatToString(n))
  {
    if n >= 100 {
      assert NatToString(n) == NatToString(n / 10) + [DigitChar(n % 10)];
      assert NatToString(n / 10) == [DigitChar(n / 100)] + [DigitChar(n / 10 % 10)];
    } else if n >= 10 {
      assert NatToString(n) == [DigitChar(n / 10)] + [DigitChar(n % 10)];
    }
  }

  lemma JoinFour(p0: string, p1: string, p2: string, p3: string)
    ensures Join([p0, p1, p2, p3], '.') == p0 + "." + p1 + "." + p2 + "." + p3
  {
    JoinCons(p2, [p3], '.');
    assert [p2] + [p3] == [p2, p3];
    JoinCons(p1, [p2, p3], '.');
    assert [p1] + [p2, p3] == [p1, p2, p3];
    JoinCons(p0, [p1, p2, p3], '.');
    assert [p0] + [p1, p2, p3] == [p0, p1, p2, p3];
  }

  lemma NoDotInDigits(s: string)
    requires AllDigits(s)
    ensures '.' !in s
  {
    assert forall i :: 0 <= i < |s| ==> s[i] != '.';
  }

  lemma QuadParts(a: nat, b: nat, c: nat, d: nat)
    ensures Split(Quad(a, b, c, d), '.') == [NatToString(a), NatToString(b), NatToString(c), NatToString(d)]
  {
    var parts := [NatToString(a), NatToString(b), NatToString(c), NatToString(d)];
    NoDotInDigits(parts[0]);
    NoDotInDigits(parts[1]);
    NoDotInDigits(parts[2]);
    NoDotInDigits(parts[3]);
    JoinFour(parts[0], parts[1], parts[2], parts[3]);
    SplitJoin(parts, '.');
  }

  /** Four bytes written with dots form a valid address. */
  lemma QuadIsValid(a: nat, b: nat, c: nat, d: nat)
    requires a < 256 && b < 256 && c < 256 && d < 256
    ensures IsValidIPv4Address(Quad(a, b, c, d))
  {
    QuadParts(a, b, c, d);
    ByteIsOctet(a);
    ByteIsOctet(b);
    ByteIsOctet(c);
    ByteIsOctet(d);
  }

  /** A dotted quad is four bytes written with dots. */
  lemma DottedQuadIsFourBytes(addr: string)
    requires IsDottedQuad(addr)
    ensures exists a: nat, b: nat, c: nat, d: nat ::
      a < 256 && b < 256 && c < 256 && d < 256 && addr == Quad(a, b, c, d)
  {
    var parts := Split(addr, '.');
    OctetIsByte(parts[0]);
    OctetIsByte(parts[1]);
    OctetIsByte(parts[2]);
    OctetIsByte(parts[3]);
    JoinSplit(addr, '.');
    assert parts == [parts[0], parts[1], parts[2], parts[3]];
    JoinFour(parts[0], parts[1], parts[2], parts[3]);
    var a, b, c, d := DigitsValue(parts[0]), DigitsValue(parts[1]), DigitsValue(parts[2]), DigitsValue(parts[3]);
    assert addr == Quad(a, b, c, d);
  }

  /** An octet above 255 is refused. */
  lemma IPv4RejectsLargeOctet()
    ensures !IsValidIPv4Address("256.1.1.1")
  {
    assert "256.1.1.1" == "256" + "." + "1.1.1";
    SplitAfterField("256", '.', "1.1.1");
  }

  /** An octet with a leading zero is refused. */
  lemma IPv4RejectsLeadingZero()
    ensures !IsValidIPv4Address("01.2.3.4")
  {
    assert "01.2.3.4" == "01" + "." + "2.3.4";
    SplitAfterField("01", '.', "2.3.4");
  }

  /** Three octets are refused. */
  lemma IPv4RejectsThreeOctets()
    ensures !IsValidIPv4Address("1.2.3")
  {
    var parts := ["1", "2", "3"];
    JoinCons("2", ["3"], '.');
    assert ["2"] + ["3"] == ["2", "3"];
    JoinCons("1", ["2", "3"], '.');
    assert ["1"] + ["2", "3"] == parts;
    assert Join(parts, '.') == "1.2.3";
    SplitJoin(parts, '.');
  }

  /** A trailing dot leaves an empty fifth part, so the address is refused. */
  lemma IPv4RejectsTrailingDot()
    ensures !IsValidIPv4Address("1.2.3.4.")
  {
    assert "1.2.3.4." == "1" + "." + "2.3.4.";
    SplitAfterField("1", '.', "2.3.4.");
    assert "2.3.4." == "2" + "." + "3.4.";
    SplitAfterField("2", '.', "3.4.");
    assert "3.4." == "3" + "." + "4.";
    SplitAfterField("3", '.', "4.");
    assert "4." == "4" + "." + "";
    SplitAfterField("4", '.', "");
  }

  /** A dotted quad and the two literals are accepted. */
  lemma IPv4Accepts()
    ensures IsValidIPv4Address("192.168.0.1")
    ensures IsValidIPv4Address("localhost") && IsValidIPv4Address("0")
  {
    assert NatToString(19) == "19";
    assert NatToString(192) == "192";
    assert NatToString(16) == "16";
    assert NatToString(168) == "168";
    assert Quad(192, 168, 0, 1) == "192.168.0.1";
    QuadIsValid(192, 168, 0, 1);
  }
}
