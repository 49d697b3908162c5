// Trace addresses as text: the decimal components of a path, joined by a separator.
module TraceAddress {
  type Path = seq<nat>

  predicate IsDigit(c: char) {
    '0' <= c <= '9'
  }

  function Digit(d: nat): (c: char)
    requires d < 10
    ensures IsDigit(c)
  {
    '0' + d as char
  }

  function Decimal(n: nat): (s: string)
    ensures s != "" && forall i | 0 <= i < |s| :: IsDigit(s[i])
  {
    if n < 10 then [Digit(n)] else Decimal(n / 10) + [Digit(n % 10)]
  }

  function ReadDecimal(s: string): nat
    requires forall i | 0 <= i < |s| :: IsDigit(s[i])
  {
    if s == "" then 0
    else
      assert IsDigit(s[|s| - 1]);
      ReadDecimal(s[..|s| - 1]) * 10 + (s[|s| - 1] as nat - '0' as nat)
  }

  lemma {:induction false} DecimalRoundTrip(n: nat)
    ensures ReadDecimal(Decimal(n)) == n
  {
    if n >= 10 {
      DecimalRoundTrip(n / 10);
      var s := Decimal(n);
      assert s[..|s| - 1] == Decimal(n / 10);
    } else {
      var s := Decimal(n);
      assert s[..|s| - 1] == "" && ReadDecimal("") == 0;
    }
  }

  function Format(path: Path, sep: char): string {
    if path == [] then ""
    else if |path| == 1 then Decimal(path[0])
    else Format(path[..|path| - 1], sep) + [sep] + Decimal(path[|path| - 1])
  }

  method FormatTraceAddress(path: Path, sep: char) returns (s: string)
    ensures s == Format(path, sep)
  {
    if path == [] {
      return "";
    }
    s := Decimal(path[0]);
    for i := 1 to |path|
      invariant s == Format(path[..i], sep)
    {
      assert path[..i + 1][..i] == path[..i];
      s := s + [sep];
      s := s + Decimal(path[i]);
    }
    assert path[..|path|] == path;
  }

  // Position of the last separator, or -1.
  function LastSep(s: string, sep: char): (k: int)
    ensures -1 <= k < |s|
    ensures k >= 0 ==> s[k] == sep
    ensures forall i | k < i < |s| :: s[i] != sep
  {
    if s == "" then -1
    else if s[|s| - 1] == sep then |s| - 1
    else LastSep(s[..|s| - 1], sep)
  }

  function ReadComponent(s: string): nat {
    if forall i | 0 <= i < |s| :: IsDigit(s[i]) then ReadDecimal(s) else 0
  }

  // Split at the separators and read each component; the empty text is the empty path.
  function Parse(s: string, sep: char): Path
    decreases |s|
  {
    if s == "" then []
    else
      var k := LastSep(s, sep);
      if k < 0 then [ReadComponent(s)]
      else Parse(s[..k], sep) + [ReadComponent(s[k + 1..])]
  }

  lemma ReadDecimalText(n: nat)
    ensures ReadComponent(Decimal(n)) == n
  {
    DecimalRoundTrip(n);
  }

  lemma SplitAtLast(head: string, sep: char, last: string)
    requires forall i | 0 <= i < |last| :: last[i] != sep
    ensures var s := head + [sep] + last;
            LastSep(s, sep) == |head| && s[..|head|] == head && s[|head| + 1..] == last
  {
    var s := head + [sep] + last;
    assert s[|head|] == sep;
    assert forall i | |head| < i < |s| :: s[i] == last[i - |head| - 1];
  }

  lemma ParseJoin(head: string, sep: char, last: string)
    requires forall i | 0 <= i < |last| :: last[i] != sep
    ensures Parse(head + [sep] + last, sep) == Parse(head, sep) + [ReadComponent(last)]
  {
    SplitAtLast(head, sep, last);
  }

  lemma ParseSingle(last: string, sep: char)
    requires last != "" && forall i | 0 <= i < |last| :: last[i] != sep
    ensures Parse(last, sep) == [ReadComponent(last)]
  {
    assert LastSep(last, sep) == -1;
  }

  lemma ParseNext(head: Path, text: string, sep: char, last: nat)
    requires !IsDigit(sep) && Parse(text, sep) == head
    ensures Parse(text + [sep] + Decimal(last), sep) == head + [last]
  {
    ReadDecimalText(last);
    ParseJoin(text, sep, Decimal(last));
  }

  // A printed trace address can be read back, whatever the path, as long as the
  // separator is not a digit.
  lemma {:induction false} ParseFormat(path: Path, sep: char)
    requires !IsDigit(sep)
    ensures Parse(Format(path, sep), sep) == path
  {
    if path == [] {
    } else {
      if |path| == 1 {
        ReadDecimalText(path[0]);
        ParseSingle(Decimal(path[0]), sep);
      } else {
        ParseFormat(path[..|path| - 1], sep);
        ParseNext(path[..|path| - 1], Format(path[..|path| - 1], sep), sep, path[|path| - 1]);
        assert path == path[..|path| - 1] + [path[|path| - 1]];
      }
    }
  }

  lemma DecimalLast(n: nat, d: nat)
    requires n > 0 && d < 10
    ensures Decimal(10 * n + d) == Decimal(n) + [Digit(d)]
  {
    assert (10 * n + d) / 10 == n && (10 * n + d) % 10 == d;
  }

  lemma DecimalTens(t: nat, d: nat)
    requires 0 < t < 10 && d < 10
    ensures Decimal(10 * t + d) == [Digit(t), Digit(d)]
  {
    DecimalLast(t, d);
  }

  // With a digit as the separator it is not.
  lemma DigitSeparatorAmbiguous(sep: char)
    requires IsDigit(sep)
    ensures exists a: Path, b: Path :: a != b && Format(a, sep) == Format(b, sep)
  {
    var d := sep as nat - '0' as nat;
    var n := 10 * (10 + d) + 1;
    DecimalTens(1, d);
    DecimalLast(10 + d, 1);
    assert [1, 1][..1] == [1];
    assert Format([1, 1], sep) == [Digit(1)] + [sep] + [Digit(1)];
    assert Format([n], sep) == Format([1, 1], sep);
  }

  // Distinct trace addresses print differently exactly when the separator is not a digit.
  lemma FormatInjectiveIff(sep: char)
    ensures (forall a: Path, b: Path :: Format(a, sep) == Format(b, sep) ==> a == b) <==> !IsDigit(sep)
  {
    if IsDigit(sep) {
      DigitSeparatorAmbiguous(sep);
    } else {
      forall a: Path, b: Path | Format(a, sep) == Format(b, sep)
        ensures a == b
      {
        ParseFormat(a, sep);
        ParseFormat(b, sep);
      }
    }
  }
}
