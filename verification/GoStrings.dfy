/** The parts of Go's `strings` and `strconv` packages the agent relies on.
    Characters stand for bytes; white space and letter case are ASCII only. */
module GoStrings {
  import opened Options

  const MAX_INT64: int := 0x7FFF_FFFF_FFFF_FFFF

  predicate IsSpace(c: char) {
    c == ' ' || c == '\t' || c == '\n' || c == '\r' || c == 11 as char || c == 12 as char
  }

  function TrimLeft(s: string): string {
    if s == [] then []
    else if IsSpace(s[0]) then TrimLeft(s[1..])
    else s
  }

  function TrimRight(s: string): string {
    if s == [] then []
    else if IsSpace(s[|s| - 1]) then TrimRight(s[..|s| - 1])
    else s
  }

  function TrimSpace(s: string): string {
    TrimRight(TrimLeft(s))
  }

  function LowerChar(c: char): char {
    if 'A' <= c <= 'Z' then c - 'A' + 'a' else c
  }

  function ToLower(s: string): (r: string)
    ensures |r| == |s|
  {
    seq(|s|, i requires 0 <= i < |s| => LowerChar(s[i]))
  }

  predicate IsDigit(c: char) {
    '0' <= c <= '9'
  }

  /** The value of a non-empty run of decimal digits. */
  function DigitsValue(s: string): Option<nat> {
    if s == [] || !IsDigit(s[|s| - 1]) then None
    else
      var d := (s[|s| - 1] - '0') as nat;
      if |s| == 1 then Some(d)
      else
        match DigitsValue(s[..|s| - 1])
        case None => None
        case Some(v) => Some(10 * v + d)
  }

  /** `strconv.Atoi` for a 64-bit int: an optional sign, then decimal digits, in range. */
  function Atoi(s: string): Option<int> {
    var signed := s != [] && (s[0] == '-' || s[0] == '+');
    match DigitsValue(if signed then s[1..] else s)
    case None => None
    case Some(v) =>
      var magnitude: int := v;
      var n := if signed && s[0] == '-' then -magnitude else magnitude;
      if -MAX_INT64 - 1 <= n <= MAX_INT64 then Some(n) else None
  }

  /** Decimal notation of a natural number, as `echo $?` prints it. */
  function Itoa(n: nat): (s: string)
    ensures s != []
  {
    var d := n % 10;
    var last := '0' + d as char;
    if n < 10 then [last] else Itoa(n / 10) + [last]
  }

  lemma {:induction false} ItoaDigits(n: nat)
    ensures DigitsValue(Itoa(n)) == Some(n)
    ensures forall i :: 0 <= i < |Itoa(n)| ==> IsDigit(Itoa(n)[i])
  {
    if n >= 10 {
      ItoaDigits(n / 10);
      assert Itoa(n)[..|Itoa(n)| - 1] == Itoa(n / 10);
    }
  }

  /** Reading back a printed number: one trailing newline is trimmed, the value survives. */
  lemma AtoiOfEcho(n: nat)
    requires n <= MAX_INT64
    ensures Atoi(TrimSpace(Itoa(n) + "\n")) == Some(n)
  {
    var line := Itoa(n) + "\n";
    ItoaDigits(n);
    assert !IsSpace(line[0]) by { assert line[0] == Itoa(n)[0]; }
    assert TrimLeft(line) == line;
    assert line[..|line| - 1] == Itoa(n);
    assert IsDigit(Itoa(n)[0]);
    assert IsDigit(Itoa(n)[|Itoa(n)| - 1]);
    assert TrimRight(line) == TrimRight(Itoa(n)) == Itoa(n);
  }

  predicate AllSpace(s: string) {
    forall i :: 0 <= i < |s| ==> IsSpace(s[i])
  }

  lemma {:induction false} TrimLeftMeaning(s: string) returns (a: nat)
    ensures a <= |s| && TrimLeft(s) == s[a..] && AllSpace(s[..a]) && (a < |s| ==> !IsSpace(s[a]))
  {
    a := 0;
    if s != [] && IsSpace(s[0]) {
      a := TrimLeftMeaning(s[1..]);
      a := a + 1;
      assert s[a..] == s[1..][a - 1..];
      forall i | 0 <= i < a ensures IsSpace(s[..a][i]) {
        assert i > 0 ==> s[i] == s[1..][..a - 1][i - 1];
      }
    }
  }

  lemma {:induction false} TrimRightMeaning(s: string) returns (b: nat)
    ensures b <= |s| && TrimRight(s) == s[..b] && AllSpace(s[b..]) && (b > 0 ==> !IsSpace(s[b - 1]))
  {
    b := |s|;
    if s != [] && IsSpace(s[b - 1]) {
      b := TrimRightMeaning(s[..|s| - 1]);
      forall i | 0 <= i < |s| - b ensures IsSpace(s[b..][i]) {
        assert i < |s| - 1 - b ==> s[b + i] == s[..|s| - 1][b..][i];
      }
    }
  }

  /** Trimming takes away white space at both ends, and all of it. */
  lemma TrimMeaning(s: string) returns (a: nat, b: nat)
    ensures a <= b <= |s| && TrimSpace(s) == s[a..b] && AllSpace(s[..a]) && AllSpace(s[b..])
    ensures a < b ==> !IsSpace(s[a]) && !IsSpace(s[b - 1])
  {
    a := TrimLeftMeaning(s);
    b := TrimRightMeaning(s[a..]);
    assert s[a..][..b] == s[a..a + b] && s[a..][b..] == s[a + b..];
    if b > 0 {
      assert s[a..][b - 1] == s[a + b - 1];
      if a < |s| && IsSpace(s[a]) { assert false; }
    }
    b := a + b;
  }

  /** Only digits, and at least one of them, have a value. */
  lemma {:induction false} DigitsOnly(s: string)
    ensures DigitsValue(s).Some? <==> s != [] && forall i :: 0 <= i < |s| ==> IsDigit(s[i])
  {
    if |s| > 1 && IsDigit(s[|s| - 1]) {
      DigitsOnly(s[..|s| - 1]);
      assert forall i :: 0 <= i < |s| - 1 ==> s[i] == s[..|s| - 1][i];
    }
  }
}
