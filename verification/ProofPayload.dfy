/** The string both sides of token binding sign and verify: five fields separated by '|'
    (common/token_binding.py), with Python's str() and int() for the timestamp. */
module ProofPayload {
  import opened Options
  import opened Text

  const SEP := '|'

  // ---- str(int) and int(str) ----

  function Digit(d: nat): char
    requires d < 10
  {
    (d + 48) as char
  }

  function FormatNat(n: nat): string {
    if n < 10 then [Digit(n)] else FormatNat(n / 10) + [Digit(n % 10)]
  }

  function FormatInt(n: int): string {
    if n < 0 then "-" + FormatNat(-n) else FormatNat(n)
  }

  predicate IsDigit(c: char) { '0' <= c <= '9' }

  predicate IsSpace(c: char) {
    c == ' ' || 9 <= c as int <= 13 || 28 <= c as int <= 31
  }

  // Digits, with at most one underscore between two of them.
  function ParseNat(s: string): Option<nat> {
    if s == "" || !IsDigit(s[|s| - 1]) then None
    else
      var d := s[|s| - 1] as int - 48;
      if |s| == 1 then Some(d)
      else
        var head := if s[|s| - 2] == '_' then s[..|s| - 2] else s[..|s| - 1];
        match ParseNat(head)
        case Some(n) => Some(10 * n + d)
        case None => None
  }

  function Scale(sign: int, magnitude: Option<nat>): Option<int> {
    match magnitude
    case Some(n) => Some(sign * n)
    case None => None
  }

  function ParseSigned(s: string): Option<int> {
    if s != "" && s[0] == '-' then Scale(-1, ParseNat(s[1..]))
    else if s != "" && s[0] == '+' then Scale(1, ParseNat(s[1..]))
    else Scale(1, ParseNat(s))
  }

  // int(text): surrounding white space, a sign, digits. None stands for ValueError.
  function ParseInt(text: string): Option<int> {
    ParseSigned(Strip(IsSpace, text))
  }

  lemma {:induction false} FormatNatIsDigits(n: nat)
    ensures FormatNat(n) != "" && forall c | c in FormatNat(n) :: IsDigit(c)
  {
    if n >= 10 {
      FormatNatIsDigits(n / 10);
    }
  }

  lemma {:induction false} ParseFormatNat(n: nat)
    ensures ParseNat(FormatNat(n)) == Some(n)
  {
    FormatNatIsDigits(n);
    if n >= 10 {
      ParseFormatNat(n / 10);
      FormatNatIsDigits(n / 10);
      var s := FormatNat(n);
      assert s[..|s| - 1] == FormatNat(n / 10);
      assert s[|s| - 2] in FormatNat(n / 10);
    }
  }

  // ---- What int() accepts ----

  // Digits with single underscores between them.
  ghost predicate Numeral(s: string) {
    && s != "" && IsDigit(s[0]) && IsDigit(s[|s| - 1])
    && (forall i | 0 <= i < |s| :: IsDigit(s[i]) || s[i] == '_')
    && (forall i | 0 <= i < |s| - 1 :: s[i] == '_' ==> s[i + 1] != '_')
  }

  function Digits(s: string): string {
    if s == "" then ""
    else Digits(s[..|s| - 1]) + (if IsDigit(s[|s| - 1]) then [s[|s| - 1]] else "")
  }

  function Zeros(k: nat): string { seq(k, _ => '0') }

  // Without its underscores the numeral is the decimal form of n, up to leading zeros.
  ghost predicate Denotes(s: string, n: nat) {
    Numeral(s) && exists k: nat :: Digits(s) == Zeros(k) + FormatNat(n)
  }

  // The part of a numeral before its last digit and the underscore that may come before that.
  function Before(s: string): string
    requires |s| > 1
  {
    if s[|s| - 2] == '_' then s[..|s| - 2] else s[..|s| - 1]
  }

  lemma {:induction false} DigitsBefore(s: string)
    requires |s| > 1 && IsDigit(s[|s| - 1])
    ensures Digits(s) == Digits(Before(s)) + [s[|s| - 1]]
  {
    var front := s[..|s| - 1];
    assert Digits(s) == Digits(front) + [s[|s| - 1]];
    if s[|s| - 2] == '_' {
      assert Digits(front) == Digits(front[..|front| - 1]);
      assert front[..|front| - 1] == s[..|s| - 2];
    }
  }

  lemma NumeralBefore(s: string)
    requires |s| > 1
    ensures Numeral(s) <==> IsDigit(s[|s| - 1]) && Numeral(Before(s))
  {
    var b, n := Before(s), |s|;
    if IsDigit(s[n - 1]) && Numeral(b) {
      assert forall i | 0 <= i < |b| :: s[i] == b[i];
    }
    if Numeral(s) {
      assert b != "" && b[0] == s[0];
      assert IsDigit(b[|b| - 1]) by {
        assert s[n - 2] == '_' ==> n > 2 && s[n - 3] != '_';
      }
    }
  }

  lemma {:induction false} ParsesTo(s: string, n: nat)
    requires ParseNat(s) == Some(n)
    ensures Denotes(s, n)
  {
    if |s| == 1 {
      assert Digits(s) == Zeros(0) + FormatNat(n);
    } else {
      var m, d := ParseNat(Before(s)).value, s[|s| - 1] as int - 48;
      ParsesTo(Before(s), m);
      NumeralBefore(s);
      DigitsBefore(s);
      var k: nat :| Digits(Before(s)) == Zeros(k) + FormatNat(m);
      if m == 0 {
        assert Zeros(k) + FormatNat(0) == Zeros(k + 1);
        assert Digits(s) == Zeros(k + 1) + FormatNat(n);
      } else {
        assert FormatNat(n) == FormatNat(m) + [Digit(d)];
        assert Digits(s) == Zeros(k) + FormatNat(n);
      }
    }
  }

  lemma {:induction false} NumeralsParse(s: string)
    requires Numeral(s)
    ensures ParseNat(s).Some?
  {
    if |s| > 1 {
      NumeralBefore(s);
      NumeralsParse(Before(s));
    }
  }

  lemma {:induction false} ZerosAreZero(j: nat, m: nat, k: nat)
    requires Zeros(j) + FormatNat(m) == Zeros(k)
    ensures m == 0
  {
    var x := Zeros(j) + FormatNat(m);
    assert x[|x| - 1] == Digit(m % 10) && x[|x| - 1] == '0';
    if m >= 10 {
      assert x[..|x| - 1] == Zeros(j) + FormatNat(m / 10);
      assert x[..|x| - 1] == Zeros(k - 1);
      ZerosAreZero(j, m / 10, k - 1);
    }
  }

  lemma {:induction false} LeadingZerosAreIdle(j: nat, m: nat, k: nat, n: nat)
    requires Zeros(j) + FormatNat(m) == Zeros(k) + FormatNat(n)
    ensures m == n
  {
    var x, y := Zeros(j) + FormatNat(m), Zeros(k) + FormatNat(n);
    assert x[|x| - 1] == Digit(m % 10) && y[|y| - 1] == Digit(n % 10);
    var front := x[..|x| - 1];
    if m >= 10 {
      assert front == Zeros(j) + FormatNat(m / 10);
    } else {
      assert front == Zeros(j);
    }
    if n >= 10 {
      assert front == Zeros(k) + FormatNat(n / 10);
    } else {
      assert front == Zeros(k);
    }
    if m >= 10 && n >= 10 {
      LeadingZerosAreIdle(j, m / 10, k, n / 10);
    } else if m >= 10 {
      ZerosAreZero(j, m / 10, k);
    } else if n >= 10 {
      ZerosAreZero(k, n / 10, j);
    }
  }

  lemma ParseNatIff(s: string, n: nat)
    ensures ParseNat(s) == Some(n) <==> Denotes(s, n)
  {
    if ParseNat(s) == Some(n) {
      ParsesTo(s, n);
    }
    if Denotes(s, n) {
      NumeralsParse(s);
      var m := ParseNat(s).value;
      ParsesTo(s, m);
      var j: nat, k: nat :| Digits(s) == Zeros(j) + FormatNat(m) && Digits(s) == Zeros(k) + FormatNat(n);
      LeadingZerosAreIdle(j, m, k, n);
    }
  }

  predicate IsSign(sign: string) {
    |sign| <= 1 && (|sign| == 1 ==> sign[0] == '+' || sign[0] == '-')
  }

  predicate IsMinus(sign: string) {
    |sign| == 1 && sign[0] == '-'
  }

  // White space, a sign or none, a numeral, white space.
  ghost predicate Reads(text: string, v: int) {
    exists left, sign, digits, right ::
      && AllOf(IsSpace, left) && AllOf(IsSpace, right) && text == left + (sign + digits) + right
      && IsSign(sign) && Denotes(digits, if v < 0 then -v else v)
      && (v < 0 ==> IsMinus(sign)) && (v > 0 ==> !IsMinus(sign))
  }

  lemma SignedCore(sign: string, digits: string, n: nat)
    requires IsSign(sign) && Denotes(digits, n)
    ensures Trimmed(IsSpace, sign + digits)
    ensures ParseSigned(sign + digits) == Some((if IsMinus(sign) then -1 else 1) * n)
  {
    var core := sign + digits;
    ParseNatIff(digits, n);
    assert digits != "" && IsDigit(digits[0]) && IsDigit(digits[|digits| - 1]);
    hide Denotes, ParseNat;
    assert core[|core| - 1] == digits[|digits| - 1];
    if |sign| == 0 {
      assert core == digits;
    } else {
      assert core[0] == sign[0] && core[1..] == digits;
    }
  }

  lemma ParsedTextReads(text: string, v: int)
    requires ParseInt(text) == Some(v)
    ensures Reads(text, v)
  {
    hide Numeral, Digits, Strip;
    var core := Strip(IsSpace, text);
    var left, right := StripLeavesCore(IsSpace, text);
    var sign := if core[0] == '-' then "-" else if core[0] == '+' then "+" else "";
    var digits := core[|sign|..];
    assert core == sign + digits;
    ParseNatIff(digits, if v < 0 then -v else v);
    hide Denotes;
    assert text == left + (sign + digits) + right;
  }

  lemma ReadTextParses(text: string, v: int)
    requires Reads(text, v)
    ensures ParseInt(text) == Some(v)
  {
    var left, sign, digits, right :|
      && AllOf(IsSpace, left) && AllOf(IsSpace, right) && text == left + (sign + digits) + right
      && IsSign(sign) && Denotes(digits, if v < 0 then -v else v)
      && (v < 0 ==> IsMinus(sign)) && (v > 0 ==> !IsMinus(sign));
    hide Denotes, Strip, ParseSigned, Trimmed, AllOf;
    SignedCore(sign, digits, if v < 0 then -v else v);
    StripFindsCore(IsSpace, left, sign + digits, right);
  }

  // int(text) is v exactly when the text reads so.
  lemma ParseIntIff(text: string, v: int)
    ensures ParseInt(text) == Some(v) <==> Reads(text, v)
  {
    hide ParseInt, Reads;
    if ParseInt(text) == Some(v) {
      ParsedTextReads(text, v);
    }
    if Reads(text, v) {
      ReadTextParses(text, v);
    }
  }

  lemma FormatReads(n: int, sign: string)
    requires sign == if n < 0 then "-" else ""
    requires Denotes(FormatNat(if n < 0 then -n else n), if n < 0 then -n else n)
    ensures Reads(FormatInt(n), n)
  {
    hide Denotes, FormatNat;
    assert FormatInt(n) == "" + (sign + FormatNat(if n < 0 then -n else n)) + "";
    assert AllOf(IsSpace, "");
  }

  lemma ParseFormatInt(n: int)
    ensures ParseInt(FormatInt(n)) == Some(n)
    ensures SEP !in FormatInt(n)
  {
    var m := if n < 0 then -n else n;
    FormatNatIsDigits(m);
    ParseFormatNat(m);
    ParsesTo(FormatNat(m), m);
    hide Denotes, Reads, ParseInt, ParseNat;
    FormatReads(n, if n < 0 then "-" else "");
    ReadTextParses(FormatInt(n), n);
  }

  // ---- build_proof_payload ----

  function BuildProofPayload(jti: string, verb: string, path: string, timestamp: int, nonce: string): string {
    Join(SEP, [jti, verb, path, FormatInt(timestamp), nonce])
  }

  // Splitting a built payload gives the five fields back, and int() gives the timestamp back:
  // exactly when no text field contains the separator.
  lemma PayloadRoundTrip(jti: string, verb: string, path: string, timestamp: int, nonce: string)
    ensures (SEP !in jti && SEP !in verb && SEP !in path && SEP !in nonce) <==>
            Split(SEP, BuildProofPayload(jti, verb, path, timestamp, nonce))
              == [jti, verb, path, FormatInt(timestamp), nonce]
    ensures ParseInt(FormatInt(timestamp)) == Some(timestamp)
  {
    ParseFormatInt(timestamp);
    var parts := [jti, verb, path, FormatInt(timestamp), nonce];
    if SEP !in jti && SEP !in verb && SEP !in path && SEP !in nonce {
      SplitJoin(SEP, parts);
    } else {
      SplitPartsHaveNoSeparator(SEP, Join(SEP, parts));
      assert jti in parts && verb in parts && path in parts && nonce in parts by {
        assert parts[0] == jti && parts[1] == verb && parts[2] == path && parts[4] == nonce;
      }
    }
  }

  // No two different requests share a payload.
  lemma PayloadInjective(jti: string, verb: string, path: string, timestamp: int, nonce: string,
                         jti': string, verb': string, path': string, timestamp': int, nonce': string)
    requires SEP !in jti && SEP !in verb && SEP !in path && SEP !in nonce
    requires SEP !in jti' && SEP !in verb' && SEP !in path' && SEP !in nonce'
    requires BuildProofPayload(jti, verb, path, timestamp, nonce)
          == BuildProofPayload(jti', verb', path', timestamp', nonce')
    ensures (jti, verb, path, timestamp, nonce) == (jti', verb', path', timestamp', nonce')
  {
    PayloadRoundTrip(jti, verb, path, timestamp, nonce);
    PayloadRoundTrip(jti', verb', path', timestamp', nonce');
    var a, b := [jti, verb, path, FormatInt(timestamp), nonce], [jti', verb', path', FormatInt(timestamp'), nonce'];
    assert a == b;
    assert a[0] == b[0] && a[1] == b[1] && a[2] == b[2] && a[3] == b[3] && a[4] == b[4];
  }

  // The payload rebuilt by the verifier is the data the client sent exactly when the client wrote
  // its timestamp the way str() does.
  lemma RebuiltIsSigned(data: string, timestamp: int)
    requires |Split(SEP, data)| == 5 && ParseInt(Split(SEP, data)[3]) == Some(timestamp)
    ensures var p := Split(SEP, data);
            BuildProofPayload(p[0], p[1], p[2], timestamp, p[4]) == data <==> p[3] == FormatInt(timestamp)
  {
    var p := Split(SEP, data);
    JoinSplit(SEP, data);
    SplitPartsHaveNoSeparator(SEP, data);
    assert p == [p[0], p[1], p[2], p[3], p[4]];
    PayloadRoundTrip(p[0], p[1], p[2], timestamp, p[4]);
  }
}
