/** The addresses that the programs are compared with, as decodings of their base58 texts. */
module ProgramIds {
  import opened Bytes
  import opened Acceptance
  import Introspection

  /** The value of a base58 character: digits without 0, upper case without I and O, lower case without l. */
  function DigitOf(c: char): byte
  {
    if '1' <= c <= '9' then c as int - '1' as int
    else if 'A' <= c <= 'H' then c as int - 'A' as int + 9
    else if 'J' <= c <= 'N' then c as int - 'J' as int + 17
    else if 'P' <= c <= 'Z' then c as int - 'P' as int + 22
    else if 'a' <= c <= 'k' then c as int - 'a' as int + 33
    else if 'm' <= c <= 'z' then c as int - 'm' as int + 44
    else 255
  }

  function Digits(text: string): (d: bytes)
    ensures |d| == |text|
  {
    seq(|text|, i requires 0 <= i < |text| => DigitOf(text[i]))
  }

  /** The number written by `digits`, the most significant first. */
  function Value(base: nat, digits: bytes): nat
  {
    if digits == [] then 0 else Value(base, digits[..|digits| - 1]) * base + digits[|digits| - 1]
  }

  function LeadingZeros(digits: bytes): nat
  {
    if digits == [] || digits[0] != 0 then 0 else 1 + LeadingZeros(digits[1..])
  }

  /** Every character has a value, and the first is not a one. */
  predicate IsBase58(name: string)
  {
    && name != "" && DigitOf(name[0]) != 0
    && forall i :: 0 <= i < |name| ==> DigitOf(name[i]) < 58
  }

  /** `b` is the base58 decoding of `text`: the same number, with as many zero bytes in front as ones. */
  predicate DecodesTo(text: string, b: bytes)
  {
    && (forall i :: 0 <= i < |text| ==> DigitOf(text[i]) < 58)
    && Value(58, Digits(text)) == Value(256, b) && LeadingZeros(Digits(text)) == LeadingZeros(b)
  }

  /** So there is at most one decoding of a given length. */
  lemma {:induction false} ValueDetermines(a: bytes, b: bytes)
    requires |a| == |b| && Value(256, a) == Value(256, b)
    ensures a == b
  {
    if a != [] {
      var n := |a| - 1;
      ValueDetermines(a[..n], b[..n]);
      assert a == a[..n] + [a[n]] && b == b[..n] + [b[n]];
    }
  }

  lemma DecodingIsUnique(text: string, a: bytes, b: bytes)
    requires DecodesTo(text, a) && DecodesTo(text, b) && |a| == |b|
    ensures a == b
  {
    ValueDetermines(a, b);
  }

  function Ones(n: nat): (s: string)
    ensures |s| == n && forall i :: 0 <= i < n ==> s[i] == '1'
  {
    if n == 0 then "" else "1" + Ones(n - 1)
  }

  lemma {:induction false} AllZeros(n: nat)
    ensures forall i :: 0 <= i < n ==> Zeros(n)[i] == 0
  {
    if n > 0 { AllZeros(n - 1); }
  }

  lemma DigitsWithOnes(text: string, n: nat)
    ensures Digits(text + Ones(n)) == Digits(text) + Zeros(n)
  {
    AllZeros(n);
  }

  lemma ValueSnoc(base: nat, digits: bytes, d: byte)
    ensures Value(base, digits + [d]) == Value(base, digits) * base + d
  {
    assert (digits + [d])[..|digits|] == digits;
  }

  lemma MulAssoc(a: nat, b: nat, c: nat)
    ensures a * b * c == a * (b * c)
  {
  }

  lemma PowStep(v: nat, w: nat, base: nat, n: nat)
    requires n > 0 && w == v * base
    ensures w * Pow(base, n - 1) == v * Pow(base, n)
  {
    MulAssoc(v, base, Pow(base, n - 1));
  }

  lemma ZeroInFront(digits: bytes, n: nat)
    requires n > 0
    ensures digits + Zeros(n) == (digits + [0]) + Zeros(n - 1)
  {
  }

  lemma {:induction false} ValueZeros(base: nat, digits: bytes, n: nat)
    ensures Value(base, digits + Zeros(n)) == Value(base, digits) * Pow(base, n)
    decreases n
  {
    if n == 0 {
      assert digits + Zeros(0) == digits;
    } else {
      ZeroInFront(digits, n);
      ValueZeros(base, digits + [0], n - 1);
      ValueSnoc(base, digits, 0);
      PowStep(Value(base, digits), Value(base, digits + [0]), base, n);
    }
  }

  lemma PowSum(base: nat, m: nat, n: nat, x: nat, y: nat)
    requires Pow(base, m) == x && Pow(base, n) == y
    ensures Pow(base, m + n) == x * y
  {
    PowSplit(base, m, n);
  }

  lemma {:induction false} PowSplit(base: nat, m: nat, n: nat)
    ensures Pow(base, m + n) == Pow(base, m) * Pow(base, n)
  {
    if m > 0 {
      PowSplit(base, m - 1, n);
      MulAssoc(base, Pow(base, m - 1), Pow(base, n));
    }
  }

  /** Four digits more. */
  lemma FourMore(base: nat, digits: bytes, value: nat, a: byte, b: byte, c: byte, d: byte)
    requires Value(base, digits) == value
    ensures Value(base, digits + [a, b, c, d]) == (((value * base + a) * base + b) * base + c) * base + d
  {
    ValueSnoc(base, digits, a);
    ValueSnoc(base, digits + [a], b);
    ValueSnoc(base, digits + [a] + [b], c);
    ValueSnoc(base, digits + [a] + [b] + [c], d);
    assert digits + [a, b, c, d] == digits + [a] + [b] + [c] + [d];
  }

  // ----- The bytes as numbers -----

  lemma ExpectedFront()
    ensures Value(256, Introspection.EXPECTED_PROGRAM_ID[..16]) == 0xca620c98398709104c791483ce00b9c7
  {
    var b := Introspection.EXPECTED_PROGRAM_ID;
    assert b[..0] == [];
    FourMore(256, b[..0], 0, 0xca, 0x62, 0x0c, 0x98);
    assert b[..4] == b[..0] + [0xca, 0x62, 0x0c, 0x98];
    FourMore(256, b[..4], 0xca620c98, 0x39, 0x87, 0x09, 0x10);
    assert b[..8] == b[..4] + [0x39, 0x87, 0x09, 0x10];
    FourMore(256, b[..8], 0xca620c9839870910, 0x4c, 0x79, 0x14, 0x83);
    assert b[..12] == b[..8] + [0x4c, 0x79, 0x14, 0x83];
    FourMore(256, b[..12], 0xca620c98398709104c791483, 0xce, 0x00, 0xb9, 0xc7);
    assert b[..16] == b[..12] + [0xce, 0x00, 0xb9, 0xc7];
  }

  lemma ExpectedValue()
    ensures Value(256, Introspection.EXPECTED_PROGRAM_ID) == 0xca620c98398709104c791483ce00b9c73b7a58930d675ae145dd6f8500000000
  {
    var b := Introspection.EXPECTED_PROGRAM_ID;
    ExpectedFront();
    FourMore(256, b[..16], 0xca620c98398709104c791483ce00b9c7, 0x3b, 0x7a, 0x58, 0x93);
    assert b[..20] == b[..16] + [0x3b, 0x7a, 0x58, 0x93];
    FourMore(256, b[..20], 0xca620c98398709104c791483ce00b9c73b7a5893, 0x0d, 0x67, 0x5a, 0xe1);
    assert b[..24] == b[..20] + [0x0d, 0x67, 0x5a, 0xe1];
    FourMore(256, b[..24], 0xca620c98398709104c791483ce00b9c73b7a58930d675ae1, 0x45, 0xdd, 0x6f, 0x85);
    assert b[..28] == b[..24] + [0x45, 0xdd, 0x6f, 0x85];
    FourMore(256, b[..28], 0xca620c98398709104c791483ce00b9c73b7a58930d675ae145dd6f85, 0x00, 0x00, 0x00, 0x00);
    assert b[..32] == b[..28] + [0x00, 0x00, 0x00, 0x00];
    assert b[..32] == b;
  }

  lemma PrecompileFront()
    ensures Value(256, Introspection.ED25519_PRECOMPILE_ID[..16]) == 0x037d46d67c93fbbe12f9428f838d40ff
  {
    var b := Introspection.ED25519_PRECOMPILE_ID;
    assert b[..0] == [];
    FourMore(256, b[..0], 0, 0x03, 0x7d, 0x46, 0xd6);
    assert b[..4] == b[..0] + [0x03, 0x7d, 0x46, 0xd6];
    FourMore(256, b[..4], 0x037d46d6, 0x7c, 0x93, 0xfb, 0xbe);
    assert b[..8] == b[..4] + [0x7c, 0x93, 0xfb, 0xbe];
    FourMore(256, b[..8], 0x037d46d67c93fbbe, 0x12, 0xf9, 0x42, 0x8f);
    assert b[..12] == b[..8] + [0x12, 0xf9, 0x42, 0x8f];
    FourMore(256, b[..12], 0x037d46d67c93fbbe12f9428f, 0x83, 0x8d, 0x40, 0xff);
    assert b[..16] == b[..12] + [0x83, 0x8d, 0x40, 0xff];
  }

  lemma PrecompileValue()
    ensures Value(256, Introspection.ED25519_PRECOMPILE_ID) == 0x037d46d67c93fbbe12f9428f838d40ff0570744927f48a64fcca704480000000
  {
    var b := Introspection.ED25519_PRECOMPILE_ID;
    PrecompileFront();
    FourMore(256, b[..16], 0x037d46d67c93fbbe12f9428f838d40ff, 0x05, 0x70, 0x74, 0x49);
    assert b[..20] == b[..16] + [0x05, 0x70, 0x74, 0x49];
    FourMore(256, b[..20], 0x037d46d67c93fbbe12f9428f838d40ff05707449, 0x27, 0xf4, 0x8a, 0x64);
    assert b[..24] == b[..20] + [0x27, 0xf4, 0x8a, 0x64];
    FourMore(256, b[..24], 0x037d46d67c93fbbe12f9428f838d40ff0570744927f48a64, 0xfc, 0xca, 0x70, 0x44);
    assert b[..28] == b[..24] + [0xfc, 0xca, 0x70, 0x44];
    FourMore(256, b[..28], 0x037d46d67c93fbbe12f9428f838d40ff0570744927f48a64fcca7044, 0x80, 0x00, 0x00, 0x00);
    assert b[..32] == b[..28] + [0x80, 0x00, 0x00, 0x00];
    assert b[..32] == b;
  }

  lemma SysvarFront()
    ensures Value(256, INSTRUCTIONS_SYSVAR_ID[..16]) == 0x06a7d517187bd16635dad40455fdc2c0
  {
    var b := INSTRUCTIONS_SYSVAR_ID;
    assert b[..0] == [];
    FourMore(256, b[..0], 0, 0x06, 0xa7, 0xd5, 0x17);
    assert b[..4] == b[..0] + [0x06, 0xa7, 0xd5, 0x17];
    FourMore(256, b[..4], 0x06a7d517, 0x18, 0x7b, 0xd1, 0x66);
    assert b[..8] == b[..4] + [0x18, 0x7b, 0xd1, 0x66];
    FourMore(256, b[..8], 0x06a7d517187bd166, 0x35, 0xda, 0xd4, 0x04);
    assert b[..12] == b[..8] + [0x35, 0xda, 0xd4, 0x04];
    FourMore(256, b[..12], 0x06a7d517187bd16635dad404, 0x55, 0xfd, 0xc2, 0xc0);
    assert b[..16] == b[..12] + [0x55, 0xfd, 0xc2, 0xc0];
  }

  lemma SysvarValue()
    ensures Value(256, INSTRUCTIONS_SYSVAR_ID) == 0x06a7d517187bd16635dad40455fdc2c0c124c68f215675a5dbbacb5f08000000
  {
    var b := INSTRUCTIONS_SYSVAR_ID;
    SysvarFront();
    FourMore(256, b[..16], 0x06a7d517187bd16635dad40455fdc2c0, 0xc1, 0x24, 0xc6, 0x8f);
    assert b[..20] == b[..16] + [0xc1, 0x24, 0xc6, 0x8f];
    FourMore(256, b[..20], 0x06a7d517187bd16635dad40455fdc2c0c124c68f, 0x21, 0x56, 0x75, 0xa5);
    assert b[..24] == b[..20] + [0x21, 0x56, 0x75, 0xa5];
    FourMore(256, b[..24], 0x06a7d517187bd16635dad40455fdc2c0c124c68f215675a5, 0xdb, 0xba, 0xcb, 0x5f);
    assert b[..28] == b[..24] + [0xdb, 0xba, 0xcb, 0x5f];
    FourMore(256, b[..28], 0x06a7d517187bd16635dad40455fdc2c0c124c68f215675a5dbbacb5f, 0x08, 0x00, 0x00, 0x00);
    assert b[..32] == b[..28] + [0x08, 0x00, 0x00, 0x00];
    assert b[..32] == b;
  }

  // ----- The texts as numbers -----

  lemma BelowBase(name: string, digits: bytes)
    requires Digits(name) == digits && digits != [] && digits[0] != 0
    requires forall i :: 0 <= i < |digits| ==> digits[i] < 58
    ensures IsBase58(name)
  {
    forall i | 0 <= i < |name| ensures DigitOf(name[i]) < 58 {
      assert DigitOf(name[i]) == digits[i];
    }
    assert DigitOf(name[0]) == digits[0];
  }

  lemma VerifierDigits()
    ensures IsBase58("Ed25519SigVerify")
  {
    var d := [13, 36, 1, 4, 4, 0, 8, 25, 41, 39, 28, 37, 49, 41, 38, 56];
    assert Digits("Ed25519SigVerify") == d;
    BelowBase("Ed25519SigVerify", d);
  }

  lemma VerifierName()
    ensures Value(58, Digits("Ed25519SigVerify")) == 3851493278467751217373876560
  {
    var d := Digits("Ed25519SigVerify");
    assert d[..0] == [];
    FourMore(58, d[..0], 0, 13, 36, 1, 4);
    assert d[..4] == d[..0] + [13, 36, 1, 4];
    FourMore(58, d[..4], 2657622, 4, 0, 8, 25);
    assert d[..8] == d[..4] + [4, 0, 8, 25];
    FourMore(58, d[..8], 30074969513449, 41, 39, 28, 37);
    assert d[..12] == d[..8] + [41, 39, 28, 37];
    FourMore(58, d[..12], 340343272199075687153, 49, 41, 38, 56);
    assert d[..16] == d[..12] + [49, 41, 38, 56];
    assert d[..16] == d;
  }

  lemma SysvarDigits()
    ensures IsBase58("Sysvar1nstructions")
  {
    var d := [25, 56, 50, 53, 33, 49, 0, 45, 50, 51, 49, 52, 35, 51, 41, 46, 45, 50];
    assert Digits("Sysvar1nstructions") == d;
    BelowBase("Sysvar1nstructions", d);
  }

  lemma SysvarName()
    ensures Value(58, Digits("Sysvar1nstructions")) == 24713029559047212808019178641620
  {
    var d := Digits("Sysvar1nstructions");
    assert d[..0] == [];
    FourMore(58, d[..0], 0, 25, 56, 50, 53);
    assert d[..4] == d[..0] + [25, 56, 50, 53];
    FourMore(58, d[..4], 5069137, 33, 49, 0, 45);
    assert d[..8] == d[..4] + [33, 49, 0, 45];
    FourMore(58, d[..8], 57364875187529, 50, 51, 49, 52);
    assert d[..12] == d[..8] + [50, 51, 49, 52];
    FourMore(58, d[..12], 649169380600181108442, 35, 51, 41, 46);
    assert d[..16] == d[..12] + [35, 51, 41, 46];
    ValueSnoc(58, d[..16], 45);
    assert d[..17] == d[..16] + [45];
    ValueSnoc(58, d[..17], 50);
    assert d[..18] == d[..17] + [50];
    assert d[..18] == d;
  }

  lemma Powers()
    ensures Pow(58, 25) == 121814739012626444160521369338174330862829568
    ensures Pow(58, 27) == 409784782038475358155993886453618449022558666752
    ensures Pow(58, 28) == 23767517358231570773047645414309870043308402671616
  {
    assert Pow(58, 1) == 58 * Pow(58, 0);
    PowSum(58, 1, 1, 58, 58);
    PowSum(58, 2, 1, 3364, 58);
    PowSum(58, 3, 3, 195112, 195112);
    PowSum(58, 6, 6, 38068692544, 38068692544);
    PowSum(58, 12, 12, 1449225352009601191936, 1449225352009601191936);
    PowSum(58, 24, 1, 2100254120907352485526230505830591911428096, 58);
    PowSum(58, 25, 2, 121814739012626444160521369338174330862829568, 3364);
    PowSum(58, 27, 1, 409784782038475358155993886453618449022558666752, 58);
  }

  lemma TextValue(name: string, n: nat, value: nat, power: nat)
    requires Value(58, Digits(name)) == value && Pow(58, n) == power
    ensures Value(58, Digits(name + Ones(n))) == value * power
  {
    DigitsWithOnes(name, n);
    ValueZeros(58, Digits(name), n);
  }

  // ----- The decodings -----

  lemma Decodes(name: string, n: nat, b: Digest)
    requires IsBase58(name) && b[0] != 0 && Value(58, Digits(name + Ones(n))) == Value(256, b)
    ensures DecodesTo(name + Ones(n), b)
  {
  }

  /** The id that the walk looks for is the decoding of its name followed by 28 ones, the text in the comment beside it. */
  lemma ExpectedIdDecodes()
    ensures DecodesTo("Ed25519SigVerify" + Ones(28), Introspection.EXPECTED_PROGRAM_ID)
  {
    Powers();
    VerifierDigits();
    VerifierName();
    TextValue("Ed25519SigVerify", 28, 3851493278467751217373876560, 23767517358231570773047645414309870043308402671616);
    ExpectedValue();
    Decodes("Ed25519SigVerify", 28, Introspection.EXPECTED_PROGRAM_ID);
  }

  /** The id of the precompile is that of the same name followed by 27 ones. */
  lemma PrecompileIdDecodes()
    ensures DecodesTo("Ed25519SigVerify" + Ones(27), Introspection.ED25519_PRECOMPILE_ID)
  {
    Powers();
    VerifierDigits();
    VerifierName();
    TextValue("Ed25519SigVerify", 27, 3851493278467751217373876560, 409784782038475358155993886453618449022558666752);
    PrecompileValue();
    Decodes("Ed25519SigVerify", 27, Introspection.ED25519_PRECOMPILE_ID);
  }

  lemma SysvarIdDecodes()
    ensures DecodesTo("Sysvar1nstructions" + Ones(25), INSTRUCTIONS_SYSVAR_ID)
  {
    Powers();
    SysvarDigits();
    SysvarName();
    TextValue("Sysvar1nstructions", 25, 24713029559047212808019178641620, 121814739012626444160521369338174330862829568);
    SysvarValue();
    Decodes("Sysvar1nstructions", 25, INSTRUCTIONS_SYSVAR_ID);
  }
}
