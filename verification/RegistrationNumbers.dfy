/** Operator registration numbers in the format of EN4709-02, PPPBBBBBBBBBBBBC-FFF, and their check character. */
module RegistrationNumbers {
  import opened Common

  const CODE_POINTS: string := "0123456789abcdefghijklmnopqrstuvwxyz"
  const PREFIX_LENGTH := 3
  const BASE_ID_LENGTH := 12
  const FINAL_LENGTH := 3
  const PUBLIC_LENGTH := PREFIX_LENGTH + BASE_ID_LENGTH + 1
  const FULL_LENGTH := PUBLIC_LENGTH + 1 + FINAL_LENGTH

  datatype ValueError = PrefixLength | BaseIdLength | BaseIdCharacters | FinalLength | FinalCharacters

  predicate IsCodePoint(c: char) {
    '0' <= c <= '9' || 'a' <= c <= 'z'
  }

  function ValueOf(c: char): (v: nat)
    requires IsCodePoint(c)
    ensures v < 36
  {
    if c <= '9' then c as int - '0' as int else c as int - 'a' as int + 10
  }

  function CodePoint(v: nat): (c: char)
    requires v < 36
    ensures IsCodePoint(c) && ValueOf(c) == v
  {
    if v < 10 then ('0' as int + v) as char else ('a' as int + v - 10) as char
  }

  /** The values are the places in the list of code points. */
  lemma CodePointsInOrder(v: nat)
    requires v < 36
    ensures |CODE_POINTS| == 36 && CODE_POINTS[v] == CodePoint(v)
  {
  }

  predicate AllCodePoints(s: string) {
    forall i :: 0 <= i < |s| ==> IsCodePoint(s[i])
  }

  function ValidateBaseId(baseId: string): Result<(), ValueError> {
    if |baseId| != BASE_ID_LENGTH then Err(BaseIdLength)
    else if !AllCodePoints(baseId) then Err(BaseIdCharacters)
    else Ok(())
  }

  function ValidateFinal(final: string): Result<(), ValueError> {
    if |final| != FINAL_LENGTH then Err(FinalLength)
    else if !AllCodePoints(final) then Err(FinalCharacters)
    else Ok(())
  }

  // ----- the check character -----

  /** What a character adds to the sum: the digits in base 36 of its value or, in even places, of twice its value. */
  function Weight(c: char, i: int): (w: nat)
    requires IsCodePoint(c)
    ensures w < 36
  {
    var product := ValueOf(c) * (if i % 2 == 0 then 2 else 1);
    product / 36 + product % 36
  }

  /** The weights of the first `n` characters. */
  function Sum(s: string, n: nat): nat
    requires n <= |s| && AllCodePoints(s)
  {
    if n == 0 then 0 else Sum(s, n - 1) + Weight(s[n - 1], n - 1)
  }

  function Control(sum: int): char {
    CodePoint(-sum % 36)
  }

  function Checksum(baseId: string, final: string): Result<char, ValueError> {
    var _ :- ValidateBaseId(baseId);
    var _ :- ValidateFinal(final);
    Ok(Control(Sum(baseId + final, |baseId + final|)))
  }

  method GenerateChecksum(baseId: string, final: string) returns (r: Result<char, ValueError>)
    ensures r == Checksum(baseId, final)
  {
    var _ :- ValidateBaseId(baseId);
    var _ :- ValidateFinal(final);
    var rawId := baseId + final;
    var fullSum: int, multiplier := 0, 2;
    for i := 0 to |rawId|
      invariant multiplier == if i % 2 == 0 then 2 else 1
      invariant fullSum == Sum(rawId, i)
    {
      var v := ValueOf(rawId[i]);
      fullSum := fullSum + v * multiplier / 36 + v * multiplier % 36;
      multiplier := 3 - multiplier;
    }
    r := Ok(CodePoint(-fullSum % 36));
  }

  /** Odd places weigh as much as their value, even ones twice that, less 35 when it is above 35. */
  lemma WeightExactly(c: char, i: int)
    requires IsCodePoint(c)
    ensures Weight(c, i) == if i % 2 == 1 then ValueOf(c) else if ValueOf(c) < 18 then 2 * ValueOf(c)
                            else 2 * ValueOf(c) - 35
  {
    var product := ValueOf(c) * (if i % 2 == 0 then 2 else 1);
    assert product / 36 == if product < 36 then 0 else 1;
  }

  lemma ControlCompletes(sum: int)
    ensures (sum + ValueOf(Control(sum))) % 36 == 0
  {
    assert ValueOf(Control(sum)) == -sum % 36;
  }

  /** There is a check character if and only if the lengths and characters are right, the error being of the first that
      is not; it completes the sum of the weights to a multiple of 36. */
  lemma ChecksumExactly(baseId: string, final: string)
    ensures var r := Checksum(baseId, final);
            && (r == Err(BaseIdLength) <==> |baseId| != 12)
            && (r == Err(BaseIdCharacters) <==> |baseId| == 12 && exists i :: 0 <= i < 12 && !IsCodePoint(baseId[i]))
            && (r == Err(FinalLength) <==> |baseId| == 12 && AllCodePoints(baseId) && |final| != 3)
            && (r == Err(FinalCharacters) <==>
                  && |baseId| == 12 && AllCodePoints(baseId) && |final| == 3
                  && exists i :: 0 <= i < 3 && !IsCodePoint(final[i]))
            && (r.Ok? <==> |baseId| == 12 && AllCodePoints(baseId) && |final| == 3 && AllCodePoints(final))
            && (r.Ok? ==> IsCodePoint(r.value) && (Sum(baseId + final, 15) + ValueOf(r.value)) % 36 == 0)
  {
    if Checksum(baseId, final).Ok? {
      assert |baseId + final| == 15;
      ControlCompletes(Sum(baseId + final, 15));
    }
  }

  predicate Valid(s: string) {
    && |s| == FULL_LENGTH
    && s[PUBLIC_LENGTH] == '-'
    && AllCodePoints(BaseId(s)) && AllCodePoints(Final(s))
    && Checksum(BaseId(s), Final(s)) == Ok(s[PUBLIC_LENGTH - 1])
  }

  function BaseId(s: string): string
    requires |s| == FULL_LENGTH
  {
    s[PREFIX_LENGTH..PREFIX_LENGTH + BASE_ID_LENGTH]
  }

  function Final(s: string): string
    requires |s| == FULL_LENGTH
  {
    s[|s| - FINAL_LENGTH..]
  }

  function FromComponents(prefix: string, baseId: string, final: string): Result<string, ValueError> {
    if |prefix| != PREFIX_LENGTH then Err(PrefixLength) else
    var _ :- ValidateBaseId(baseId);
    if |final| != FINAL_LENGTH then Err(FinalLength) else
    var checksum :- Checksum(baseId, final);
    Ok(prefix + baseId + [checksum] + "-" + final)
  }

  /** Components of the right lengths, all but the prefix from the code points, and only those, give a valid number. */
  lemma FromComponentsIsValid(prefix: string, baseId: string, final: string)
    ensures var r := FromComponents(prefix, baseId, final);
            && (r.Ok? <==> && |prefix| == PREFIX_LENGTH
                           && |baseId| == BASE_ID_LENGTH && AllCodePoints(baseId)
                           && |final| == FINAL_LENGTH && AllCodePoints(final))
            && (r.Ok? ==> && Valid(r.value)
                          && r.value[..PREFIX_LENGTH] == prefix && BaseId(r.value) == baseId && Final(r.value) == final)
  {
    var r := FromComponents(prefix, baseId, final);
    if r.Ok? {
      hide Sum, Control, AllCodePoints;
      assert BaseId(r.value) == baseId && Final(r.value) == final;
    }
  }

  // ----- what the check character detects -----

  /** The characters that are summed, by place, and where each is in the number. */
  function Raw(s: string): string
    requires |s| == FULL_LENGTH
  {
    BaseId(s) + Final(s)
  }

  function PlaceOf(j: nat): nat {
    if j < BASE_ID_LENGTH then PREFIX_LENGTH + j else PUBLIC_LENGTH + 1 + (j - BASE_ID_LENGTH)
  }

  lemma ValidByRaw(s: string)
    requires |s| == FULL_LENGTH
    ensures Valid(s) <==> && s[PUBLIC_LENGTH] == '-' && AllCodePoints(Raw(s))
                          && s[PUBLIC_LENGTH - 1] == Control(Sum(Raw(s), 15))
    ensures forall j :: 0 <= j < 15 ==> Raw(s)[j] == s[PlaceOf(j)]
  {
    hide Sum, Control;
    if AllCodePoints(Raw(s)) {
      assert forall j :: 0 <= j < 12 ==> BaseId(s)[j] == Raw(s)[j];
      assert forall j :: 0 <= j < 3 ==> Final(s)[j] == Raw(s)[12 + j];
    }
  }

  lemma {:induction false} SumOfUpdate(s: string, i: nat, c: char, n: nat)
    requires i < |s| && n <= |s| && AllCodePoints(s) && IsCodePoint(c)
    ensures Sum(s[i := c], n) == Sum(s, n) + if i < n then Weight(c, i) - Weight(s[i], i) else 0
  {
    if n > 0 {
      SumOfUpdate(s, i, c, n - 1);
    }
  }

  lemma WeightOf(c: char, i: int)
    requires IsCodePoint(c)
    ensures var v := ValueOf(c); Weight(c, i) == if i % 2 != 0 then v else if v < 18 then 2 * v else 2 * v - 35
  {
    var product := ValueOf(c) * (if i % 2 == 0 then 2 else 1);
    assert product / 36 == if product < 36 then 0 else 1;
  }

  lemma ValueIsInjective(c: char, d: char)
    requires IsCodePoint(c) && IsCodePoint(d) && ValueOf(c) == ValueOf(d)
    ensures c == d
  {
  }

  lemma WeightIsInjective(c: char, d: char, i: int)
    requires IsCodePoint(c) && IsCodePoint(d) && c != d
    ensures Weight(c, i) != Weight(d, i)
  {
    hide Weight, ValueOf;
    WeightOf(c, i);
    WeightOf(d, i);
    if ValueOf(c) == ValueOf(d) { ValueIsInjective(c, d); }
  }

  lemma SameControl(a: int, b: int)
    ensures Control(a) == Control(b) <==> (a - b) % 36 == 0
  {
    assert Control(a) == Control(b) <==> -a % 36 == -b % 36 by {
      assert ValueOf(Control(a)) == -a % 36 && ValueOf(Control(b)) == -b % 36;
    }
  }

  /** Of all changes of one character, the check finds exactly those outside the prefix. */
  lemma SingleSubstitution(s: string, i: nat, c: char)
    requires Valid(s) && i < |s| && c != s[i]
    ensures Valid(s[i := c]) <==> i < PREFIX_LENGTH
  {
    hide Sum, Control, Weight;
    var t := s[i := c];
    ValidByRaw(s);
    ValidByRaw(t);
    if i < PREFIX_LENGTH || i == PUBLIC_LENGTH - 1 || i == PUBLIC_LENGTH {
      assert Raw(t) == Raw(s);
    } else if IsCodePoint(c) {
      var j := if i < PUBLIC_LENGTH then i - PREFIX_LENGTH else i - PUBLIC_LENGTH - 1 + BASE_ID_LENGTH;
      assert i == PlaceOf(j);
      assert Raw(t) == Raw(s)[j := c];
      SumOfUpdate(Raw(s), j, c, 15);
      WeightIsInjective(c, s[i], j);
      SameControl(Sum(Raw(s), 15), Sum(Raw(t), 15));
    } else {
      var j := if i < PUBLIC_LENGTH then i - PREFIX_LENGTH else i - PUBLIC_LENGTH - 1 + BASE_ID_LENGTH;
      assert Raw(t)[j] == c;
    }
  }

  /** Two neighbours among the summed characters change places. */
  function Swapped(s: string, j: nat): string
    requires |s| == FULL_LENGTH && j < 14
  {
    s[PlaceOf(j) := s[PlaceOf(j + 1)]][PlaceOf(j + 1) := s[PlaceOf(j)]]
  }

  lemma WeightsOfSwap(c: char, d: char, j: nat)
    requires IsCodePoint(c) && IsCodePoint(d) && c != d
    ensures (Weight(c, j) + Weight(d, j + 1) - Weight(d, j) - Weight(c, j + 1)) % 36 == 0 <==> {c, d} == {'0', 'z'}
  {
    hide Weight, ValueOf;
    WeightOf(c, j);
    WeightOf(d, j);
    WeightOf(c, j + 1);
    WeightOf(d, j + 1);
    ZeroAndZ(c, d);
    if ValueOf(c) == ValueOf(d) { ValueIsInjective(c, d); }
    SmallMultiple(Weight(c, j) + Weight(d, j + 1) - Weight(d, j) - Weight(c, j + 1));
  }

  lemma ZeroAndZ(c: char, d: char)
    requires IsCodePoint(c) && IsCodePoint(d)
    ensures {c, d} == {'0', 'z'} <==> (ValueOf(c) == 0 && ValueOf(d) == 35) || (ValueOf(c) == 35 && ValueOf(d) == 0)
  {
    assert {c, d} == {'0', 'z'} <==> (c == '0' && d == 'z') || (c == 'z' && d == '0') by {
      if {c, d} == {'0', 'z'} { assert c in {'0', 'z'} && d in {'0', 'z'} && '0' in {c, d} && 'z' in {c, d}; }
    }
  }

  lemma SmallMultiple(x: int)
    requires -72 < x < 72
    ensures x % 36 == 0 <==> x == 0 || x == 36 || x == -36
  {
  }

  /** Of all swaps of two different neighbours, the last of the base ID and the first of the final string included,
      the check finds exactly those that are not of '0' and 'z'. */
  lemma AdjacentSwap(s: string, j: nat)
    requires Valid(s) && j < 14 && s[PlaceOf(j)] != s[PlaceOf(j + 1)]
    ensures Valid(Swapped(s, j)) <==> {s[PlaceOf(j)], s[PlaceOf(j + 1)]} == {'0', 'z'}
  {
    hide Sum, Control, Weight;
    var t, c, d := Swapped(s, j), s[PlaceOf(j)], s[PlaceOf(j + 1)];
    ValidByRaw(s);
    ValidByRaw(t);
    assert Raw(t) == Raw(s)[j := d][j + 1 := c];
    SumOfUpdate(Raw(s), j, d, 15);
    SumOfUpdate(Raw(s)[j := d], j + 1, c, 15);
    WeightsOfSwap(c, d, j);
    SameControl(Sum(Raw(s), 15), Sum(Raw(t), 15));
  }

  // ----- numbers that are meant to be invalid -----

  function BeforeDash(s: string): string {
    if s == "" || s[0] == '-' then "" else [s[0]] + BeforeDash(s[1..])
  }

  /** The number with another final string, as made in order to get an invalid one. */
  function WithFinal(s: string, final: string): string {
    BeforeDash(s) + "-" + final
  }

  lemma {:induction false} BeforeFirstDash(s: string, n: nat)
    requires n < |s| && s[n] == '-' && '-' !in s[..n]
    ensures BeforeDash(s) == s[..n]
  {
    if n > 0 {
      assert s[0] in s[..n] && s[1..][..n - 1] == s[..n][1..];
      BeforeFirstDash(s[1..], n - 1);
    }
  }

  lemma {:induction false} DashComesEarly(s: string, n: nat)
    requires n < |s| && s[n] == '-'
    ensures |BeforeDash(s)| <= n
  {
    if s[0] != '-' {
      DashComesEarly(s[1..], n - 1);
    }
  }

  lemma {:induction false} SumOfSamePrefix(s: string, t: string, n: nat)
    requires n <= |s| && n <= |t| && s[..n] == t[..n] && AllCodePoints(s) && AllCodePoints(t)
    ensures Sum(s, n) == Sum(t, n)
  {
    if n > 0 {
      assert s[..n - 1] == s[..n][..n - 1] && t[..n - 1] == t[..n][..n - 1];
      assert s[n - 1] == s[..n][n - 1] && t[n - 1] == t[..n][n - 1];
      SumOfSamePrefix(s, t, n - 1);
    }
  }

  /** It is valid all the same exactly when the prefix has no dash and the final strings weigh the same modulo 36. */
  lemma WithFinalStaysValid(s: string, final: string)
    requires Valid(s) && |final| == FINAL_LENGTH && AllCodePoints(final)
    ensures Valid(WithFinal(s, final)) <==>
            && '-' !in s[..PREFIX_LENGTH]
            && (Sum(final, FINAL_LENGTH) - Sum(Final(s), FINAL_LENGTH)) % 36 == 0
  {
    hide Sum, Control, Weight;
    ValidByRaw(s);
    if '-' in s[..PREFIX_LENGTH] {
      var n :| 0 <= n < PREFIX_LENGTH && s[n] == '-';
      DashComesEarly(s, n);
      WrongLength(WithFinal(s, final));
    } else {
      forall n | 0 <= n < PUBLIC_LENGTH ensures s[n] != '-' {
        if n < PREFIX_LENGTH { assert s[n] in s[..PREFIX_LENGTH]; }
        else if n < PUBLIC_LENGTH - 1 { assert s[n] == Raw(s)[n - PREFIX_LENGTH]; }
        else { CodePointIsNoDash(Sum(Raw(s), 15)); }
      }
      BeforeFirstDash(s, PUBLIC_LENGTH);
      var t := WithFinal(s, final);
      ValidByRaw(t);
      assert Raw(t) == Raw(s)[..BASE_ID_LENGTH] + final && Raw(s) == Raw(s)[..BASE_ID_LENGTH] + Final(s);
      SumOfParts(Raw(s)[..BASE_ID_LENGTH], final);
      SumOfParts(Raw(s)[..BASE_ID_LENGTH], Final(s));
      SameControl(Sum(Raw(s), 15), Sum(Raw(t), 15));
    }
  }

  lemma CodePointIsNoDash(sum: int)
    ensures Control(sum) != '-'
  {
  }

  lemma WrongLength(s: string)
    requires |s| != FULL_LENGTH
    ensures !Valid(s)
  {
  }

  lemma SumOfParts(baseId: string, final: string)
    requires |baseId| == BASE_ID_LENGTH && |final| == FINAL_LENGTH && AllCodePoints(baseId) && AllCodePoints(final)
    ensures Sum(baseId + final, 15) == Sum(baseId, 12) + Sum(final, 3)
  {
    var s := baseId + final;
    SumOfSamePrefix(s, baseId, 12);
    hide Weight;
    LastThree(s, 12);
    LastThree(final, 0);
    SameParity(final[0], 12, 0);
    SameParity(final[1], 13, 1);
    SameParity(final[2], 14, 2);
  }

  lemma LastThree(s: string, n: nat)
    requires n + 3 <= |s| && AllCodePoints(s)
    ensures Sum(s, n + 3) == Sum(s, n) + Weight(s[n], n) + Weight(s[n + 1], n + 1) + Weight(s[n + 2], n + 2)
  {
    hide Weight;
    assert Sum(s, n + 2) == Sum(s, n + 1) + Weight(s[n + 1], n + 1);
  }

  lemma SameParity(c: char, i: int, j: int)
    requires IsCodePoint(c) && i % 2 == j % 2
    ensures Weight(c, i) == Weight(c, j)
  {
  }

  lemma WeightOfThree(final: string)
    requires |final| == FINAL_LENGTH && AllCodePoints(final)
    ensures Sum(final, FINAL_LENGTH) == Weight(final[0], 0) + Weight(final[1], 1) + Weight(final[2], 2)
  {
    hide Weight;
    LastThree(final, 0);
  }

  lemma ThreeLetters()
    ensures AllCodePoints("aca") && AllCodePoints("aab")
    ensures Sum("aca", FINAL_LENGTH) == Sum("aab", FINAL_LENGTH) == 52
  {
    WeightOfThree("aca");
    WeightOfThree("aab");
    WeightOf('a', 0);
    WeightOf('c', 1);
    WeightOf('a', 2);
    WeightOf('a', 1);
    WeightOf('b', 2);
    hide Weight, Sum;
  }

  /** So under every prefix without a dash, and for every base ID, there is a number that is still valid with another
      final string of small letters. */
  lemma FinalMayStayValid(prefix: string, baseId: string)
    requires |prefix| == PREFIX_LENGTH && '-' !in prefix && |baseId| == BASE_ID_LENGTH && AllCodePoints(baseId)
    ensures FromComponents(prefix, baseId, "aca").Ok?
    ensures var s := FromComponents(prefix, baseId, "aca").value;
            Valid(s) && Final(s) == "aca" && Valid(WithFinal(s, "aab"))
  {
    hide Sum, WithFinal, Valid, FromComponents;
    ThreeLetters();
    FromComponentsIsValid(prefix, baseId, "aca");
    var s := FromComponents(prefix, baseId, "aca").value;
    WithFinalStaysValid(s, "aab");
  }
}
