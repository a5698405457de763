/** Test identifiers: the owner and the kind of a resource written into the digits of a UUID, and read from it. */
module TestIds {
  import opened Common
  import opened Digits

  const DIGITS := "0123456789"
  const UPPER := "ABCDEFGHIJKLMNOPQRSTUVWXYZ"
  const LOWER := "abcdefghijklmnopqrstuvwxyz"
  const ID_CHAR_SET: string := DIGITS + UPPER + LOWER + "_"
  const MAX_OWNER_LENGTH := 12

  datatype IdError = ValueError | IndexError

  predicate InSet(c: char) {
    '0' <= c <= '9' || 'A' <= c <= 'Z' || 'a' <= c <= 'z' || c == '_'
  }

  /** The place in the list of characters, and 63 for any other character. */
  function OrdVal(c: char): (v: nat)
    ensures v <= 63 && (InSet(c) <==> v < 63)
  {
    if '0' <= c <= '9' then c as int - '0' as int
    else if 'A' <= c <= 'Z' then c as int - 'A' as int + 10
    else if 'a' <= c <= 'z' then c as int - 'a' as int + 36
    else if c == '_' then 62
    else 63
  }

  function LetterOf(v: nat): char {
    if v < 10 then ('0' as int + v) as char
    else if v < 36 then ('A' as int + v - 10) as char
    else if v < 62 then ('a' as int + v - 36) as char
    else if v == 62 then '_'
    else '?'
  }

  lemma LettersInOrder(v: nat)
    ensures |ID_CHAR_SET| == 63
    ensures v < 63 ==> OrdVal(LetterOf(v)) == v
    ensures v < 63 ==> ID_CHAR_SET[v] == LetterOf(v)
  {
    if v < 63 {
      if v < 10 {
        assert ID_CHAR_SET[v] == DIGITS[v];
      } else if v < 36 {
        assert ID_CHAR_SET[v] == UPPER[v - 10];
      } else if v < 62 {
        assert ID_CHAR_SET[v] == LOWER[v - 36];
      }
    }
  }

  /** What is left of a character. */
  function Known(c: char): char {
    if InSet(c) then c else '?'
  }

  lemma LetterSurvives(c: char)
    ensures LetterOf(OrdVal(c)) == Known(c)
  {
  }

  // ----- the pieces that are translated -----

  function BitsOfLetter(c: string): string {
    if |c| == 1 then Format(OrdVal(c[0]), 2, 6) else ""
  }

  function ByteToHex(bits: string): string {
    Format(Parse(bits, 2), 16, 2)
  }

  function HexToByte(hex: string): string {
    Format(Parse(hex, 16), 2, 8)
  }

  function LetterOfBits(bits: string): string {
    [LetterOf(Parse(bits, 2))]
  }

  // ----- owners -----

  /** Twelve characters: the first and the last six of a long name, a short name with question marks in front. */
  function Fitted(owner: string): (s: string)
    ensures |s| == MAX_OWNER_LENGTH
  {
    if |owner| > MAX_OWNER_LENGTH then owner[..6] + owner[|owner| - 6..]
    else seq(MAX_OWNER_LENGTH - |owner|, _ => '?') + owner
  }

  function EncodedOwner(owner: string): string {
    Through(Through(Fitted(owner), 1, BitsOfLetter), 8, ByteToHex)
  }

  function Stripped(s: string): string {
    if s != "" && s[0] == '?' then Stripped(s[1..]) else s
  }

  /** The name that twelve letters stand for. */
  function Named(letters: string): Result<string, IdError>
    requires |letters| == MAX_OWNER_LENGTH
  {
    if letters[0] != '?' then Ok(letters[..6] + ".." + letters[|letters| - 6..])
    else if Stripped(letters) == "" then Err(IndexError)
    else Ok(Stripped(letters))
  }

  function DecodedOwner(id: string): Result<string, IdError> {
    if |id| != 18 || exists c | c in id :: !IsHexDigit(c) then Err(ValueError) else
    LetterCount(id);
    Named(Through(Through(id, 2, HexToByte), 6, LetterOfBits))
  }

  lemma LetterCount(id: string)
    requires |id| == 18
    ensures |Through(id, 2, HexToByte)| == 72
    ensures |Through(Through(id, 2, HexToByte), 6, LetterOfBits)| == 12
  {
    forall hex: string | |hex| == 2 ensures |HexToByte(hex)| == 8 {
      TwoDigits(hex);
    }
    WholeLength(id, 2, 9);
    ThroughShape(id, 2, 8, HexToByte, AnyChar, AnyChar);
    var bits := Through(id, 2, HexToByte);
    WholeLength(bits, 6, 12);
    ThroughShape(bits, 6, 1, LetterOfBits, AnyChar, AnyChar);
  }

  predicate AnyChar(c: char) {
    true
  }

  predicate IsBit(c: char) {
    IsDigit(c, 2)
  }

  lemma TwoDigits(hex: string)
    requires |hex| == 2
    ensures |HexToByte(hex)| == 8
  {
    ParseIsBelow(hex, 16);
    assert Power(16, 2) == Power(2, 8) == 256;
    FormatWidth(Parse(hex, 16), 2, 8);
  }

  method EncodeOwner(owner: string) returns (hex: string)
    ensures hex == EncodedOwner(owner)
  {
    var letters;
    if |owner| > MAX_OWNER_LENGTH {
      letters := owner[..6] + owner[|owner| - 6..];
    } else if |owner| < MAX_OWNER_LENGTH {
      letters := seq(MAX_OWNER_LENGTH - |owner|, _ => '?') + owner;
    } else {
      letters := owner;
      assert seq(0, _ => '?') + owner == owner;
    }
    var bits := TranslateByPieces(letters, 1, BitsOfLetter);
    hex := TranslateByPieces(bits, 8, ByteToHex);
  }

  method DecodeOwner(id: string) returns (r: Result<string, IdError>)
    ensures r == DecodedOwner(id)
  {
    if |id| != 18 || exists c | c in id :: !IsHexDigit(c) {
      return Err(ValueError);
    }
    LetterCount(id);
    var bits := TranslateByPieces(id, 2, HexToByte);
    var owner := TranslateByPieces(bits, 6, LetterOfBits);
    if owner[0] != '?' {
      return Ok(owner[..6] + ".." + owner[|owner| - 6..]);
    }
    ghost var letters := owner;
    while owner != "" && owner[0] == '?'
      invariant Stripped(owner) == Stripped(letters)
      decreases |owner|
    {
      owner := owner[1..];
    }
    if owner == "" {
      return Err(IndexError);
    }
    return Ok(owner);
  }

  // ----- identifiers -----

  function MakeId(owner: string, code: nat): string {
    var x, y := Format(code, 16, 4), EncodedOwner(owner);
    OwnerIsHex(owner);
    "0000" + x + "-" + y[0..4] + "-40" + y[4..6] + "-" + y[6..10] + "-" + y[10..18] + "0000"
  }

  lemma OwnerIsHex(owner: string)
    ensures var bits := Through(Fitted(owner), 1, BitsOfLetter); |bits| == 72 && AllOf(bits, IsBit)
    ensures |EncodedOwner(owner)| == 18 && AllOf(EncodedOwner(owner), IsHexDigit)
  {
    hide BitsOfLetter, ByteToHex, Fitted, Through;
    var letters := Fitted(owner);
    WholeLength(letters, 1, 12);
    forall c: string | |c| == 1 ensures |BitsOfLetter(c)| == 6 && AllOf(BitsOfLetter(c), IsBit) {
      SixBits(c);
    }
    ThroughShape(letters, 1, 6, BitsOfLetter, AnyChar, IsBit);
    var bits := Through(letters, 1, BitsOfLetter);
    WholeLength(bits, 8, 9);
    forall c: string | |c| == 8 && AllOf(c, IsBit) ensures |ByteToHex(c)| == 2 && AllOf(ByteToHex(c), IsHexDigit) {
      EightBits(c);
    }
    ThroughShape(bits, 8, 2, ByteToHex, IsBit, IsHexDigit);
  }

  lemma SixBits(c: string)
    requires |c| == 1
    ensures |BitsOfLetter(c)| == 6 && AllOf(BitsOfLetter(c), IsBit)
    ensures LetterOfBits(BitsOfLetter(c)) == [Known(c[0])]
  {
    assert Power(2, 6) == 64;
    FormatWidth(OrdVal(c[0]), 2, 6);
    ParseOfFormat(OrdVal(c[0]), 2, 6);
    LetterSurvives(c[0]);
  }

  lemma EightBits(bits: string)
    requires |bits| == 8 && AllOf(bits, IsBit)
    ensures |ByteToHex(bits)| == 2 && HexToByte(ByteToHex(bits)) == bits
    ensures AllOf(ByteToHex(bits), IsHexDigit)
  {
    ParseIsBelow(bits, 2);
    assert Power(2, 8) == Power(16, 2) == 256;
    FormatWidth(Parse(bits, 2), 16, 2);
    ParseOfFormat(Parse(bits, 2), 16, 2);
    FormatOfParse(bits, 2);
  }

  function RemoveDashes(s: string): string {
    if s == "" then "" else RemoveDashes(s[..|s| - 1]) + (if s[|s| - 1] == '-' then "" else [s[|s| - 1]])
  }

  function Decode(id: string): Result<(string, nat), IdError> {
    var digits := RemoveDashes(id);
    if |digits| != 32 then Err(ValueError)
    else if digits[0..4] != "0000" || digits[|digits| - 4..] != "0000" then Err(ValueError)
    else if digits[12..14] != "40" then Err(ValueError)
    else if exists c | c in digits[4..8] :: !IsHexDigit(c) then Err(ValueError)
    else
      var owner :- DecodedOwner(digits[8..12] + digits[14..28]);
      Ok((owner, Parse(digits[4..8], 16)))
  }

  /** Zeros at both ends, the digits 40 before the middle, and four hexadecimal digits behind the first zeros. */
  ghost predicate HasTestForm(digits: string) {
    && |digits| == 32
    && (forall i :: 0 <= i < 4 || 28 <= i < 32 ==> digits[i] == '0')
    && digits[12] == '4' && digits[13] == '0'
    && (forall i :: 4 <= i < 8 ==> IsHexDigit(digits[i]))
  }

  /** Exactly what has this form without dashes is decoded, to the code and the owner in it. */
  lemma DecodeExactly(id: string)
    ensures var digits := RemoveDashes(id);
            && (!HasTestForm(digits) ==> Decode(id) == Err(ValueError))
            && (HasTestForm(digits) ==>
                  var owner, code := digits[8..12] + digits[14..28], digits[4..8];
                  && (Decode(id).Ok? <==> DecodedOwner(owner).Ok?)
                  && (Decode(id).Ok? ==> Decode(id).value == (DecodedOwner(owner).value, Parse(code, 16)))
                  && (Decode(id).Err? ==> Decode(id).error == DecodedOwner(owner).error))
  {
    hide Parse, DecodedOwner, RemoveDashes, IsHexDigit;
    var digits := RemoveDashes(id);
    if |digits| == 32 {
      assert digits[0..4] == "0000" <==> forall i :: 0 <= i < 4 ==> digits[i] == '0' by {
        assert forall i :: 0 <= i < 4 ==> digits[0..4][i] == digits[i];
      }
      assert digits[28..] == "0000" <==> forall i :: 28 <= i < 32 ==> digits[i] == '0' by {
        assert forall i :: 28 <= i < 32 ==> digits[28..][i - 28] == digits[i];
      }
      assert digits[12..14] == "40" <==> digits[12] == '4' && digits[13] == '0' by {
        assert digits[12..14][0] == digits[12] && digits[12..14][1] == digits[13];
      }
      assert forall i :: 4 <= i < 8 ==> digits[4..8][i - 4] == digits[i];
    }
  }

  /** An identifier for a code of at most four hexadecimal digits has the form of a UUID in section 3 of RFC 4122, with
      the version digit of a random one at the place given in its section 4.1.3. */
  lemma MakeIdHasUuidForm(owner: string, code: nat)
    requires code <= 0xFFFF
    ensures var id := MakeId(owner, code);
            && |id| == 36 && id[14] == '4'
            && forall i :: 0 <= i < 36 ==>
                 if i == 8 || i == 13 || i == 18 || i == 23 then id[i] == '-' else IsHexDigit(id[i])
  {
    OwnerIsHex(owner);
    assert Power(16, 4) == 0x10000;
    FormatWidth(code, 16, 4);
    hide Format, EncodedOwner;
    var x, y := Format(code, 16, 4), EncodedOwner(owner);
    assert AllOf(x, IsHexDigit);
  }

  /** The bits of the fifth letter come after those of four others, and start the fourth byte. */
  lemma FifthLetter(owner: string)
    ensures var y, letter := EncodedOwner(owner), Fitted(owner)[4..5];
            && |y| == 18
            && exists low: string ::
                 |low| == 2 && AllOf(low, IsBit) && y[6..8] == ByteToHex(BitsOfLetter(letter) + low)
  {
    hide BitsOfLetter, ByteToHex, Fitted, Through;
    var letters, bits := Fitted(owner), Through(Fitted(owner), 1, BitsOfLetter);
    OwnerIsHex(owner);
    forall c: string | |c| == 1 ensures |BitsOfLetter(c)| == 6 {
      SixBits(c);
    }
    PieceAt(letters, 1, 6, BitsOfLetter, AnyChar, 4);
    FourthByte(bits);
    var low := bits[30..32];
    assert bits[24..32] == bits[24..30] + low && AllOf(low, IsBit);
  }

  lemma FourthByte(bits: string)
    requires |bits| == 72 && AllOf(bits, IsBit)
    ensures |Through(bits, 8, ByteToHex)| >= 8 && Through(bits, 8, ByteToHex)[6..8] == ByteToHex(bits[24..32])
  {
    hide ByteToHex, Through;
    forall c: string | |c| == 8 && AllOf(c, IsBit) ensures |ByteToHex(c)| == 2 {
      EightBits(c);
    }
    PieceAt(bits, 8, 2, ByteToHex, IsBit, 3);
  }

  lemma FirstHexDigit(six: string, low: string)
    requires |six| == 6 && |low| == 2 && AllOf(six, IsBit) && AllOf(low, IsBit)
    ensures |ByteToHex(six + low)| == 2
    ensures ByteToHex(six + low)[0] in "89ab" <==> 32 <= Parse(six, 2) < 48
  {
    var s := six + low;
    EightBits(s);
    TwoMoreBits(six, low);
    ParseIsBelow(s, 2);
    assert Power(2, 8) == 256;
    UpperDigit(Parse(s, 2));
    hide Parse, Format;
    assert ByteToHex(s)[0] == Digit(Parse(s, 2) / 16);
  }

  lemma TwoMoreBits(six: string, low: string)
    requires |low| == 2 && AllOf(low, IsBit)
    ensures Parse(six + low, 2) / 4 == Parse(six, 2)
  {
    var s := six + low;
    assert s[..|s| - 1] == six + low[..1] && (six + low[..1])[..|six|] == six;
    LastDigit(s, 2);
    LastDigit(six + low[..1], 2);
  }

  lemma UpperDigit(v: nat)
    requires v < 256
    ensures |Format(v, 16, 2)| == 2 && Format(v, 16, 2)[0] == Digit(v / 16)
    ensures Digit(v / 16) in "89ab" <==> 32 <= v / 4 < 48
  {
    assert Format(v / 16, 16, 1) == [Digit(v / 16)];
  }

  /** Section 4.1.1 of RFC 4122 wants a variant digit of 8, 9, a or b after the third dash. That digit comes from the
      owner: it is one of these exactly when the fifth of its twelve letters is one of `W` to `Z` or `a` to `l`. */
  lemma VariantIsTheOwners(owner: string, code: nat)
    requires code <= 0xFFFF
    ensures |MakeId(owner, code)| == 36
    ensures MakeId(owner, code)[19] in "89ab" <==>
              var letter := Fitted(owner)[4]; 'W' <= letter <= 'Z' || 'a' <= letter <= 'l'
  {
    MakeIdHasUuidForm(owner, code);
    VariantDigit(owner, code);
    FifthLetter(owner);
    hide EncodedOwner, ByteToHex, Fitted, MakeId;
    var y, letter := EncodedOwner(owner), Fitted(owner)[4..5];
    var low: string :| |low| == 2 && AllOf(low, IsBit) && y[6..8] == ByteToHex(BitsOfLetter(letter) + low);
    SixBits(letter);
    FirstHexDigit(BitsOfLetter(letter), low);
    ParseOfFormat(OrdVal(letter[0]), 2, 6);
    assert y[6..8][0] == y[6];
    hide Format, Parse;
  }

  lemma VariantDigit(owner: string, code: nat)
    requires code <= 0xFFFF
    ensures |EncodedOwner(owner)| == 18 && |MakeId(owner, code)| == 36
    ensures MakeId(owner, code)[19] == EncodedOwner(owner)[6]
  {
    hide EncodedOwner;
    OwnerIsHex(owner);
    assert Power(16, 4) == 0x10000;
    FormatWidth(code, 16, 4);
  }

  // ----- the round trip -----

  function Normalized(s: string): (t: string)
    ensures |t| == |s|
  {
    seq(|s|, i requires 0 <= i < |s| => Known(s[i]))
  }

  function KnownLetter(c: string): string {
    if |c| == 1 then [Known(c[0])] else ""
  }

  lemma {:induction false} LetterByLetter(s: string)
    ensures Through(s, 1, KnownLetter) == Normalized(s)
  {
    if s != "" {
      ThroughMore(s[..1], s[1..], 1, KnownLetter);
      assert s == s[..1] + s[1..];
      LetterByLetter(s[1..]);
    }
  }

  /** Six bits a letter, regrouped in bytes and back, lose nothing but the characters that have no number. */
  lemma DecodedIsNamed(owner: string)
    ensures DecodedOwner(EncodedOwner(owner)) == Named(Normalized(Fitted(owner)))
  {
    hide BitsOfLetter, ByteToHex, HexToByte, LetterOfBits, Fitted, Through, Named;
    var letters := Fitted(owner);
    var bits := Through(letters, 1, BitsOfLetter);
    var hex := Through(bits, 8, ByteToHex);
    OwnerIsHex(owner);
    WholeLength(bits, 8, 9);
    forall c: string | |c| == 8 && AllOf(c, IsBit)
      ensures |ByteToHex(c)| == 2 && HexToByte(ByteToHex(c)) == (c => c)(c)
    {
      EightBits(c);
    }
    ThroughTwice(bits, 8, 2, ByteToHex, HexToByte, c => c, IsBit);
    ThroughSame(bits, 8);
    WholeLength(letters, 1, 12);
    forall c: string | |c| == 1 ensures |BitsOfLetter(c)| == 6 && LetterOfBits(BitsOfLetter(c)) == KnownLetter(c) {
      SixBits(c);
    }
    ThroughTwice(letters, 1, 6, BitsOfLetter, LetterOfBits, KnownLetter, AnyChar);
    LetterByLetter(letters);
  }

  lemma {:induction false} RemoveDashesOfBoth(a: string, b: string)
    ensures RemoveDashes(a + b) == RemoveDashes(a) + RemoveDashes(b)
  {
    if b == "" {
      assert a + b == a;
    } else {
      assert (a + b)[..|a + b| - 1] == a + b[..|b| - 1];
      RemoveDashesOfBoth(a, b[..|b| - 1]);
    }
  }

  lemma {:induction false} NoDashes(s: string)
    requires AllOf(s, IsHexDigit)
    ensures RemoveDashes(s) == s
  {
    if s != "" {
      NoDashes(s[..|s| - 1]);
    }
  }

  lemma DashThen(s: string)
    ensures RemoveDashes("-" + s) == RemoveDashes(s)
  {
    RemoveDashesOfBoth("-", s);
    assert "-"[..0] == "";
  }

  lemma DigitsOfId(owner: string, code: nat)
    requires AllOf(Format(code, 16, 4), IsHexDigit)
    ensures var y := EncodedOwner(owner);
            && |y| == 18
            && RemoveDashes(MakeId(owner, code)) ==
                 "0000" + Format(code, 16, 4) + y[0..4] + "40" + y[4..6] + y[6..10] + y[10..18] + "0000"
  {
    OwnerIsHex(owner);
    hide Format, EncodedOwner, RemoveDashes;
    var x, y := Format(code, 16, 4), EncodedOwner(owner);
    var p0, p1, p2, p3, p4 := "0000" + x, y[0..4], "40" + y[4..6], y[6..10], y[10..18] + "0000";
    assert MakeId(owner, code) == p0 + ("-" + (p1 + ("-" + (p2 + ("-" + (p3 + ("-" + p4)))))));
    NoDashes(p0);
    NoDashes(p1);
    NoDashes(p2);
    NoDashes(p3);
    NoDashes(p4);
    DashThen(p4);
    RemoveDashesOfBoth(p3, "-" + p4);
    DashThen(p3 + ("-" + p4));
    RemoveDashesOfBoth(p2, "-" + (p3 + ("-" + p4)));
    DashThen(p2 + ("-" + (p3 + ("-" + p4))));
    RemoveDashesOfBoth(p1, "-" + (p2 + ("-" + (p3 + ("-" + p4)))));
    DashThen(p1 + ("-" + (p2 + ("-" + (p3 + ("-" + p4))))));
    RemoveDashesOfBoth(p0, "-" + (p1 + ("-" + (p2 + ("-" + (p3 + ("-" + p4)))))));
  }

  lemma {:induction false} FormatIsHex(v: nat, width: nat)
    ensures AllOf(Format(v, 16, width), IsHexDigit)
    decreases v, width
  {
    if v >= 16 || width > 1 {
      FormatIsHex(v / 16, if width > 0 then width - 1 else 0);
    }
  }

  lemma DecodeOfMakeId(owner: string, code: nat)
    ensures Decode(MakeId(owner, code)) ==
            if code > 0xFFFF then Err(ValueError) else
            var r := Named(Normalized(Fitted(owner)));
            if r.Ok? then Ok((r.value, code)) else Err(r.error)
  {
    FormatIsHex(code, 4);
    DigitsOfId(owner, code);
    DecodedIsNamed(owner);
    assert Power(16, 4) == 0x10000;
    hide Format, Parse, EncodedOwner, DecodedOwner, Named, Fitted, RemoveDashes;
    var x, y := Format(code, 16, 4), EncodedOwner(owner);
    var digits := RemoveDashes(MakeId(owner, code));
    if code > 0xFFFF {
      FormatTooWide(code, 16, 4);
    } else {
      FormatWidth(code, 16, 4);
      ParseOfFormat(code, 16, 4);
      PartsOfId(x, y, digits);
    }
  }

  lemma PartsOfId(x: string, y: string, digits: string)
    requires |x| == 4 && |y| == 18
    requires digits == "0000" + x + y[0..4] + "40" + y[4..6] + y[6..10] + y[10..18] + "0000"
    ensures |digits| == 32 && digits[4..8] == x && digits[12..14] == "40"
    ensures digits[0..4] == "0000" && digits[|digits| - 4..] == "0000"
    ensures digits[8..12] + digits[14..28] == y
  {
  }

  // ----- which owners survive -----

  /** No character is lost. */
  predicate Plain(s: string) {
    forall i :: 0 <= i < |s| ==> InSet(s[i]) || s[i] == '?'
  }

  /** Short names that do not start with a question mark, and long ones that look abbreviated already. */
  predicate Survives(owner: string) {
    && owner != "" && owner[0] != '?'
    && (|| (|owner| <= 11 && Plain(owner))
        || (|owner| == 14 && owner[6..8] == ".." && Plain(owner[..6]) && Plain(owner[8..])))
  }

  lemma {:induction false} StrippedIsShorter(s: string)
    ensures |Stripped(s)| <= |s|
    ensures s != "" && s[0] == '?' ==> |Stripped(s)| < |s|
  {
    if s != "" {
      StrippedIsShorter(s[1..]);
    }
  }

  lemma {:induction false} StrippedOfPadded(n: nat, s: string)
    ensures Stripped(seq(n, _ => '?') + s) == Stripped(s)
  {
    var padded := seq(n, _ => '?') + s;
    if n == 0 {
      assert padded == s;
    } else {
      assert padded[1..] == seq(n - 1, _ => '?') + s;
      StrippedOfPadded(n - 1, s);
    }
  }

  lemma ShortName(owner: string)
    requires |owner| < 12
    ensures var s := Stripped(Normalized(owner));
            Named(Normalized(Fitted(owner))) == if s == "" then Err(IndexError) else Ok(s)
  {
    var n := 12 - |owner|;
    assert Normalized(Fitted(owner)) == seq(n, _ => '?') + Normalized(owner);
    StrippedOfPadded(n, Normalized(owner));
  }

  lemma LongName(owner: string)
    requires |owner| >= 12
    ensures var a, b := Normalized(owner[..6]), Normalized(owner[|owner| - 6..]);
            && (a[0] != '?' ==> Named(Normalized(Fitted(owner))) == Ok(a + ".." + b))
            && (a[0] == '?' ==> var r := Named(Normalized(Fitted(owner))); r.Err? || |r.value| < 12)
  {
    var a, b := Normalized(owner[..6]), Normalized(owner[|owner| - 6..]);
    var letters := Normalized(Fitted(owner));
    assert Fitted(owner) == owner[..6] + owner[|owner| - 6..] by {
      if |owner| == 12 { assert seq(0, _ => '?') + owner == owner; }
    }
    assert letters[..6] == a && letters[6..] == b;
    StrippedIsShorter(letters);
  }

  lemma NormalizedIsSame(s: string)
    ensures Normalized(s) == s <==> Plain(s)
  {
    forall i | 0 <= i < |s| ensures Normalized(s)[i] == s[i] <==> InSet(s[i]) || s[i] == '?' {
    }
    assert Normalized(s) == s <==> forall i :: 0 <= i < |s| ==> Normalized(s)[i] == s[i];
  }

  /** Decoding an identifier gives back the owner and the code it was made from exactly for codes up to 0xFFFF and
      owners that survive, so for all owners of 1 to 11 characters from the set. */
  lemma RoundTrip(owner: string, code: nat)
    ensures Decode(MakeId(owner, code)) == Ok((owner, code)) <==> code <= 0xFFFF && Survives(owner)
    ensures 1 <= |owner| <= 11 && (forall i :: 0 <= i < |owner| ==> InSet(owner[i])) ==> Survives(owner)
  {
    DecodeOfMakeId(owner, code);
    if |owner| < 12 {
      ShortName(owner);
      StrippedIsShorter(Normalized(owner));
      NormalizedIsSame(owner);
    } else {
      LongName(owner);
      LongSurvives(owner);
    }
  }

  lemma LongSurvives(owner: string)
    requires |owner| >= 12
    ensures var a, b := Normalized(owner[..6]), Normalized(owner[|owner| - 6..]);
            a[0] != '?' && a + ".." + b == owner <==> Survives(owner)
  {
    var a, b := Normalized(owner[..6]), Normalized(owner[|owner| - 6..]);
    if |owner| == 14 {
      NormalizedIsSame(owner[..6]);
      NormalizedIsSame(owner[8..]);
      assert owner == owner[..6] + owner[6..8] + owner[8..];
      assert a + ".." + b == owner <==> a == owner[..6] && ".." == owner[6..8] && b == owner[8..] by {
        if a + ".." + b == owner {
          assert (a + ".." + b)[..6] == a && (a + ".." + b)[6..8] == ".." && (a + ".." + b)[8..] == b;
        }
      }
    }
  }

  /** Names of twelve or more characters from the set come back as their first and last six with dots between. */
  lemma LongOwnersAreAbbreviated(owner: string, code: nat)
    requires |owner| >= 12 && code <= 0xFFFF && forall i :: 0 <= i < |owner| ==> InSet(owner[i])
    ensures Decode(MakeId(owner, code)) == Ok((owner[..6] + ".." + owner[|owner| - 6..], code))
  {
    DecodeOfMakeId(owner, code);
    LongName(owner);
    NormalizedIsSame(owner[..6]);
    NormalizedIsSame(owner[|owner| - 6..]);
  }
}
