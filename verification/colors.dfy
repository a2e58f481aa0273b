/**
 * Profile colours of client/src/components/ProfilesDisplay.tsx: the string
 * hash behind `stringToColor`, and `ethnicityToColor`, which normalises its
 * argument and looks it up in a fixed table before falling back to the hash.
 */
module ProfileColors {
  import opened Text

  const TwoTo31: int := 0x8000_0000
  const TwoTo32: int := 0x1_0000_0000

  /** ECMAScript ToInt32 on an integer: wrap modulo 2^32 into [-2^31, 2^31). */
  function ToInt32(x: int): (r: int)
    ensures -TwoTo31 <= r < TwoTo31
    ensures (r - x) % TwoTo32 == 0
  {
    var m := x % TwoTo32;
    if m >= TwoTo31 then m - TwoTo32 else m
  }

  /** One step of the loop: `hash = charCode + ((hash << 5) - hash)`, where
      the shift wraps to 32 bits but the subtraction and the addition do not. */
  function HashStep(hash: int, c: char): int {
    c as int + (ToInt32(ToInt32(hash) * 32) - hash)
  }

  /** The hash after the loop has consumed all of s. */
  function Hash(s: string): int {
    if s == [] then 0 else HashStep(Hash(s[..|s| - 1]), s[|s| - 1])
  }

  /** The textbook polynomial string hash, h * 31 + c over exact integers. */
  function PolyHash(s: string): int {
    if s == [] then 0 else 31 * PolyHash(s[..|s| - 1]) + s[|s| - 1] as int
  }

  /** Values congruent modulo 2^32 wrap to the same 32-bit integer. */
  lemma ToInt32Congruent(x: int, y: int)
    requires (x - y) % TwoTo32 == 0
    ensures ToInt32(x) == ToInt32(y)
  {
    var k := (x - y) / TwoTo32;
    assert x == y + k * TwoTo32;
  }

  /** `(hash << 5) - hash` is 31 * hash up to a multiple of 2^32: each step
      agrees with h * 31 + c modulo 2^32. */
  lemma HashStepCongruent(hash: int, c: char)
    ensures (HashStep(hash, c) - (31 * hash + c as int)) % TwoTo32 == 0
  {
    var a := ToInt32(hash);
    var b := ToInt32(a * 32);
    var k1 := (a - hash) / TwoTo32;
    var k2 := (b - a * 32) / TwoTo32;
    assert a == hash + k1 * TwoTo32;
    assert b == a * 32 + k2 * TwoTo32;
    assert HashStep(hash, c) - (31 * hash + c as int) == (k2 + 32 * k1) * TwoTo32;
  }

  /** Multiples of 2^32 stay multiples under x + 31 * y. */
  lemma MultiplesCombine(x: int, y: int)
    requires x % TwoTo32 == 0 && y % TwoTo32 == 0
    ensures (x + 31 * y) % TwoTo32 == 0
  {
    var a, b := x / TwoTo32, y / TwoTo32;
    assert x + 31 * y == (a + 31 * b) * TwoTo32;
  }

  /** A step from congruent hashes leads to congruent hashes. */
  lemma StepKeepsCongruence(h: int, ph: int, c: char)
    requires (h - ph) % TwoTo32 == 0
    ensures (HashStep(h, c) - (31 * ph + c as int)) % TwoTo32 == 0
  {
    var x := HashStep(h, c) - (31 * h + c as int);
    HashStepCongruent(h, c);
    MultiplesCombine(x, h - ph);
    assert HashStep(h, c) - (31 * ph + c as int) == x + 31 * (h - ph);
  }

  /** The hash the loop computes agrees with the polynomial hash modulo 2^32,
      so both wrap to the same 32-bit value. */
  lemma {:induction false} HashAgreesWithPolyHash(s: string)
    ensures (Hash(s) - PolyHash(s)) % TwoTo32 == 0
    ensures ToInt32(Hash(s)) == ToInt32(PolyHash(s))
  {
    if s != [] {
      var p, c := s[..|s| - 1], s[|s| - 1];
      HashAgreesWithPolyHash(p);
      StepKeepsCongruence(Hash(p), PolyHash(p), c);
    }
    ToInt32Congruent(Hash(s), PolyHash(s));
  }

  /** The largest code point a character can have. */
  const MaxCodePoint: int := 0x10FFFF

  /** Each step moves the hash by at most 2^31 plus a code point, so the hash
      of s stays within |s| times that bound. */
  lemma {:induction false} HashMagnitude(s: string)
    ensures -(|s| * (TwoTo31 + MaxCodePoint)) <= Hash(s) <= |s| * (TwoTo31 + MaxCodePoint)
  {
    if s != [] {
      HashMagnitude(s[..|s| - 1]);
    }
  }

  function Abs(x: int): nat { if x < 0 then -x else x }

  /** `Math.abs(hash) % 360`: a hue in [0, 360). */
  function Hue(s: string): (h: nat)
    ensures h < 360
  {
    Abs(Hash(s)) % 360
  }

  function Digit(d: nat): char
    requires d < 10
  {
    ('0' as int + d) as char
  }

  /** The decimal text of n, as a template literal prints it. */
  function Decimal(n: nat): (r: string)
    ensures r != []
    ensures forall k :: 0 <= k < |r| ==> '0' <= r[k] <= '9'
    ensures r[0] == '0' <==> n == 0
    ensures |r| == 1 || r[0] != '0'
  {
    if n < 10 then [Digit(n)] else Decimal(n / 10) + [Digit(n % 10)]
  }

  /** Reads a string of decimal digits back as a number. */
  function DecimalValue(s: string): nat
    requires forall k :: 0 <= k < |s| ==> '0' <= s[k] <= '9'
  {
    if s == [] then 0 else DecimalValue(s[..|s| - 1]) * 10 + (s[|s| - 1] as int - '0' as int)
  }

  /** The printed digits read back as the number printed. */
  lemma {:induction false} DecimalRoundTrip(n: nat)
    ensures DecimalValue(Decimal(n)) == n
  {
    if n >= 10 {
      var r := Decimal(n);
      assert r[..|r| - 1] == Decimal(n / 10);
      DecimalRoundTrip(n / 10);
    }
  }

  /** `hsl(${h}, 70%, 50%)`. */
  function HslColor(h: nat): string {
    "hsl(" + Decimal(h) + ", 70%, 50%)"
  }

  /** What `stringToColor` returns. */
  function HashColor(s: string): string {
    HslColor(Hue(s))
  }

  /** `stringToColor`: the hash loop, then the hue. */
  method StringToColor(str: string) returns (color: string)
    ensures color == HashColor(str)
  {
    var hash := 0;
    for i := 0 to |str|
      invariant hash == Hash(str[..i])
    {
      assert str[..i + 1][..i] == str[..i];
      hash := str[i] as int + (ToInt32(ToInt32(hash) * 32) - hash);
    }
    assert str[..|str|] == str;
    var h := Abs(hash) % 360;
    color := "hsl(" + Decimal(h) + ", 70%, 50%)";
  }

  /** The empty string hashes to 0 and gets hue 0. */
  lemma EmptyHashesToZero()
    ensures Hash([]) == 0 && Hue([]) == 0 && HashColor([]) == "hsl(0, 70%, 50%)"
  {
  }

  /** The fixed table of `ethnicityToColor`. */
  const EthnicityTable: map<string, string> := map[
    "chinese" := "#ff4d4d",
    "korean" := "#4dabf7",
    "japanese" := "#ff66b3",
    "vietnamese" := "#ffde59",
    "thai" := "#91d5ff",
    "indian" := "#ff9933",
    "filipino" := "#4cc9f0",
    "malaysian" := "#ffd700",
    "indonesian" := "#ff3d00",
    "cambodian" := "#3db2ff",
    "singaporean" := "#ff375f",
    "burmese" := "#ffd166",
    "laotian" := "#06d6a0",
    "mongolian" := "#ff7e67",
    "pakistani" := "#01a368",
    "bangladeshi" := "#00b4d8",
    "taiwanese" := "#00b4d8",
    "mixed" := "#c77dff",
    "asian" := "#38b000",
    "american" := "#e9ecef"
  ]

  /** `ethnicity.trim().toLowerCase()`. */
  function Normalize(e: string): string {
    ToLower(Trim(e))
  }

  /** Normalising twice is normalising once. */
  lemma NormalizeIdempotent(e: string)
    ensures Normalize(Normalize(e)) == Normalize(e)
  {
    var t := Trim(e);
    TrimCommutesWithLower(t);
    TrimIdempotent(e);
    ToLowerIdempotent(t);
  }

  /** `map[key] || stringToColor(key)`: every table entry is a non-empty
      string, so a hit returns it and a miss falls back to the hash colour. */
  function EthnicityToColor(e: string): (color: string)
    ensures color != []
  {
    var key := Normalize(e);
    if key in EthnicityTable then EthnicityTable[key] else HashColor(key)
  }

  /** A key found in the table after normalising returns its entry. */
  lemma TableHit(e: string)
    requires Normalize(e) in EthnicityTable
    ensures EthnicityToColor(e) == EthnicityTable[Normalize(e)]
    ensures EthnicityToColor(e) != []
  {
  }

  /** Any other key falls back to the hash colour of the normalised key. */
  lemma UnknownKeyFallsBack(e: string)
    requires Normalize(e) !in EthnicityTable
    ensures EthnicityToColor(e) == HashColor(Normalize(e))
  {
  }

  /** The colour depends only on the normalised text, so case and the
      whitespace around it do not matter. */
  lemma EthnicityIgnoresCaseAndSpace(e: string)
    ensures EthnicityToColor(e) == EthnicityToColor(Normalize(e))
  {
    NormalizeIdempotent(e);
  }

  /** Trimming " Vietnamese " drops one space at each end. */
  lemma PaddedVietnameseTrims()
    ensures Trim(" Vietnamese ") == "Vietnamese"
  {
    var padded := " Vietnamese ";
    assert SkipWhitespace(padded, 1) == 1;
    var t := padded[1..];
    assert t == "Vietnamese ";
    assert SkipWhitespaceBack(t, 10) == 10;
    assert t[..10] == "Vietnamese";
  }

  /** Lower-casing "Vietnamese" gives the table key. */
  lemma VietnameseLowers()
    ensures ToLower("Vietnamese") == "vietnamese"
  {
    var lowered := ToLower("Vietnamese");
    assert lowered[0] == 'v';
  }

  /** The table maps "vietnamese" to yellow. */
  lemma VietnameseEntry()
    ensures "vietnamese" in EthnicityTable && EthnicityTable["vietnamese"] == "#ffde59"
  {
  }

  /** A table hit, whatever the case and padding: " Vietnamese " gives "#ffde59". */
  lemma VietnameseIsYellow()
    ensures EthnicityToColor(" Vietnamese ") == "#ffde59"
  {
    PaddedVietnameseTrims();
    VietnameseLowers();
    VietnameseEntry();
  }
}
