/** The Base64 decoder of the provisioning utilities, against the encoding of section 4 of RFC 4648. */
module Base64 {
  import opened Common

  type Byte = bv8

  const PAD: Byte := 61

  // ------------------------------------------------------------------------------------------
  // The alphabet
  // ------------------------------------------------------------------------------------------

  /** The character of a 6-bit value (table 1 of RFC 4648). */
  function EncodeChar(v: Byte): (c: Byte)
    requires v < 64
    ensures c != PAD && DecodeChar(c) == Some(v)
  {
    if v < 26 then v + 65
    else if v < 52 then v - 26 + 97
    else if v < 62 then v - 52 + 48
    else if v == 62 then 43
    else 47
  }

  /** The value of a character; `=` keeps the initial 'A', and any other character is corrupt. */
  function DecodeChar(c: Byte): (v: Option<Byte>)
    ensures c != PAD && v.Some? ==> v.value < 64
  {
    if 65 <= c <= 90 then Some(c - 65)
    else if 97 <= c <= 122 then Some(c - 97 + 26)
    else if 48 <= c <= 57 then Some(c - 48 + 52)
    else if c == 43 then Some(62)
    else if c == 47 then Some(63)
    else if c == PAD then Some(65)
    else None
  }

  predicate InAlphabet(c: Byte) {
    c != PAD && DecodeChar(c).Some?
  }

  function ValueOf(c: Byte): (v: Byte)
    requires InAlphabet(c)
    ensures v < 64 && EncodeChar(v) == c
  {
    DecodeChar(c).value
  }

  // ------------------------------------------------------------------------------------------
  // The encoding, three bytes at a time
  // ------------------------------------------------------------------------------------------

  function First(a: Byte): (v: Byte)
    ensures v < 64
  {
    a >> 2
  }

  function Second(a: Byte, b: Byte): (v: Byte)
    ensures v < 64
  {
    ((a & 0x03) << 4) | (b >> 4)
  }

  function Third(b: Byte, c: Byte): (v: Byte)
    ensures v < 64
  {
    ((b & 0x0F) << 2) | (c >> 6)
  }

  function Fourth(c: Byte): (v: Byte)
    ensures v < 64
  {
    c & 0x3F
  }

  function Encode(b: seq<Byte>): seq<Byte> {
    if |b| == 0 then []
    else if |b| == 1 then [EncodeChar(First(b[0])), EncodeChar(Second(b[0], 0)), PAD, PAD]
    else if |b| == 2 then
      [EncodeChar(First(b[0])), EncodeChar(Second(b[0], b[1])), EncodeChar(Third(b[1], 0)), PAD]
    else EncodeGroup(b[0], b[1], b[2]) + Encode(b[3..])
  }

  function EncodeGroup(a: Byte, b: Byte, c: Byte): (s: seq<Byte>)
    ensures |s| == 4
  {
    [EncodeChar(First(a)), EncodeChar(Second(a, b)), EncodeChar(Third(b, c)), EncodeChar(Fourth(c))]
  }

  /** Table 1 of RFC 4648. */
  lemma Alphabet(v: Byte)
    requires v < 64
    ensures v < 26 ==> EncodeChar(v) == 'A' as int as Byte + v
    ensures 26 <= v < 52 ==> EncodeChar(v) == 'a' as int as Byte + (v - 26)
    ensures 52 <= v < 62 ==> EncodeChar(v) == '0' as int as Byte + (v - 52)
    ensures EncodeChar(62) == '+' as int as Byte && EncodeChar(63) == '/' as int as Byte && PAD == '=' as int as Byte
  {
  }

  /** Test vectors of section 10 of RFC 4648. */
  lemma TestVectors()
    ensures Encode([]) == []
    ensures Encode([0x66]) == [90, 103, PAD, PAD]
    ensures Encode([0x66, 0x6f]) == [90, 109, 56, PAD]
    ensures Encode([0x66, 0x6f, 0x6f]) == [90, 109, 57, 118]
    ensures Encode([0x66, 0x6f, 0x6f, 0x62, 0x61, 0x72]) == [90, 109, 57, 118, 89, 109, 70, 121]
  {
    var foo, bar: seq<Byte> := [0x66, 0x6f, 0x6f], [0x62, 0x61, 0x72];
    assert foo[3..] == [] && bar[3..] == [] && (foo + bar)[3..] == bar;
    assert foo + bar == [0x66, 0x6f, 0x6f, 0x62, 0x61, 0x72];
    assert Encode(bar) == EncodeGroup(0x62, 0x61, 0x72) + [];
    assert Encode(foo) == EncodeGroup(0x66, 0x6f, 0x6f) + [];
  }

  // ------------------------------------------------------------------------------------------
  // What the decoder computes, four characters at a time
  // ------------------------------------------------------------------------------------------

  /** The byte that two neighbouring values contribute, by their position in the group of four; the
      append keeps the low eight bits. */
  function Combine(position: nat, v: Byte, w: Byte): Byte
    requires position < 3
  {
    match position
    case 0 => (v << 2) | ((w & 0x30) >> 4)
    case 1 => (v << 4) | ((w & 0x3C) >> 2)
    case _ => ((v & 0x03) << 6) | (w & 0x3F)
  }

  predicate GroupInAlphabet(s: seq<Byte>, n: nat)
    requires n <= |s|
  {
    forall i :: 0 <= i < n ==> InAlphabet(s[i])
  }

  function DecodeGroup(s: seq<Byte>): (b: seq<Byte>)
    requires |s| >= 4 && GroupInAlphabet(s, 4)
    ensures |b| == 3
  {
    [Combine(0, ValueOf(s[0]), ValueOf(s[1])), Combine(1, ValueOf(s[1]), ValueOf(s[2])),
     Combine(2, ValueOf(s[2]), ValueOf(s[3]))]
  }

  /** Groups of four characters of the alphabet, the very last of which may be a pad instead. */
  function Decode(s: seq<Byte>): Option<seq<Byte>> {
    if |s| == 0 then Some([])
    else if |s| < 4 then None
    else if |s| == 4 && s[3] == PAD then
      if GroupInAlphabet(s, 3)
      then Some([Combine(0, ValueOf(s[0]), ValueOf(s[1])), Combine(1, ValueOf(s[1]), ValueOf(s[2]))])
      else None
    else if !GroupInAlphabet(s, 4) then None
    else
      var rest := Decode(s[4..]);
      if rest.None? then None else Some(DecodeGroup(s) + rest.value)
  }

  // ------------------------------------------------------------------------------------------
  // The decoder's loop over neighbouring characters
  // ------------------------------------------------------------------------------------------

  /** The bytes that the first `n` pairs of neighbouring characters contribute. */
  function PairBytes(s: seq<Byte>, n: nat): seq<Byte>
    requires n == 0 || (n < |s| && GroupInAlphabet(s, n + 1))
  {
    if n == 0 then [] else PairBytes(s, n - 1) + PairByte(s, n - 1)
  }

  /** What the characters at `i` and `i + 1` contribute; a pair across two groups gives nothing. */
  function PairByte(s: seq<Byte>, i: nat): seq<Byte>
    requires i + 1 < |s| && InAlphabet(s[i]) && InAlphabet(s[i + 1])
  {
    if i % 4 == 3 then [] else [Combine(i % 4, ValueOf(s[i]), ValueOf(s[i + 1]))]
  }

  /** The characters that may occur: the alphabet, and one pad at the very end. */
  predicate Accepted(s: seq<Byte>) {
    |s| % 4 == 0 && forall i :: 0 <= i < |s| ==> InAlphabet(s[i]) || (i == |s| - 1 && s[i] == PAD)
  }

  /** Number of pairs that the loop works on. */
  function Pairs(s: seq<Byte>): (n: nat)
    requires Accepted(s)
    ensures n == 0 || (n < |s| && GroupInAlphabet(s, n + 1))
  {
    if s == [] then 0 else if s[|s| - 1] == PAD then |s| - 2 else |s| - 1
  }

  /** `None` stands for leaving with KErrCorrupt. */
  method DecodeBase64(s: seq<Byte>) returns (decoded: Option<seq<Byte>>)
    ensures decoded == Decode(s)
  {
    hide Combine;
    hide DecodeChar;
    AcceptedIsDecode(s);
    if |s| % 4 != 0 {
      return None;
    }
    var bytes: seq<Byte> := [];
    var i := 0;
    while i < |s| - 1
      invariant i == 0 || i < |s|
      invariant i == 0 || GroupInAlphabet(s, i + 1)
      invariant bytes == PairBytes(s, i)
    {
      var current, next := s[i], s[i + 1];
      if current == PAD {
        if i < |s| - 2 || next != PAD {
          return None;
        }
        return Some(bytes);
      } else if next == PAD {
        if i < |s| - 2 {
          return None;
        }
        return Some(bytes);
      }
      var character, nextCharacter := DecodeChar(current), DecodeChar(next);
      if character.None? || nextCharacter.None? {
        return None;
      }
      if i % 4 != 3 {
        bytes := bytes + [Combine(i % 4, character.value, nextCharacter.value)];
      }
      i := i + 1;
    }
    decoded := Some(bytes);
  }

  lemma PairBytesStep(s: seq<Byte>, n: nat)
    requires n + 1 < |s| && GroupInAlphabet(s, n + 2)
    ensures PairBytes(s, n + 1) == PairBytes(s, n) + PairByte(s, n)
    ensures n < 3 ==> PairByte(s, n) == [Combine(n, ValueOf(s[n]), ValueOf(s[n + 1]))]
    ensures n == 3 ==> PairByte(s, n) == []
  {
    hide Combine;
    hide DecodeChar;
  }

  lemma PairBytesFour(s: seq<Byte>)
    requires |s| >= 4 && GroupInAlphabet(s, 4)
    ensures PairBytes(s, 3) == DecodeGroup(s)
    ensures |s| > 4 && InAlphabet(s[4]) ==> PairBytes(s, 4) == DecodeGroup(s)
  {
    PairBytesStep(s, 0);
    PairBytesStep(s, 1);
    PairBytesStep(s, 2);
    assert PairBytes(s, 0) == [];
    hide PairBytes;
    hide PairByte;
    hide Combine;
    hide DecodeChar;
    if |s| > 4 && InAlphabet(s[4]) {
      PairBytesStep(s, 3);
      assert DecodeGroup(s) + [] == DecodeGroup(s);
    }
  }

  lemma PairByteShift(s: seq<Byte>, i: nat)
    requires 4 + i + 1 < |s| && InAlphabet(s[4 + i]) && InAlphabet(s[4 + i + 1])
    ensures InAlphabet(s[4..][i]) && InAlphabet(s[4..][i + 1])
    ensures PairByte(s, 4 + i) == PairByte(s[4..], i)
  {
    hide Combine;
    hide DecodeChar;
    assert (4 + i) % 4 == i % 4;
  }

  /** Pairs after the first four characters contribute what they contribute without those. */
  lemma PairBytesNext(s: seq<Byte>, n: nat)
    requires n + 1 < |s| && GroupInAlphabet(s, n + 2)
    ensures GroupInAlphabet(s, n + 1) && PairBytes(s, n + 1) == PairBytes(s, n) + PairByte(s, n)
  {
    hide InAlphabet;
  }

  lemma AlphabetBehind(s: seq<Byte>, n: nat)
    requires 4 + n <= |s| && GroupInAlphabet(s, 4 + n)
    ensures GroupInAlphabet(s, 4) && GroupInAlphabet(s[4..], n)
  {
    hide InAlphabet;
    assert forall i :: 0 <= i < n ==> s[4..][i] == s[4 + i];
  }

  lemma {:induction false} PairBytesShift(s: seq<Byte>, n: nat)
    requires 4 + n < |s| && GroupInAlphabet(s, 4 + n + 1)
    ensures GroupInAlphabet(s[4..], n + 1)
    ensures PairBytes(s, 4 + n) == DecodeGroup(s) + PairBytes(s[4..], n)
  {
    hide InAlphabet;
    AlphabetBehind(s, n + 1);
    if n == 0 {
      PairBytesFour(s);
    } else {
      hide DecodeGroup;
      PairBytesNext(s, 4 + n - 1);
      PairBytesNext(s[4..], n - 1);
      hide PairByte;
      hide PairBytes;
      PairBytesShift(s, n - 1);
      PairByteShift(s, n - 1);
      Associate(DecodeGroup(s), PairBytes(s[4..], n - 1), PairByte(s[4..], n - 1));
    }
  }

  lemma AcceptedRest(s: seq<Byte>)
    requires |s| > 4
    ensures Accepted(s) <==> GroupInAlphabet(s, 4) && Accepted(s[4..])
    ensures Accepted(s) ==> Pairs(s) == 4 + Pairs(s[4..])
  {
    hide DecodeChar;
    var rest := s[4..];
    assert forall i :: 4 <= i < |s| ==> s[i] == rest[i - 4];
    assert forall i :: 0 <= i < |rest| ==> rest[i] == s[i + 4];
  }

  lemma LastGroup(s: seq<Byte>)
    requires |s| == 4
    ensures Decode(s).Some? <==> Accepted(s)
    ensures Accepted(s) ==> Decode(s) == Some(PairBytes(s, Pairs(s)))
  {
    hide Combine;
    hide DecodeChar;
    if GroupInAlphabet(s, 4) {
      PairBytesFour(s);
      assert DecodeGroup(s) + [] == DecodeGroup(s);
      assert InAlphabet(s[3]) && Pairs(s) == 3;
      assert Decode(s) == Some(DecodeGroup(s));
    } else if GroupInAlphabet(s, 3) && s[3] == PAD {
      assert PairBytes(s, 1) == [Combine(0, ValueOf(s[0]), ValueOf(s[1]))];
      assert PairBytes(s, 2) == PairBytes(s, 1) + [Combine(1, ValueOf(s[1]), ValueOf(s[2]))];
      assert Pairs(s) == 2;
      assert PairBytes(s, 2) == Decode(s).value;
    }
  }

  /** The pairwise loop and the groupwise reading accept the same texts and give the same bytes. */
  lemma {:induction false} AcceptedIsDecode(s: seq<Byte>)
    ensures Decode(s).Some? <==> Accepted(s)
    ensures Accepted(s) ==> Decode(s) == Some(PairBytes(s, Pairs(s)))
  {
    if |s| > 4 {
      hide Combine;
      hide DecodeGroup;
      hide Accepted;
      hide GroupInAlphabet;
      hide PairBytes;
      AcceptedIsDecode(s[4..]);
      AcceptedRest(s);
      if Accepted(s) {
        PairsAreInAlphabet(s);
        PairBytesShift(s, Pairs(s[4..]));
      }
    } else if |s| == 4 {
      hide Decode;
      hide PairBytes;
      hide Accepted;
      LastGroup(s);
    }
  }

  lemma PairsAreInAlphabet(s: seq<Byte>)
    requires Accepted(s) && s != []
    ensures Pairs(s) < |s| && GroupInAlphabet(s, Pairs(s) + 1)
  {
  }

  // ------------------------------------------------------------------------------------------
  // Round trips
  // ------------------------------------------------------------------------------------------

  lemma CombineParts(a: Byte, b: Byte, c: Byte)
    ensures Combine(0, First(a), Second(a, b)) == a
    ensures Combine(1, Second(a, b), Third(b, c)) == b
    ensures Combine(2, Third(b, c), Fourth(c)) == c
  {
  }

  lemma PartsOfCombined(v: Byte, w: Byte, x: Byte, y: Byte)
    requires v < 64 && w < 64 && x < 64 && y < 64
    ensures var a, b, c := Combine(0, v, w), Combine(1, w, x), Combine(2, x, y);
            && First(a) == v && Second(a, b) == w && Third(b, c) == x && Fourth(c) == y
            && (Third(b, 0) == x <==> x & 0x03 == 0)
  {
  }

  lemma GroupRoundTrip(a: Byte, b: Byte, c: Byte)
    ensures var s := EncodeGroup(a, b, c); GroupInAlphabet(s, 4) && DecodeGroup(s) == [a, b, c]
  {
    hide DecodeChar;
    hide Combine;
    CombineParts(a, b, c);
  }

  lemma PairRoundTrip(a: Byte, b: Byte)
    ensures Decode(Encode([a, b])) == Some([a, b])
  {
    hide DecodeChar;
    hide Combine;
    CombineParts(a, b, 0);
    var s := Encode([a, b]);
    assert s[3] == PAD && GroupInAlphabet(s, 3);
  }

  lemma NothingRoundTrips()
    ensures Encode([]) == [] && Decode([]) == Some([])
  {
  }

  lemma SingleIsRefused(a: Byte)
    ensures Decode(Encode([a])) == None
  {
    var s := Encode([a]);
    assert s[2] == PAD;
  }

  lemma DecodeStep(group: seq<Byte>, rest: seq<Byte>)
    requires |group| == 4 && GroupInAlphabet(group, 4)
    ensures Decode(group + rest) ==
            if Decode(rest).None? then None else Some(DecodeGroup(group) + Decode(rest).value)
  {
    hide DecodeChar;
    hide Combine;
    var s := group + rest;
    assert forall i :: 0 <= i < 4 ==> s[i] == group[i];
    assert s[4..] == rest;
    if rest == [] {
      assert DecodeGroup(group) + [] == DecodeGroup(group);
    }
  }

  lemma EncodeStep(a: Byte, b: Byte, c: Byte, rest: seq<Byte>)
    ensures Encode([a, b, c] + rest) == EncodeGroup(a, b, c) + Encode(rest)
  {
    hide EncodeGroup;
    assert ([a, b, c] + rest)[3..] == rest;
  }

  /** Decoding inverts the encoding exactly for the byte strings whose length is not one more than
      a multiple of three; the others are encoded with two pads, which the decoder refuses. */
  lemma {:induction false} DecodeEncodeIff(b: seq<Byte>)
    ensures Decode(Encode(b)) == if |b| % 3 == 1 then None else Some(b)
  {
    hide EncodeGroup;
    hide DecodeGroup;
    hide GroupInAlphabet;
    hide Decode;
    hide Encode;
    NothingRoundTrips();
    if |b| == 0 {
      assert b == [];
    } else if |b| == 1 {
      SingleIsRefused(b[0]);
      assert b == [b[0]];
    } else if |b| == 2 {
      PairRoundTrip(b[0], b[1]);
      assert b == [b[0], b[1]];
    } else {
      var rest := b[3..];
      assert |b| % 3 == |rest| % 3;
      GroupRoundTrip(b[0], b[1], b[2]);
      DecodeEncodeIff(rest);
      EncodeStep(b[0], b[1], b[2], rest);
      assert b == [b[0], b[1], b[2]] + rest;
      DecodeStep(EncodeGroup(b[0], b[1], b[2]), Encode(rest));
    }
  }

  /** Bits that a padded text carries beyond its last byte are zero. */
  predicate Canonical(s: seq<Byte>)
    requires Accepted(s)
  {
    s != [] && s[|s| - 1] == PAD ==> ValueOf(s[|s| - 2]) & 0x03 == 0
  }

  lemma GroupReencodes(s: seq<Byte>)
    requires |s| == 4 && GroupInAlphabet(s, 4)
    ensures var b := DecodeGroup(s); EncodeGroup(b[0], b[1], b[2]) == s
  {
    hide DecodeChar;
    hide Combine;
    PartsOfCombined(ValueOf(s[0]), ValueOf(s[1]), ValueOf(s[2]), ValueOf(s[3]));
  }

  lemma PaddedReencodesIff(s: seq<Byte>)
    requires |s| == 4 && GroupInAlphabet(s, 3) && s[3] == PAD
    ensures Decode(s).Some? && (Encode(Decode(s).value) == s <==> ValueOf(s[2]) & 0x03 == 0)
  {
    hide DecodeChar;
    hide Combine;
    var v, w, x := ValueOf(s[0]), ValueOf(s[1]), ValueOf(s[2]);
    PartsOfCombined(v, w, x, 0);
    var a, b := Combine(0, v, w), Combine(1, w, x);
    assert Decode(s).value == [a, b];
    assert Encode([a, b]) == [EncodeChar(v), EncodeChar(w), EncodeChar(Third(b, 0)), PAD];
    assert EncodeChar(Third(b, 0)) == s[2] <==> Third(b, 0) == x;
  }

  /** Encoding inverts the decoder exactly on the accepted texts whose unused bits are zero. */
  lemma {:induction false} EncodeDecodeIff(s: seq<Byte>)
    requires Accepted(s)
    ensures Decode(s).Some?
    ensures Encode(Decode(s).value) == s <==> Canonical(s)
  {
    hide EncodeGroup;
    hide DecodeGroup;
    hide DecodeChar;
    hide Decode;
    hide Encode;
    NothingRoundTrips();
    if |s| == 0 {
      assert s == [];
    } else if |s| == 4 && s[3] == PAD {
      PaddedReencodesIff(s);
    } else {
      var group, rest := s[..4], s[4..];
      assert s == group + rest;
      assert forall i :: 0 <= i < |rest| ==> rest[i] == s[i + 4];
      EncodeDecodeIff(rest);
      GroupReencodes(group);
      DecodeStep(group, rest);
      var b := DecodeGroup(group);
      assert |b| == 3 && b == [b[0], b[1], b[2]];
      EncodeStep(b[0], b[1], b[2], Decode(rest).value);
      SamePrefix(group, Encode(Decode(rest).value), rest);
    }
  }
}
