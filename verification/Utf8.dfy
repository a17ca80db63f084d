/** UTF-8 (RFC 3629): the byte sequences of section 4, and where a valid text may be cut. */
module Utf8 {
  type Byte = b: int | 0 <= b < 0x100

  predicate Tail(b: Byte) {
    0x80 <= b < 0xC0
  }

  /** The length of the character at the start of `data`, 0 if there is none: section 4. */
  function CharLength(data: seq<Byte>): (n: nat)
    ensures n <= |data| && n <= 4
    ensures n > 0 ==> !Tail(data[0]) && forall i :: 0 < i < n ==> Tail(data[i])
  {
    if |data| >= 1 && data[0] < 0x80 then 1
    else if |data| >= 2 && 0xC2 <= data[0] < 0xE0 && Tail(data[1]) then 2
    else if |data| >= 3 && 0xE0 <= data[0] < 0xF0 && Tail(data[1]) && Tail(data[2])
      && (data[0] == 0xE0 ==> data[1] >= 0xA0) && (data[0] == 0xED ==> data[1] < 0xA0) then 3
    else if |data| >= 4 && 0xF0 <= data[0] < 0xF5 && Tail(data[1]) && Tail(data[2]) && Tail(data[3])
      && (data[0] == 0xF0 ==> data[1] >= 0x90) && (data[0] == 0xF4 ==> data[1] < 0x90) then 4
    else 0
  }

  predicate Valid(data: seq<Byte>)
    decreases |data|
  {
    data == [] || (CharLength(data) > 0 && Valid(data[CharLength(data)..]))
  }

  /** No character goes on at `cut`. */
  predicate Boundary(data: seq<Byte>, cut: int) {
    0 <= cut <= |data| && (cut < |data| ==> !Tail(data[cut]))
  }

  /** The characters of Unicode: no surrogates. */
  type Character = c: int | 0 <= c < 0xD800 || 0xE000 <= c < 0x110000

  /** Section 3 of RFC 3629: one to four bytes, by the character's number. */
  function Encode(c: Character): (bytes: seq<Byte>)
    ensures 1 <= |bytes| <= 4
  {
    var d0, d1, d2, d3 := c % 64, c / 64 % 64, c / 4096 % 64, c / 262144;
    if c < 0x80 then [c as Byte]
    else if c < 0x800 then [(0xC0 + c / 64) as Byte, (0x80 + d0) as Byte]
    else if c < 0x10000 then [(0xE0 + c / 4096) as Byte, (0x80 + d1) as Byte, (0x80 + d0) as Byte]
    else [(0xF0 + d3) as Byte, (0x80 + d2) as Byte, (0x80 + d1) as Byte, (0x80 + d0) as Byte]
  }

  lemma SixBits(a: int, b: int, d: int, e: int)
    requires 0 <= a && 0 <= b < 64 && 0 <= d < 64 && 0 <= e < 64
    ensures (a * 64 + b) / 64 == a && (a * 64 + b) % 64 == b
    ensures var c := a * 4096 + b * 64 + d; c / 4096 == a && c / 64 % 64 == b && c % 64 == d
    ensures var c := a * 262144 + b * 4096 + d * 64 + e;
      c / 262144 == a && c / 4096 % 64 == b && c / 64 % 64 == d && c % 64 == e
  {
    Quarter(a * 64 + b, d);
    Quarter((a * 64 + b) * 64 + d, e);
    Quarter(a, b);
  }

  lemma Quarter(a: int, b: int)
    requires 0 <= a && 0 <= b < 64
    ensures (a * 64 + b) / 64 == a && (a * 64 + b) % 64 == b
  {
  }

  /** An encoded character is one, whatever follows. */
  lemma EncodedIsChar(c: Character, rest: seq<Byte>)
    ensures CharLength(Encode(c) + rest) == |Encode(c)|
  {
    var code := Encode(c);
    var data := code + rest;
    assert data[0] == code[0] && (|code| > 1 ==> data[1] == code[1]);
    assert |code| > 2 ==> data[2] == code[2];
    assert |code| > 3 ==> data[3] == code[3];
  }

  /** And every character is the encoding of one. */
  lemma CharIsEncoded(data: seq<Byte>) returns (c: Character)
    requires CharLength(data) > 0
    ensures data[..CharLength(data)] == Encode(c)
  {
    match CharLength(data)
    case 1 => c := data[0] as int;
    case 2 => c := TwoBytes(data);
    case 3 => c := ThreeBytes(data);
    case _ => c := FourBytes(data);
  }

  lemma TwoBytes(data: seq<Byte>) returns (c: Character)
    requires CharLength(data) == 2
    ensures data[..2] == Encode(c)
  {
    var b0: int, b1: int := data[0], data[1];
    SixBits(b0 - 0xC0, b1 - 0x80, 0, 0);
    c := (b0 - 0xC0) * 64 + (b1 - 0x80);
  }

  lemma ThreeBytes(data: seq<Byte>) returns (c: Character)
    requires CharLength(data) == 3
    ensures data[..3] == Encode(c)
  {
    var b0: int, b1: int, b2: int := data[0], data[1], data[2];
    SixBits(b0 - 0xE0, b1 - 0x80, b2 - 0x80, 0);
    c := (b0 - 0xE0) * 4096 + (b1 - 0x80) * 64 + (b2 - 0x80);
  }

  lemma FourBytes(data: seq<Byte>) returns (c: Character)
    requires CharLength(data) == 4
    ensures data[..4] == Encode(c)
  {
    var b0: int, b1: int, b2: int, b3: int := data[0], data[1], data[2], data[3];
    SixBits(b0 - 0xF0, b1 - 0x80, b2 - 0x80, b3 - 0x80);
    c := (b0 - 0xF0) * 262144 + (b1 - 0x80) * 4096 + (b2 - 0x80) * 64 + (b3 - 0x80);
  }

  function EncodeAll(text: seq<Character>): seq<Byte> {
    if text == [] then [] else Encode(text[0]) + EncodeAll(text[1..])
  }

  /** A valid text is the encoding of some characters ... */
  lemma {:induction false} ValidIsEncoded(data: seq<Byte>) returns (text: seq<Character>)
    requires Valid(data)
    ensures data == EncodeAll(text)
    decreases |data|
  {
    hide CharLength, Encode;
    text := [];
    if data != [] {
      var n := CharLength(data);
      var c := CharIsEncoded(data);
      var rest := ValidIsEncoded(data[n..]);
      text := [c] + rest;
      assert text[1..] == rest && data == data[..n] + data[n..];
    }
  }

  /** ... and every such encoding is valid. */
  lemma {:induction false} EncodedIsValid(text: seq<Character>)
    ensures Valid(EncodeAll(text))
  {
    hide CharLength, Encode;
    if text != [] {
      var c, rest := text[0], EncodeAll(text[1..]);
      EncodedIsChar(c, rest);
      EncodedIsValid(text[1..]);
      assert (Encode(c) + rest)[|Encode(c)|..] == rest;
    }
  }

  lemma ValidHead(data: seq<Byte>)
    requires data != []
    ensures Valid(data) <==> CharLength(data) > 0 && Valid(data[CharLength(data)..])
  {
  }

  lemma ValidEmpty()
    ensures Valid([])
  {
  }

  /** A text cut at a boundary is two texts. */
  lemma {:induction false} CutValid(data: seq<Byte>, cut: nat)
    requires Valid(data) && Boundary(data, cut)
    ensures Valid(data[..cut]) && Valid(data[cut..])
    decreases |data|
  {
    hide Valid, CharLength;
    if cut == 0 {
      assert data[0..] == data && data[..0] == [];
      ValidEmpty();
    } else {
      var n := CharLength(data);
      ValidHead(data);
      CutValid(data[n..], cut - n);
      assert data[n..][cut-n..] == data[cut..];
      assert data[..cut][n..] == data[n..][..cut-n];
      SameChar(data, data[..cut]);
      ValidHead(data[..cut]);
    }
  }

  /** The first character depends on its own bytes only. */
  lemma SameChar(data: seq<Byte>, front: seq<Byte>)
    requires front <= data && CharLength(data) <= |front|
    ensures CharLength(data) > 0 ==> CharLength(front) == CharLength(data)
  {
  }

  lemma ChunkValid(data: seq<Byte>, lo: nat, hi: nat)
    requires Valid(data) && lo <= hi && Boundary(data, lo) && Boundary(data, hi)
    ensures Valid(data[lo..hi])
  {
    CutValid(data, hi);
    CutValid(data[..hi], lo);
    assert data[..hi][lo..] == data[lo..hi];
  }

  /** The bytes a lead byte asks for. */
  function Need(lead: Byte): nat {
    if lead < 0x80 then 1 else if lead < 0xE0 then 2 else if lead < 0xF0 then 3 else 4
  }

  /** `lead` starts the character that byte `p` of the text is part of. */
  predicate LeadOf(data: seq<Byte>, lead: int, p: nat) {
    && 0 <= lead <= p < |data| && p < lead + Need(data[lead]) <= |data|
    && !Tail(data[lead]) && (forall j :: lead < j < lead + Need(data[lead]) ==> Tail(data[j]))
    && Boundary(data, lead + Need(data[lead]))
  }

  lemma ValidStarts(data: seq<Byte>)
    requires Valid(data)
    ensures Boundary(data, 0)
  {
  }

  lemma {:induction false} FindLead(data: seq<Byte>, p: nat) returns (lead: nat)
    requires Valid(data) && p < |data|
    ensures LeadOf(data, lead, p)
    decreases |data|
  {
    hide Valid, CharLength;
    var n := CharLength(data);
    var rest := data[n..];
    ValidHead(data);
    ValidStarts(rest);
    if p < n {
      lead := 0;
      assert n < |data| ==> rest[0] == data[n];
      CharNeed(data);
    } else {
      var l := FindLead(rest, p - n);
      lead := l + n;
      LeadShift(data, n, l, p);
    }
  }

  /** A character is as long as its lead byte asks for. */
  lemma CharNeed(data: seq<Byte>)
    requires CharLength(data) > 0
    ensures Need(data[0]) == CharLength(data)
  {
  }

  lemma LeadShift(data: seq<Byte>, n: nat, l: nat, p: nat)
    requires n <= p < |data| && LeadOf(data[n..], l, p - n)
    ensures LeadOf(data, l + n, p)
  {
    var rest := data[n..];
    assert forall j :: n <= j < |data| ==> data[j] == rest[j - n];
    hide Need;
  }
}
