/** Base64 with padding (section 4 of RFC 4648), as the transfer encodes and decodes it. */
module Base64 {
  import opened Common

  type Byte = x: int | 0 <= x < 256

  /** The alphabet. */
  function Symbol(v: int): char
    requires 0 <= v < 64
  {
    if v < 26 then ('A' as int + v) as char
    else if v < 52 then ('a' as int + v - 26) as char
    else if v < 62 then ('0' as int + v - 52) as char
    else if v == 62 then '+'
    else '/'
  }

  /** A symbol's value, or -1. */
  function Value(c: char): (v: int)
    ensures -1 <= v < 64
  {
    if 'A' <= c <= 'Z' then c as int - 'A' as int
    else if 'a' <= c <= 'z' then c as int - 'a' as int + 26
    else if '0' <= c <= '9' then c as int - '0' as int + 52
    else if c == '+' then 62
    else if c == '/' then 63
    else -1
  }

  type Sextet = x: int | 0 <= x < 64

  /** The three bytes of four sextets. */
  function Byte1(w: Sextet, x: Sextet): Byte { w * 4 + x / 16 }
  function Byte2(x: Sextet, y: Sextet): Byte { x % 16 * 16 + y / 4 }
  function Byte3(y: Sextet, z: Sextet): Byte { y % 4 * 64 + z }

  lemma SymbolValue(v: int)
    requires 0 <= v < 64
    ensures Value(Symbol(v)) == v
    ensures Symbol(v) != '=' && !Space(Symbol(v))
  {}

  /** The four symbols of three bytes. */
  function Quantum(a: Byte, b: Byte, c: Byte): string {
    [Symbol(a / 4), Symbol(a % 4 * 16 + b / 16), Symbol(b % 16 * 4 + c / 64), Symbol(c % 64)]
  }

  function Encode(b: seq<Byte>): string {
    if |b| == 0 then ""
    else if |b| == 1 then Quantum(b[0], 0, 0)[..2] + "=="
    else if |b| == 2 then Quantum(b[0], b[1], 0)[..3] + "="
    else Quantum(b[0], b[1], b[2]) + Encode(b[3..])
  }

  /** Whole quanta only; padding only at the end; spare bits of the last symbol are ignored. */
  function DecodeQuanta(s: string): Option<seq<Byte>> {
    if s == "" then Some([])
    else if |s| < 4 || Value(s[0]) < 0 || Value(s[1]) < 0 then None
    else
      var w, x := Value(s[0]), Value(s[1]);
      if s[2] == '=' then
        if s[3] == '=' && |s| == 4 then Some([Byte1(w, x)]) else None
      else if Value(s[2]) < 0 then None
      else
        var y := Value(s[2]);
        if s[3] == '=' then
          if |s| == 4 then Some([Byte1(w, x), Byte2(x, y)]) else None
        else if Value(s[3]) < 0 then None
        else
          var rest := DecodeQuanta(s[4..]);
          if rest.None? then None
          else Some([Byte1(w, x), Byte2(x, y), Byte3(y, Value(s[3]))] + rest.value)
  }

  predicate Space(c: char) { c == ' ' || '\t' <= c <= '\r' || c as int == 0x85 || c as int == 0xA0 }

  function TrimLeft(s: string): (t: string)
    ensures |t| <= |s|
  {
    if s != "" && Space(s[0]) then TrimLeft(s[1..]) else s
  }

  function TrimSpace(s: string): string
    decreases |s|
  {
    var t := TrimLeft(s);
    if t != "" && Space(t[|t| - 1]) then TrimSpace(t[..|t| - 1]) else t
  }

  /** Line breaks are skipped wherever they stand. */
  function WithoutNewlines(s: string): string {
    if s == "" then ""
    else (if s[0] == '\n' || s[0] == '\r' then "" else [s[0]]) + WithoutNewlines(s[1..])
  }

  function Decode(s: string): Option<seq<Byte>> { DecodeQuanta(WithoutNewlines(s)) }

  // ---- what a prefix of an encoding decodes to ----

  /** Four symbol values that carry three bytes. */
  predicate Carries(w: int, x: int, y: int, z: int, a: Byte, b: Byte, c: Byte) {
    && 0 <= w < 64 && 0 <= x < 64 && 0 <= y < 64 && 0 <= z < 64
    && Byte1(w, x) == a && Byte2(x, y) == b && Byte3(y, z) == c
  }

  lemma SextetsCarry(a: Byte, b: Byte, c: Byte)
    ensures Carries(a / 4, a % 4 * 16 + b / 16, b % 16 * 4 + c / 64, c % 64, a, b, c)
  {}

  lemma QuantumCarries(a: Byte, b: Byte, c: Byte)
    ensures var q := Quantum(a, b, c);
            && Carries(Value(q[0]), Value(q[1]), Value(q[2]), Value(q[3]), a, b, c)
            && forall i | 0 <= i < 4 :: q[i] != '=' && !Space(q[i])
  {
    SextetsCarry(a, b, c);
    SymbolValue(a / 4);
    SymbolValue(a % 4 * 16 + b / 16);
    SymbolValue(b % 16 * 4 + c / 64);
    SymbolValue(c % 64);
  }

  /** A first quantum followed by more text. */
  lemma DecodeHead(s: string, a: Byte, b: Byte, c: Byte)
    requires |s| >= 4 && s[2] != '=' && s[3] != '='
    requires Carries(Value(s[0]), Value(s[1]), Value(s[2]), Value(s[3]), a, b, c)
    ensures DecodeQuanta(s) == match DecodeQuanta(s[4..]) case None => None case Some(v) => Some([a, b, c] + v)
  {}

  /** The padded quanta of one and of two bytes. */
  lemma DecodePadded(q: string, a: Byte, b: Byte)
    requires |q| == 4 && q[2] != '=' && Carries(Value(q[0]), Value(q[1]), Value(q[2]), Value(q[3]), a, b, 0)
    ensures DecodeQuanta(q[..2] + "==") == Some([a])
    ensures DecodeQuanta(q[..3] + "=") == Some([a, b])
  {
    var one, two := q[..2] + "==", q[..3] + "=";
    assert one[0] == two[0] == q[0] && one[1] == two[1] == q[1] && two[2] == q[2];
    assert one[2] == one[3] == two[3] == '=';
  }

  lemma DecodeTail(b: seq<Byte>)
    requires 1 <= |b| <= 2
    ensures DecodeQuanta(Encode(b)) == Some(b)
  {
    var second := if |b| == 1 then 0 else b[1];
    QuantumCarries(b[0], second, 0);
    DecodePadded(Quantum(b[0], second, 0), b[0], second);
    assert b == [b[0]] || b == [b[0], second];
  }

  lemma ShortIsBroken(s: string)
    requires 0 < |s| < 4
    ensures DecodeQuanta(s) == None
  {}

  lemma PrefixHead(b: seq<Byte>, k: nat)
    requires |b| >= 3 && 4 <= k <= |Encode(b)|
    ensures DecodeQuanta(Encode(b)[..k]) ==
            match DecodeQuanta(Encode(b[3..])[..k - 4]) case None => None case Some(v) => Some(b[..3] + v)
  {
    var q, rest := Quantum(b[0], b[1], b[2]), Encode(b[3..]);
    QuantumCarries(b[0], b[1], b[2]);
    var p := Encode(b)[..k];
    assert p == q + rest[..k - 4];
    assert p[4..] == rest[..k - 4];
    DecodeHead(p, b[0], b[1], b[2]);
    assert [b[0], b[1], b[2]] == b[..3];
  }

  lemma TailLength(b: seq<Byte>)
    requires |b| < 3
    ensures |Encode(b)| == if b == [] then 0 else 4
  {}

  /** Decoding `s` yields a prefix of `b`, or nothing. */
  predicate YieldsPrefix(s: string, b: seq<Byte>) {
    var r := DecodeQuanta(s);
    r.Some? ==> |r.value| <= |b| && r.value == b[..|r.value|]
  }

  lemma PrependQuantum(b: seq<Byte>, k: nat)
    requires |b| >= 3 && 4 <= k <= |Encode(b)|
    requires YieldsPrefix(Encode(b[3..])[..k - 4], b[3..])
    ensures YieldsPrefix(Encode(b)[..k], b)
    ensures DecodeQuanta(Encode(b)[..k]).Some? <==> DecodeQuanta(Encode(b[3..])[..k - 4]).Some?
  {
    PrefixHead(b, k);
    var r := DecodeQuanta(Encode(b[3..])[..k - 4]);
    if r.Some? { TakeMore(b, |r.value|); }
  }

  lemma TakeMore(b: seq<Byte>, m: nat)
    requires m + 3 <= |b|
    ensures b[..3] + b[3..][..m] == b[..m + 3]
  {}

  lemma ShortPrefix(b: seq<Byte>, k: nat)
    requires k <= |Encode(b)| && k < 4
    ensures YieldsPrefix(Encode(b)[..k], b)
    ensures DecodeQuanta(Encode(b)[..k]).Some? <==> k % 4 == 0
  {
    var p := Encode(b)[..k];
    if k == 0 {
      assert p == "";
    } else {
      ShortIsBroken(p);
    }
  }

  lemma TailPrefix(b: seq<Byte>, k: nat)
    requires 4 <= k <= |Encode(b)| && |b| < 3
    ensures YieldsPrefix(Encode(b)[..k], b)
    ensures DecodeQuanta(Encode(b)[..k]).Some? <==> k % 4 == 0
  {
    TailLength(b);
    DecodeTail(b);
    assert k == 4 && Encode(b)[..k] == Encode(b);
    assert b[..|b|] == b;
  }

  /** A prefix of an encoding decodes exactly when it ends between quanta, and then to a prefix
      of the bytes. */
  lemma {:induction false} PrefixDecodes(b: seq<Byte>, k: nat)
    requires k <= |Encode(b)|
    ensures YieldsPrefix(Encode(b)[..k], b)
    ensures DecodeQuanta(Encode(b)[..k]).Some? <==> k % 4 == 0
    decreases |b|
  {
    if k < 4 {
      ShortPrefix(b, k);
    } else if |b| < 3 {
      TailPrefix(b, k);
    } else {
      PrefixDecodes(b[3..], k - 4);
      PrependQuantum(b, k);
      assert (k - 4) % 4 == k % 4;
    }
  }

  /** All of the text decodes to all of the bytes. */
  lemma {:induction false} RoundTrip(b: seq<Byte>)
    ensures DecodeQuanta(Encode(b)) == Some(b)
    decreases |b|
  {
    if |b| >= 3 {
      RoundTrip(b[3..]);
      PrefixHead(b, |Encode(b)|);
      assert Encode(b)[..|Encode(b)|] == Encode(b);
      assert Encode(b[3..])[..|Encode(b)| - 4] == Encode(b[3..]);
      assert b[..3] + b[3..] == b;
    } else if |b| >= 1 {
      DecodeTail(b);
    }
  }

  lemma {:induction false} EncodingHasNoSpace(b: seq<Byte>)
    ensures forall i | 0 <= i < |Encode(b)| :: !Space(Encode(b)[i])
    decreases |b|
  {
    if |b| >= 3 {
      EncodingHasNoSpace(b[3..]);
      QuantumCarries(b[0], b[1], b[2]);
    } else if |b| == 2 {
      QuantumCarries(b[0], b[1], 0);
    } else if |b| == 1 {
      QuantumCarries(b[0], 0, 0);
    }
  }

  lemma {:induction false} NoSpaceNoChange(s: string)
    requires forall i | 0 <= i < |s| :: !Space(s[i])
    ensures TrimSpace(s) == s && WithoutNewlines(s) == s
  {
    if s != "" { NoSpaceNoChange(s[1..]); }
  }

  lemma ReceivedText(b: seq<Byte>, text: string)
    requires text <= Encode(b)
    ensures Decode(TrimSpace(text)) == DecodeQuanta(text)
  {
    EncodingHasNoSpace(b);
    assert forall i | 0 <= i < |text| :: text[i] == Encode(b)[i];
    NoSpaceNoChange(text);
  }

  /** What the receiver makes of a truncated block: nothing, or a prefix of the block; and of a
      complete one the block itself. */
  lemma {:induction false} TruncatedBlock(b: seq<Byte>, text: string)
    requires text <= Encode(b)
    ensures var d := Decode(TrimSpace(text)); d.Some? ==> |d.value| <= |b| && d.value == b[..|d.value|]
    ensures text == Encode(b) ==> Decode(TrimSpace(text)) == Some(b)
  {
    ReceivedText(b, text);
    assert text == Encode(b)[..|text|];
    PrefixDecodes(b, |text|);
    RoundTrip(b);
  }

  /** Table 1 of RFC 4648: three runs of consecutive characters, then two single ones. */
  lemma Alphabet()
    ensures Symbol(0) == 'A' && Symbol(25) == 'Z' && Symbol(26) == 'a' && Symbol(51) == 'z'
    ensures Symbol(52) == '0' && Symbol(61) == '9' && Symbol(62) == '+' && Symbol(63) == '/'
    ensures forall v | 0 <= v < 61 && v != 25 && v != 51 :: Symbol(v + 1) as int == Symbol(v) as int + 1
  {}

  lemma VectorQuanta()
    ensures Quantum(102, 0, 0) == "ZgAA" && Quantum(102, 111, 0) == "Zm8A" && Quantum(102, 111, 111) == "Zm9v"
    ensures Quantum(98, 0, 0) == "YgAA" && Quantum(98, 97, 0) == "YmEA" && Quantum(98, 97, 114) == "YmFy"
  {}

  lemma LongVectors()
    ensures Encode([102, 111, 111, 98]) == "Zm9vYg==" && Encode([102, 111, 111, 98, 97]) == "Zm9vYmE="
    ensures Encode([102, 111, 111, 98, 97, 114]) == "Zm9vYmFy"
  {
    VectorQuanta();
    assert [102, 111, 111, 98][3..] == [98] && [102, 111, 111, 98, 97][3..] == [98, 97];
    assert [102, 111, 111, 98, 97, 114][3..] == [98, 97, 114] && [98, 97, 114][3..] == [];
  }

  /** The test vectors of section 10 of RFC 4648. */
  lemma TestVectors()
    ensures Encode([]) == "" && Encode([102]) == "Zg==" && Encode([102, 111]) == "Zm8=" && Encode([102, 111, 111]) == "Zm9v"
    ensures Encode([102, 111, 111, 98]) == "Zm9vYg==" && Encode([102, 111, 111, 98, 97]) == "Zm9vYmE="
    ensures Encode([102, 111, 111, 98, 97, 114]) == "Zm9vYmFy"
  {
    VectorQuanta();
    LongVectors();
    assert [102, 111, 111][3..] == [];
  }

  lemma {:induction false} EncodingLength(b: seq<Byte>)
    ensures |Encode(b)| == (|b| + 2) / 3 * 4
    decreases |b|
  {
    if |b| >= 3 { EncodingLength(b[3..]); }
  }

  /** A proper prefix of an encoding decodes to fewer bytes, if at all. */
  lemma {:induction false} PrefixIsShort(b: seq<Byte>, k: nat)
    requires k < |Encode(b)|
    ensures var r := DecodeQuanta(Encode(b)[..k]); r.Some? ==> |r.value| < |b|
    decreases |b|
  {
    if k < 4 {
      ShortPrefix(b, k);
      if k == 0 { assert Encode(b)[..k] == ""; } else { ShortIsBroken(Encode(b)[..k]); }
    } else if |b| < 3 {
      TailLength(b);
    } else {
      PrefixIsShort(b[3..], k - 4);
      PrefixHead(b, k);
    }
  }

  /** What the receiver makes of a block that was cut anywhere is shorter than the block. */
  lemma CutBlockIsShort(b: seq<Byte>, text: string)
    requires text <= Encode(b)
    ensures text != Encode(b) ==> var d := Decode(TrimSpace(text)); d.Some? ==> |d.value| < |b|
  {
    if text != Encode(b) {
      ReceivedText(b, text);
      assert text == Encode(b)[..|text|];
      PrefixIsShort(b, |text|);
    }
  }
}
