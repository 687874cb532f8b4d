/** NAL unit encapsulation: emulation prevention (section 7.4.1 of ITU-T H.264), with the
    generator's eight-byte fast path. */
module Nal {
  import opened Bits

  const START_CODE: seq<byte> := [0, 0, 0, 1]

  /** The byte-at-a-time escape: `z` zero bytes have just been written. */
  function Escape(s: seq<byte>, z: nat): (e: seq<byte>) {
    if |s| == 0 then []
    else if z >= 2 && s[0] <= 3 then [3, s[0]] + Escape(s[1..], if s[0] == 0 then 1 else 0)
    else [s[0]] + Escape(s[1..], if s[0] == 0 then z + 1 else 0)
  }

  /** The decoder's side (section 7.3.1): a 3 after two zero bytes is dropped. */
  function Unescape(e: seq<byte>): (s: seq<byte>) {
    if |e| >= 3 && e[0] == 0 && e[1] == 0 && e[2] == 3 then [0, 0] + Unescape(e[3..])
    else if |e| == 0 then []
    else [e[0]] + Unescape(e[1..])
  }

  /** 00 00 00, 00 00 01 and 00 00 02 do not occur in a NAL unit payload. */
  ghost predicate NoStartCode(e: seq<byte>) {
    forall i :: 0 <= i && i + 2 < |e| && e[i] == 0 && e[i + 1] == 0 ==> e[i + 2] >= 3
  }

  // ---------------------------------------------------------------- the eight-byte test

  /** memcpy of eight bytes into a little-endian word. */
  function Load64(b: seq<byte>): bv64
    requires |b| == 8
  {
    Word(b[0] as bv8, b[1] as bv8, b[2] as bv8, b[3] as bv8,
         b[4] as bv8, b[5] as bv8, b[6] as bv8, b[7] as bv8)
  }

  function Word(b0: bv8, b1: bv8, b2: bv8, b3: bv8, b4: bv8, b5: bv8, b6: bv8, b7: bv8): bv64 {
    (b0 as bv64) | ((b1 as bv64) << 8) | ((b2 as bv64) << 16) | ((b3 as bv64) << 24)
    | ((b4 as bv64) << 32) | ((b5 as bv64) << 40) | ((b6 as bv64) << 48) | ((b7 as bv64) << 56)
  }

  predicate NoSmallByte(x: bv64) {
    (x - 0x0404_0404_0404_0404) & !x & 0x8080_8080_8080_8080 == 0
  }

  /** The word test is exact: it passes just when none of the eight bytes is below 4. */
  lemma NoSmallByteWord(b0: bv8, b1: bv8, b2: bv8, b3: bv8, b4: bv8, b5: bv8, b6: bv8, b7: bv8)
    ensures NoSmallByte(Word(b0, b1, b2, b3, b4, b5, b6, b7))
       <==> b0 >= 4 && b1 >= 4 && b2 >= 4 && b3 >= 4 && b4 >= 4 && b5 >= 4 && b6 >= 4 && b7 >= 4
  {
  }

  lemma AsBv8(b: byte)
    ensures (b as bv8) >= 4 <==> b >= 4
  {
  }

  lemma FastTest(b: seq<byte>)
    requires |b| == 8
    ensures NoSmallByte(Load64(b)) <==> forall i :: 0 <= i < 8 ==> b[i] >= 4
  {
    hide NoSmallByte, Word;
    AsBv8(b[0]); AsBv8(b[1]); AsBv8(b[2]); AsBv8(b[3]);
    AsBv8(b[4]); AsBv8(b[5]); AsBv8(b[6]); AsBv8(b[7]);
    NoSmallByteWord(b[0] as bv8, b[1] as bv8, b[2] as bv8, b[3] as bv8,
                    b[4] as bv8, b[5] as bv8, b[6] as bv8, b[7] as bv8);
  }

  /** Bytes above 3 need no escape and end any run of zeros. */
  lemma {:induction false} EscapeLarge(s: seq<byte>, k: nat, z: nat)
    requires 0 < k <= |s| && forall i :: 0 <= i < k ==> s[i] >= 4
    ensures Escape(s, z) == s[..k] + Escape(s[k..], 0)
    decreases k
  {
    hide Escape;
    EscapeOne(s, z);
    if k > 1 {
      EscapeLarge(s[1..], k - 1, 0);
      TakeHead(s, k);
      Associative([s[0]], s[1..][..k - 1], Escape(s[k..], 0));
    } else {
      assert s[..1] == [s[0]];
    }
  }

  lemma EscapeOne(s: seq<byte>, z: nat)
    requires |s| > 0 && s[0] >= 4
    ensures Escape(s, z) == [s[0]] + Escape(s[1..], 0)
  {
  }

  lemma TakeHead(s: seq<byte>, k: nat)
    requires 0 < k <= |s|
    ensures s[..k] == [s[0]] + s[1..][..k - 1] && s[1..][k - 1..] == s[k..]
  {
  }

  /** nal_wrap: start code, header byte, escaped payload, eight bytes at a time where the
      word test allows it. The output is that of the byte-at-a-time loop. */
  method NalWrap(refIdc: nat, nalType: nat, rbsp: seq<byte>) returns (out: seq<byte>)
    requires refIdc < 4 && nalType < 32
    ensures out == START_CODE + [refIdc * 32 + nalType] + Escape(rbsp, 0)
  {
    out := START_CODE + [refIdc * 32 + nalType];
    ghost var head := out;
    var i, z := 0, 0;
    assert rbsp[0..] == rbsp;
    while i < |rbsp|
      invariant 0 <= i <= |rbsp|
      invariant out + Escape(rbsp[i..], z) == head + Escape(rbsp, 0)
    {
      ghost var rest := rbsp[i..];
      if i + 8 <= |rbsp| && NoSmallByte(Load64(rbsp[i..i + 8])) {
        FastTest(rbsp[i..i + 8]);
        forall k | 0 <= k < 8 ensures rest[k] >= 4 {
          assert rest[k] == rbsp[i..i + 8][k];
        }
        EscapeLarge(rest, 8, z);
        assert rest[..8] == rbsp[i..i + 8] && rest[8..] == rbsp[i + 8..];
        assert out + Escape(rest, z) == (out + rbsp[i..i + 8]) + Escape(rbsp[i + 8..], 0);
        out := out + rbsp[i..i + 8];
        i, z := i + 8, 0;
      } else {
        assert rest[0] == rbsp[i] && rest[1..] == rbsp[i + 1..];
        EscapeStep(out, rest, z);
        if z >= 2 && rbsp[i] <= 3 {
          out := out + [3];
          z := 0;
        }
        out := out + [rbsp[i]];
        z := if rbsp[i] != 0 then 0 else z + 1;
        i := i + 1;
      }
    }
    assert out + [] == out;
  }

  lemma EscapeStep(out: seq<byte>, rest: seq<byte>, z: nat)
    requires |rest| > 0
    ensures z >= 2 && rest[0] <= 3 ==>
              out + Escape(rest, z) == (out + [3]) + [rest[0]] + Escape(rest[1..], if rest[0] == 0 then 1 else 0)
    ensures !(z >= 2 && rest[0] <= 3) ==>
              out + Escape(rest, z) == out + [rest[0]] + Escape(rest[1..], if rest[0] == 0 then z + 1 else 0)
  {
  }

  /** The zero bytes a scanner has in hand. */
  function Run(z: nat): seq<byte>
    requires z <= 2
  {
    if z == 0 then [] else if z == 1 then [0] else [0, 0]
  }

  /** The three shapes of one escape step, with the zeros in hand put in front. */
  lemma EscapeForms(s: seq<byte>, z: nat)
    requires z <= 2 && |s| > 0
    ensures var e := Run(z) + Escape(s, z);
            if z == 2 && s[0] <= 3 then
              e == Run(2) + ([3] + ([s[0]] + Escape(s[1..], if s[0] == 0 then 1 else 0)))
            else if s[0] == 0 then e == Run(z + 1) + Escape(s[1..], z + 1)
            else e == Run(z) + ([s[0]] + Escape(s[1..], 0))
  {
  }

  lemma UnescapeLiteral(b: byte, e: seq<byte>)
    requires b != 0
    ensures Unescape([b] + e) == [b] + Unescape(e)
  {
    assert ([b] + e)[1..] == e;
  }

  lemma UnescapeRunAlone(z: nat)
    requires z <= 2
    ensures Unescape(Run(z)) == Run(z)
  {
    if z == 2 { assert Run(2)[1..] == Run(1); }
    if z >= 1 { assert Run(1)[1..] == []; }
  }

  /** A run of zeros followed by a byte that is neither zero nor an escape. */
  lemma UnescapeRun(z: nat, b: byte, e: seq<byte>)
    requires z <= 2 && b != 0 && (z == 2 ==> b != 3)
    ensures Unescape(Run(z) + ([b] + e)) == Run(z) + ([b] + Unescape(e))
  {
    var f := [b] + e;
    UnescapeLiteral(b, e);
    if z == 0 {
      assert Run(0) + f == f;
    } else if z == 1 {
      assert (Run(1) + f)[1..] == f;
    } else {
      assert (Run(2) + f)[1..] == Run(1) + f;
      assert (Run(1) + f)[1..] == f;
    }
  }

  lemma UnescapeEscaped(e: seq<byte>)
    ensures Unescape(Run(2) + ([3] + e)) == Run(2) + Unescape(e)
  {
    assert (Run(2) + ([3] + e))[3..] == e;
  }

  /** Removing the escapes gives back the input, whatever zeros were pending. */
  lemma {:induction false} UnescapeEscape(s: seq<byte>, z: nat)
    requires z <= 2
    ensures Unescape(Run(z) + Escape(s, z)) == Run(z) + s
    decreases s
  {
    if |s| == 0 {
      assert Run(z) + Escape(s, z) == Run(z) && Run(z) + s == Run(z);
      UnescapeRunAlone(z);
    } else {
      UnescapeEscapeStep(s, z);
    }
  }

  lemma {:induction false} UnescapeEscapeStep(s: seq<byte>, z: nat)
    requires z <= 2 && |s| > 0
    ensures Unescape(Run(z) + Escape(s, z)) == Run(z) + s
    decreases s, 0
  {
    hide Escape, Unescape;
    EscapeForms(s, z);
    var b, t := s[0], s[1..];
    assert s == [b] + t;
    if z == 2 && b <= 3 {
      var z' := if b == 0 then 1 else 0;
      UnescapeEscape(t, z');
      UnescapeEscaped([b] + Escape(t, z'));
      if b != 0 {
        UnescapeLiteral(b, Escape(t, z'));
        assert Run(0) + Escape(t, 0) == Escape(t, 0) && Run(0) + t == t;
      }
    } else if b == 0 {
      UnescapeEscape(t, z + 1);
      assert Run(z) + s == Run(z + 1) + t;
    } else {
      UnescapeEscape(t, 0);
      assert Run(0) + Escape(t, 0) == Escape(t, 0) && Run(0) + t == t;
      UnescapeRun(z, b, Escape(t, 0));
    }
  }

  lemma NoStartCodeCons(a: byte, e: seq<byte>)
    requires NoStartCode(e)
    requires a == 0 && |e| >= 2 && e[0] == 0 ==> e[1] >= 3
    ensures NoStartCode([a] + e)
  {
  }

  lemma NoStartCodeRun(z: nat, b: byte, e: seq<byte>)
    requires z <= 2 && NoStartCode([b] + e) && b != 0 && (z == 2 ==> b >= 3)
    ensures NoStartCode(Run(z) + ([b] + e))
  {
  }

  /** The payload contains no start code and nothing that could be mistaken for one. */
  lemma {:induction false} EscapeHidesStartCodes(s: seq<byte>, z: nat)
    requires z <= 2
    ensures NoStartCode(Run(z) + Escape(s, z))
    decreases s
  {
    if |s| != 0 { EscapeHidesStep(s, z); }
  }

  lemma {:induction false} EscapeHidesStep(s: seq<byte>, z: nat)
    requires z <= 2 && |s| > 0
    ensures NoStartCode(Run(z) + Escape(s, z))
    decreases s, 0
  {
    hide Escape, NoStartCode;
    EscapeForms(s, z);
    var b, t := s[0], s[1..];
    if z == 2 && b <= 3 {
      var z' := if b == 0 then 1 else 0;
      var e := Escape(t, z');
      EscapeHidesStartCodes(t, z');
      if b == 0 {
        assert [b] + e == Run(1) + e;
      } else {
        assert Run(0) + e == e;
        NoStartCodeCons(b, e);
      }
      NoStartCodeCons(3, [b] + e);
      NoStartCodeRun(2, 3, [b] + e);
    } else if b == 0 {
      EscapeHidesStartCodes(t, z + 1);
    } else {
      EscapeHidesStartCodes(t, 0);
      assert Run(0) + Escape(t, 0) == Escape(t, 0);
      NoStartCodeCons(b, Escape(t, 0));
      NoStartCodeRun(z, b, Escape(t, 0));
    }
  }

  /** The payload of a NAL unit, as a receiver sees it after the start code and the header. */
  function NalPayload(nal: seq<byte>): (s: seq<byte>)
    requires |nal| >= 5
  {
    Unescape(nal[5..])
  }

  /** For every byte string: the receiver recovers it, and cannot find a start code inside. */
  lemma NalRoundTrip(nal: seq<byte>, head: byte, rbsp: seq<byte>)
    requires nal == START_CODE + [head] + Escape(rbsp, 0)
    ensures NalPayload(nal) == rbsp && NoStartCode(nal[5..])
  {
    assert nal[5..] == Escape(rbsp, 0) == Run(0) + Escape(rbsp, 0);
    assert Run(0) + rbsp == rbsp;
    UnescapeEscape(rbsp, 0);
    EscapeHidesStartCodes(rbsp, 0);
  }
}
