/** The 320-bit board identity record of the eFuse USER area. */
module BoardRecord {
  import opened Wrappers
  import opened Bits

  // ---------------------------------------------------------------- fields of any widths

  function Sum(ws: seq<nat>): nat { if ws == [] then 0 else ws[0] + Sum(ws[1..]) }

  predicate Fits(vs: seq<nat>, ws: seq<nat>) {
    |vs| == |ws| && forall i :: 0 <= i < |vs| ==> vs[i] < Pow2(ws[i])
  }

  function Pack(vs: seq<nat>, ws: seq<nat>): (s: seq<bool>)
    requires |vs| == |ws|
    ensures |s| == Sum(ws)
  {
    if vs == [] then [] else ToBits(vs[0], ws[0]) + Pack(vs[1..], ws[1..])
  }

  function Unpack(s: seq<bool>, ws: seq<nat>): (vs: seq<nat>)
    requires |s| >= Sum(ws)
    ensures |vs| == |ws|
  {
    if ws == [] then [] else [FromBits(s[..ws[0]])] + Unpack(s[ws[0]..], ws[1..])
  }

  lemma {:induction false} UnpackPack(vs: seq<nat>, ws: seq<nat>)
    requires Fits(vs, ws)
    ensures Unpack(Pack(vs, ws), ws) == vs
    decreases |vs|
  {
    hide Pow2, ToBits, FromBits;
    if vs != [] {
      var head, rest := ToBits(vs[0], ws[0]), Pack(vs[1..], ws[1..]);
      assert (head + rest)[..ws[0]] == head && (head + rest)[ws[0]..] == rest;
      FromToBits(vs[0], ws[0]);
      UnpackPack(vs[1..], ws[1..]);
      assert vs == [vs[0]] + vs[1..];
    }
  }

  lemma {:induction false} PackUnpack(s: seq<bool>, ws: seq<nat>)
    requires |s| == Sum(ws)
    ensures Pack(Unpack(s, ws), ws) == s && Fits(Unpack(s, ws), ws)
    decreases |ws|
  {
    hide Pow2, ToBits, FromBits;
    if ws != [] {
      var w := ws[0];
      ToFromBits(s[..w]);
      FromBitsBound(s[..w]);
      PackUnpack(s[w..], ws[1..]);
      assert s == s[..w] + s[w..];
      var vs := Unpack(s, ws);
      assert vs[1..] == Unpack(s[w..], ws[1..]);
    }
  }

  lemma {:induction false} PackAppend(vs: seq<nat>, ws: seq<nat>, v: nat, w: nat)
    requires |vs| == |ws|
    ensures Pack(vs + [v], ws + [w]) == Pack(vs, ws) + ToBits(v, w)
    decreases |vs|
  {
    hide ToBits;
    if vs == [] {
      assert [v][1..] == [] && [w][1..] == [];
      assert vs + [v] == [v] && ws + [w] == [w];
      assert Pack([v], [w]) == ToBits(v, w) + [];
      assert Pack(vs, ws) + ToBits(v, w) == ToBits(v, w);
    } else {
      PackAppend(vs[1..], ws[1..], v, w);
      assert (vs + [v])[1..] == vs[1..] + [v] && (ws + [w])[1..] == ws[1..] + [w];
    }
  }

  lemma {:induction false} SumConcat(a: seq<nat>, b: seq<nat>)
    ensures Sum(a + b) == Sum(a) + Sum(b)
    decreases |a|
  {
    if a == [] {
      assert a + b == b;
    } else {
      SumConcat(a[1..], b);
      assert (a + b)[1..] == a[1..] + b;
    }
  }

  function Repeat(n: nat, w: nat): (r: seq<nat>)
    ensures |r| == n && forall i :: 0 <= i < n ==> r[i] == w
  {
    seq(n, _ => w)
  }

  lemma {:induction false} SumRepeat(n: nat, w: nat)
    ensures Sum(Repeat(n, w)) == n * w
    decreases n
  {
    if n != 0 {
      assert Repeat(n, w)[1..] == Repeat(n - 1, w);
      SumRepeat(n - 1, w);
      assert n * w == (n - 1) * w + w;
    }
  }

  // ---------------------------------------------------------------- the record

  const EPOCH := 1
  const HASH_CHARS := 32
  const NAME_CHARS := 15
  const NIX32 := "0123456789abcdfghijklmnpqrsvwxyz"

  /** What a record stands for. Its numbers come from parsing and may be out of range. */
  datatype Fields = Fields(hash: string, name: string, version: int, tapeout: int, git: int)

  /** epoch, 32 hash characters, 15 name characters, version, tapeout, commit. */
  function Layout(): (ws: seq<nat>)
    ensures |ws| == 51
  {
    [3] + Repeat(HASH_CHARS, 5) + Repeat(NAME_CHARS, 7) + [7, 17, 28]
  }

  lemma LayoutSum()
    ensures Sum(Layout()) == 320
  {
    hide Sum;
    SumConcat([3] + Repeat(32, 5) + Repeat(15, 7), [7, 17, 28]);
    SumConcat([3] + Repeat(32, 5), Repeat(15, 7));
    SumConcat([3], Repeat(32, 5));
    SumRepeat(32, 5);
    SumRepeat(15, 7);
    SumSmall();
  }

  lemma SumSmall()
    ensures Sum([3]) == 3 && Sum([7, 17, 28]) == 52
  {
  }

  /** nix's base32 alphabet as a formula. */
  function HashChar(i: nat): char
    requires i < 32
  {
    (if i < 10 then '0' as int + i else if i < 14 then 'a' as int + i - 10
     else if i < 23 then 'f' as int + i - 14 else if i < 27 then 'p' as int + i - 23
     else 'v' as int + i - 27) as char
  }

  lemma AlphabetIs(i: nat)
    requires i < 32
    ensures NIX32[i] == HashChar(i)
  {
  }

  /** NIX32.index, or nothing for a character that is not in the alphabet. */
  function Index(c: char): Option<nat> {
    if '0' <= c <= '9' then Some(c as int - '0' as int)
    else if 'a' <= c <= 'd' then Some(c as int - 'a' as int + 10)
    else if 'f' <= c <= 'n' then Some(c as int - 'f' as int + 14)
    else if 'p' <= c <= 's' then Some(c as int - 'p' as int + 23)
    else if 'v' <= c <= 'z' then Some(c as int - 'v' as int + 27)
    else None
  }

  lemma IndexIs(c: char)
    ensures Index(c).Some? ==> Index(c).value < 32 && NIX32[Index(c).value] == c
    ensures Index(c).None? ==> c !in NIX32
  {
    if Index(c).Some? { AlphabetIs(Index(c).value); }
    else if c in NIX32 {
      var i :| 0 <= i < |NIX32| && NIX32[i] == c;
      AlphabetIs(i);
    }
  }

  lemma IndexOfChar(i: nat)
    requires i < 32
    ensures Index(NIX32[i]) == Some(i)
  {
    AlphabetIs(i);
  }

  /** What encode_user takes without an error. */
  predicate Encodable(f: Fields) {
    && |f.hash| == HASH_CHARS && (forall i :: 0 <= i < |f.hash| ==> Index(f.hash[i]).Some?)
    && |f.name| <= NAME_CHARS && (forall i :: 0 <= i < |f.name| ==> f.name[i] as int < 128)
    && 0 <= f.version < 128 && 0 <= f.tapeout < 0x2_0000 && 0 <= f.git < 0x1000_0000
  }

  function HashValues(hash: string): (r: seq<nat>)
    requires forall i :: 0 <= i < |hash| ==> Index(hash[i]).Some?
    ensures |r| == |hash|
  {
    seq(|hash|, i requires 0 <= i < |hash| => Index(hash[i]).value)
  }

  /** The name, padded with NUL. */
  function NameValues(name: string): (r: seq<nat>)
    ensures |r| == NAME_CHARS
  {
    seq(NAME_CHARS, i requires 0 <= i < NAME_CHARS => if i < |name| then name[i] as int else 0)
  }

  function Values(f: Fields): (vs: seq<nat>)
    requires Encodable(f)
    ensures |vs| == 51
  {
    [EPOCH] + HashValues(f.hash) + NameValues(f.name) + [f.version, f.tapeout, f.git]
  }

  /** The characters before the first NUL. */
  function Text(codes: seq<nat>): string
    requires forall i :: 0 <= i < |codes| ==> codes[i] < 128
  {
    if codes == [] || codes[0] == 0 then "" else [codes[0] as char] + Text(codes[1..])
  }

  function FromValues(vs: seq<nat>): Fields
    requires Fits(vs, Layout())
  {
    Ranges(vs);
    Fields(seq(HASH_CHARS, i requires 0 <= i < HASH_CHARS => NIX32[vs[1 + i]]),
           Text(vs[33..48]), vs[48], vs[49], vs[50])
  }

  lemma Ranges(vs: seq<nat>)
    requires Fits(vs, Layout())
    ensures |vs| == 51 && vs[0] < 8 && vs[48] < 128 && vs[49] < 0x2_0000 && vs[50] < 0x1000_0000
    ensures forall i {:trigger vs[i]} :: 1 <= i < 33 ==> vs[i] < 32
    ensures forall i {:trigger vs[i]} :: 33 <= i < 48 ==> vs[i] < 128
  {
  }

  lemma Powers()
    ensures Pow2(3) == 8 && Pow2(5) == 32 && Pow2(7) == 128 && Pow2(17) == 0x2_0000 && Pow2(28) == 0x1000_0000
  {
  }

  // ---------------------------------------------------------------- encode_user, decode_user

  function Encode(f: Fields): Option<seq<byte>> {
    if Encodable(f) then
      LayoutSum();
      Some(BitsToBytes(Pack(Values(f), Layout())))
    else None
  }

  /** Fewer than 40 bytes run out of bits; more are not looked at. */
  function Decode(blob: seq<byte>): Option<Fields> {
    LayoutSum();
    if |blob| < 40 then None
    else
      var vs := Unpack(BytesToBits(blob)[..320], Layout());
      PackUnpack(BytesToBits(blob)[..320], Layout());
      if vs[0] != EPOCH then None else Some(FromValues(vs))
  }

  lemma ValuesFit(f: Fields)
    requires Encodable(f)
    ensures Fits(Values(f), Layout())
  {
    hide Pow2;
    Powers();
    var vs, ws := Values(f), Layout();
    forall i | 0 <= i < 51 ensures vs[i] < Pow2(ws[i]) {
      if 1 <= i < 33 {
        IndexIs(f.hash[i - 1]);
        assert vs[i] == HashValues(f.hash)[i - 1] && ws[i] == 5;
      } else if 33 <= i < 48 {
        assert vs[i] == NameValues(f.name)[i - 33] && ws[i] == 7;
      }
    }
  }

  function BeforeNul(name: string): string {
    if name == "" || name[0] == 0 as char then "" else [name[0]] + BeforeNul(name[1..])
  }

  predicate Nulless(name: string) { forall i :: 0 <= i < |name| ==> name[i] != 0 as char }

  lemma {:induction false} BeforeNulIff(name: string)
    ensures BeforeNul(name) == name <==> Nulless(name)
    decreases |name|
  {
    if name != "" {
      BeforeNulIff(name[1..]);
      assert name == [name[0]] + name[1..];
      if name[0] != 0 as char {
        assert BeforeNul(name)[1..] == BeforeNul(name[1..]);
      }
    }
  }

  /** The padded name reads back up to its first NUL. */
  lemma {:induction false} TextOfName(name: string, pad: nat)
    requires forall i :: 0 <= i < |name| ==> name[i] as int < 128
    ensures Text(Codes(name) + Repeat(pad, 0)) == BeforeNul(name)
    decreases |name|
  {
    if name != "" {
      var all := Codes(name) + Repeat(pad, 0);
      assert all[1..] == Codes(name[1..]) + Repeat(pad, 0);
      TextOfName(name[1..], pad);
    }
  }

  function Codes(name: string): seq<nat> {
    seq(|name|, i requires 0 <= i < |name| => name[i] as int)
  }

  lemma FromValuesOf(f: Fields)
    requires Encodable(f)
    ensures Fits(Values(f), Layout()) && FromValues(Values(f)) == f.(name := BeforeNul(f.name))
  {
    hide Fits, Layout, Index;
    ValuesFit(f);
    var vs := Values(f);
    var g := FromValues(vs);
    forall i | 0 <= i < 32 ensures g.hash[i] == f.hash[i] {
      IndexIs(f.hash[i]);
      assert vs[1 + i] == HashValues(f.hash)[i];
    }
    assert g.hash == f.hash;
    assert vs[33..48] == NameValues(f.name) == Codes(f.name) + Repeat(15 - |f.name|, 0);
    TextOfName(f.name, 15 - |f.name|);
  }

  /** Every encoded record decodes to its fields, the name up to its first NUL; so to exactly its
      fields if and only if the name has none. */
  lemma DecodeEncode(f: Fields)
    requires Encodable(f)
    ensures Encode(f).Some? && |Encode(f).value| == 40
    ensures Decode(Encode(f).value) == Some(f.(name := BeforeNul(f.name)))
    ensures Decode(Encode(f).value) == Some(f) <==> Nulless(f.name)
  {
    hide Encodable, Values, Layout, Sum, FromValues, Fits, BitsToBytes, BytesToBits, Nulless;
    LayoutSum();
    ValuesFit(f);
    var s := Pack(Values(f), Layout());
    BitsRoundTrip(s);
    assert s[..320] == s;
    UnpackPack(Values(f), Layout());
    FromValuesOf(f);
    EpochOf(f);
    BeforeNulIff(f.name);
  }

  lemma EpochOf(f: Fields)
    requires Encodable(f)
    ensures Values(f)[0] == EPOCH
  {
  }

  // ---------------------------------------------------------------- from records back to records

  /** Nothing but NUL follows a NUL. */
  predicate NulClean(codes: seq<nat>) { forall i, j :: 0 <= i < j < |codes| && codes[i] == 0 ==> codes[j] == 0 }

  lemma {:induction false} TextCodes(codes: seq<nat>)
    requires forall i :: 0 <= i < |codes| ==> codes[i] < 128
    ensures var t := Text(codes);
            && |t| <= |codes| && (forall i :: 0 <= i < |t| ==> t[i] as int == codes[i] && codes[i] != 0)
            && (|t| < |codes| ==> codes[|t|] == 0)
    decreases |codes|
  {
    if codes != [] && codes[0] != 0 { TextCodes(codes[1..]); }
  }

  lemma NameIff(codes: seq<nat>)
    requires |codes| == NAME_CHARS && forall i :: 0 <= i < |codes| ==> codes[i] < 128
    ensures NameValues(Text(codes)) == codes <==> NulClean(codes)
  {
    TextCodes(codes);
    var t := Text(codes);
    var r := NameValues(t);
    if NulClean(codes) {
      forall i | 0 <= i < 15 ensures r[i] == codes[i] {
        if i > |t| { assert codes[|t|] == 0; }
      }
    }
    if r == codes {
      forall i, j | 0 <= i < j < |codes| && codes[i] == 0 ensures codes[j] == 0 {
        assert r[j] == codes[j];
      }
    }
  }

  lemma DecodedEncodable(vs: seq<nat>)
    requires Fits(vs, Layout())
    ensures Encodable(FromValues(vs))
    ensures vs[0] == EPOCH ==> (Values(FromValues(vs)) == vs <==> NulClean(vs[33..48]))
  {
    hide Fits, Layout, Index, NulClean;
    Ranges(vs);
    var f := FromValues(vs);
    forall i | 0 <= i < 32 ensures Index(f.hash[i]) == Some(vs[1 + i]) { IndexOfChar(vs[1 + i]); }
    TextCodes(vs[33..48]);
    NameIff(vs[33..48]);
    var us := Values(f);
    assert HashValues(f.hash) == vs[1..33];
    assert us == [EPOCH] + vs[1..33] + NameValues(f.name) + [vs[48], vs[49], vs[50]];
    assert vs == [vs[0]] + vs[1..33] + vs[33..48] + [vs[48], vs[49], vs[50]];
    assert us[33..48] == NameValues(f.name);
  }

  /** The name field of a 40-byte blob. */
  function NameField(blob: seq<byte>): seq<nat>
    requires |blob| == 40
  {
    LayoutSum();
    Unpack(BytesToBits(blob), Layout())[33..48]
  }

  /** Encoding what an epoch-1 blob decodes to gives back the blob, if and only if its name field
      is NUL after its first NUL. */
  lemma EncodeDecode(blob: seq<byte>)
    requires |blob| == 40 && Decode(blob).Some?
    ensures Encode(Decode(blob).value) == Some(blob) <==> NulClean(NameField(blob))
  {
    hide Encodable, Values, Layout, Sum, FromValues, Fits, BitsToBytes, BytesToBits, NulClean;
    LayoutSum();
    var s := BytesToBits(blob);
    assert s[..320] == s;
    PackUnpack(s, Layout());
    var vs := Unpack(s, Layout());
    DecodedEncodable(vs);
    var f := FromValues(vs);
    BytesRoundTrip(blob);
    if Encode(f) == Some(blob) {
      BitsRoundTrip(Pack(Values(f), Layout()));
      ValuesFit(f);
      UnpackPack(Values(f), Layout());
    }
  }

  // ---------------------------------------------------------------- the bits, one by one

  /** Where a field begins: the sum of the widths before it. */
  lemma {:induction false} FieldAt(vs: seq<nat>, ws: seq<nat>, k: nat)
    requires |vs| == |ws| && k < |ws|
    ensures Sum(ws[..k]) + ws[k] <= Sum(ws)
    ensures Pack(vs, ws)[Sum(ws[..k])..Sum(ws[..k]) + ws[k]] == ToBits(vs[k], ws[k])
    decreases |vs|
  {
    hide ToBits;
    var head, rest := ToBits(vs[0], ws[0]), Pack(vs[1..], ws[1..]);
    if k == 0 {
      assert ws[..0] == [];
      assert (head + rest)[0..ws[0]] == head;
    } else {
      FieldAt(vs[1..], ws[1..], k - 1);
      assert ws[..k][1..] == ws[1..][..k - 1];
      var o := Sum(ws[1..][..k - 1]);
      assert (head + rest)[ws[0] + o..ws[0] + o + ws[k]] == rest[o..o + ws[k]];
    }
  }

  /** The bit a field of the record begins at. */
  function Offset(k: nat): nat
    requires k < 51
  {
    if k == 0 then 0 else if k < 33 then 3 + 5 * (k - 1) else if k < 48 then 163 + 7 * (k - 33)
    else if k == 48 then 268 else if k == 49 then 275 else 292
  }

  lemma {:induction false} OffsetIs(k: nat)
    requires k < 51
    ensures Sum(Layout()[..k]) == Offset(k)
    decreases k
  {
    var ws := Layout();
    if k == 0 {
      assert ws[..0] == [];
    } else {
      hide Sum;
      OffsetIs(k - 1);
      assert ws[..k] == ws[..k - 1] + [ws[k - 1]];
      SumConcat(ws[..k - 1], [ws[k - 1]]);
      SumOne(ws[k - 1]);
      assert ws[k - 1] == if k == 1 then 3 else if k < 34 then 5 else if k < 50 then 7 else 17;
    }
  }

  lemma SumOne(w: nat)
    ensures Sum([w]) == w
  {
    assert [w][1..] == [];
  }

  lemma FieldBits(f: Fields, k: nat)
    requires Encodable(f) && k < 51
    ensures Encode(f).Some? && |Encode(f).value| == 40 && Offset(k) + Layout()[k] <= 320
    ensures BytesToBits(Encode(f).value)[Offset(k)..Offset(k) + Layout()[k]] == ToBits(Values(f)[k], Layout()[k])
  {
    hide Encodable, Values, Layout, Sum, Fits, BitsToBytes, BytesToBits, Offset, ToBits;
    LayoutSum();
    BitsRoundTrip(Pack(Values(f), Layout()));
    OffsetIs(k);
    FieldAt(Values(f), Layout(), k);
  }

  /** The 320 bits of the eFuse area: 001, then 5 bits for each character of the hash, 7 for each of
      fifteen of the name, 7 for the version, 17 for the tapeout and 28 for the commit. */
  lemma RecordIs(f: Fields, i: nat)
    requires Encodable(f)
    ensures Encode(f).Some? && |Encode(f).value| == 40
    ensures var bits := BytesToBits(Encode(f).value);
            && bits[0..3] == [false, false, true]
            && (i < 32 ==> bits[3 + 5 * i..8 + 5 * i] == ToBits(Index(f.hash[i]).value, 5))
            && (i < |f.name| ==> bits[163 + 7 * i..170 + 7 * i] == ToBits(f.name[i] as int, 7))
            && (|f.name| <= i < 15 ==> bits[163 + 7 * i..170 + 7 * i] == ToBits(0, 7))
            && bits[268..275] == ToBits(f.version, 7) && bits[275..292] == ToBits(f.tapeout, 17)
            && bits[292..320] == ToBits(f.git, 28)
  {
    hide BitsToBytes, BytesToBits, Encode, ToBits, Index;
    var ws, vs := Layout(), Values(f);
    FieldBits(f, 0);
    FieldBits(f, 48); FieldBits(f, 49); FieldBits(f, 50);
    EpochBits();
    assert ws[0] == 3 && ws[48] == 7 && ws[49] == 17 && ws[50] == 28 && vs[0] == 1;
    if i < 32 {
      FieldBits(f, 1 + i);
      assert ws[1 + i] == 5 && vs[1 + i] == HashValues(f.hash)[i];
    }
    if i < 15 {
      FieldBits(f, 33 + i);
      assert ws[33 + i] == 7 && vs[33 + i] == NameValues(f.name)[i];
    }
  }

  lemma EpochBits()
    ensures ToBits(1, 3) == [false, false, true]
  {
    assert ToBits(0, 0) == [];
    assert ToBits(0, 1) == ToBits(0, 0) + [false];
    assert ToBits(0, 2) == ToBits(0, 1) + [false];
  }
}
