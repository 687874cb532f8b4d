/** board_id.py's bit writer, bit reader and the two record functions that use them. */
module BoardCodec {
  import opened Wrappers
  import opened Bits
  import opened BoardRecord

  // ---------------------------------------------------------------- single bits

  lemma ShrHalf(v: nat, i: nat)
    ensures Shr(v, i) / 2 == Shr(v, i + 1)
  {
    var q := Pow2(i);
    DivMod(v, q);
    var a := v / q;
    NonNegative(v, q);
    DivMod(a, 2);
    DivUnique(v, 2 * q, a / 2, (a % 2) * q + v % q) by {
      HalfRemainder(v, q, a);
    }
  }

  lemma HalfRemainder(v: nat, q: nat, a: nat)
    requires q > 0 && v == a * q + v % q
    ensures v == a / 2 * (2 * q) + ((a % 2) * q + v % q)
    ensures 0 <= (a % 2) * q + v % q < 2 * q
  {
  }

  /** Bit j, from the top. */
  lemma {:induction false} BitIs(v: nat, n: nat, j: nat)
    requires j < n
    ensures ToBits(v, n)[j] == (Shr(v, n - 1 - j) % 2 == 1)
    decreases n
  {
    if j == n - 1 {
      assert Shr(v, 0) == v;
    } else {
      BitIs(v / 2, n - 1, j);
      assert Shr(v / 2, n - 2 - j) == Shr(v, n - 1 - j) by { ShrOfHalf(v, n - 2 - j); }
    }
  }

  lemma {:induction false} ShrOfHalf(v: nat, i: nat)
    ensures Shr(v / 2, i) == Shr(v, i + 1)
    decreases i
  {
    if i == 0 {
      assert Pow2(1) == 2;
    } else {
      ShrOfHalf(v, i - 1);
      ShrHalf(v / 2, i - 1);
      ShrHalf(v, i);
    }
  }

  /** v |= b << k */
  function OrBit(v: nat, k: nat, b: bool): nat { if b && Shr(v, k) % 2 == 0 then v + Pow2(k) else v }

  lemma {:induction false} FromBitsSet(s: seq<bool>, j: nat)
    requires j < |s| && !s[j]
    ensures FromBits(s[j := true]) == FromBits(s) + Pow2(|s| - 1 - j)
    decreases |s|
  {
    var n := |s| - 1;
    var t := s[j := true];
    if j == n {
      assert t[..n] == s[..n];
    } else {
      assert t[..n] == s[..n][j := true];
      FromBitsSet(s[..n], j);
    }
  }

  lemma OrBitSets(v: byte, j: nat, b: bool)
    requires j < 8 && !ToBits(v, 8)[j]
    ensures OrBit(v, 7 - j, b) < 256 && ToBits(OrBit(v, 7 - j, b), 8) == ToBits(v, 8)[j := b]
  {
    hide ToBits, FromBits, Pow2, Shr;
    var s := ToBits(v, 8);
    BitIs(v, 8, j);
    Pow2Values();
    if b {
      var t := s[j := true];
      FromBitsSet(s, j);
      FromToBits(v, 8);
      FromBitsBound(t);
      ToFromBits(t);
    } else {
      assert s[j := false] == s;
    }
  }

  lemma {:induction false} BitsAt(bs: seq<byte>, p: nat)
    requires p < 8 * |bs|
    ensures BytesToBits(bs)[p] == ToBits(bs[p / 8], 8)[p % 8]
    decreases |bs|
  {
    hide ToBits;
    var n := |bs| - 1;
    if p < 8 * n { BitsAt(bs[..n], p); }
  }

  lemma SetBit(bs: seq<byte>, i: nat, c: byte)
    requires i < 8 * |bs| && ToBits(c, 8) == ToBits(bs[i / 8], 8)[i % 8 := true]
    ensures BytesToBits(bs[i / 8 := c]) == BytesToBits(bs)[i := true]
  {
    hide ToBits, BytesToBits;
    var a, r := BytesToBits(bs), BytesToBits(bs[i / 8 := c]);
    forall p | 0 <= p < |a| ensures r[p] == a[i := true][p] {
      BitsAt(bs, p);
      BitsAt(bs[i / 8 := c], p);
    }
  }

  // ---------------------------------------------------------------- BitWriter

  class Writer {
    var bits: seq<bool>

    constructor ()
      ensures bits == []
    {
      bits := [];
    }

    /** A value that does not fit is refused and writes nothing. */
    method Put(val: int, n: nat) returns (ok: bool)
      modifies this
      ensures ok == (0 <= val < Pow2(n))
      ensures bits == old(bits) + (if ok then ToBits(val, n) else [])
    {
      hide Pow2, Shr;
      if val < 0 || val >= Pow2(n) { return false; }
      var i: nat := n;
      assert bits == old(bits) + ToBits(Shr(val, n), 0);
      while i > 0
        invariant i <= n && bits == old(bits) + ToBits(Shr(val, i), n - i)
      {
        i := i - 1;
        ShrHalf(val, i);
        bits := bits + [Shr(val, i) % 2 == 1];
      }
      ShrNone(val);
      ok := true;
    }

    method Bytes() returns (r: Option<seq<byte>>)
      ensures r == if |bits| % 8 == 0 then Some(BitsToBytes(bits)) else None
    {
      hide Pow2, Shr, ToBits, BytesToBits, BitsToBytes;
      if |bits| % 8 != 0 { return None; }
      var out := new byte[|bits| / 8](_ => 0);
      var i := 0;
      ZeroBytes(out[..], bits);
      while i < |bits|
        invariant 0 <= i <= |bits|
        invariant BytesToBits(out[..]) == bits[..i] + Zeros(|bits| - i)
      {
        var k, b := i / 8, bits[i];
        ghost var bs := out[..];
        BitsAt(bs, i);
        OrBitSets(out[k], i % 8, b);
        out[k] := OrBit(out[k], 7 - i % 8, b);
        assert out[..] == bs[k := out[k]];
        if b {
          SetBit(bs, i, out[k]);
        } else {
          assert ToBits(bs[k], 8)[i % 8 := false] == ToBits(bs[k], 8);
          assert out[..] == bs;
        }
        MoreBits(bits, i);
        i := i + 1;
      }
      assert bits[..i] + Zeros(0) == bits;
      BytesRoundTrip(out[..]);
      r := Some(out[..]);
    }
  }

  lemma ShrNone(v: nat)
    ensures Shr(v, 0) == v
  {
  }

  lemma {:induction false} ZeroBytes(bs: seq<byte>, bits: seq<bool>)
    requires |bits| == 8 * |bs| && forall k :: 0 <= k < |bs| ==> bs[k] == 0
    ensures BytesToBits(bs) == bits[..0] + Zeros(|bits|)
  {
    hide BytesToBits, ToBits;
    var s := BytesToBits(bs);
    forall p | 0 <= p < |s| ensures !s[p] {
      BitsAt(bs, p);
      ToBitsZero(8);
    }
  }

  lemma MoreBits(bits: seq<bool>, i: nat)
    requires i < |bits|
    ensures (bits[..i] + Zeros(|bits| - i))[i := bits[i]] == bits[..i + 1] + Zeros(|bits| - i - 1)
    ensures !bits[i] ==> bits[..i] + Zeros(|bits| - i) == bits[..i + 1] + Zeros(|bits| - i - 1)
  {
  }

  // ---------------------------------------------------------------- BitReader

  class Reader {
    const bits: seq<bool>
    var pos: nat

    constructor (data: seq<byte>)
      ensures bits == BytesToBits(data) && pos == 0
    {
      bits, pos := BytesToBits(data), 0;
    }

    /** The next n bits as a number; past the end there is an error. */
    method Get(n: nat) returns (r: Option<nat>)
      requires pos <= |bits|
      modifies this
      ensures pos <= |bits|
      ensures r.Some? <==> old(pos) + n <= |bits|
      ensures r.Some? ==> pos == old(pos) + n && r.value == FromBits(bits[old(pos)..pos])
    {
      var val: nat := 0;
      var i := 0;
      while i < n
        invariant 0 <= i <= n && pos == old(pos) + i <= |bits|
        invariant val == FromBits(bits[old(pos)..pos])
      {
        if pos >= |bits| { return None; }
        assert bits[old(pos)..pos + 1][..i] == bits[old(pos)..pos];
        val := 2 * val + (if bits[pos] then 1 else 0);
        pos := pos + 1;
        i := i + 1;
      }
      r := Some(val);
    }
  }

  // ---------------------------------------------------------------- encode_user

  /** The first fields of the record are written. */
  ghost predicate Written(bits: seq<bool>, vs: seq<nat>) {
    |vs| <= 51 && bits == Pack(vs, Layout()[..|vs|])
  }

  lemma WriteNext(bits: seq<bool>, vs: seq<nat>, v: nat)
    requires Written(bits, vs) && |vs| < 51
    ensures Written(bits + ToBits(v, Layout()[|vs|]), vs + [v])
  {
    var ws := Layout();
    PackAppend(vs, ws[..|vs|], v, ws[|vs|]);
    assert ws[..|vs|] + [ws[|vs|]] == ws[..|vs| + 1];
  }

  method PutHash(w: Writer, hash: string, ghost before: seq<nat>) returns (ok: bool)
    requires |hash| == HASH_CHARS && |before| == 1 && Written(w.bits, before)
    modifies w
    ensures ok <==> forall i :: 0 <= i < |hash| ==> Index(hash[i]).Some?
    ensures ok ==> Written(w.bits, before + HashValues(hash))
  {
    hide Written, Pow2, ToBits, Index;
    var i := 0;
    ghost var vs := before;
    while i < |hash|
      invariant 0 <= i <= |hash| && forall k :: 0 <= k < i ==> Index(hash[k]).Some?
      invariant |vs| == 1 + i && vs == before + HashValues(hash[..i]) && Written(w.bits, vs)
    {
      var d := Index(hash[i]);
      if d.None? { return false; }
      IndexIs(hash[i]);
      Powers();
      LayoutAt(1 + i);
      WriteNext(w.bits, vs, d.value);
      var put := w.Put(d.value, 5);
      vs := vs + [d.value];
      assert HashValues(hash[..i + 1]) == HashValues(hash[..i]) + [d.value];
      i := i + 1;
    }
    assert hash[..i] == hash;
    ok := true;
  }

  method PutName(w: Writer, name: string, ghost before: seq<nat>)
    requires |name| <= NAME_CHARS && (forall i :: 0 <= i < |name| ==> name[i] as int < 128)
    requires |before| == 33 && Written(w.bits, before)
    modifies w
    ensures Written(w.bits, before + NameValues(name))
  {
    hide Written, Pow2, ToBits;
    var padded := name + seq(NAME_CHARS - |name|, _ => 0 as char);
    ghost var all := NameValues(name);
    assert forall k :: 0 <= k < 15 ==> padded[k] as int == all[k];
    assert all[..0] == [] && before + [] == before;
    var i := 0;
    while i < |padded|
      invariant 0 <= i <= |padded| && Written(w.bits, before + all[..i])
    {
      Powers();
      LayoutAt(33 + i);
      WriteNext(w.bits, before + all[..i], all[i]);
      var put := w.Put(padded[i] as int, 7);
      assert before + all[..i] + [all[i]] == before + all[..i + 1];
      i := i + 1;
    }
    assert all[..15] == all;
  }

  lemma LayoutAt(k: nat)
    requires k < 51
    ensures Layout()[k] == if k == 0 then 3 else if k < 33 then 5 else if k < 49 then 7 else if k == 49 then 17 else 28
  {
  }

  /** encode_user */
  method EncodeUser(f: Fields) returns (r: Option<seq<byte>>)
    ensures r == Encode(f)
  {
    hide Written, Pow2, ToBits, Layout, Values, BitsToBytes, HashValues, NameValues, Sum, Index;
    var w := new Writer();
    Powers();
    LayoutAt(0); LayoutAt(48); LayoutAt(49); LayoutAt(50);
    WrittenNone();
    WriteNext([], [], EPOCH);
    var ok := w.Put(EPOCH, 3);
    if |f.hash| != HASH_CHARS { return None; }
    ghost var vs := [EPOCH];
    assert [] + vs == vs && w.bits == [] + ToBits(EPOCH, 3);
    ok := PutHash(w, f.hash, vs);
    if !ok { return None; }
    vs := vs + HashValues(f.hash);
    var i := 0;
    while i < |f.name|
      invariant 0 <= i <= |f.name| && forall k :: 0 <= k < i ==> f.name[k] as int < 128
      invariant Written(w.bits, vs)
    {
      if f.name[i] as int >= 128 { return None; }
      i := i + 1;
    }
    if |f.name| > NAME_CHARS { return None; }
    PutName(w, f.name, vs);
    vs := vs + NameValues(f.name);
    r := PutNumbers(w, f, vs);
  }

  method PutNumbers(w: Writer, f: Fields, ghost vs: seq<nat>) returns (r: Option<seq<byte>>)
    requires |f.hash| == HASH_CHARS && (forall i :: 0 <= i < |f.hash| ==> Index(f.hash[i]).Some?)
    requires |f.name| <= NAME_CHARS && (forall i :: 0 <= i < |f.name| ==> f.name[i] as int < 128)
    requires vs == [EPOCH] + HashValues(f.hash) + NameValues(f.name) && Written(w.bits, vs)
    modifies w
    ensures r == Encode(f)
  {
    hide Pow2, ToBits, BitsToBytes, HashValues, NameValues, Sum, Index, Written, Layout, Pack;
    Powers();
    LayoutAt(48); LayoutAt(49); LayoutAt(50);
    ghost var bits := w.bits;
    var ok := w.Put(f.version, 7);
    if !ok { return None; }
    WriteNext(bits, vs, f.version);
    bits := w.bits;
    ok := w.Put(f.tapeout, 17);
    if !ok { return None; }
    WriteNext(bits, vs + [f.version], f.tapeout);
    bits := w.bits;
    ok := w.Put(f.git, 28);
    if !ok { return None; }
    WriteNext(bits, vs + [f.version] + [f.tapeout], f.git);
    assert vs + [f.version] + [f.tapeout] + [f.git] == Values(f);
    WrittenAll(w.bits, Values(f));
    r := w.Bytes();
  }

  lemma WrittenNone()
    ensures Written([], [])
  {
  }

  lemma WrittenAll(bits: seq<bool>, vs: seq<nat>)
    requires Written(bits, vs) && |vs| == 51
    ensures bits == Pack(vs, Layout()) && |bits| == 320
  {
    hide Layout, Pack;
    LayoutSum();
    assert Layout()[..51] == Layout();
  }

  // ---------------------------------------------------------------- decode_user

  /** The first fields are read; what is left holds the others. */
  ghost predicate Reading(bits: seq<bool>, ws: seq<nat>, pos: nat, vs: seq<nat>) {
    && |vs| <= |ws| && pos <= |bits| && pos + Sum(ws[|vs|..]) == Sum(ws)
    && (|bits| >= Sum(ws) ==> vs + Unpack(bits[pos..], ws[|vs|..]) == Unpack(bits, ws))
  }

  lemma ReadFirst(bits: seq<bool>, ws: seq<nat>)
    ensures Reading(bits, ws, 0, [])
  {
  }

  lemma ReadNext(bits: seq<bool>, ws: seq<nat>, pos: nat, vs: seq<nat>, w: nat)
    requires Reading(bits, ws, pos, vs) && |vs| < |ws| && w == ws[|vs|]
    ensures pos + w <= Sum(ws)
    ensures pos + w <= |bits| ==> Reading(bits, ws, pos + w, vs + [FromBits(bits[pos..pos + w])])
  {
    hide FromBits, Unpack, Sum;
    var later := ws[|vs| + 1..];
    SuffixHead(ws, |vs|);
    SumHead(w, later);
    if pos + w <= |bits| && |bits| >= Sum(ws) {
      var v := FromBits(bits[pos..pos + w]);
      UnpackHead(bits, pos, w, later);
      Associative(vs, [v], Unpack(bits[pos + w..], later));
    }
  }

  lemma SumHead(w: nat, ws: seq<nat>)
    ensures Sum([w] + ws) == w + Sum(ws)
  {
    assert ([w] + ws)[1..] == ws;
  }

  lemma UnpackHead(bits: seq<bool>, pos: nat, w: nat, ws: seq<nat>)
    requires pos + w + Sum(ws) <= |bits|
    ensures Sum([w] + ws) == w + Sum(ws)
    ensures Unpack(bits[pos..], [w] + ws) == [FromBits(bits[pos..pos + w])] + Unpack(bits[pos + w..], ws)
  {
    hide FromBits;
    SumHead(w, ws);
    var us := [w] + ws;
    assert us[1..] == ws && us[0] == w;
    assert bits[pos..][..w] == bits[pos..pos + w] && bits[pos..][w..] == bits[pos + w..];
  }

  lemma ReadAll(bits: seq<bool>, ws: seq<nat>, pos: nat, vs: seq<nat>)
    requires Reading(bits, ws, pos, vs) && |vs| == |ws|
    ensures |bits| >= Sum(ws) && vs == Unpack(bits, ws)
  {
  }

  /** Get, as the next field of the record. */
  method Next(r: Reader, w: nat, ghost ws: seq<nat>, ghost vs: seq<nat>) returns (v: Option<nat>)
    requires |vs| < |ws| && Reading(r.bits, ws, r.pos, vs) && w == ws[|vs|]
    modifies r
    ensures v.None? ==> |r.bits| < Sum(ws)
    ensures v.Some? ==> Reading(r.bits, ws, r.pos, vs + [v.value])
  {
    hide FromBits, Sum;
    ReadNext(r.bits, ws, r.pos, vs, w);
    v := r.Get(w);
  }

  /** n fields of one width. */
  method NextMany(r: Reader, n: nat, w: nat, ghost ws: seq<nat>, vs: seq<nat>) returns (us: Option<seq<nat>>)
    requires |vs| + n <= |ws| && Reading(r.bits, ws, r.pos, vs) && forall k :: |vs| <= k < |vs| + n ==> ws[k] == w
    modifies r
    ensures us.None? ==> |r.bits| < Sum(ws)
    ensures us.Some? ==> |us.value| == |vs| + n && vs <= us.value && Reading(r.bits, ws, r.pos, us.value)
  {
    hide Reading, Sum;
    var all, i := vs, 0;
    while i < n
      invariant 0 <= i <= n && |all| == |vs| + i && vs <= all && Reading(r.bits, ws, r.pos, all)
    {
      var v :- Next(r, w, ws, all);
      all := all + [v];
      i := i + 1;
    }
    us := Some(all);
  }

  /** decode_user */
  method DecodeUser(blob: seq<byte>) returns (f: Option<Fields>)
    ensures f == Decode(blob)
  {
    hide Reading, Layout, BytesToBits, Text, Sum;
    ghost var ws := Layout();
    var r := new Reader(blob);
    LayoutSum();
    ReadFirst(r.bits, ws);
    forall k | 0 <= k < 51
      ensures ws[k] == if k == 0 then 3 else if k < 33 then 5 else if k < 49 then 7 else if k == 49 then 17 else 28
    {
      LayoutAt(k);
    }
    var epoch := Next(r, 3, ws, []);
    if epoch.None? { return None; }
    assert [] + [epoch.value] == [epoch.value];
    if epoch.value != EPOCH {
      EpochFirst(r.bits, r.pos, epoch.value);
      return None;
    }
    var vs :- NextMany(r, 32, 5, ws, [epoch.value]);
    vs :- NextMany(r, 15, 7, ws, vs);
    vs :- NextMany(r, 1, 7, ws, vs);
    vs :- NextMany(r, 1, 17, ws, vs);
    vs :- NextMany(r, 1, 28, ws, vs);
    ReadAll(r.bits, ws, r.pos, vs);
    UnpackPrefix(r.bits, ws);
    PackUnpack(r.bits[..320], ws);
    f := Some(FromValues(vs));
  }

  lemma {:induction false} UnpackPrefix(s: seq<bool>, ws: seq<nat>)
    requires |s| >= Sum(ws)
    ensures Unpack(s[..Sum(ws)], ws) == Unpack(s, ws)
    decreases |ws|
  {
    hide FromBits;
    if ws != [] {
      var w, n := ws[0], Sum(ws);
      UnpackPrefix(s[w..], ws[1..]);
      assert s[..n][..w] == s[..w] && s[..n][w..] == s[w..][..n - w];
    }
  }

  lemma EpochFirst(bits: seq<bool>, pos: nat, epoch: nat)
    requires Reading(bits, Layout(), pos, [epoch])
    ensures Sum(Layout()) == 320
    ensures |bits| >= 320 ==> Unpack(bits[..320], Layout())[0] == epoch
  {
    hide Layout, Sum;
    LayoutSum();
    if |bits| >= 320 {
      UnpackPrefix(bits, Layout());
      var rest := Unpack(bits[pos..], Layout()[1..]);
      assert ([epoch] + rest)[0] == epoch;
    }
  }
}
