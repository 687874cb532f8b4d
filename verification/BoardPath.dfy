/** Board store paths: from /nix/store/<hash>-<name>-<major.minor>-<YYYYMMDD>-<git7> to the fields
    of the eFuse record and back. */
module BoardPath {
  import opened Wrappers
  import opened Bits
  import opened BoardRecord
  import opened BoardNumbers

  const TAPEOUT_BASE := 20250000
  const STORE := "/nix/store"

  // ---------------------------------------------------------------- build_store_path

  function VersionString(version: nat): string { Digits(version / 10, 10) + "." + Digits(version % 10, 10) }

  function DateString(tapeout: nat): string { Padded(Digits(tapeout + TAPEOUT_BASE, 10), 8) }

  function GitString(git: nat): string { Padded(Digits(git, 16), 7) }

  predicate Natural(f: Fields) { f.version >= 0 && f.tapeout >= 0 && f.git >= 0 }

  function Part(present: bool, s: string): string { if present then "-" + s else "" }

  /** What follows the hash, with the strings decode_user makes: an unset part is left out. */
  function Tail(f: Fields): string
    requires Natural(f)
  {
    Part(f.name != "", f.name) + Part(f.version != 0, VersionString(f.version))
    + Part(f.tapeout != 0, DateString(f.tapeout)) + Part(f.git != 0, GitString(f.git))
  }

  /** build_store_path */
  function Rebuilt(f: Fields): string
    requires Natural(f)
  {
    STORE + "/" + (f.hash + Tail(f))
  }

  // ---------------------------------------------------------------- parse_store_path

  /** The pieces of a path: its directory with the last slash, the 32 characters and what the
      last three dashes separate. Where there are only two, Python's slices make `name` all but
      the last character of the version; then it is not `named`. */
  datatype Parts = Parts(dir: string, hash: string, named: bool, name: string,
                         version: string, date: string, git: string)

  function AllButLast(s: string): string { if s == "" then "" else s[..|s| - 1] }

  function SplitRest(dir: string, hash: string, rest: string): Option<Parts> {
    match CutLast(rest, '-')
    case None => None
    case Some((front, git)) =>
      match CutLast(front, '-')
      case None => None
      case Some((ver, date)) =>
        match CutLast(ver, '-')
        case None => Some(Parts(dir, hash, false, AllButLast(ver), ver, date, git))
        case Some((name, version)) => Some(Parts(dir, hash, true, name, version, date, git))
  }

  function SplitBase(dir: string, base: string): Option<Parts> {
    if |base| <= 32 || base[32] != '-' then None else SplitRest(dir, base[..32], base[33..])
  }

  function SplitPath(path: string): Option<Parts> {
    match CutLast(path, '/')
    case None => SplitBase("", path)
    case Some((dir, base)) => SplitBase(dir + "/", base)
  }

  function ReadVersion(s: string): Option<int> {
    match CutLast(s, '.')
    case None => None
    case Some((a, b)) =>
      var major, minor := PyInt(a, 10), PyInt(b, 10);
      if '.' !in a && major.Some? && minor.Some? then Some(major.value * 10 + minor.value) else None
  }

  function Read(p: Parts): Option<Fields> {
    var version, date, git := ReadVersion(p.version), PyInt(p.date, 10), PyInt(p.git, 16);
    if version.Some? && date.Some? && git.Some?
    then Some(Fields(p.hash, p.name, version.value, date.value - TAPEOUT_BASE, git.value)) else None
  }

  function Parse(path: string): Option<Fields> {
    var p := SplitPath(path);
    if p.Some? then Read(p.value) else None
  }

  // ---------------------------------------------------------------- splitting and joining

  /** What follows the hash and its dash. */
  function Rest(p: Parts): string {
    (if p.named then p.name + "-" else "") + p.version + "-" + p.date + "-" + p.git
  }

  function PathOf(p: Parts): string { p.dir + (p.hash + "-" + Rest(p)) }

  predicate WellSplit(p: Parts) {
    && |p.hash| == 32 && '-' !in p.version && '-' !in p.date && '-' !in p.git
    && '/' !in p.hash && '/' !in Rest(p) && (!p.named ==> p.name == AllButLast(p.version))
    && (p.dir == "" || p.dir[|p.dir| - 1] == '/')
  }

  lemma RestSplits(dir: string, hash: string, rest: string)
    requires SplitRest(dir, hash, rest).Some?
    ensures var p := SplitRest(dir, hash, rest).value;
            && p.dir == dir && p.hash == hash && Rest(p) == rest
            && '-' !in p.version && '-' !in p.date && '-' !in p.git
            && (!p.named ==> p.name == AllButLast(p.version))
  {
    hide CutLast, AllButLast, Rest;
    var front := CutLast(rest, '-').value.0;
    var ver := CutLast(front, '-').value.0;
    CutJoins(rest, '-');
    CutJoins(front, '-');
    CutJoins(ver, '-');
    RestIs(SplitRest(dir, hash, rest).value, ver, front, rest);
  }

  lemma RestIs(p: Parts, ver: string, front: string, rest: string)
    requires ver == if p.named then p.name + "-" + p.version else p.version
    requires front == ver + "-" + p.date && rest == front + "-" + p.git
    ensures Rest(p) == rest
  {
    if !p.named { assert "" + p.version == p.version; }
  }

  lemma BaseSplits(base: string)
    requires |base| > 32 && base[32] == '-' && '/' !in base
    ensures base == base[..32] + "-" + base[33..] && '/' !in base[..32] && '/' !in base[33..]
  {
  }

  /** A split is a split of that path. */
  lemma SplitJoins(path: string)
    requires SplitPath(path).Some?
    ensures WellSplit(SplitPath(path).value) && PathOf(SplitPath(path).value) == path
  {
    hide CutLast, SplitRest, Rest, AllButLast;
    CutJoins(path, '/');
    var cut := CutLast(path, '/');
    var base := if cut.Some? then cut.value.1 else path;
    BaseSplits(base);
    RestSplits(if cut.Some? then cut.value.0 + "/" else "", base[..32], base[33..]);
    if cut.None? { assert "" + path == path; }
  }

  lemma RestJoins(p: Parts)
    requires '-' !in p.version && '-' !in p.date && '-' !in p.git && (!p.named ==> p.name == AllButLast(p.version))
    ensures SplitRest(p.dir, p.hash, Rest(p)) == Some(p)
  {
    hide CutLast, AllButLast, Rest;
    var ver := if p.named then p.name + "-" + p.version else p.version;
    RestIs(p, ver, ver + "-" + p.date, ver + "-" + p.date + "-" + p.git);
    JoinCuts(ver + "-" + p.date, '-', p.git);
    JoinCuts(ver, '-', p.date);
    if p.named { JoinCuts(p.name, '-', p.version); } else { NoCut(ver, '-'); }
  }

  lemma BaseJoins(p: Parts)
    requires WellSplit(p)
    ensures SplitBase(p.dir, p.hash + "-" + Rest(p)) == Some(p)
  {
    hide CutLast, SplitRest, Rest, AllButLast;
    var base := p.hash + "-" + Rest(p);
    assert base[..32] == p.hash && base[33..] == Rest(p);
    RestJoins(p);
  }

  /** And every split is found again. */
  lemma JoinSplits(p: Parts)
    requires WellSplit(p)
    ensures SplitPath(PathOf(p)) == Some(p)
  {
    hide CutLast, SplitBase, Rest, AllButLast;
    var base := p.hash + "-" + Rest(p);
    BaseJoins(p);
    assert '/' !in base;
    if p.dir == "" {
      assert PathOf(p) == base;
      NoCut(base, '/');
    } else {
      var a := p.dir[..|p.dir| - 1];
      assert p.dir == a + ['/'];
      JoinCuts(a, '/', base);
    }
  }

  // ---------------------------------------------------------------- canonical paths

  /** Digits, a dot and one digit; no leading zero. */
  predicate CanonicalVersion(s: string) {
    match CutLast(s, '.')
    case None => false
    case Some((major, minor)) => Plain(major, 10) && NoLeadingZero(major) && Plain(minor, 10) && |minor| == 1
  }

  /** In /nix/store/, with a name, a canonical version, an 8-digit date and 7 lower-case
      hexadecimal digits. */
  predicate Canonical(path: string) {
    var p := SplitPath(path);
    && p.Some? && p.value.dir == STORE + "/" && p.value.named && CanonicalVersion(p.value.version)
    && |p.value.date| == 8 && Plain(p.value.date, 10) && |p.value.git| == 7 && Plain(p.value.git, 16)
  }

  /** No part is zero or empty. */
  predicate AllSet(f: Fields) { f.name != "" && f.version != 0 && f.tapeout != 0 && f.git != 0 }

  lemma VersionIs(s: string)
    requires CanonicalVersion(s)
    ensures ReadVersion(s).Some? && ReadVersion(s).value >= 0 && VersionString(ReadVersion(s).value) == s
  {
    hide CutLast, Plain, Digits, Digitwise, PyInt, NoLeadingZero;
    var (a, b) := CutLast(s, '.').value;
    CutJoins(s, '.');
    PlainInt(a, 10);
    PlainInt(b, 10);
    NotIn(a, 10, '.');
    DigitsIsAll(a, 10, Digitwise(a, 10).value);
    OneDigit(b);
    DigitsIsAll(b, 10, Digitwise(b, 10).value);
    assert s == a + "." + b;
  }

  lemma OneDigit(b: string)
    requires |b| == 1 && Plain(b, 10)
    ensures NoLeadingZero(b) && Digitwise(b, 10).Some? && Digitwise(b, 10).value < 10
  {
    assert b[..0] == "" && IsDigit(b[0], 10);
    assert Digitwise(b[..0], 10) == Some(0);
  }

  lemma PaddedNumber(s: string, base: nat, width: nat)
    requires 2 <= base <= 16 && |s| == width && Plain(s, base)
    ensures PyInt(s, base).Some? && PyInt(s, base).value >= 0 && Padded(Digits(PyInt(s, base).value, base), width) == s
  {
    hide Plain, Digits, Digitwise, PyInt, Padded;
    PlainInt(s, base);
    PaddedIsAll(s, base, Digitwise(s, base).value);
  }

  /** A canonical path with all its parts set is rebuilt. */
  lemma CanonicalRebuilds(path: string, f: Fields)
    requires Parse(path) == Some(f) && Natural(f) && AllSet(f) && Canonical(path)
    ensures Rebuilt(f) == path
  {
    hide CutLast, Plain, Digits, PyInt, Padded, SplitPath, ReadVersion, VersionString, CanonicalVersion;
    var p := SplitPath(path).value;
    SplitJoins(path);
    VersionIs(p.version);
    PaddedNumber(p.date, 10, 8);
    PaddedNumber(p.git, 16, 7);
    assert DateString(f.tapeout) == p.date;
    assert Tail(f) == "-" + Rest(p);
    assert f.hash + Tail(f) == p.hash + "-" + Rest(p);
  }

  // ---------------------------------------------------------------- only canonical paths

  lemma VersionCanonical(version: nat)
    ensures CanonicalVersion(VersionString(version)) && '-' !in VersionString(version) && '/' !in VersionString(version)
    ensures 0 as char !in VersionString(version)
  {
    hide Digits, Plain, CutLast, NoLeadingZero;
    var a, b := Digits(version / 10, 10), Digits(version % 10, 10);
    DigitsRead(version / 10, 10);
    DigitsRead(version % 10, 10);
    LeadingDigit(version / 10, 10);
    OneLong(version % 10);
    NotIn(a, 10, '-'); NotIn(a, 10, '/'); NotIn(a, 10, 0 as char);
    NotIn(b, 10, '-'); NotIn(b, 10, '/'); NotIn(b, 10, 0 as char);
    NotIn(b, 10, '.');
    JoinCuts(a, '.', b);
    assert a + ['.'] + b == VersionString(version);
  }

  lemma OneLong(n: nat)
    requires n < 10
    ensures |Digits(n, 10)| == 1
  {
  }

  lemma PaddedPlain(n: nat, base: nat, width: nat)
    requires 2 <= base <= 16
    ensures var s := Padded(Digits(n, base), width);
            Plain(s, base) && '-' !in s && '/' !in s && 0 as char !in s
    ensures width > 0 && n < Power(base, width) ==> |Padded(Digits(n, base), width)| == width
  {
    hide Digits, Plain, Padded, Digitwise;
    DigitsRead(n, base);
    PaddedReads(Digits(n, base), width, base, n);
    var s := Padded(Digits(n, base), width);
    NotIn(s, base, '-'); NotIn(s, base, '/'); NotIn(s, base, 0 as char);
    if width > 0 && n < Power(base, width) { DigitsLength(n, base, width); }
  }

  lemma Widths()
    ensures Power(10, 8) == 1_0000_0000 && Power(16, 7) == 0x1000_0000
  {
    assert Power(10, 4) == 10000;
    assert Power(10, 8) == 10000 * Power(10, 4);
    assert Power(16, 4) == 0x1_0000;
    assert Power(16, 7) == 0x1000 * Power(16, 4);
  }

  /** What the strings of a record look like. */
  lemma Strings(f: Fields)
    requires Encodable(f)
    ensures CanonicalVersion(VersionString(f.version)) && Plain(DateString(f.tapeout), 10) && Plain(GitString(f.git), 16)
    ensures |DateString(f.tapeout)| == 8 && |GitString(f.git)| == 7
    ensures '-' !in VersionString(f.version) && '-' !in DateString(f.tapeout) && '-' !in GitString(f.git)
    ensures '/' !in VersionString(f.version) && '/' !in DateString(f.tapeout) && '/' !in GitString(f.git)
    ensures 0 as char !in VersionString(f.version) && 0 as char !in DateString(f.tapeout) && 0 as char !in GitString(f.git)
  {
    hide VersionString, CanonicalVersion, Plain, Digits, Padded, Power;
    Widths();
    VersionCanonical(f.version);
    PaddedPlain(f.tapeout + TAPEOUT_BASE, 10, 8);
    PaddedPlain(f.git, 16, 7);
  }

  function One(b: bool): nat { if b then 1 else 0 }

  lemma PartDashes(present: bool, s: string)
    ensures Count(Part(present, s), '-') == if present then 1 + Count(s, '-') else 0
  {
    hide Count;
    CountConcat("-", s, '-');
    CountOne('-');
    CountNone("", '-');
  }

  lemma TailDashes(f: Fields)
    requires Encodable(f)
    ensures Count(Tail(f), '-')
         == (if f.name != "" then 1 + Count(f.name, '-') else 0) + One(f.version != 0) + One(f.tapeout != 0) + One(f.git != 0)
  {
    hide Count, Part, VersionString, DateString, GitString, CanonicalVersion, Plain, Index;
    var v, d, g := VersionString(f.version), DateString(f.tapeout), GitString(f.git);
    Strings(f);
    CountNone(v, '-'); CountNone(d, '-'); CountNone(g, '-');
    var n0, v0, d0, g0 := Part(f.name != "", f.name), Part(f.version != 0, v), Part(f.tapeout != 0, d), Part(f.git != 0, g);
    PartDashes(f.name != "", f.name);
    PartDashes(f.version != 0, v);
    PartDashes(f.tapeout != 0, d);
    PartDashes(f.git != 0, g);
    CountConcat(n0 + v0 + d0, g0, '-');
    CountConcat(n0 + v0, d0, '-');
    CountConcat(n0, v0, '-');
  }

  lemma RestDashes(p: Parts)
    requires '-' !in p.version && '-' !in p.date && '-' !in p.git
    ensures Count("-" + Rest(p), '-') == 3 + if p.named then 1 + Count(p.name, '-') else 0
  {
    hide Count;
    var front := if p.named then p.name + "-" else "";
    CountOne('-');
    CountNone(p.version, '-'); CountNone(p.date, '-'); CountNone(p.git, '-'); CountNone("", '-');
    CountConcat(p.name, "-", '-');
    CountConcat("-", Rest(p), '-');
    CountConcat(front + p.version + "-" + p.date + "-", p.git, '-');
    CountConcat(front + p.version + "-" + p.date, "-", '-');
    CountConcat(front + p.version + "-", p.date, '-');
    CountConcat(front + p.version, "-", '-');
    CountConcat(front, p.version, '-');
  }

  lemma EarlyDash(name: string, others: string, version: string, more: string)
    requires others != "" && others[0] == '-' && version != "" && name == AllButLast(version) && '-' !in version
    ensures "-" + name + others != "-" + (version + more)
  {
    var n := |name|;
    assert ("-" + name + others)[n + 1] == '-';
    assert ("-" + (version + more))[n + 1] == version[n];
  }

  /** Where the name was cut from the version, the rebuilt path has a dash too early. */
  lemma CutNameDiffers(p: Parts, f: Fields)
    requires Encodable(f) && !p.named && f.name == p.name == AllButLast(p.version) && p.name != ""
    requires '-' !in p.version && (f.version != 0 || f.tapeout != 0 || f.git != 0)
    ensures Tail(f) != "-" + Rest(p)
  {
    hide VersionString, DateString, GitString, Index, Part, Rest, AllButLast;
    var a, b, c := Part(f.version != 0, VersionString(f.version)), Part(f.tapeout != 0, DateString(f.tapeout)),
                   Part(f.git != 0, GitString(f.git));
    FirstIsDash(f.version != 0, VersionString(f.version), f.tapeout != 0, DateString(f.tapeout), f.git != 0, GitString(f.git));
    var more := "-" + p.date + "-" + p.git;
    if p.version == "" { NoneButLast(); }
    EarlyDash(p.name, a + b + c, p.version, more);
    TailAfterName(p.name, a, b, c);
    RestUnnamed(p);
  }

  lemma TailAfterName(name: string, a: string, b: string, c: string)
    requires name != ""
    ensures Part(name != "", name) + a + b + c == "-" + name + (a + b + c)
  {
  }

  lemma RestUnnamed(p: Parts)
    requires !p.named
    ensures Rest(p) == p.version + ("-" + p.date + "-" + p.git)
  {
    assert "" + p.version == p.version;
  }

  lemma NoneButLast()
    ensures AllButLast("") == ""
  {
  }

  lemma FirstIsDash(a: bool, x: string, b: bool, y: string, c: bool, z: string)
    requires a || b || c
    ensures var s := Part(a, x) + Part(b, y) + Part(c, z); s != "" && s[0] == '-'
  {
  }

  /** Only a path with all its parts is rebuilt. */
  lemma RebuiltHasAll(p: Parts, f: Fields)
    requires WellSplit(p) && Read(p) == Some(f) && Encodable(f) && Tail(f) == "-" + Rest(p)
    ensures AllSet(f) && p.named
  {
    hide Tail, Rest, Count, Index, PyInt, CutLast;
    TailDashes(f);
    RestDashes(p);
    if !p.named {
      VersionLong(p.version);
      CountNone(p.version, '-');
      NameDashes(p.version);
      CutNameDiffers(p, f);
    }
  }

  lemma VersionLong(s: string)
    requires ReadVersion(s).Some?
    ensures |s| >= 3
  {
    hide CutLast;
    CutJoins(s, '.');
  }

  lemma NameDashes(version: string)
    requires '-' !in version
    ensures Count(AllButLast(version), '-') == 0
  {
    hide Count;
    CountNone(AllButLast(version), '-');
  }

  lemma RebuiltIsCanonical(path: string, f: Fields)
    requires Parse(path) == Some(f) && Encodable(f) && Rebuilt(f) == path
    ensures AllSet(f) && Canonical(path)
  {
    hide CutLast, SplitRest, Tail, VersionString, DateString, GitString, CanonicalVersion, Plain, Index, PyInt, Rest;
    var p := SplitPath(path).value;
    SplitJoins(path);
    Strings(f);
    TailHasNoSlash(p, f);
    assert path == STORE + ['/'] + (f.hash + Tail(f));
    JoinCuts(STORE, '/', f.hash + Tail(f));
    assert p.dir == STORE + "/" by { DirOf(path, STORE, f.hash + Tail(f)); }
    SameSuffix(p.dir, f.hash + Tail(f), p.hash + "-" + Rest(p));
    assert p.hash + "-" + Rest(p) == p.hash + ("-" + Rest(p));
    SameSuffix(p.hash, Tail(f), "-" + Rest(p));
    RebuiltHasAll(p, f);
    SameParts(p, f);
  }

  lemma SameSuffix(d: string, x: string, y: string)
    requires d + x == d + y
    ensures x == y
  {
    assert (d + x)[|d|..] == x && (d + y)[|d|..] == y;
  }

  lemma DirOf(path: string, dir: string, base: string)
    requires CutLast(path, '/') == Some((dir, base)) && SplitPath(path).Some?
    ensures SplitPath(path).value.dir == dir + "/"
  {
    hide CutLast;
  }

  lemma TailHasNoSlash(p: Parts, f: Fields)
    requires WellSplit(p) && Encodable(f) && f.name == p.name && f.hash == p.hash
    ensures '/' !in f.hash + Tail(f)
  {
    hide VersionString, DateString, GitString, CanonicalVersion, Plain, Index;
    Strings(f);
    if '/' in p.name { NameInRest(p, '/'); }
  }

  lemma NameInRest(p: Parts, c: char)
    requires WellSplit(p) && c in p.name
    ensures c in Rest(p)
  {
    if p.named { assert Rest(p)[..|p.name|] == p.name; }
    else { assert Rest(p)[..|p.name|] == p.name; }
  }

  /** Equal strings have equal parts. */
  lemma SameParts(p: Parts, f: Fields)
    requires Encodable(f) && AllSet(f) && p.named && f.name == p.name && Tail(f) == "-" + Rest(p)
    requires '-' !in p.version && '-' !in p.date && '-' !in p.git
    ensures VersionString(f.version) == p.version && DateString(f.tapeout) == p.date && GitString(f.git) == p.git
  {
    hide VersionString, DateString, GitString, CanonicalVersion, Plain, Index, CutLast;
    var v, d, g := VersionString(f.version), DateString(f.tapeout), GitString(f.git);
    Strings(f);
    var a, b := "-" + p.name + "-" + v, "-" + p.name + "-" + p.version;
    assert Tail(f) == a + "-" + d + ['-'] + g;
    assert "-" + Rest(p) == b + "-" + p.date + ['-'] + p.git;
    CutUnique(a + "-" + d, g, '-', b + "-" + p.date, p.git);
    CutUnique(a, d, '-', b, p.date);
    CutUnique("-" + p.name, v, '-', "-" + p.name, p.version);
  }

  // ---------------------------------------------------------------- path to record to path

  lemma NulStays(path: string, f: Fields)
    requires Parse(path) == Some(f) && Encodable(f) && !Nulless(f.name)
    ensures Rebuilt(f.(name := BeforeNul(f.name))) != path
  {
    hide CutLast, SplitRest, VersionString, DateString, GitString, CanonicalVersion, Plain, PyInt, Rest, SplitPath, Index;
    var z := 0 as char;
    var p := SplitPath(path).value;
    SplitJoins(path);
    NameInRest(p, z);
    assert z in path;
    var g := f.(name := BeforeNul(f.name));
    Strings(f);
    BeforeNulHasNone(f.name);
    HashHasNoNul(f.hash);
    assert z !in Tail(g);
    assert z !in STORE + "/";
  }

  lemma {:induction false} BeforeNulHasNone(name: string)
    ensures 0 as char !in BeforeNul(name)
    decreases |name|
  {
    if name != "" { BeforeNulHasNone(name[1..]); }
  }

  lemma HashHasNoNul(hash: string)
    requires forall i :: 0 <= i < |hash| ==> Index(hash[i]).Some?
    ensures 0 as char !in hash
  {
  }

  /** For every path that parses and encodes: encoding it into the eFuse record, decoding that and
      rebuilding the path gives back the path if and only if its name has no NUL, no part is zero or
      empty, and it is written canonically. */
  lemma StorePathRoundTrip(path: string, f: Fields)
    requires Parse(path) == Some(f) && Encodable(f)
    ensures Encode(f).Some? && Decode(Encode(f).value).Some? && Natural(Decode(Encode(f).value).value)
    ensures Rebuilt(Decode(Encode(f).value).value) == path <==> Nulless(f.name) && AllSet(f) && Canonical(path)
  {
    hide Parse, Rebuilt, Canonical, Encode, Decode, BeforeNul, Nulless;
    DecodeEncode(f);
    BeforeNulIff(f.name);
    if !Nulless(f.name) {
      NulStays(path, f);
    } else {
      if AllSet(f) && Canonical(path) { CanonicalRebuilds(path, f); }
      if Rebuilt(f) == path { RebuiltIsCanonical(path, f); }
    }
  }

  // ---------------------------------------------------------------- canonical paths parse

  /** The parts of a record's own path. */
  function PartsOf(f: Fields): Parts
    requires Natural(f)
  {
    Parts(STORE + "/", f.hash, true, f.name, VersionString(f.version), DateString(f.tapeout), GitString(f.git))
  }

  /** The path of a record with all its parts parses to it, whatever dashes its name has, and is
      canonical; so every record has a path that comes back. */
  lemma PathParses(f: Fields)
    requires Encodable(f) && '/' !in f.name
    ensures Parse(PathOf(PartsOf(f))) == Some(f) && Canonical(PathOf(PartsOf(f)))
  {
    hide VersionString, DateString, GitString, CutLast, SplitPath, CanonicalVersion, Plain, PathOf, ReadVersion, PyInt, Index;
    var p := PartsOf(f);
    Strings(f);
    HashHasNoSlash(f.hash);
    JoinSplits(p);
    VersionReads(f.version);
    RecordReads(f);
  }

  lemma HashHasNoSlash(hash: string)
    requires forall i :: 0 <= i < |hash| ==> Index(hash[i]).Some?
    ensures '/' !in hash
  {
  }

  lemma VersionReads(version: nat)
    ensures ReadVersion(VersionString(version)) == Some(version)
  {
    hide Digits, Plain, Digitwise, CutLast, PyInt;
    var a, b := Digits(version / 10, 10), Digits(version % 10, 10);
    DigitsRead(version / 10, 10);
    DigitsRead(version % 10, 10);
    PlainInt(a, 10);
    PlainInt(b, 10);
    NotIn(a, 10, '.');
    NotIn(b, 10, '.');
    JoinCuts(a, '.', b);
    assert a + ['.'] + b == VersionString(version);
  }

  lemma NumberReads(n: nat, base: nat, width: nat)
    requires 2 <= base <= 16
    ensures PyInt(Padded(Digits(n, base), width), base) == Some(n)
  {
    hide Digits, Plain, Digitwise, PyInt, Padded;
    DigitsRead(n, base);
    PaddedReads(Digits(n, base), width, base, n);
    PlainInt(Padded(Digits(n, base), width), base);
  }

  // ---------------------------------------------------------------- version 2.10

  /** The same version with a minor of two digits. */
  function LongMinor(version: nat): string
    requires version >= 10
  {
    Digits(version / 10 - 1, 10) + "." + Digits(10 + version % 10, 10)
  }

  lemma LongMinorReads(version: nat)
    requires version >= 10
    ensures ReadVersion(LongMinor(version)) == Some(version)
    ensures '-' !in LongMinor(version) && '/' !in LongMinor(version)
  {
    hide Digits, Plain, Digitwise, CutLast, PyInt;
    var a, b := Digits(version / 10 - 1, 10), Digits(10 + version % 10, 10);
    DigitsRead(version / 10 - 1, 10);
    DigitsRead(10 + version % 10, 10);
    PlainInt(a, 10);
    PlainInt(b, 10);
    NotIn(a, 10, '.'); NotIn(a, 10, '-'); NotIn(a, 10, '/');
    NotIn(b, 10, '.'); NotIn(b, 10, '-'); NotIn(b, 10, '/');
    JoinCuts(a, '.', b);
    assert a + ['.'] + b == LongMinor(version);
  }

  /** A minor version of two digits does not come back, though every part is set: the path parses to
      the record of another path. So 2.10 is stored as 30 and rebuilt as 3.0. */
  lemma TwoDigitMinorIsLost(f: Fields)
    requires Encodable(f) && Nulless(f.name) && AllSet(f) && '/' !in f.name && f.version >= 10
    ensures var path := PathOf(PartsOf(f).(version := LongMinor(f.version)));
            Parse(path) == Some(f) && Rebuilt(f) != path
    ensures LongMinor(30) == "2.10" && VersionString(30) == "3.0"
  {
    hide VersionString, DateString, GitString, CutLast, SplitPath, CanonicalVersion, Plain, PathOf, ReadVersion, PyInt, Index,
         LongMinor, Rebuilt, Tail;
    var p := PartsOf(f).(version := LongMinor(f.version));
    Strings(f);
    HashHasNoSlash(f.hash);
    LongMinorReads(f.version);
    JoinSplits(p);
    RecordReads(f);
    assert Parse(PathOf(p)) == Some(f);
    TwoTen();
    if Rebuilt(f) == PathOf(p) {
      RebuiltIsCanonical(PathOf(p), f);
      LongMinorIsLong(f.version);
    }
  }

  lemma RecordReads(f: Fields)
    requires Natural(f)
    ensures PyInt(DateString(f.tapeout), 10) == Some(f.tapeout + TAPEOUT_BASE) && PyInt(GitString(f.git), 16) == Some(f.git)
  {
    hide PyInt, Digits, Padded;
    NumberReads(f.tapeout + TAPEOUT_BASE, 10, 8);
    NumberReads(f.git, 16, 7);
  }

  lemma LongMinorIsLong(version: nat)
    requires version >= 10
    ensures !CanonicalVersion(LongMinor(version))
  {
    hide Digits, Plain, CutLast, NoLeadingZero;
    var a, b := Digits(version / 10 - 1, 10), Digits(10 + version % 10, 10);
    DigitsRead(10 + version % 10, 10);
    NotIn(b, 10, '.');
    JoinCuts(a, '.', b);
    assert a + ['.'] + b == LongMinor(version);
    TwoLong(version % 10);
  }

  lemma TwoLong(n: nat)
    requires n < 10
    ensures |Digits(10 + n, 10)| == 2
  {
    assert Digits(10 + n, 10) == Digits(1, 10) + [DigitChar(n)];
  }

  lemma TwoTen()
    ensures LongMinor(30) == "2.10" && VersionString(30) == "3.0"
  {
    assert Digits(2, 10) == "2" && Digits(3, 10) == "3" && Digits(0, 10) == "0" && Digits(1, 10) == "1";
    assert Digits(10, 10) == Digits(1, 10) + "0";
    assert 30 / 10 == 3 && 30 % 10 == 0;
  }

  // ---------------------------------------------------------------- a known board

  /** The tapeout counts from 20250000: 20260706 is stored as 10706. */
  lemma DateIs()
    ensures DateString(10706) == "20260706"
  {
    hide Digits;
    OneMore(20260706, 10, 2026070, 6);
    OneMore(2026070, 10, 202607, 0);
    OneMore(202607, 10, 20260, 7);
    OneMore(20260, 10, 2026, 0);
    OneMore(2026, 10, 202, 6);
    OneMore(202, 10, 20, 2);
    OneMore(20, 10, 2, 0);
    Single(2, 10);
  }

  lemma GitIs()
    ensures GitString(0x07f6efc) == "07f6efc"
  {
    hide Digits;
    OneMore(0x7f6efc, 16, 0x7f6ef, 12);
    OneMore(0x7f6ef, 16, 0x7f6e, 15);
    OneMore(0x7f6e, 16, 0x7f6, 14);
    OneMore(0x7f6, 16, 0x7f, 6);
    OneMore(0x7f, 16, 7, 15);
    Single(7, 16);
    assert Digits(0x7f6efc, 16) == "7f6efc";
    OneZero("7f6efc", 7);
  }

  lemma OneZero(s: string, width: nat)
    requires width == |s| + 1
    ensures Padded(s, width) == "0" + s
  {
  }

  function Board(hash: string): Fields { Fields(hash, "nix-badge-board", 20, 10706, 0x07f6efc) }

  /** The board of the layout's own examples is encodable, for any hash, and its path is this one. */
  lemma KnownBoard(hash: string)
    requires |hash| == 32 && forall i :: 0 <= i < 32 ==> hash[i] in NIX32
    ensures Encodable(Board(hash))
    ensures Rebuilt(Board(hash)) ==
              "/nix/store" + "/" + (hash + (("-" + "nix-badge-board") + ("-" + "2.0") + ("-" + "20260706") + ("-" + "07f6efc")))
  {
    BoardEncodable(hash);
    hide Encodable, VersionString, DateString, GitString;
    DateIs();
    GitIs();
    VersionTwo();
  }

  lemma BoardEncodable(hash: string)
    requires |hash| == 32 && forall i :: 0 <= i < 32 ==> hash[i] in NIX32
    ensures Encodable(Board(hash))
  {
    hide Index;
    forall i | 0 <= i < 32 ensures Index(hash[i]).Some? { IndexIs(hash[i]); }
  }

  lemma VersionTwo()
    ensures VersionString(20) == "2.0"
  {
    hide Digits;
    Single(2, 10);
    Single(0, 10);
  }

  lemma OneMore(n: nat, base: nat, q: nat, d: nat)
    requires 2 <= base <= 16 && q > 0 && d < base && n == base * q + d
    ensures Digits(n, base) == Digits(q, base) + [DigitChar(d)]
  {
    DivUnique(n, base, q, d);
    Bits.MulAtLeast(q, base);
  }

  lemma Single(d: nat, base: nat)
    requires 2 <= base <= 16 && d < base
    ensures Digits(d, base) == [DigitChar(d)]
  {
  }
}
