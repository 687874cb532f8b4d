/** Page flips of soph_drm: commits stage into the display's shadow registers, a hardware frame
    start latches them, a polling timer completes the flips. One atomic step at a time. */
module PageFlip {
  import opened Wrappers

  const PARK_PITCH := 256   // 80 pixels of RGB888 padded to 32 bytes
  const PARK_SIZE := 80
  const OVERSAMPLE := 4

  datatype Format = BgrPacked | Nv12
  datatype Csc = CscNone | Full601 | Limit601 | Full709 | Limit709

  /** Everything the video layer scans a buffer with. */
  datatype Layer = Layer(fmt: Format, csc: Csc, pitchY: nat, pitchC: nat, width: nat, height: nat,
                         addr0: int, addr1: int, addr2: int)

  /** One register bank: the video layer and the address of the overlay window. */
  datatype Bank = Bank(video: Layer, gop: int)

  /** What was last asked of the display. */
  datatype Request = Video(layer: Layer) | Gop(addr: int) | Park

  /** What sclr_disp_set_layer() last wrote, as the driver remembers it. */
  datatype Cache = Cache(fmt: Format, csc: Csc, pitchY: nat, pitchC: nat)

  /** What a modeset turns to: the video layer, the overlay, or nothing. */
  datatype Mode = ToVideo(layer: Layer) | ToOverlay(addr: int) | Off

  /** Where the driver is: outside; in a commit, between the two windows of an address-only write,
      written but with the frame-start status not yet cleared, or unlocked with its event still to be
      armed; or in a modeset, after its first k register writes on the shadow bank `from`. */
  datatype Commit = Idle | Addresses(layer: Layer) | Locked | Unlocked | Modeset(mode: Mode, k: nat, from: Bank)

  /** How an event reached the compositor: at a frame start the poller saw, at its no-frame-start
      fallback, or with vblanks off. */
  datatype Kind = Real | Fallback | VblankOff

  /** `live` is the number of requests the working bank had seen, `bank` its contents. */
  datatype Delivery = Delivery(flip: nat, kind: Kind, live: nat, bank: Bank)

  /** `torn` is the number of a modeset's writes the working bank holds, if a frame start took a
      layer that was not whole. */
  datatype State = State(
    shadow: Bank, working: Bank, torn: Option<nat>, status: bool,
    cache: Option<Cache>, miss: nat, gate: nat,
    commit: Commit, armed: seq<nat>, vblanks: bool,
    requests: seq<Request>, live: nat, log: seq<Delivery>)

  /** The panel's own mode and the address of the driver's small black buffer. */
  datatype Config = Config(width: nat, height: nat, park: int)

  function Remember(l: Layer): Cache { Cache(l.fmt, l.csc, l.pitchY, l.pitchC) }

  // ---------------------------------------------------------------- register writes

  /** sclr_disp_set_mem(), first window: geometry and pitches. */
  function SetGeometry(b: Bank, pitchY: nat, pitchC: nat, width: nat, height: nat): Bank {
    b.(video := b.video.(pitchY := pitchY, pitchC := pitchC, width := width, height := height))
  }

  /** Second window: the addresses of all planes. */
  function SetAddresses(b: Bank, a0: int, a1: int, a2: int): Bank {
    b.(video := b.video.(addr0 := a0, addr1 := a1, addr2 := a2))
  }

  /** sclr_disp_set_layer(): everything in one window. */
  function SetLayer(b: Bank, l: Layer): Bank { b.(video := l) }

  function Parked(c: Config, b: Bank): Bank {
    SetAddresses(SetGeometry(b, PARK_PITCH, PARK_PITCH, PARK_SIZE, PARK_SIZE), c.park, c.park, c.park)
  }

  /** One register window of a modeset, or a forced update. */
  datatype Write =
    | Geometry(layer: Layer) | Planes(layer: Layer) | Colours(layer: Layer)  // sclr_disp_set_cfg()
    | Whole(layer: Layer)                                                    // soph_video_load
    | ParkGeometry | ParkPlanes                                              // soph_video_park
    | Overlay(addr: int)                                                     // soph_gop_set
    | Force                                                                  // sclr_disp_reg_force_up()

  /** soph_pipe_enable and soph_pipe_disable, window by window. */
  function Writes(m: Mode): seq<Write> {
    match m
    case ToVideo(l) => [Geometry(l), Planes(l), Colours(l), Whole(l), Force]
    case ToOverlay(g) => [ParkGeometry, ParkPlanes, Overlay(g), Force, Force]
    case Off => [ParkGeometry, ParkPlanes, Force]
  }

  /** After so many of them the video layer is whole again. */
  function Group(m: Mode): nat { if m.ToVideo? then 3 else 2 }

  /** And after so many the driver has set what it remembers. */
  function Recalls(m: Mode): nat { if m.ToVideo? then 4 else 2 }

  predicate Midway(m: Commit) { m.Modeset? && 0 < m.k < Group(m.mode) }

  function Apply(c: Config, b: Bank, w: Write): Bank {
    match w
    case Geometry(l) => SetGeometry(b, l.pitchY, l.pitchC, l.width, l.height)
    case Planes(l) => SetAddresses(b, l.addr0, l.addr1, l.addr2)
    case Colours(l) => b.(video := b.video.(fmt := l.fmt, csc := l.csc))
    case Whole(l) => SetLayer(b, l)
    case ParkGeometry => SetGeometry(b, PARK_PITCH, PARK_PITCH, PARK_SIZE, PARK_SIZE)
    case ParkPlanes => SetAddresses(b, c.park, c.park, c.park)
    case Overlay(g) => b.(gop := g)
    case Force => b
  }

  /** The bank after the first k writes. */
  function Written(c: Config, m: Mode, b: Bank, k: nat): Bank
    requires k <= |Writes(m)|
  {
    if k == 0 then b else Apply(c, Written(c, m, b, k - 1), Writes(m)[k - 1])
  }

  /** The request a write completes. */
  function Completes(w: Write): seq<Request> {
    match w
    case Colours(l) => [Video(l)]
    case Whole(l) => [Video(l)]
    case ParkPlanes => [Park]
    case Overlay(g) => [Gop(g)]
    case _ => []
  }

  // ---------------------------------------------------------------- steps

  datatype Step =
    | BeginVideo(layer: Layer)   // soph_video_stage: the first register window
    | WriteAddresses             // the second, of an address-only write
    | BeginGop(addr: int)        // soph_gop_set
    | ClearStatus                // forget the frame starts seen so far, unlock
    | Arm(event: bool)           // arm the event, or send it if vblanks are off
    | FrameStart                 // hardware: the shadow bank goes live
    | Tick(div: nat)             // soph_vbl_fn
    | EnableVideo(layer: Layer) | EnableGop(addr: int) | EnableNothing
    | Disable                    // vblanks off, which sends what is armed
    | ModesetWrite               // the next register write of an enable or a disable

  /** flip_lock keeps the poller out of a commit's register writes; modesets and commits come
      one after the other. With `serial`, a commit also waits for the previous flip's event, as
      the DRM core makes it. */
  predicate Enabled(c: Config, serial: bool, s: State, a: Step) {
    match a
    case BeginVideo(l) => s.commit.Idle? && (serial ==> s.armed == []) && l.width == c.width && l.height == c.height
    case BeginGop(_) => s.commit.Idle? && (serial ==> s.armed == [])
    case WriteAddresses => s.commit.Addresses?
    case ClearStatus => s.commit.Locked?
    case Arm(_) => s.commit.Unlocked?
    case FrameStart => true
    case Tick(_) => s.commit.Idle? || s.commit.Unlocked?
    case EnableVideo(l) => s.commit.Idle? && !s.vblanks && l.width == c.width && l.height == c.height
    case EnableGop(_) => s.commit.Idle? && !s.vblanks
    case EnableNothing => s.commit.Idle? && !s.vblanks
    case Disable => s.commit.Idle? && s.vblanks
    case ModesetWrite => s.commit.Modeset? && s.commit.k < |Writes(s.commit.mode)|
  }

  /** sclr_disp_reg_force_up(): the shadow bank goes live at once. */
  function ForceUp(s: State): State { s.(working := s.shadow, torn := None, live := |s.requests|) }

  /** What the driver remembers after a write: nothing of a parked layer. */
  function Recalled(cache: Option<Cache>, w: Write): Option<Cache> {
    match w
    case Whole(l) => Some(Remember(l))
    case ParkPlanes => None
    case _ => cache
  }

  function WriteOne(c: Config, s: State, w: Write): State {
    var t := s.(shadow := Apply(c, s.shadow, w), cache := Recalled(s.cache, w), requests := s.requests + Completes(w));
    if w.Force? then ForceUp(t) else t
  }

  /** The next write of a modeset; after the last one it is over, and vblanks run unless it was a
      disable. */
  function WriteNext(c: Config, s: State): State {
    if s.commit.Modeset? && s.commit.k < |Writes(s.commit.mode)| then
      var m := s.commit;
      var t := WriteOne(c, s, Writes(m.mode)[m.k]);
      if m.k + 1 == |Writes(m.mode)| then t.(commit := Idle, vblanks := !m.mode.Off?) else t.(commit := m.(k := m.k + 1))
    else s
  }

  function Begin(s: State, m: Mode): State { s.(commit := Modeset(m, 0, s.shadow)) }

  /** soph_video_stage: an unchanged format, CSC and pitches need only new addresses. */
  function Stage(s: State, l: Layer): State {
    if s.cache == Some(Remember(l)) then
      s.(shadow := SetGeometry(s.shadow, l.pitchY, l.pitchC, l.width, l.height), commit := Addresses(l))
    else Load(s, l).(commit := Locked)
  }

  /** soph_video_load */
  function Load(s: State, l: Layer): State {
    s.(shadow := SetLayer(s.shadow, l), cache := Some(Remember(l)), requests := s.requests + [Video(l)])
  }

  function Deliveries(s: State, k: Kind): (ds: seq<Delivery>)
    ensures |ds| == |s.armed|
    ensures forall i :: 0 <= i < |ds| ==> ds[i] == Delivery(s.armed[i], k, s.live, s.working)
  {
    seq(|s.armed|, i requires 0 <= i < |s.armed| => Delivery(s.armed[i], k, s.live, s.working))
  }

  /** drm_crtc_handle_vblank, or drm_crtc_vblank_off: every armed event goes out. */
  function Complete(s: State, k: Kind): State {
    s.(armed := [], log := s.log + Deliveries(s, k))
  }

  /** soph_vbl_fn, which only every `div`-th time completes the armed flips. */
  function Poll(s: State, div: nat): State {
    var seen := s.status;
    var s1 := s.(status := false, miss := if seen || s.miss + 1 > 2 * OVERSAMPLE then 0 else s.miss + 1);
    if seen || s.miss + 1 > 2 * OVERSAMPLE then
      if s.gate + 1 >= (if div == 0 then 1 else div)
      then Complete(s1.(gate := 0), if seen then Real else Fallback)
      else s1.(gate := s.gate + 1)
    else s1
  }

  function Next(c: Config, s: State, a: Step): State {
    match a
    case BeginVideo(l) => Stage(s, l)
    case WriteAddresses =>
      if s.commit.Addresses? then
        var l := s.commit.layer;
        s.(shadow := SetAddresses(s.shadow, l.addr0, l.addr1, l.addr2),
           requests := s.requests + [Video(l)], commit := Locked)
      else s
    case BeginGop(g) => s.(shadow := s.shadow.(gop := g), requests := s.requests + [Gop(g)], commit := Locked)
    case ClearStatus => s.(status := false, commit := Unlocked)
    case Arm(event) =>
      var s1 := s.(commit := Idle);
      if !event then s1
      else if s.vblanks then s1.(armed := s.armed + [|s.requests|])
      else s1.(log := s.log + [Delivery(|s.requests|, VblankOff, s.live, s.working)])
    case FrameStart =>
      s.(working := s.shadow, torn := if Midway(s.commit) then Some(s.commit.k) else None,
         live := |s.requests|, status := true)
    case Tick(div) => Poll(s, div)
    case EnableVideo(l) => Begin(s, ToVideo(l))
    case EnableGop(g) => Begin(s, ToOverlay(g))
    case EnableNothing => s.(vblanks := true)
    case Disable => Begin(Complete(s.(vblanks := false), VblankOff), Off)
    case ModesetWrite => WriteNext(c, s)
  }

  ghost predicate Run(c: Config, serial: bool, s: State, steps: seq<Step>, t: State)
    decreases steps
  {
    if |steps| == 0 then s == t
    else Enabled(c, serial, s, steps[0]) && Run(c, serial, Next(c, s, steps[0]), steps[1..], t)
  }

  /** At probe: whatever the registers hold, nothing is known or asked. */
  predicate Init(s: State) {
    && s.cache.None? && s.commit.Idle? && s.armed == [] && !s.vblanks && s.torn.None?
    && s.requests == [] && s.live == 0 && s.log == [] && !s.status && s.miss == 0 && s.gate == 0
  }

  // ---------------------------------------------------------------- invariant

  predicate Shows(c: Config, b: Bank, r: Request) {
    match r
    case Video(l) => b.video == l
    case Gop(g) => b.gop == g
    case Park =>
      && b.video.addr0 == b.video.addr1 == b.video.addr2 == c.park
      && b.video.pitchY == b.video.pitchC == PARK_PITCH && b.video.width == b.video.height == PARK_SIZE
  }

  /** The remembered layer is the shadow bank's, at the panel's size, unless a modeset is about to
      set it. */
  predicate CacheAgrees(c: Config, s: State) {
    s.cache.Some? && !(s.commit.Modeset? && 0 < s.commit.k < Recalls(s.commit.mode)) ==>
      && Remember(s.shadow.video) == s.cache.value
      && s.shadow.video.width == c.width && s.shadow.video.height == c.height
  }

  predicate ShowsLast(c: Config, b: Bank, requests: seq<Request>, n: nat)
    requires n <= |requests|
  {
    n > 0 ==> Shows(c, b, requests[n - 1])
  }

  /** A modeset's writes lie on a bank that showed its last request. */
  predicate ModesetOk(c: Config, s: State) {
    s.commit.Modeset? ==>
      var m := s.commit;
      && m.k < |Writes(m.mode)| && !s.vblanks && s.armed == []
      && (m.mode.ToVideo? ==> m.mode.layer.width == c.width && m.mode.layer.height == c.height)
      && (m.k < Group(m.mode) ==> s.shadow == Written(c, m.mode, m.from, m.k) && ShowsLast(c, m.from, s.requests, |s.requests|))
  }

  /** Each bank shows the last request it has seen, whole, even between two register windows of a
      commit. Midway through a modeset's writes the shadow bank is what is written so far; a frame
      start there leaves just that in the working bank, until the modeset's next one or its end. */
  predicate BanksShow(c: Config, s: State) {
    && s.live <= |s.requests|
    && (!Midway(s.commit) ==> ShowsLast(c, s.shadow, s.requests, |s.requests|))
    && (s.torn.None? ==> ShowsLast(c, s.working, s.requests, s.live))
    && (s.torn.Some? ==>
          var m := s.commit;
          && m.Modeset? && 0 < s.torn.value < Group(m.mode) && s.torn.value <= m.k
          && s.working == Written(c, m.mode, m.from, s.torn.value) && ShowsLast(c, m.from, s.requests, s.live))
    && (s.commit.Addresses? ==>
          && s.cache == Some(Remember(s.commit.layer))
          && s.commit.layer.width == c.width && s.commit.layer.height == c.height)
  }

  /** A frame start the poller can see came after everything written. */
  predicate StatusIsFresh(s: State) {
    s.status && !s.commit.Locked? && !s.commit.Modeset? ==> s.live == |s.requests|
  }

  predicate ArmedRange(serial: bool, s: State) {
    forall i :: 0 <= i < |s.armed| ==>
      0 < s.armed[i] <= |s.requests| && (serial ==> s.armed[i] == |s.requests|)
  }

  predicate ArmedOk(serial: bool, s: State) {
    && ArmedRange(serial, s)
    && (!s.vblanks ==> s.armed == [])
    && (serial && !s.commit.Idle? ==> s.armed == [])
    && (s.commit.Locked? || s.commit.Unlocked? ==> |s.requests| > 0)
  }

  /** A delivery at a frame start: the working bank has moved on to this flip or a later one;
      in a serial run it shows exactly this flip. */
  predicate Sound(c: Config, serial: bool, requests: seq<Request>, d: Delivery) {
    d.kind.Real? ==>
      && 0 < d.flip <= d.live <= |requests|
      && Shows(c, d.bank, requests[d.live - 1])
      && (serial ==> d.live == d.flip)
  }

  predicate LogSound(c: Config, serial: bool, s: State) {
    forall i :: 0 <= i < |s.log| ==> Sound(c, serial, s.requests, s.log[i])
  }

  predicate Inv(c: Config, serial: bool, s: State) {
    && CacheAgrees(c, s) && ModesetOk(c, s) && BanksShow(c, s) && StatusIsFresh(s) && ArmedOk(serial, s)
    && LogSound(c, serial, s)
  }

  lemma LogGrows(c: Config, serial: bool, s: State, t: State)
    requires LogSound(c, serial, s) && t.log == s.log && s.requests <= t.requests
    ensures LogSound(c, serial, t)
  {
    hide Shows;
  }

  lemma CompleteSound(c: Config, serial: bool, s: State, k: Kind)
    requires BanksShow(c, s) && s.torn.None? && ArmedRange(serial, s) && LogSound(c, serial, s)
    requires k.Real? ==> s.live == |s.requests|
    ensures LogSound(c, serial, Complete(s, k))
  {
    hide Shows;
  }

  lemma TickSound(c: Config, serial: bool, s: State, div: nat)
    requires Inv(c, serial, s) && Enabled(c, serial, s, Tick(div))
    ensures LogSound(c, serial, Poll(s, div))
  {
  }

  predicate IsCommitStep(a: Step) { a.BeginVideo? || a.WriteAddresses? || a.BeginGop? }

  predicate IsModeset(a: Step) { a.EnableVideo? || a.EnableGop? || a.EnableNothing? || a.Disable? }

  ghost predicate BanksOk(c: Config, s: State) { CacheAgrees(c, s) && ModesetOk(c, s) && BanksShow(c, s) }

  lemma StepBanks(c: Config, serial: bool, s: State, a: Step)
    requires Inv(c, serial, s) && Enabled(c, serial, s, a)
    ensures BanksOk(c, Next(c, s, a))
  {
    hide CacheAgrees, ModesetOk, BanksShow, Next;
    if IsCommitStep(a) { CommitBanks(c, serial, s, a); }
    else if IsModeset(a) { ModesetBanks(c, serial, s, a); }
    else if a.ModesetWrite? { WriteBanks(c, s); }
    else if a.FrameStart? { LatchBanks(c, s); }
    else { QuietBanks(c, serial, s, a); }
  }

  lemma CommitBanks(c: Config, serial: bool, s: State, a: Step)
    requires BanksOk(c, s) && Enabled(c, serial, s, a) && IsCommitStep(a)
    ensures BanksOk(c, Next(c, s, a))
  {
    hide Deliveries, Poll, Complete, Written, Writes, WriteNext;
  }

  lemma ModesetBanks(c: Config, serial: bool, s: State, a: Step)
    requires BanksOk(c, s) && ArmedOk(serial, s) && Enabled(c, serial, s, a) && IsModeset(a)
    ensures BanksOk(c, Next(c, s, a))
  {
    hide Deliveries, Stage, Poll, Shows, WriteNext;
  }

  lemma LatchBanks(c: Config, s: State)
    requires BanksOk(c, s)
    ensures BanksOk(c, Next(c, s, FrameStart))
  {
    hide Shows, Written, Writes, Remember;
  }

  /** Nothing about the banks changes, and no modeset begins or goes on. */
  predicate Quiet(s: State, t: State) {
    && t.shadow == s.shadow && t.cache == s.cache && t.requests == s.requests
    && t.working == s.working && t.live == s.live && t.torn == s.torn
    && !s.commit.Modeset? && (t.commit == s.commit || t.commit.Idle? || t.commit.Unlocked?)
  }

  lemma QuietKeeps(c: Config, s: State, t: State)
    requires BanksOk(c, s) && Quiet(s, t)
    ensures BanksOk(c, t)
  {
    hide Shows, Written, Writes;
  }

  lemma QuietBanks(c: Config, serial: bool, s: State, a: Step)
    requires BanksOk(c, s) && Enabled(c, serial, s, a)
    requires !IsCommitStep(a) && !IsModeset(a) && !a.ModesetWrite? && !a.FrameStart?
    ensures BanksOk(c, Next(c, s, a))
  {
    hide Deliveries, Stage, BanksOk, Load, WriteNext;
    assert Quiet(s, Next(c, s, a));
    QuietKeeps(c, s, Next(c, s, a));
  }

  /** One write of a modeset: its group goes on, or completes a request. */
  lemma WriteBanks(c: Config, s: State)
    requires BanksOk(c, s) && s.commit.Modeset? && s.commit.k < |Writes(s.commit.mode)|
    ensures BanksOk(c, Next(c, s, ModesetWrite))
  {
    hide BanksOk;
    match s.commit.mode {
      case ToVideo(l) => VideoWriteBanks(c, s, l);
      case ToOverlay(g) => ParkWriteBanks(c, s);
      case Off => ParkWriteBanks(c, s);
    }
  }

  lemma VideoWriteBanks(c: Config, s: State, l: Layer)
    requires BanksOk(c, s) && s.commit.Modeset? && s.commit.k < 5 && s.commit.mode == ToVideo(l)
    ensures BanksOk(c, WriteNext(c, s))
  {
    hide BanksOk;
    if s.commit.k < 3 { VideoGroupBanks(c, s, l); } else { AfterVideoBanks(c, s, l); }
  }

  lemma VideoGroupBanks(c: Config, s: State, l: Layer)
    requires BanksOk(c, s) && s.commit.Modeset? && s.commit.k < 3 && s.commit.mode == ToVideo(l)
    ensures BanksOk(c, WriteNext(c, s))
  {
    hide Written, Remember;
    var k := s.commit.k;
    WrittenVideo(c, l, s.commit.from);
    assert Writes(ToVideo(l))[k] == if k == 0 then Geometry(l) else if k == 1 then Planes(l) else Colours(l);
  }

  lemma AfterVideoBanks(c: Config, s: State, l: Layer)
    requires BanksOk(c, s) && s.commit.Modeset? && 3 <= s.commit.k < 5 && s.commit.mode == ToVideo(l)
    ensures BanksOk(c, WriteNext(c, s))
  {
    hide Written;
    assert Writes(ToVideo(l))[s.commit.k] == if s.commit.k == 3 then Whole(l) else Force;
  }

  lemma WrittenVideo(c: Config, l: Layer, b: Bank)
    ensures Written(c, ToVideo(l), b, 0) == b
    ensures Written(c, ToVideo(l), b, 1) == Apply(c, b, Geometry(l))
    ensures Written(c, ToVideo(l), b, 2) == Apply(c, Apply(c, b, Geometry(l)), Planes(l))
    ensures Apply(c, Written(c, ToVideo(l), b, 2), Colours(l)) == SetLayer(b, l)
  {
    assert Writes(ToVideo(l))[0] == Geometry(l) && Writes(ToVideo(l))[1] == Planes(l);
  }

  lemma ParkWriteBanks(c: Config, s: State)
    requires BanksOk(c, s) && s.commit.Modeset? && s.commit.k < |Writes(s.commit.mode)| && !s.commit.mode.ToVideo?
    ensures BanksOk(c, WriteNext(c, s))
  {
    hide BanksOk;
    if s.commit.k < 2 { ParkGroupBanks(c, s); } else { AfterParkBanks(c, s); }
  }

  lemma ParkGroupBanks(c: Config, s: State)
    requires BanksOk(c, s) && s.commit.Modeset? && s.commit.k < 2 && !s.commit.mode.ToVideo?
    ensures s.commit.k < |Writes(s.commit.mode)| && BanksOk(c, WriteNext(c, s))
  {
    hide Written;
    var m := s.commit;
    WrittenPark(c, m.mode, m.from);
    assert Writes(m.mode)[m.k] == if m.k == 0 then ParkGeometry else ParkPlanes;
  }

  lemma AfterParkBanks(c: Config, s: State)
    requires BanksOk(c, s) && s.commit.Modeset? && 2 <= s.commit.k < |Writes(s.commit.mode)| && !s.commit.mode.ToVideo?
    ensures BanksOk(c, WriteNext(c, s))
  {
    hide Written;
    var m := s.commit;
    assert Writes(m.mode)[m.k].Overlay? || Writes(m.mode)[m.k].Force?;
  }

  lemma WrittenPark(c: Config, m: Mode, b: Bank)
    requires !m.ToVideo?
    ensures Written(c, m, b, 0) == b
    ensures Written(c, m, b, 1) == Apply(c, b, ParkGeometry)
    ensures Apply(c, Written(c, m, b, 1), ParkPlanes) == Parked(c, b)
  {
    assert Writes(m)[0] == ParkGeometry;
  }

  lemma StepEvents(c: Config, serial: bool, s: State, a: Step)
    requires Inv(c, serial, s) && Enabled(c, serial, s, a)
    ensures StatusIsFresh(Next(c, s, a)) && ArmedOk(serial, Next(c, s, a))
  {
    hide LogSound, CacheAgrees, BanksShow, Deliveries, Apply, Written, WriteNext;
    if a.ModesetWrite? { WriteEvents(c, serial, s); }
  }

  lemma WriteEvents(c: Config, serial: bool, s: State)
    requires ModesetOk(c, s) && ArmedOk(serial, s) && s.commit.Modeset? && s.commit.k < |Writes(s.commit.mode)|
    ensures StatusIsFresh(WriteNext(c, s)) && ArmedOk(serial, WriteNext(c, s)) && WriteNext(c, s).log == s.log
    ensures s.requests <= WriteNext(c, s).requests
  {
    hide Apply, Written, Writes, Recalled, Completes;
    LastForces(s.commit.mode);
  }

  /** A modeset ends with a forced update. */
  lemma LastForces(m: Mode)
    ensures var ws := Writes(m); |ws| > 0 && ws[|ws| - 1].Force?
  {
  }

  lemma StepLog(c: Config, serial: bool, s: State, a: Step)
    requires Inv(c, serial, s) && Enabled(c, serial, s, a)
    ensures LogSound(c, serial, Next(c, s, a))
  {
    hide Written, Writes, WriteNext, Shows, CacheAgrees;
    match a {
      case Tick(div) =>
        TickSound(c, serial, s, div);
      case Disable =>
        var t := s.(vblanks := false);
        LogGrows(c, serial, s, t);
        CompleteSound(c, serial, t, VblankOff);
        LogGrows(c, serial, Complete(t, VblankOff), Next(c, s, a));
      case ModesetWrite =>
        WriteEvents(c, serial, s);
        LogGrows(c, serial, s, Next(c, s, a));
      case Arm(event) =>
      case _ => LogGrows(c, serial, s, Next(c, s, a));
    }
  }

  /** Every step of every participant keeps the invariant. */
  lemma StepInv(c: Config, serial: bool, s: State, a: Step)
    requires Inv(c, serial, s) && Enabled(c, serial, s, a)
    ensures Inv(c, serial, Next(c, s, a))
  {
    hide CacheAgrees, ModesetOk, BanksShow, StatusIsFresh, ArmedOk, LogSound, Enabled, Next;
    StepBanks(c, serial, s, a);
    StepEvents(c, serial, s, a);
    StepLog(c, serial, s, a);
  }

  lemma {:induction false} RunInv(c: Config, serial: bool, s: State, steps: seq<Step>, t: State)
    requires Inv(c, serial, s) && Run(c, serial, s, steps, t)
    ensures Inv(c, serial, t)
    decreases steps
  {
    hide Inv, Enabled, Next;
    if |steps| != 0 {
      StepInv(c, serial, s, steps[0]);
      RunInv(c, serial, Next(c, s, steps[0]), steps[1..], t);
    }
  }

  // ---------------------------------------------------------------- what it means

  /** In every interleaving of commits, timer ticks, frame starts and modesets, for any vbl_div:
      an event that goes out at a frame start the poller saw goes out only when a frame start has
      copied that flip, or a later one, into the working bank. Where the core holds back the next
      commit until the event is out, the working bank then shows exactly that flip's buffer, in
      its own format, pitches and size, so the previous buffer is no longer scanned. */
  lemma FlipsCompleteAfterLatch(c: Config, serial: bool, s: State, steps: seq<Step>, t: State, i: nat)
    requires Init(s) && Run(c, serial, s, steps, t) && i < |t.log| && t.log[i].kind.Real?
    ensures var d := t.log[i];
            && 0 < d.flip <= d.live <= |t.requests|
            && Shows(c, d.bank, t.requests[d.live - 1])
            && (serial ==> Shows(c, d.bank, t.requests[d.flip - 1]))
  {
    hide Run, CacheAgrees, BanksShow, StatusIsFresh, ArmedOk;
    assert Inv(c, serial, s) by { InitInv(c, serial, s); }
    RunInv(c, serial, s, steps, t);
  }

  lemma InitInv(c: Config, serial: bool, s: State)
    requires Init(s)
    ensures Inv(c, serial, s)
  {
  }

  /** After any history: unless a frame start fell between two register windows of the modeset that
      is going on, the working bank shows one request whole, and so it does whenever no modeset goes
      on. If one did, the working bank is exactly what was written then, over the last request. The
      shadow bank shows the last request, whole, except midway through a modeset's windows. */
  lemma NoMixedLayer(c: Config, serial: bool, s: State, steps: seq<Step>, t: State)
    requires Init(s) && Run(c, serial, s, steps, t)
    ensures t.live <= |t.requests|
    ensures t.torn.None? ==> ShowsLast(c, t.working, t.requests, t.live)
    ensures !t.commit.Modeset? ==> t.torn.None? && CacheAgrees(c, t)
    ensures !Midway(t.commit) ==> ShowsLast(c, t.shadow, t.requests, |t.requests|)
    ensures t.torn.Some? ==>
              var m := t.commit;
              && m.Modeset? && 0 < t.torn.value < Group(m.mode) && t.torn.value <= m.k
              && t.working == Written(c, m.mode, m.from, t.torn.value) && ShowsLast(c, m.from, t.requests, t.live)
  {
    hide Run, StatusIsFresh, ArmedOk, LogSound, Written, Writes;
    InitInv(c, serial, s);
    RunInv(c, serial, s, steps, t);
  }

  predicate SameGeometry(a: Layer, b: Layer) {
    a.pitchY == b.pitchY && a.pitchC == b.pitchC && a.width == b.width && a.height == b.height
  }
  predicate SamePlanes(a: Layer, b: Layer) { a.addr0 == b.addr0 && a.addr1 == b.addr1 && a.addr2 == b.addr2 }
  predicate SameColours(a: Layer, b: Layer) { a.fmt == b.fmt && a.csc == b.csc }

  /** The layers agree in what the first k windows write, and in what the later ones write. */
  predicate SameFirst(k: nat, a: Layer, b: Layer) { SameGeometry(a, b) && (k > 1 ==> SamePlanes(a, b)) }
  predicate SameRest(k: nat, a: Layer, b: Layer) { (k == 1 ==> SamePlanes(a, b)) && SameColours(a, b) }

  /** A frame start takes a layer that is neither the one before the modeset nor the one it writes
      exactly when it falls midway through the windows and the two layers differ both in what is
      written and in what is not. At any other moment it takes the last request whole. */
  lemma FrameStartMixesIff(c: Config, serial: bool, s: State, steps: seq<Step>, t: State)
    requires Init(s) && Run(c, serial, s, steps, t)
    ensures var u := Next(c, t, FrameStart);
            var m := t.commit;
            if Midway(m) then
              var before, after := m.from.video, Written(c, m.mode, m.from, Group(m.mode)).video;
              u.torn.Some? && (u.working.video != before && u.working.video != after
                               <==> !SameFirst(m.k, before, after) && !SameRest(m.k, before, after))
            else u.torn.None? && ShowsLast(c, u.working, u.requests, |u.requests|)
  {
    hide Run, StatusIsFresh, ArmedOk, LogSound, Written, Writes, Shows;
    InitInv(c, serial, s);
    RunInv(c, serial, s, steps, t);
    if Midway(t.commit) { PartIsMixed(c, t.commit.mode, t.commit.from, t.commit.k); }
  }

  lemma PartIsMixed(c: Config, m: Mode, b: Bank, k: nat)
    requires 0 < k < Group(m)
    ensures var before, after, part := b.video, Written(c, m, b, Group(m)).video, Written(c, m, b, k).video;
            part != before && part != after <==> !SameFirst(k, before, after) && !SameRest(k, before, after)
  {
    if m.ToVideo? { VideoPartIsMixed(c, m.layer, b, k); } else { ParkPartIsMixed(c, m, b); }
  }

  lemma VideoPartIsMixed(c: Config, l: Layer, b: Bank, k: nat)
    requires 0 < k < 3
    ensures var m := ToVideo(l);
            var before, after, part := b.video, Written(c, m, b, 3).video, Written(c, m, b, k).video;
            part != before && part != after <==> !SameFirst(k, before, after) && !SameRest(k, before, after)
  {
    WrittenVideo(c, l, b);
    assert Written(c, ToVideo(l), b, 3) == SetLayer(b, l) by { assert Writes(ToVideo(l))[2] == Colours(l); }
    hide Written;
  }

  lemma ParkPartIsMixed(c: Config, m: Mode, b: Bank)
    requires !m.ToVideo?
    ensures var before, after, part := b.video, Written(c, m, b, 2).video, Written(c, m, b, 1).video;
            part != before && part != after <==> !SameFirst(1, before, after) && !SameRest(1, before, after)
  {
    WrittenPark(c, m, b);
    assert Written(c, m, b, 2) == Parked(c, b) by { assert Writes(m)[1] == ParkPlanes; }
    hide Written;
  }

  /** After a stage the shadow bank holds the whole requested layer, whether the address-only or
      the full write was taken, and whatever came before. */
  lemma StagedWhole(c: Config, serial: bool, s: State, steps: seq<Step>, t: State, l: Layer)
    requires Init(s) && Run(c, serial, s, steps, t) && Enabled(c, serial, t, BeginVideo(l))
    ensures var u := Next(c, t, BeginVideo(l));
            if u.commit.Addresses? then Next(c, u, WriteAddresses).shadow.video == l else u.shadow.video == l
  {
    hide Run, StatusIsFresh, ArmedOk, LogSound;
    InitInv(c, serial, s);
    RunInv(c, serial, s, steps, t);
  }

  lemma RunNone(c: Config, serial: bool, s: State)
    ensures Run(c, serial, s, [], s)
  {
  }

  lemma RunCons(c: Config, serial: bool, s: State, a: Step, steps: seq<Step>, t: State)
    requires Enabled(c, serial, s, a) && Run(c, serial, Next(c, s, a), steps, t)
    ensures Run(c, serial, s, [a] + steps, t)
  {
  }

  lemma {:induction false} RunConcat(c: Config, serial: bool, s: State, xs: seq<Step>, m: State, ys: seq<Step>, t: State)
    requires Run(c, serial, s, xs, m) && Run(c, serial, m, ys, t)
    ensures Run(c, serial, s, xs + ys, t)
    decreases xs
  {
    hide Enabled, Next;
    if |xs| == 0 {
      assert xs + ys == ys;
    } else {
      RunConcat(c, serial, Next(c, s, xs[0]), xs[1..], m, ys, t);
      assert (xs + ys)[1..] == xs[1..] + ys;
    }
  }

  // ---------------------------------------------------------------- from framebuffer to layer

  datatype Fourcc = Rgb888 | Nv12Fb | Xrgb8888 | Argb8888
  datatype Encoding = AutoEncoding | Bt601 | Bt709
  datatype Range = AutoRange | LimitedRange | FullRange

  /** A framebuffer in a plane state. Pitches are 32 bits wide here and 16 in the layer. */
  datatype Framebuffer = Framebuffer(
    format: Fourcc, width: nat, height: nat, pitch0: nat, pitch1: nat, offset0: nat,
    addr0: int, addr1: int, bt709: bool, full: bool)

  function U16(v: nat): nat { v % 0x1_0000 }

  /** soph_yuv_csc: a parameter other than auto overrides the plane; the vendor's table names its
      two ranges the wrong way round. */
  function YuvCsc(fb: Framebuffer, e: Encoding, r: Range): Csc {
    var bt709 := if e.AutoEncoding? then fb.bt709 else e.Bt709?;
    var full := if r.AutoRange? then fb.full else r.FullRange?;
    if bt709 then (if full then Limit709 else Full709) else (if full then Limit601 else Full601)
  }

  /** soph_video_layer */
  function VideoLayer(c: Config, fb: Framebuffer, e: Encoding, r: Range): Layer {
    var nv12 := fb.format.Nv12Fb?;
    Layer(if nv12 then Nv12 else BgrPacked, if nv12 then YuvCsc(fb, e, r) else CscNone,
          U16(fb.pitch0), if nv12 then U16(fb.pitch1) else 0, c.width, c.height,
          fb.addr0, if nv12 then fb.addr1 else 0, 0)
  }

  /** soph_pipe_check, in the panel's own mode. */
  predicate CheckNative(c: Config, fb: Framebuffer) {
    || (fb.format.Rgb888? && fb.width == c.width && fb.height == c.height
        && fb.pitch0 % 32 == 0 && fb.pitch0 <= 0xffff && fb.offset0 == 0)
    || (fb.format.Nv12Fb? && fb.width == c.width && fb.height == c.height
        && fb.pitch0 % 32 == 0 && fb.pitch1 % 32 == 0 && fb.pitch0 <= 0xffff && fb.pitch1 <= 0xffff
        && fb.addr0 % 32 == 0 && fb.addr1 % 32 == 0)
  }

  /** No accepted framebuffer is scanned with a truncated pitch or at another size. */
  lemma AcceptedIsExact(c: Config, fb: Framebuffer, e: Encoding, r: Range)
    requires CheckNative(c, fb)
    ensures var l := VideoLayer(c, fb, e, r);
            && l.pitchY == fb.pitch0 && (fb.format.Nv12Fb? ==> l.pitchC == fb.pitch1)
            && l.width == fb.width && l.height == fb.height
            && l.pitchY % 32 == 0 && l.pitchC % 32 == 0
            && l.addr0 == fb.addr0 && (fb.format.Nv12Fb? ==> l.addr1 == fb.addr1)
            && l.fmt == (if fb.format.Nv12Fb? then Nv12 else BgrPacked) && (l.csc.CscNone? <==> !fb.format.Nv12Fb?)
  {
  }

  /** Every RGB888 and NV12 framebuffer of the panel's size whose pitches and addresses the display
      can take is accepted, and no other. */
  lemma AcceptedIff(c: Config, fb: Framebuffer)
    ensures CheckNative(c, fb) <==>
              && fb.width == c.width && fb.height == c.height && fb.pitch0 % 32 == 0 && fb.pitch0 < 65536
              && ((fb.format == Rgb888 && fb.offset0 == 0)
                  || (fb.format == Nv12Fb && fb.pitch1 % 32 == 0 && fb.pitch1 < 65536 && fb.addr0 % 32 == 0 && fb.addr1 % 32 == 0))
  {
  }

  /** The range a vendor matrix really takes: its names are the wrong way round. */
  function TakesFullRange(m: Csc): bool { m.Limit601? || m.Limit709? }

  function TakesBt709(m: Csc): bool { m.Full709? || m.Limit709? }

  /** An NV12 layer is converted with its own encoding and range, unless a parameter overrides them. */
  lemma ConversionIsTheBuffers(c: Config, fb: Framebuffer, e: Encoding, r: Range)
    requires fb.format.Nv12Fb?
    ensures var m := VideoLayer(c, fb, e, r).csc;
            && !m.CscNone?
            && TakesBt709(m) == (match e case AutoEncoding => fb.bt709 case Bt601 => false case Bt709 => true)
            && TakesFullRange(m) == (match r case AutoRange => fb.full case LimitedRange => false case FullRange => true)
  {
  }
}
