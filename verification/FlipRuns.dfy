/** Runs of the page-flip protocol: modesets and commits from end to end, and the runs that show where
    its promises stop. */
module FlipRuns {
  import opened Wrappers
  import opened PageFlip

  // ---------------------------------------------------------------- modesets

  function WriteMany(c: Config, s: State, n: nat): State
    decreases n
  {
    if n == 0 then s else WriteMany(c, WriteNext(c, s), n - 1)
  }

  function ManyWrites(n: nat): seq<Step> { if n == 0 then [] else [ModesetWrite] + ManyWrites(n - 1) }

  lemma {:induction false} WritesRun(c: Config, s: State, n: nat)
    requires n > 0 && s.commit.Modeset? && s.commit.k + n <= |Writes(s.commit.mode)|
    ensures Run(c, true, s, ManyWrites(n), WriteMany(c, s, n))
    decreases n
  {
    hide Run, Apply, Writes;
    var t := WriteNext(c, s);
    assert t == Next(c, s, ModesetWrite);
    if n == 1 { RunNone(c, true, t); } else { WritesRun(c, t, n - 1); }
    RunCons(c, true, s, ModesetWrite, ManyWrites(n - 1), WriteMany(c, s, n));
  }

  /** After soph_pipe_enable on the panel's own mode. */
  function VideoOn(s: State, l: Layer): State {
    var b := SetLayer(s.shadow, l);
    s.(shadow := b, working := b, torn := None, cache := Some(Remember(l)), vblanks := true, commit := Idle,
       requests := s.requests + [Video(l)] + [Video(l)], live := |s.requests| + 2)
  }

  /** After soph_pipe_enable on the overlay's. */
  function OverlayOn(c: Config, s: State, g: int): State {
    var b := Parked(c, s.shadow).(gop := g);
    s.(shadow := b, working := b, torn := None, cache := None, vblanks := true, commit := Idle,
       requests := s.requests + [Park] + [Gop(g)], live := |s.requests| + 2)
  }

  /** After soph_pipe_disable. */
  function TurnedOff(c: Config, s: State): State {
    var b := Parked(c, s.shadow);
    Complete(s, VblankOff).(shadow := b, working := b, torn := None, cache := None, vblanks := false, commit := Idle,
                            requests := s.requests + [Park], live := |s.requests| + 1)
  }

  lemma VideoWrites(c: Config, s: State, l: Layer)
    ensures WriteMany(c, Begin(s, ToVideo(l)), 5) == VideoOn(s, l)
  {
    hide Remember, WriteMany;
    var ws := Writes(ToVideo(l));
    assert ws[0] == Geometry(l) && ws[1] == Planes(l) && ws[2] == Colours(l) && ws[3] == Whole(l) && ws[4] == Force;
    var s1 := WriteNext(c, Begin(s, ToVideo(l)));
    var s2 := WriteNext(c, s1);
    var s3 := WriteNext(c, s2);
    assert s3.shadow == SetLayer(s.shadow, l);
    var s4 := WriteNext(c, s3);
    var s5 := WriteNext(c, s4);
    assert s5 == VideoOn(s, l);
    ManyIs(c, Begin(s, ToVideo(l)), s1, s2, s3, s4);
  }

  lemma ManyIs(c: Config, s0: State, s1: State, s2: State, s3: State, s4: State)
    requires s1 == WriteNext(c, s0) && s2 == WriteNext(c, s1) && s3 == WriteNext(c, s2) && s4 == WriteNext(c, s3)
    ensures WriteMany(c, s0, 5) == WriteNext(c, s4) && WriteMany(c, s0, 3) == s3
  {
    hide WriteNext;
    assert WriteMany(c, s4, 1) == WriteNext(c, s4) && WriteMany(c, s3, 0) == s3;
    assert WriteMany(c, s3, 2) == WriteMany(c, s4, 1) && WriteMany(c, s2, 1) == s3;
  }

  lemma OverlayWrites(c: Config, s: State, g: int)
    ensures WriteMany(c, Begin(s, ToOverlay(g)), 5) == OverlayOn(c, s, g)
  {
    hide Remember, WriteMany;
    var ws := Writes(ToOverlay(g));
    assert ws[0] == ParkGeometry && ws[1] == ParkPlanes && ws[2] == Overlay(g) && ws[3] == Force && ws[4] == Force;
    var s1 := WriteNext(c, Begin(s, ToOverlay(g)));
    var s2 := WriteNext(c, s1);
    var s3 := WriteNext(c, s2);
    var s4 := WriteNext(c, s3);
    var s5 := WriteNext(c, s4);
    assert s5 == OverlayOn(c, s, g);
    ManyIs(c, Begin(s, ToOverlay(g)), s1, s2, s3, s4);
  }

  lemma OffWrites(c: Config, s: State)
    ensures WriteMany(c, Next(c, s, Disable), 3) == TurnedOff(c, s)
  {
    hide Deliveries, WriteMany, WriteNext;
    ParkWrites(c, Complete(s.(vblanks := false), VblankOff));
  }

  lemma ParkWrites(c: Config, s: State)
    ensures var b := Parked(c, s.shadow);
            WriteMany(c, Begin(s, Off), 3)
            == s.(shadow := b, working := b, torn := None, cache := None, vblanks := false, commit := Idle,
                  requests := s.requests + [Park], live := |s.requests| + 1)
  {
    hide WriteMany;
    var ws := Writes(Off);
    assert ws[0] == ParkGeometry && ws[1] == ParkPlanes && ws[2] == Force;
    var s0 := Begin(s, Off);
    var s1 := WriteNext(c, s0);
    var s2 := WriteNext(c, s1);
    var s3 := WriteNext(c, s2);
    ManyIs(c, s0, s1, s2, s3, WriteNext(c, s3));
  }

  /** An uninterrupted enable is a run of the protocol's steps. */
  lemma EnableRuns(c: Config, s: State, l: Layer)
    requires s.commit.Idle? && !s.vblanks && l.width == c.width && l.height == c.height
    ensures Run(c, true, s, [EnableVideo(l)] + ManyWrites(5), VideoOn(s, l))
  {
    hide Run, WriteNext;
    VideoWrites(c, s, l);
    WritesRun(c, Begin(s, ToVideo(l)), 5);
    RunCons(c, true, s, EnableVideo(l), ManyWrites(5), VideoOn(s, l));
  }

  lemma EnableOverlayRuns(c: Config, s: State, g: int)
    requires s.commit.Idle? && !s.vblanks
    ensures Run(c, true, s, [EnableGop(g)] + ManyWrites(5), OverlayOn(c, s, g))
  {
    hide Run, WriteNext;
    OverlayWrites(c, s, g);
    WritesRun(c, Begin(s, ToOverlay(g)), 5);
    RunCons(c, true, s, EnableGop(g), ManyWrites(5), OverlayOn(c, s, g));
  }

  /** And so is a disable. */
  lemma DisableRuns(c: Config, s: State)
    requires s.commit.Idle? && s.vblanks
    ensures Run(c, true, s, [Disable] + ManyWrites(3), TurnedOff(c, s))
  {
    hide Run, WriteNext;
    OffWrites(c, s);
    WritesRun(c, Next(c, s, Disable), 3);
    RunCons(c, true, s, Disable, ManyWrites(3), TurnedOff(c, s));
  }

  // ---------------------------------------------------------------- a mixed layer

  /** A disable can make the display scan a layer that nobody asked for: after the first window of
      the park a frame start takes the park buffer's geometry with the old buffer's addresses. */
  lemma ParkCanMix(c: Config, s: State, l: Layer)
    requires Init(s) && l.width == c.width && l.height == c.height
    requires l.addr0 != c.park && !(c.width == PARK_SIZE && c.height == PARK_SIZE)
    ensures exists steps: seq<Step>, t: State ::
              && Run(c, true, s, steps, t) && t.torn == Some(1)
              && t.requests == [Video(l)] + [Video(l)] && !Shows(c, t.working, Video(l)) && !Shows(c, t.working, Park)
              && t.working.video.width == PARK_SIZE && t.working.video.addr0 == l.addr0
  {
    hide Run, Init;
    InitLog(s);
    EnableRuns(c, s, l);
    var s1 := VideoOn(s, l);
    var s2 := Next(c, s1, Disable);
    var s3 := Next(c, s2, ModesetWrite);
    assert Writes(Off)[0] == ParkGeometry;
    var t := Next(c, s3, FrameStart);
    assert s.requests + [Video(l)] + [Video(l)] == [Video(l)] + [Video(l)];
    RunNone(c, true, t);
    RunCons(c, true, s3, FrameStart, [], t);
    RunCons(c, true, s2, ModesetWrite, [FrameStart] + [], t);
    RunCons(c, true, s1, Disable, [ModesetWrite] + ([FrameStart] + []), t);
    RunConcat(c, true, s, [EnableVideo(l)] + ManyWrites(5), s1, [Disable] + ([ModesetWrite] + ([FrameStart] + [])), t);
  }

  /** And so can an enable, with the window background already off: the new layer's geometry over
      whatever the registers held. */
  lemma EnableCanMix(c: Config, s: State, l: Layer)
    requires Init(s) && l.width == c.width && l.height == c.height
    requires !SameGeometry(s.shadow.video, l) && !SamePlanes(s.shadow.video, l)
    ensures exists steps: seq<Step>, t: State ::
              && Run(c, true, s, steps, t) && t.torn == Some(1)
              && t.working.video != s.shadow.video && t.working.video != l
              && SameGeometry(t.working.video, l) && SamePlanes(t.working.video, s.shadow.video)
  {
    hide Run, Init;
    InitLog(s);
    var s1 := Next(c, s, EnableVideo(l));
    assert Writes(ToVideo(l))[0] == Geometry(l);
    var s2 := Next(c, s1, ModesetWrite);
    var t := Next(c, s2, FrameStart);
    RunNone(c, true, t);
    RunCons(c, true, s2, FrameStart, [], t);
    RunCons(c, true, s1, ModesetWrite, [FrameStart] + [], t);
    RunCons(c, true, s, EnableVideo(l), [ModesetWrite] + ([FrameStart] + []), t);
  }

  // ---------------------------------------------------------------- commits

  predicate Ready(s: State, l: Layer) {
    s.commit.Idle? && s.armed == [] && s.vblanks && s.cache == Some(Remember(l)) && s.shadow.video == l
  }

  function Flipped(s: State, l: Layer, event: bool): State {
    s.(requests := s.requests + [Video(l)], status := false, armed := if event then [|s.requests| + 1] else [])
  }

  /** A commit of the layer that is shown already. */
  lemma Flip(c: Config, s: State, l: Layer, event: bool) returns (t: State, steps: seq<Step>)
    requires Ready(s, l) && l.width == c.width && l.height == c.height
    ensures t == Flipped(s, l, event) && Run(c, true, s, steps, t)
    ensures steps == [BeginVideo(l)] + ([WriteAddresses] + ([ClearStatus] + ([Arm(event)] + [])))
  {
    hide Run;
    t := Flipped(s, l, event);
    var s1 := Next(c, s, BeginVideo(l));
    var s2 := Next(c, s1, WriteAddresses);
    var s3 := Next(c, s2, ClearStatus);
    assert Next(c, s3, Arm(event)) == t;
    RunNone(c, true, t);
    RunCons(c, true, s3, Arm(event), [], t);
    RunCons(c, true, s2, ClearStatus, [Arm(event)] + [], t);
    RunCons(c, true, s1, WriteAddresses, [ClearStatus] + ([Arm(event)] + []), t);
    RunCons(c, true, s, BeginVideo(l), [WriteAddresses] + ([ClearStatus] + ([Arm(event)] + [])), t);
    steps := [BeginVideo(l)] + ([WriteAddresses] + ([ClearStatus] + ([Arm(event)] + [])));
  }

  /** A frame start, cleared by an eventless commit before the poller sees it. */
  lemma LostFrameStart(c: Config, s: State, l: Layer) returns (t: State, steps: seq<Step>)
    requires Ready(s, l) && s.miss < 2 * OVERSAMPLE && l.width == c.width && l.height == c.height
    ensures t == s.(working := s.shadow, torn := None, live := |s.requests|, requests := s.requests + [Video(l)],
                    status := false, miss := s.miss + 1)
    ensures Run(c, true, s, steps, t)
  {
    hide Run;
    var s1 := Next(c, s, FrameStart);
    var s2, flip := Flip(c, s1, l, false);
    t := Next(c, s2, Tick(1));
    assert t == s.(working := s.shadow, torn := None, live := |s.requests|, requests := s.requests + [Video(l)],
                   status := false, miss := s.miss + 1);
    RunNone(c, true, t);
    RunCons(c, true, s2, Tick(1), [], t);
    RunConcat(c, true, s1, flip, s2, [Tick(1)] + [], t);
    RunCons(c, true, s, FrameStart, flip + ([Tick(1)] + []), t);
    steps := [FrameStart] + (flip + ([Tick(1)] + []));
  }

  lemma {:induction false} LostFrameStarts(c: Config, s: State, l: Layer, n: nat) returns (t: State, steps: seq<Step>)
    requires Ready(s, l) && s.miss + n <= 2 * OVERSAMPLE && l.width == c.width && l.height == c.height
    ensures Ready(t, l) && t.miss == s.miss + n && t.log == s.log && t.gate == s.gate
    ensures Run(c, true, s, steps, t)
    decreases n
  {
    hide Run;
    t, steps := s, [];
    if n == 0 {
      RunNone(c, true, s);
    } else {
      var m, one := LostFrameStart(c, s, l);
      var rest;
      t, rest := LostFrameStarts(c, m, l, n - 1);
      RunConcat(c, true, s, one, m, rest, t);
      steps := one + rest;
    }
  }

  // ---------------------------------------------------------------- where the fallback fires

  function Ticks(n: nat): seq<Step> { if n == 0 then [] else [Tick(1)] + Ticks(n - 1) }

  lemma {:induction false} TicksMiss(c: Config, s: State, n: nat)
    requires s.commit.Idle? && !s.status && s.miss + n <= 2 * OVERSAMPLE
    ensures Run(c, true, s, Ticks(n), s.(miss := s.miss + n))
    decreases n
  {
    if n != 0 {
      var u := Next(c, s, Tick(1));
      assert u == s.(miss := s.miss + 1);
      TicksMiss(c, u, n - 1);
      RunCons(c, true, s, Tick(1), Ticks(n - 1), s.(miss := s.miss + n));
    }
  }


  /** The fallback gives the guarantee up: with the timing generator stopped, nine ticks complete a
      flip that no frame start has latched. */
  lemma FallbackGivesUp(c: Config, s: State, l: Layer)
    requires Init(s) && l.width == c.width && l.height == c.height
    ensures exists steps: seq<Step>, t: State ::
              Run(c, true, s, steps, t) && |t.log| == 1 && t.log[0].kind == Fallback && t.log[0].live < t.log[0].flip
  {
    hide Run, Init;
    InitLog(s);
    EnableRuns(c, s, l);
    var s1 := VideoOn(s, l);
    var s2, flip := Flip(c, s1, l, true);
    TicksMiss(c, s2, 8);
    var s3 := s2.(miss := 8);
    var t := Next(c, s3, Tick(1));
    assert t.log == [Delivery(3, Fallback, 2, s3.working)];
    RunNone(c, true, t);
    RunCons(c, true, s3, Tick(1), [], t);
    RunConcat(c, true, s2, Ticks(8), s3, [Tick(1)] + [], t);
    RunConcat(c, true, s1, flip, s2, Ticks(8) + ([Tick(1)] + []), t);
    RunConcat(c, true, s, [EnableVideo(l)] + ManyWrites(5), s1, flip + (Ticks(8) + ([Tick(1)] + [])), t);
  }

  /** Flips without events are enough: eight of them, each just after a frame start, hide those
      from the poller, and the next flip is completed by the fallback before its own. */
  lemma EventlessFlipsStarve(c: Config, s: State, l: Layer)
    requires Init(s) && l.width == c.width && l.height == c.height
    ensures exists steps: seq<Step>, t: State ::
              Run(c, true, s, steps, t) && |t.log| == 1 && t.log[0].kind == Fallback && t.log[0].live < t.log[0].flip
  {
    hide Run, Init;
    InitLog(s);
    EnableRuns(c, s, l);
    var s1 := VideoOn(s, l);
    var s2, lost := LostFrameStarts(c, s1, l, 8);
    var s3 := Next(c, s2, FrameStart);
    var s4, flip := Flip(c, s3, l, true);
    var t := Next(c, s4, Tick(1));
    assert t.log == [Delivery(|s2.requests| + 1, Fallback, |s2.requests|, s2.shadow)];
    RunNone(c, true, t);
    RunCons(c, true, s4, Tick(1), [], t);
    RunConcat(c, true, s3, flip, s4, [Tick(1)] + [], t);
    RunCons(c, true, s2, FrameStart, flip + ([Tick(1)] + []), t);
    RunConcat(c, true, s1, lost, s2, [FrameStart] + (flip + ([Tick(1)] + [])), t);
    RunConcat(c, true, s, [EnableVideo(l)] + ManyWrites(5), s1, lost + ([FrameStart] + (flip + ([Tick(1)] + []))), t);
  }

  lemma InitLog(s: State)
    requires Init(s)
    ensures s.log == [] && s.requests == [] && s.live == 0 && s.gate == 0 && s.miss == 0 && !s.status && s.commit.Idle? && s.armed == [] && s.torn.None? && !s.vblanks
  {
  }
}
