/** The callbacks of soph_drm, with their fields and the register banks they write. Each is one
    or several steps of the page-flip protocol, in the source's order. */
module SophDrm {
  import opened Wrappers
  import opened PageFlip
  import opened FlipRuns

  class Driver {
    const cfg: Config
    // the display
    var shadow: Bank
    var working: Bank
    var frameStart: bool            // the raw frame-start status
    // struct soph_drm
    var layerKnown: bool            // layer_fmt is not SCL_FMT_MAX
    var layerFmt: Format
    var layerCsc: Csc
    var layerPitchY: nat
    var layerPitchC: nat
    var vblMiss: nat
    var vblGate: nat
    var vblanks: bool
    // the events the DRM core holds
    ghost var armed: seq<nat>
    // the history of requests, latches and deliveries
    ghost var requests: seq<Request>
    ghost var live: nat
    ghost var log: seq<Delivery>

    ghost function View(): State
      reads this
    {
      State(shadow, working, None, frameStart,
            if layerKnown then Some(Cache(layerFmt, layerCsc, layerPitchY, layerPitchC)) else None,
            vblMiss, vblGate, Idle, armed, vblanks, requests, live, log)
    }

    constructor (c: Config, registers: Bank)
      ensures cfg == c && Init(View())
    {
      cfg := c;
      shadow, working, frameStart := registers, registers, false;
      layerKnown, layerFmt, layerCsc, layerPitchY, layerPitchC := false, BgrPacked, CscNone, 0, 0;
      vblMiss, vblGate, armed, vblanks := 0, 0, [], false;
      requests, live, log := [], 0, [];
    }

    /** sclr_disp_frame_start_poll: read, and clear by writing one. */
    method FrameStartPoll() returns (seen: bool)
      modifies this`frameStart
      ensures seen == old(frameStart) && !frameStart
    {
      seen := frameStart;
      frameStart := false;
    }

    /** drm_crtc_handle_vblank */
    method HandleVblank(ghost k: Kind)
      modifies this`armed, this`log
      ensures View() == Complete(old(View()), k)
    {
      log := log + Deliveries(View(), k);
      armed := [];
    }

    /** soph_vbl_fn */
    method VblFn(vblDiv: nat)
      modifies this`frameStart, this`vblMiss, this`vblGate, this`armed, this`log
      ensures View() == Next(cfg, old(View()), Tick(vblDiv))
    {
      var vblank := false;
      var seen := FrameStartPoll();
      if seen {
        vblank := true;
        vblMiss := 0;
      } else {
        vblMiss := vblMiss + 1;
        if vblMiss > 2 * OVERSAMPLE {
          vblank := true;
          vblMiss := 0;
        }
      }
      if vblank {
        vblGate := vblGate + 1;
        if vblGate >= (if vblDiv != 0 then vblDiv else 1) {
          vblGate := 0;
          HandleVblank(if seen then Real else Fallback);
        }
      }
    }

    /** soph_video_load */
    method VideoLoad(l: Layer)
      modifies this
      ensures View() == Load(old(View()), l)
    {
      shadow := SetLayer(shadow, l);
      layerKnown := true;
      layerFmt := l.fmt;
      layerCsc := l.csc;
      layerPitchY := l.pitchY;
      layerPitchC := l.pitchC;
      requests := requests + [Video(l)];
      assert View().cache == Some(Remember(l)) && shadow == SetLayer(old(shadow), l);
    }

    /** soph_video_stage: whichever write is taken, the shadow bank holds the whole layer, if the
        remembered one agreed with it before. */
    method VideoStage(l: Layer)
      requires CacheAgrees(cfg, View())
      modifies this
      ensures View() == old(View()).(shadow := SetLayer(old(shadow), l), cache := Some(Remember(l)),
                                     requests := old(requests) + [Video(l)])
    {
      if layerKnown && l.fmt == layerFmt && l.csc == layerCsc && l.pitchY == layerPitchY && l.pitchC == layerPitchC {
        SetMem(l.pitchY, l.pitchC, l.width, l.height, l.addr0, l.addr1, l.addr2);
        requests := requests + [Video(l)];
      } else {
        VideoLoad(l);
      }
    }

    /** sclr_disp_set_mem(): geometry and pitches in one window, the addresses in the next. */
    method SetMem(pitchY: nat, pitchC: nat, width: nat, height: nat, a0: int, a1: int, a2: int)
      modifies this`shadow
      ensures shadow == SetAddresses(SetGeometry(old(shadow), pitchY, pitchC, width, height), a0, a1, a2)
    {
      shadow := SetGeometry(shadow, pitchY, pitchC, width, height);
      shadow := SetAddresses(shadow, a0, a1, a2);
    }

    /** sclr_disp_set_cfg(): the memory first, then format and input CSC in a window of their own. */
    method SetCfg(l: Layer)
      modifies this`shadow, this`requests
      ensures shadow == SetLayer(old(shadow), l) && requests == old(requests) + [Video(l)]
    {
      SetMem(l.pitchY, l.pitchC, l.width, l.height, l.addr0, l.addr1, l.addr2);
      shadow := Apply(cfg, shadow, Colours(l));
      requests := requests + [Video(l)];
    }

    /** soph_video_park: every plane points into the driver's buffer, and nothing is remembered. */
    method VideoPark()
      modifies this`shadow, this`layerKnown, this`requests
      ensures shadow == Parked(cfg, old(shadow)) && Shows(cfg, shadow, Park)
      ensures shadow.video.width == shadow.video.height == 80 && shadow.video.pitchY == shadow.video.pitchC == 256
      ensures shadow.video.addr0 == shadow.video.addr1 == shadow.video.addr2 == cfg.park
      ensures View().cache.None? && requests == old(requests) + [Park]
    {
      SetMem(PARK_PITCH, PARK_PITCH, PARK_SIZE, PARK_SIZE, cfg.park, cfg.park, cfg.park);
      layerKnown := false;
      requests := requests + [Park];
    }

    method ForceUpRegisters()
      modifies this`working, this`live
      ensures View() == ForceUp(old(View()))
    {
      working := shadow;
      live := |requests|;
    }

    /** soph_pipe_update on the video layer: stage, forget the frame starts seen so far, arm the
        event. Uninterrupted, it is the protocol's commit, and keeps its invariant. */
    method PipeUpdate(l: Layer, event: bool)
      requires Inv(cfg, true, View()) && armed == [] && l.width == cfg.width && l.height == cfg.height
      modifies this
      ensures Inv(cfg, true, View())
      ensures Run(cfg, true, old(View()), CommitSteps(old(View()), l, event), View())
      ensures shadow.video == l && !frameStart
      ensures event && vblanks ==> armed == [|requests|] && log == old(log)
    {
      hide CacheAgrees, BanksShow, StatusIsFresh, ArmedOk, LogSound, Run, Enabled;
      ghost var s := View();
      VideoStage(l);
      var seen := FrameStartPoll();
      if event {
        if vblanks {
          armed := armed + [|requests|];
        } else {
          log := log + [Delivery(|requests|, VblankOff, live, working)];
        }
      }
      CommitRuns(cfg, s, l, event);
      RunInv(cfg, true, s, CommitSteps(s, l, event), View());
    }

    /** soph_pipe_enable on the panel's own mode. Uninterrupted, it is the protocol's enable: the layer
        is live before vblanks run. */
    method PipeEnable(l: Layer)
      requires !vblanks
      modifies this
      ensures View() == VideoOn(old(View()), l) && working.video == l
      ensures l.width == cfg.width && l.height == cfg.height ==>
                Run(cfg, true, old(View()), [EnableVideo(l)] + ManyWrites(5), View())
    {
      hide Run;
      if l.width == cfg.width && l.height == cfg.height { EnableRuns(cfg, View(), l); }
      SetCfg(l);
      VideoLoad(l);
      ForceUpRegisters();
      vblanks := true;
    }

    /** soph_gop_set */
    method GopSet(addr: int)
      modifies this`shadow, this`requests
      ensures View() == old(View()).(shadow := old(shadow).(gop := addr), requests := old(requests) + [Gop(addr)])
    {
      shadow := shadow.(gop := addr);
      requests := requests + [Gop(addr)];
    }

    /** soph_pipe_enable on the overlay's mode: the hidden video layer is parked. */
    method PipeEnableOverlay(addr: int)
      requires !vblanks
      modifies this
      ensures View() == OverlayOn(cfg, old(View()), addr) && Shows(cfg, working, Park) && working.gop == addr
      ensures Run(cfg, true, old(View()), [EnableGop(addr)] + ManyWrites(5), View())
    {
      hide Run;
      EnableOverlayRuns(cfg, View(), addr);
      VideoPark();
      GopSet(addr);
      ForceUpRegisters();
      ForceUpRegisters();
      vblanks := true;
    }

    /** soph_pipe_update on the overlay. */
    method PipeUpdateOverlay(addr: int, event: bool)
      requires Inv(cfg, true, View()) && armed == []
      modifies this
      ensures View() == Next(cfg, Next(cfg, Next(cfg, old(View()), BeginGop(addr)), ClearStatus), Arm(event))
      ensures Inv(cfg, true, View()) && shadow.gop == addr && shadow.video == old(shadow.video)
    {
      hide CacheAgrees, BanksShow, StatusIsFresh, ArmedOk, LogSound, Run;
      ghost var s := View();
      GopSet(addr);
      var seen := FrameStartPoll();
      if event {
        if vblanks {
          armed := armed + [|requests|];
        } else {
          log := log + [Delivery(|requests|, VblankOff, live, working)];
        }
      }
      OverlayCommit(cfg, s, addr, event);
    }

    /** soph_pipe_disable: vblanks off first, which sends what is armed; then park. */
    method PipeDisable()
      modifies this
      ensures View() == TurnedOff(cfg, old(View())) && Shows(cfg, working, Park) && armed == []
      ensures old(vblanks) ==> Run(cfg, true, old(View()), [Disable] + ManyWrites(3), View())
    {
      hide Run;
      if vblanks { DisableRuns(cfg, View()); }
      vblanks := false;
      HandleVblank(VblankOff);
      VideoPark();
      ForceUpRegisters();
    }
  }

  /** The steps of one commit: two register windows if the remembered layer fits, else one. */
  function CommitSteps(s: State, l: Layer, event: bool): seq<Step> {
    if s.cache == Some(Remember(l))
    then [BeginVideo(l)] + ([WriteAddresses] + ([ClearStatus] + ([Arm(event)] + [])))
    else [BeginVideo(l)] + ([ClearStatus] + ([Arm(event)] + []))
  }

  function AfterCommit(s: State, l: Layer, event: bool): State {
    var t := s.(shadow := SetLayer(s.shadow, l), cache := Some(Remember(l)), requests := s.requests + [Video(l)],
                status := false);
    if !event then t
    else if s.vblanks then t.(armed := s.armed + [|t.requests|])
    else t.(log := s.log + [Delivery(|t.requests|, VblankOff, s.live, s.working)])
  }

  lemma CommitRuns(c: Config, s: State, l: Layer, event: bool)
    requires CacheAgrees(c, s) && s.commit.Idle? && s.armed == [] && l.width == c.width && l.height == c.height
    ensures Run(c, true, s, CommitSteps(s, l, event), AfterCommit(s, l, event))
  {
    var t := AfterCommit(s, l, event);
    var s1 := Next(c, s, BeginVideo(l));
    var s2 := if s1.commit.Addresses? then Next(c, s1, WriteAddresses) else s1;
    assert s2 == s.(shadow := SetLayer(s.shadow, l), cache := Some(Remember(l)), requests := s.requests + [Video(l)], commit := Locked);
    var s3 := Next(c, s2, ClearStatus);
    assert Next(c, s3, Arm(event)) == t;
    RunCons(c, true, s3, Arm(event), [], t);
    RunCons(c, true, s2, ClearStatus, [Arm(event)] + [], t);
    if s1.commit.Addresses? {
      RunCons(c, true, s1, WriteAddresses, [ClearStatus] + ([Arm(event)] + []), t);
      RunCons(c, true, s, BeginVideo(l), [WriteAddresses] + ([ClearStatus] + ([Arm(event)] + [])), t);
    } else {
      RunCons(c, true, s, BeginVideo(l), [ClearStatus] + ([Arm(event)] + []), t);
    }
  }

  lemma OverlayCommit(c: Config, s: State, addr: int, event: bool)
    requires Inv(c, true, s) && s.commit.Idle? && s.armed == []
    ensures Inv(c, true, Next(c, Next(c, Next(c, s, BeginGop(addr)), ClearStatus), Arm(event)))
  {
    hide Inv;
    var s1 := Next(c, s, BeginGop(addr));
    var s2 := Next(c, s1, ClearStatus);
    StepInv(c, true, s, BeginGop(addr));
    StepInv(c, true, s1, ClearStatus);
    StepInv(c, true, s2, Arm(event));
  }
}
