/**
 The latency monitor's use of watchpoints: each request gets one slot, or an even/odd pair, of
 the two that a monitor has in the request's direction.  Slots are never given back.
 */
module Latency {
  import opened Options
  import opened DtmRegisters
  import opened Rotation
  import opened Capture

  /** A finalized watchpoint: one or two groups of match bits in a direction. */
  datatype Match = Match(up: bool, groups: seq<Group>, chn: bv64)

  datatype Request = Request(dtm: Dtm, dev: bv64, match_: Match, fmt: bv64)

  /** Watchpoint slots that one request was given. */
  datatype Grant = Grant(dtm: Dtm, slots: set<nat>)

  /** A request that was programmed, and its first slot. */
  datatype Held = Held(r: Request, wp: nat)

  datatype Key = Key(dtm: Dtm, dev: bv64, chn: bv64, up: bool)

  function KeyOf(r: Request): Key {
    Key(r.dtm, r.dev, r.match_.chn, r.match_.up)
  }

  /** Responses are the same to the monitor exactly if they agree in monitor, port, channel and direction. */
  lemma SameKeyIff(r: Request, q: Request)
    ensures KeyOf(r) == KeyOf(q) <==>
            r.dtm == q.dtm && r.dev == q.dev && r.match_.chn == q.match_.chn && r.match_.up == q.match_.up
  {
  }

  function Base(up: bool): nat {
    if up then 0 else 2
  }

  function Direction(up: bool): set<nat> {
    {Base(up), Base(up) + 1}
  }

  function GroupWatchpoint(r: Request, i: nat): Watchpoint
    requires i < |r.match_.groups|
  {
    var g := r.match_.groups[i];
    Watchpoint(Some(g.val), g.mask, Some(r.match_.chn), Some(r.dev), Some(g.grp), Some(r.fmt),
               true, true, false, |r.match_.groups| > 1 && i == 0, false, false)
  }

  ghost predicate Disjoint(grants: seq<Grant>) {
    forall i, j :: 0 <= i < j < |grants| && grants[i].dtm == grants[j].dtm ==> grants[i].slots !! grants[j].slots
  }

  /** The slots in use on a monitor are those that were granted on it. */
  ghost predicate InUseIsGranted(inUse: set<nat>, grants: seq<Grant>, d: Dtm) {
    forall s: nat :: s in inUse <==> exists i :: 0 <= i < |grants| && grants[i].dtm == d && s in grants[i].slots
  }

  lemma GrantMore(inUse: set<nat>, grants: seq<Grant>, d: Dtm, slots: set<nat>)
    requires InUseIsGranted(inUse, grants, d) && Disjoint(grants) && slots !! inUse
    ensures InUseIsGranted(inUse + slots, grants + [Grant(d, slots)], d)
    ensures Disjoint(grants + [Grant(d, slots)])
  {
    var more := grants + [Grant(d, slots)];
    forall s: nat | s in inUse + slots
      ensures exists i :: 0 <= i < |more| && more[i].dtm == d && s in more[i].slots
    {
      if s in inUse {
        var i :| 0 <= i < |grants| && grants[i].dtm == d && s in grants[i].slots;
        assert more[i] == grants[i];
      } else {
        assert more[|grants|] == Grant(d, slots);
      }
    }
    forall i, j | 0 <= i < j < |more| && more[i].dtm == more[j].dtm
      ensures more[i].slots !! more[j].slots
    {
      if j == |grants| {
        assert forall s :: s in grants[i].slots ==> s in inUse;
      }
    }
  }

  lemma GrantElsewhere(inUse: set<nat>, grants: seq<Grant>, d: Dtm, g: Grant)
    requires InUseIsGranted(inUse, grants, d) && g.dtm != d
    ensures InUseIsGranted(inUse, grants + [g], d)
  {
    var more := grants + [g];
    forall s: nat | s in inUse
      ensures exists i :: 0 <= i < |more| && more[i].dtm == d && s in more[i].slots
    {
      var i :| 0 <= i < |grants| && grants[i].dtm == d && s in grants[i].slots;
      assert more[i] == grants[i];
    }
  }

  /** The even slot if it is free; else the odd one, for a single group. */
  method ChooseSlot(used: set<nat>, up: bool, nGroups: nat) returns (wp: Option<nat>)
    requires InOrder(used) && 1 <= nGroups <= 2
    ensures wp.None? <==> |Direction(up) - used| < nGroups
    ensures wp.Some? ==> if up then wp.value + nGroups <= 2 else 2 <= wp.value
    ensures wp.Some? ==> wp.value + nGroups <= 4 && (nGroups == 2 ==> wp.value % 2 == 0)
    ensures wp.Some? ==> SlotRange(wp.value, nGroups) <= Direction(up) - used
    ensures wp.Some? ==> InOrder(used + SlotRange(wp.value, nGroups)) && InOrder(used + SlotRange(wp.value, 1))
    ensures wp.Some? ==> SlotRange(wp.value, 1) <= Direction(up) - used
  {
    hide InOrder, SlotRange;
    SlotChoice(used, up);
    var n := Base(up);
    if n in used {
      if nGroups > 1 || n + 1 in used {
        return None;
      }
      n := n + 1;
    }
    return Some(n);
  }

  /** The control word of the tag setter's monitor until it is enabled. */
  predicate TagsOnly(c: bv64) {
    c & TRACE_TAG_ENABLE != 0 && c & TRACE_NO_ATB != 0 && c & DTM_ENABLE == 0
  }

  /** A request's groups are in the registers, in slots that are in use. */
  ghost predicate HeldIn(h: Held, regs: map<nat, bv64>, inUse: set<nat>) {
    var n := |h.r.match_.groups|;
    h.wp + n <= 4 && SlotRange(h.wp, n) <= inUse &&
    forall i :: 0 <= i < n ==> Programmed(h.r.dtm.part, regs, h.wp + i, GroupWatchpoint(h.r, i))
  }

  ghost predicate Holds(held: seq<Held>, key: Key, wp: nat) {
    exists i :: 0 <= i < |held| && KeyOf(held[i].r) == key && held[i].wp == wp
  }

  ghost predicate ValidGrants(dtms: map<Dtm, set<nat>>, grants: seq<Grant>) {
    Disjoint(grants) &&
    (forall d: Dtm :: d in dtms ==> InUseIsGranted(dtms[d], grants, d) && InOrder(dtms[d])) &&
    (forall i :: 0 <= i < |grants| ==> grants[i].dtm in dtms)
  }

  /** Why a request gets no slots: the direction has too few, or the guard stops the first write to an enabled monitor. */
  datatype WpError = NotEnoughWatchpoints | StillEnabled

  class LatencyMonitor {
    /** All monitors of the meshes. */
    const monitors: seq<Dtm>
    var dtms: map<Dtm, set<nat>>
    var watching: map<Key, nat>
    ghost var grants: seq<Grant>
    ghost var held: seq<Held>
    /** The monitor of the tag-setting watchpoint, once it is programmed. */
    var reqDtm: Option<Dtm>
    var pendingReq: Option<Request>
    var pendingRsps: seq<Request>
    var needInit: bool

    /** A new object initialises its monitors, whatever state they are in. */
    constructor (monitors: seq<Dtm>)
      requires forall d :: d in monitors ==> NoUnsafeWrite(d.log)
      modifies set d | d in monitors :: d`regs, set d | d in monitors :: d`log, set d | d in monitors :: d`cachedEnable
      ensures this.monitors == monitors && SessionValid() && AllDisabled()
      ensures dtms == map[] && pendingReq == None && pendingRsps == [] && needInit
    {
      this.monitors := monitors;
      dtms, watching, grants, held, reqDtm := map[], map[], [], [], None;
      pendingReq, pendingRsps, needInit := None, [], true;
      new;
      Init();
    }

    /** Every monitor tells the truth about being enabled, and no programming write ever met an enabled one. */
    ghost predicate AllGood()
      reads monitors
    {
      forall d :: d in monitors ==> d.Good()
    }

    /** Since initialisation every monitor has its flag cached. */
    ghost predicate AllCached()
      reads monitors
    {
      forall d :: d in monitors ==> d.cachedEnable.Some?
    }

    ghost predicate AllDisabled()
      reads monitors
    {
      forall d :: d in monitors ==> d.Disabled()
    }

    /** A request for one of the meshes' monitors. */
    ghost predicate IsRequest(r: Request) {
      r.dtm in monitors && 1 <= |r.match_.groups| <= 2
    }

    /** Every request that was given slots is in the registers as it was asked for. */
    ghost predicate AllHeld()
      reads this`held, this`dtms, set h | h in held :: h.r.dtm`regs
    {
      forall i :: 0 <= i < |held| ==> held[i].r.dtm in dtms && HeldIn(held[i], held[i].r.dtm.regs, dtms[held[i].r.dtm])
    }

    /** And so is all that is watched. */
    ghost predicate AsAsked()
      reads this`held, this`dtms, this`watching, set h | h in held :: h.r.dtm`regs
    {
      AllHeld() && forall key :: key in watching ==> Holds(held, key, watching[key])
    }

    /** What every operation of a session keeps. */
    ghost predicate SessionValid()
      reads this, monitors
    {
      Valid() && AllGood() && AllCached() && (forall d :: d in dtms ==> d in monitors) &&
      (reqDtm.Some? ==> reqDtm.value in monitors && SetsTags(Reg(reqDtm.value.regs, CONTROL))) &&
      (pendingReq.Some? ==> IsRequest(pendingReq.value)) &&
      (forall i :: 0 <= i < |pendingRsps| ==> IsRequest(pendingRsps[i]))
    }

    /** Known good state from any state: nothing matches, the FIFO is cleared, the monitor is disabled. */
    static method InitDtm(d: Dtm)
      requires NoUnsafeWrite(d.log)
      modifies d`regs, d`log, d`cachedEnable
      ensures d.Disabled()
      ensures forall wp :: 0 <= wp < 4 ==> Programmed(d.part, d.regs, wp, RESET_WP)
    {
      hide NoUnsafeWrite, Programmed, EnableBit, SetMask, ClearMask, PackControl, Encode, Quiet;
      d.Disable();
      NoBitsNoEnable();
      d.SetControl(0, false, false, false);
      d.Enable();
      d.ClearFifo();
      d.Disable();
      ResetDtm(d);
      ghost var before := d.regs;
      d.SetControl(0, false, false, false);
      StillReset(d.part, before, d.regs);
      before := d.regs;
      d.Disable();
      StillReset(d.part, before, d.regs);
    }

    /** All monitors to the known good state, and no watchpoint in use. */
    method Init()
      requires forall d :: d in monitors ==> NoUnsafeWrite(d.log)
      modifies this`dtms, this`watching, this`grants, this`held, this`reqDtm
      modifies set d | d in monitors :: d`regs, set d | d in monitors :: d`log, set d | d in monitors :: d`cachedEnable
      ensures Valid() && AllDisabled() && dtms == map[] && watching == map[] && grants == [] && held == [] && reqDtm == None
      ensures forall d, wp :: d in monitors && 0 <= wp < 4 ==> Programmed(d.part, d.regs, wp, RESET_WP)
    {
      hide NoUnsafeWrite, Programmed, EnableBit, Quiet;
      dtms, watching, grants, held, reqDtm := map[], map[], [], [], None;
      for i := 0 to |monitors|
        invariant dtms == map[] && watching == map[] && grants == [] && held == [] && reqDtm == None
        invariant forall d :: d in monitors ==> NoUnsafeWrite(d.log)
      {
        assert monitors[i] in monitors;
        ResetDtm(monitors[i]);
      }
      for i := 0 to |monitors|
        invariant dtms == map[] && watching == map[] && grants == [] && held == [] && reqDtm == None
        invariant forall d :: d in monitors ==> NoUnsafeWrite(d.log)
        invariant forall j :: 0 <= j < i ==> monitors[j].Disabled()
        invariant forall j, wp :: 0 <= j < i && 0 <= wp < 4 ==> Programmed(monitors[j].part, monitors[j].regs, wp, RESET_WP)
      {
        assert monitors[i] in monitors;
        InitDtm(monitors[i]);
      }
    }

    /** The same in a session: what was asked for stays asked for. */
    method InitAgain()
      requires SessionValid()
      modifies this`dtms, this`watching, this`grants, this`held, this`reqDtm
      modifies set d | d in monitors :: d`regs, set d | d in monitors :: d`log, set d | d in monitors :: d`cachedEnable
      ensures SessionValid() && AllDisabled() && dtms == map[] && watching == map[] && grants == [] && reqDtm == None
      ensures AsAsked()
    {
      hide Valid, NoUnsafeWrite, Programmed, EnableBit;
      Init();
    }

    /** Program all pending requests, then the tag setter; stop at the first that cannot be. */
    method ProgramPending() returns (ok: bool)
      requires SessionValid()
      modifies this`dtms, this`watching, this`grants, this`held, this`reqDtm, this`needInit
      modifies set d | d in monitors :: d`regs, set d | d in monitors :: d`log, set d | d in monitors :: d`cachedEnable
      ensures SessionValid() && (old(AllDisabled()) ==> AllDisabled()) && (old(AsAsked()) ==> AsAsked())
      ensures ok ==> forall i :: 0 <= i < |pendingRsps| ==> KeyOf(pendingRsps[i]) in watching
      ensures ok && pendingReq.Some? ==> reqDtm == Some(pendingReq.value.dtm)
      ensures ok && pendingReq.Some? ==> |grants| > 0 && grants[|grants| - 1].dtm == pendingReq.value.dtm
      ensures ok && pendingReq.Some? ==> |held| > 0 && held[|held| - 1].r == pendingReq.value
      ensures needInit == (old(needInit) && !ok)
    {
      hide NoUnsafeWrite, Valid, KeyOf, AllGood, AsAsked;
      ok := ProgramRequests();
      needInit := needInit && !ok;
    }

    method ProgramRequests() returns (ok: bool)
      requires SessionValid()
      modifies this`dtms, this`watching, this`grants, this`held, this`reqDtm
      modifies set d | d in monitors :: d`regs, set d | d in monitors :: d`log, set d | d in monitors :: d`cachedEnable
      ensures SessionValid() && (old(AllDisabled()) ==> AllDisabled()) && (old(AsAsked()) ==> AsAsked())
      ensures ok ==> forall i :: 0 <= i < |pendingRsps| ==> KeyOf(pendingRsps[i]) in watching
      ensures ok && pendingReq.Some? ==> reqDtm == Some(pendingReq.value.dtm)
      ensures ok && pendingReq.Some? ==> |grants| > 0 && grants[|grants| - 1].dtm == pendingReq.value.dtm
      ensures ok && pendingReq.Some? ==> |held| > 0 && held[|held| - 1].r == pendingReq.value
    {
      hide Valid, AllDisabled, AllGood, KeyOf, AsAsked;
      ok := ProgramRsps();
      if ok && pendingReq.Some? {
        ok := SetReq(pendingReq.value);
      }
    }

    /** The tag setter; false is a second one, or one that finds no room.  Setting the control word disables its monitor. */
    method SetReq(r: Request) returns (ok: bool)
      requires SessionValid() && IsRequest(r)
      modifies this`dtms, this`grants, this`held, this`reqDtm, r.dtm`regs, r.dtm`log, r.dtm`cachedEnable
      ensures SessionValid() && (old(AllDisabled()) ==> AllDisabled()) && (old(reqDtm) == None ==> r.dtm.Disabled())
      ensures old(AsAsked()) ==> AsAsked()
      ensures ok <==> old(reqDtm) == None && |old(Free(r.dtm, r.match_.up))| >= |r.match_.groups|
      ensures reqDtm == if ok then Some(r.dtm) else old(reqDtm)
      ensures ok ==> |grants| > 0 && grants[|grants| - 1].dtm == r.dtm
      ensures ok ==> |held| > 0 && held[|held| - 1].r == r
      ensures ok ==> TagsOnly(Reg(r.dtm.regs, CONTROL))
    {
      hide Dtm.Good, GroupRegs, Valid, SlotRange, Free, InUse, AsAsked, TagsOnly, SetsTags;
      if reqDtm.Some? {
        return false;
      }
      SetTagging(r.dtm);
      var wp := SetWp(r);
      ok := wp.Ok?;
      reqDtm := if ok then Some(r.dtm) else reqDtm;
    }

    /** Write a monitor's control word: disabled, setting tags, keeping trace in its FIFO. */
    method SetTagging(d: Dtm)
      requires d.Good()
      modifies d`regs, d`log, d`cachedEnable
      ensures d.Disabled() && SetsTags(Reg(d.regs, CONTROL)) && TagsOnly(Reg(d.regs, CONTROL))
      ensures old(AsAsked()) ==> AsAsked()
    {
      hide NoUnsafeWrite, PackControl, HeldIn, Holds, AsAsked;
      NoBitsNoEnable();
      TagControl();
      d.SetControl(0, false, true, false);
      ControlKeepsHeld();
    }

    method ProgramRsps() returns (ok: bool)
      requires SessionValid()
      modifies this`dtms, this`watching, this`grants, this`held
      modifies set d | d in monitors :: d`regs, set d | d in monitors :: d`log
      ensures SessionValid() && (old(AllDisabled()) ==> AllDisabled()) && (old(AsAsked()) ==> AsAsked())
      ensures ok ==> forall i :: 0 <= i < |pendingRsps| ==> KeyOf(pendingRsps[i]) in watching
    {
      hide Dtm.Good, GroupRegs, Valid, SlotRange, Free, InUse, AsAsked, SetsTags;
      for i := 0 to |pendingRsps|
        invariant SessionValid() && (old(AsAsked()) ==> AsAsked())
        invariant forall j :: 0 <= j < i ==> KeyOf(pendingRsps[j]) in watching
      {
        var added := AddRsp(pendingRsps[i]);
        if !added {
          return false;
        }
      }
      return true;
    }

    /** A response is watched once for each combination of monitor, port, channel and direction. */
    method AddRsp(r: Request) returns (ok: bool)
      requires Valid() && r.dtm.Good() && r.dtm.cachedEnable.Some? && 1 <= |r.match_.groups| <= 2
      modifies this`dtms, this`watching, this`grants, this`held, r.dtm`regs, r.dtm`log
      ensures Valid() && r.dtm.Good() && dtms.Keys <= old(dtms).Keys + {r.dtm}
      ensures ok <==> KeyOf(r) in old(watching) || (|old(Free(r.dtm, r.match_.up))| >= |r.match_.groups| && r.dtm.Disabled())
      ensures ok && KeyOf(r) in old(watching) ==> grants == old(grants) && watching == old(watching) && dtms == old(dtms)
      ensures ok && KeyOf(r) !in old(watching) ==> |grants| == |old(grants)| + 1 && watching.Keys == old(watching).Keys + {KeyOf(r)}
      ensures !ok ==> watching == old(watching) && (r.dtm.Disabled() ==> grants == old(grants))
      ensures !ok ==> r.dtm.regs == old(r.dtm.regs) && r.dtm.log == old(r.dtm.log)
      ensures ok && KeyOf(r) !in old(watching) ==>
                watching == old(watching)[KeyOf(r) := watching[KeyOf(r)]] && held == old(held) + [Held(r, watching[KeyOf(r)])]
      ensures Reg(r.dtm.regs, CONTROL) == Reg(old(r.dtm.regs), CONTROL)
      ensures old(AsAsked()) ==> AsAsked()
    {
      hide NoUnsafeWrite, Disjoint, InUseIsGranted, InOrder, GroupRegs, SlotRange, Free, InUse, EnableBit, KeyOf, AllHeld;
      var key := KeyOf(r);
      if key in watching {
        return true;
      }
      var wp := SetWp(r);
      if wp.Err? {
        return false;
      }
      watching := watching[key := wp.value];
      HoldsMore(old(held), r, wp.value);
      return true;
    }

    // -------------------------------------------------------------- a session

    method RequestRsp(r: Request)
      requires SessionValid() && IsRequest(r)
      modifies this`pendingRsps
      ensures SessionValid() && pendingRsps == old(pendingRsps) + [r]
    {
      hide Valid;
      pendingRsps := pendingRsps + [r];
    }

    /** The one tag setter, for uploads; false is a failed assertion. */
    method RequestReq(r: Request) returns (ok: bool)
      requires SessionValid() && IsRequest(r)
      modifies this`pendingReq
      ensures SessionValid() && ok == (old(pendingReq) == None && r.match_.up)
      ensures pendingReq == if ok then Some(r) else old(pendingReq)
    {
      hide Valid;
      ok := pendingReq == None && r.match_.up;
      if ok {
        pendingReq := Some(r);
      }
    }

    /** Enable every monitor that has a watchpoint in use. */
    method EnableActive()
      requires SessionValid()
      modifies set d | d in dtms :: d`regs, set d | d in dtms :: d`log, set d | d in dtms :: d`cachedEnable
      ensures SessionValid() && forall d :: d in dtms ==> d.cachedEnable == Some(true)
      ensures forall d :: d in dtms ==> Written(d, [EnableWrite(old(d.regs))])
      ensures old(AsAsked()) ==> AsAsked()
    {
      hide Valid, NoUnsafeWrite, EnableBit, EnableWrite, AsAsked;
      EnableDtms(dtms.Keys);
      ControlKeepsHeld();
    }

    method DisableActive()
      requires SessionValid()
      modifies set d | d in dtms :: d`regs, set d | d in dtms :: d`log, set d | d in dtms :: d`cachedEnable
      ensures SessionValid() && forall d :: d in dtms ==> d.Disabled()
      ensures old(AsAsked()) ==> AsAsked()
    {
      hide Valid, NoUnsafeWrite, EnableBit, AsAsked;
      DisableDtms(dtms.Keys);
      ControlKeepsHeld();
    }

    /** Empty the FIFOs of the monitors in use, which are enabled. */
    method ClearActive()
      requires SessionValid() && forall d :: d in dtms ==> d.cachedEnable == Some(true)
      modifies set d | d in dtms :: d`regs, set d | d in dtms :: d`log
      ensures SessionValid()
      ensures forall d :: d in dtms ==> d.regs == old(d.regs) && d.log == old(d.log) + [FIFO_CLEARED]
      ensures old(AsAsked()) ==> AsAsked()
    {
      hide Valid, IsRequest, Dtm.Good, AsAsked, SetsTags;
      ClearFifos(dtms.Keys);
      ControlKeepsHeld();
    }

    /** Enable the monitors in use, and empty their FIFOs. */
    method Clear()
      requires SessionValid()
      modifies set d | d in dtms :: d`regs, set d | d in dtms :: d`log, set d | d in dtms :: d`cachedEnable
      ensures SessionValid() && forall d :: d in dtms ==> d.cachedEnable == Some(true)
      ensures forall d :: d in dtms ==> Written(d, [EnableWrite(old(d.regs)), FIFO_CLEARED])
      ensures old(AsAsked()) ==> AsAsked()
    {
      hide Valid, IsRequest, Dtm.Good, EnableWrite, AsAsked, SetsTags, AllGood;
      EnableActive();
      ClearActive();
    }

    /** Let the monitors in use match nothing, then empty their FIFOs, which leaves them enabled. */
    method Reset()
      requires SessionValid()
      modifies set d | d in dtms :: d`regs, set d | d in dtms :: d`log, set d | d in dtms :: d`cachedEnable
      ensures SessionValid() && forall d :: d in dtms ==> d.cachedEnable == Some(true)
      ensures forall d :: d in dtms ==> AllReset(d) && d.log != [] && d.log[|d.log| - 1] == FIFO_CLEARED
    {
      hide Valid, IsRequest, NoUnsafeWrite, EnableBit, AllReset, EnableWrite;
      ResetDtms(dtms.Keys);
      label reset:
      Clear();
      forall d | d in dtms
        ensures AllReset(d)
      {
        ControlKeepsReset@reset(d);
      }
    }

    /** A capture, if the tag setter has one; its monitor is disabled so that no more come.  Without a tag setter there always is. */
    method GetCapture(ready: bool) returns (captured: bool)
      requires SessionValid()
      modifies set d | d in monitors :: d`regs, set d | d in monitors :: d`log, set d | d in monitors :: d`cachedEnable
      ensures SessionValid() && captured == (reqDtm == None || ready)
      ensures captured && reqDtm.Some? ==> reqDtm.value.Disabled()
      ensures old(AsAsked()) ==> AsAsked()
    {
      hide Valid, NoUnsafeWrite, ClearMask, EnableBit, SetsTags, HeldIn, Holds, AsAsked, AllHeld;
      if reqDtm.Some? {
        if !ready {
          return false;
        }
        EnablingKeepsTags(Reg(reqDtm.value.regs, CONTROL));
        reqDtm.value.Disable();
        ControlKeepsHeld();
      }
      return true;
    }

    /**
     The next capture, polling until there is one or time is up.  After a capture everything is
     initialised and programmed again; None is a request that cannot be programmed.
     */
    method GetNext(polls: seq<bool>) returns (captured: Option<bool>)
      requires SessionValid()
      modifies this`dtms, this`watching, this`grants, this`held, this`reqDtm, this`needInit
      modifies set d | d in monitors :: d`regs, set d | d in monitors :: d`log, set d | d in monitors :: d`cachedEnable
      ensures SessionValid()
      ensures captured == None ==> old(needInit) && needInit
      ensures captured.Some? ==> needInit == captured.value
      ensures captured.Some? && old(needInit) ==> forall i :: 0 <= i < |pendingRsps| ==> KeyOf(pendingRsps[i]) in watching
      ensures captured.Some? && old(needInit) ==> AsAsked()
      ensures captured.Some? && old(needInit) && pendingReq.Some? ==> |held| > 0 && held[|held| - 1].r == pendingReq.value
      ensures captured == Some(false) ==> polls == [] || reqDtm.Some?
    {
      hide Valid, NoUnsafeWrite, SetsTags, AsAsked, AllGood, AllCached;
      if needInit {
        InitAgain();
        var ok := ProgramPending();
        if !ok {
          return None;
        }
      }
      for i := 0 to |polls|
        invariant SessionValid() && !needInit
        invariant i > 0 ==> reqDtm.Some?
        invariant old(needInit) ==> forall j :: 0 <= j < |pendingRsps| ==> KeyOf(pendingRsps[j]) in watching
        invariant old(needInit) ==> AsAsked()
        invariant old(needInit) && pendingReq.Some? ==> |held| > 0 && held[|held| - 1].r == pendingReq.value
      {
        var got := GetCapture(polls[i]);
        if got {
          needInit := true;
          return Some(true);
        }
      }
      return Some(false);
    }

    function InUse(d: Dtm): set<nat>
      reads this`dtms
    {
      if d in dtms then dtms[d] else {}
    }

    /** What every request keeps: no slot granted twice, and a direction's odd slot never before its even one. */
    ghost predicate Valid()
      reads this`dtms, this`grants
    {
      ValidGrants(dtms, grants)
    }

    /** How many slots a monitor has left in a direction. */
    function Free(d: Dtm, up: bool): set<nat>
      reads this`dtms
    {
      Direction(up) - InUse(d)
    }

    /** Give a request its slots and program them. */
    method SetWp(r: Request) returns (wp: Result<nat, WpError>)
      requires Valid() && r.dtm.Good() && r.dtm.cachedEnable.Some? && 1 <= |r.match_.groups| <= 2
      modifies this`dtms, this`grants, this`held, r.dtm`regs, r.dtm`log
      ensures Valid() && r.dtm.Good()
      ensures wp == Err(NotEnoughWatchpoints) <==> |old(Free(r.dtm, r.match_.up))| < |r.match_.groups|
      ensures wp.Ok? <==> |old(Free(r.dtm, r.match_.up))| >= |r.match_.groups| && r.dtm.Disabled()
      ensures wp.Err? ==> dtms.Keys == old(dtms).Keys + {r.dtm}
      ensures wp == Err(NotEnoughWatchpoints) ==> grants == old(grants) && dtms == old(dtms)[r.dtm := old(InUse(r.dtm))]
      ensures wp == Err(StillEnabled) ==> |grants| == |old(grants)| + 1 && old(grants) <= grants
      ensures wp == Err(StillEnabled) ==>
                var g := grants[|old(grants)|];
                && g.dtm == r.dtm && |g.slots| == 1 && g.slots <= old(Free(r.dtm, r.match_.up))
                && dtms == old(dtms)[r.dtm := old(InUse(r.dtm)) + g.slots]
      ensures wp.Err? ==> r.dtm.regs == old(r.dtm.regs) && r.dtm.log == old(r.dtm.log)
      ensures wp.Ok? ==> SlotRange(wp.value, |r.match_.groups|) <= old(Free(r.dtm, r.match_.up))
      ensures wp.Ok? && |r.match_.groups| == 2 ==> wp.value % 2 == 0
      ensures wp.Ok? ==> if r.match_.up then wp.value + |r.match_.groups| <= 2 else 2 <= wp.value && wp.value + |r.match_.groups| <= 4
      ensures wp.Ok? ==> grants == old(grants) + [Grant(r.dtm, SlotRange(wp.value, |r.match_.groups|))]
      ensures wp.Ok? ==> dtms == old(dtms)[r.dtm := old(InUse(r.dtm)) + SlotRange(wp.value, |r.match_.groups|)]
      ensures wp.Ok? ==> r.dtm.regs == GroupRegs(r, old(r.dtm.regs), wp.value, |r.match_.groups|)
      ensures Reg(r.dtm.regs, CONTROL) == Reg(old(r.dtm.regs), CONTROL)
      ensures held == if wp.Ok? then old(held) + [Held(r, wp.value)] else old(held)
      ensures old(AsAsked()) ==> AsAsked()
    {
      hide ValidGrants, GroupRegs, SlotRange, InOrder, NoUnsafeWrite, EnableBit, Free, InUse, AsAsked;
      var n := FindSlots(r);
      if n == None {
        return Err(NotEnoughWatchpoints);
      }
      var ok := TakeSlots(r, n.value);
      OneAndTwo(n.value);
      return if ok then Ok(n.value) else Err(StillEnabled);
    }

    /** Where a request can go; the monitor is in the dictionary from then on. */
    method FindSlots(r: Request) returns (n: Option<nat>)
      requires Valid() && 1 <= |r.match_.groups| <= 2
      modifies this`dtms
      ensures Valid() && dtms == old(dtms)[r.dtm := old(InUse(r.dtm))] && (old(AsAsked()) ==> AsAsked())
      ensures n.None? <==> |old(Free(r.dtm, r.match_.up))| < |r.match_.groups|
      ensures n.Some? ==> if r.match_.up then n.value + |r.match_.groups| <= 2 else 2 <= n.value
      ensures n.Some? ==> n.value + |r.match_.groups| <= 4 && (|r.match_.groups| == 2 ==> n.value % 2 == 0)
      ensures n.Some? ==> forall k :: k == 1 || k == |r.match_.groups| ==>
                SlotRange(n.value, k) <= old(Free(r.dtm, r.match_.up)) && SlotRange(n.value, k) !! dtms[r.dtm] &&
                InOrder(dtms[r.dtm] + SlotRange(n.value, k))
    {
      hide ValidGrants, SlotRange, InOrder, Direction, Base, HeldIn, Holds;
      TakeNothing(r.dtm);
      UnusedIsUngranted(r.dtm);
      dtms := dtms[r.dtm := InUse(r.dtm)];
      n := ChooseSlot(dtms[r.dtm], r.match_.up, |r.match_.groups|);
    }

    /** A monitor with no slot in use may be in the dictionary. */
    lemma TakeNothing(d: Dtm)
      requires Valid()
      ensures ValidGrants(dtms[d := InUse(d)], grants)
    {
    }

    method TakeSlots(r: Request, n: nat) returns (ok: bool)
      requires Valid() && r.dtm.Good() && r.dtm.cachedEnable.Some? && 1 <= |r.match_.groups| <= 2 && n + |r.match_.groups| <= 4
      requires |r.match_.groups| == 2 ==> n % 2 == 0
      requires r.dtm in dtms && SlotRange(n, |r.match_.groups|) !! dtms[r.dtm] && SlotRange(n, 1) !! dtms[r.dtm]
      requires InOrder(dtms[r.dtm] + SlotRange(n, |r.match_.groups|)) && InOrder(dtms[r.dtm] + SlotRange(n, 1))
      modifies this`dtms, this`grants, this`held, r.dtm`regs, r.dtm`log
      ensures Valid() && r.dtm.Good() && ok == r.dtm.Disabled()
      ensures var slots := SlotRange(n, if ok then |r.match_.groups| else 1);
              dtms == old(dtms)[r.dtm := old(dtms)[r.dtm] + slots] && grants == old(grants) + [Grant(r.dtm, slots)]
      ensures r.dtm.regs == if ok then GroupRegs(r, old(r.dtm.regs), n, |r.match_.groups|) else old(r.dtm.regs)
      ensures !ok ==> r.dtm.log == old(r.dtm.log)
      ensures Reg(r.dtm.regs, CONTROL) == Reg(old(r.dtm.regs), CONTROL)
      ensures held == if ok then old(held) + [Held(r, n)] else old(held)
      ensures old(AsAsked()) ==> AsAsked()
    {
      hide Disjoint, InUseIsGranted, GroupRegs, NoUnsafeWrite, SlotRange, InOrder, EnableBit, HeldIn, Holds;
      ghost var used := dtms[r.dtm];
      ok := ProgramGroups(r, n);
      ghost var k := if ok then |r.match_.groups| else 1;
      Record(r.dtm, used, SlotRange(n, k));
      GroupRegsControl(r, old(r.dtm.regs), n, |r.match_.groups|);
      forall h: Held | h.r.dtm == r.dtm && HeldIn(h, old(r.dtm.regs), used)
        ensures HeldIn(h, r.dtm.regs, dtms[r.dtm])
      {
        HeldStays(h, r, old(r.dtm.regs), used, n, k, ok);
      }
      if ok {
        HeldNow(r, old(r.dtm.regs), used, n);
        HoldsMore(held, r, n);
        held := held + [Held(r, n)];
      }
    }

    /** Slots are taken before they are programmed; false is a failed assertion, which leaves the first of them taken. */
    method ProgramGroups(r: Request, n: nat) returns (ok: bool)
      requires r.dtm.Good() && r.dtm.cachedEnable.Some? && 1 <= |r.match_.groups| <= 2 && n + |r.match_.groups| <= 4
      requires |r.match_.groups| == 2 ==> n % 2 == 0
      requires r.dtm in dtms
      modifies this`dtms, r.dtm`regs, r.dtm`log
      ensures r.dtm.Good() && ok == r.dtm.Disabled()
      ensures dtms == old(dtms)[r.dtm := old(dtms)[r.dtm] + SlotRange(n, if ok then |r.match_.groups| else 1)]
      ensures r.dtm.regs == if ok then GroupRegs(r, old(r.dtm.regs), n, |r.match_.groups|) else old(r.dtm.regs)
      ensures !ok ==> r.dtm.log == old(r.dtm.log)
    {
      hide WpRegs, NoUnsafeWrite;
      for i := 0 to |r.match_.groups|
        invariant r.dtm.Good() && (i > 0 ==> r.dtm.Disabled())
        invariant r.dtm in dtms && dtms[r.dtm] == old(dtms)[r.dtm] + SlotRange(n, i)
        invariant dtms == old(dtms)[r.dtm := dtms[r.dtm]]
        invariant r.dtm.regs == GroupRegs(r, old(r.dtm.regs), n, i)
        invariant i == 0 ==> r.dtm.log == old(r.dtm.log)
      {
        dtms := dtms[r.dtm := dtms[r.dtm] + {n + i}];
        if !r.dtm.GuardPasses(WP0_VAL + 24 * (n + i)) {
          OneAndTwo(n);
          return false;
        }
        r.dtm.WpSet(n + i, GroupWatchpoint(r, i));
      }
      return true;
    }

    /** Writing monitors' control registers moves no watchpoint. */
    twostate lemma ControlKeepsHeld()
      requires dtms == old(dtms) && held == old(held) && watching == old(watching)
      requires forall i, off :: 0 <= i < |held| && off != CONTROL ==> Reg(old(held[i].r.dtm.regs), off) == Reg(held[i].r.dtm.regs, off)
      ensures old(AsAsked()) ==> AsAsked()
    {
      hide HeldIn, Holds, Reg;
      if old(AsAsked()) {
        forall i | 0 <= i < |held|
          ensures HeldIn(held[i], held[i].r.dtm.regs, dtms[held[i].r.dtm])
        {
          HeldWithControl(held[i], old(held[i].r.dtm.regs), held[i].r.dtm.regs, dtms[held[i].r.dtm]);
        }
      }
    }

    /** Keep the record of grants in step with the slots now in use. */
    ghost method Record(d: Dtm, used: set<nat>, slots: set<nat>)
      requires Disjoint(grants) && InUseIsGranted(used, grants, d) && used !! slots && InOrder(used + slots)
      requires d in dtms && dtms[d] == used + slots
      requires forall e: Dtm :: e in dtms && e != d ==> InUseIsGranted(dtms[e], grants, e) && InOrder(dtms[e])
      requires forall i :: 0 <= i < |grants| ==> grants[i].dtm in dtms
      modifies this`grants
      ensures Valid() && grants == old(grants) + [Grant(d, slots)]
    {
      hide Disjoint, InUseIsGranted, InOrder;
      GrantMore(used, grants, d, slots);
      forall e: Dtm | e in dtms && e != d
        ensures InUseIsGranted(dtms[e], grants + [Grant(d, slots)], e)
      {
        GrantElsewhere(dtms[e], grants, e, Grant(d, slots));
      }
      grants := grants + [Grant(d, slots)];
    }

    lemma UnusedIsUngranted(d: Dtm)
      requires Valid()
      ensures InUseIsGranted(InUse(d), grants, d) && InOrder(InUse(d))
    {
    }
  }

  /** What a caller can do with a latency monitor once it is programmed. */
  datatype Op =
    | AskRsp(r: Request) | AskReq(r: Request) | Program | Initialise | Next(polls: seq<bool>)
    | EnableAll | DisableAll | ClearAll | ResetAll

  /** Ask for the responses and the tag setter, and program them for the first time. */
  method Start(mon: LatencyMonitor, rsps: seq<Request>, req: Option<Request>) returns (ok: bool)
    requires mon.SessionValid() && mon.AllDisabled()
    requires forall r :: r in rsps ==> mon.IsRequest(r)
    requires req.Some? ==> mon.IsRequest(req.value)
    modifies mon
    modifies set d | d in mon.monitors :: d`regs, set d | d in mon.monitors :: d`log, set d | d in mon.monitors :: d`cachedEnable
    ensures mon.SessionValid() && mon.AllDisabled()
  {
    hide LatencyMonitor.Valid, NoUnsafeWrite, EnableBit;
    for i := 0 to |rsps|
      invariant mon.SessionValid() && mon.AllDisabled()
    {
      assert rsps[i] in rsps;
      mon.RequestRsp(rsps[i]);
    }
    if req.Some? {
      ok := mon.RequestReq(req.value);
      if !ok {
        return;
      }
    }
    ok := mon.ProgramPending();
  }

  lemma ActiveAreMonitors(mon: LatencyMonitor)
    requires mon.SessionValid()
    ensures forall d :: d in mon.dtms ==> d in mon.monitors
  {
  }

  /** One call; false is an exception. */
  method Perform(mon: LatencyMonitor, op: Op) returns (ok: bool)
    requires mon.SessionValid() && (op.AskRsp? || op.AskReq? ==> mon.IsRequest(op.r))
    modifies mon
    modifies set d | d in mon.monitors :: d`regs, set d | d in mon.monitors :: d`log, set d | d in mon.monitors :: d`cachedEnable
    ensures mon.SessionValid()
  {
    ActiveAreMonitors(mon);
    hide LatencyMonitor.Valid, LatencyMonitor.SessionValid, NoUnsafeWrite, EnableBit;
    ok := true;
    match op
    case AskRsp(r) => mon.RequestRsp(r);
    case AskReq(r) => ok := mon.RequestReq(r);
    case Program => ok := mon.ProgramPending();
    case Initialise => mon.InitAgain();
    case Next(polls) =>
      var captured := mon.GetNext(polls);
      ok := captured.Some?;
    case EnableAll => mon.EnableActive();
    case DisableAll => mon.DisableActive();
    case ClearAll => mon.Clear();
    case ResetAll => mon.Reset();
  }

  /** A session, in any order of calls: it ends when a call fails, and is always closed. */
  method Session(monitors: seq<Dtm>, rsps: seq<Request>, req: Option<Request>, ops: seq<Op>) returns (mon: LatencyMonitor, ok: bool)
    requires forall d :: d in monitors ==> NoUnsafeWrite(d.log)
    requires forall r :: r in rsps ==> r.dtm in monitors && 1 <= |r.match_.groups| <= 2
    requires req.Some? ==> req.value.dtm in monitors && 1 <= |req.value.match_.groups| <= 2
    requires forall op :: op in ops && (op.AskRsp? || op.AskReq?) ==> op.r.dtm in monitors && 1 <= |op.r.match_.groups| <= 2
    modifies set d | d in monitors :: d`regs, set d | d in monitors :: d`log, set d | d in monitors :: d`cachedEnable
    ensures fresh(mon) && mon.monitors == monitors && mon.SessionValid()
    ensures forall d :: d in monitors ==> d.Good()
    ensures forall d :: d in mon.dtms ==> d.cachedEnable == Some(true)
  {
    mon := new LatencyMonitor(monitors);
    ok := Start(mon, rsps, req);
    hide LatencyMonitor.Valid, NoUnsafeWrite, Dtm.Good;
    var i := 0;
    while ok && i < |ops|
      invariant mon.monitors == monitors && mon.SessionValid() && 0 <= i <= |ops|
    {
      ok := Perform(mon, ops[i]);
      i := i + 1;
    }
    mon.Reset();
    assert mon.AllGood();
  }

  /** What enabling writes to the control register. */
  function EnableWrite(regs: map<nat, bv64>): (w: Write)
    ensures w.off == CONTROL && SetsTags(w.value) == SetsTags(Reg(regs, CONTROL))
  {
    EnablingKeepsTags(Reg(regs, CONTROL));
    Write(CONTROL, SetMask(Reg(regs, CONTROL), DTM_ENABLE), true, EnableBit(Reg(regs, CONTROL)))
  }

  /** Emptying the FIFO of an enabled monitor. */
  const FIFO_CLEARED := Write(FIFO_READY, 0xf, false, true)

  /** Some writes more, of which only the first changes a register. */
  twostate predicate Written(d: Dtm, more: seq<Write>)
    requires more != []
    reads d
  {
    d.regs == old(d.regs)[more[0].off := more[0].value] && d.log == old(d.log) + more
  }

  /** Of the registers only the control word has changed, and it sets tags as before. */
  twostate predicate OnlyControl(d: Dtm)
    reads d
  {
    (forall off :: off != CONTROL ==> Reg(old(d.regs), off) == Reg(d.regs, off)) && TagsStay(d)
  }

  twostate predicate TagsStay(d: Dtm)
    reads d
  {
    SetsTags(Reg(d.regs, CONTROL)) == SetsTags(Reg(old(d.regs), CONTROL))
  }

  /** All four watchpoints match nothing. */
  ghost predicate AllReset(d: Dtm)
    reads d
  {
    forall wp :: 0 <= wp < 4 ==> Programmed(d.part, d.regs, wp, RESET_WP)
  }

  twostate lemma ControlKeepsReset(d: Dtm)
    requires old(AllReset(d)) && forall off :: off != CONTROL ==> Reg(old(d.regs), off) == Reg(d.regs, off)
    ensures AllReset(d)
  {
    hide Programmed;
    StillReset(d.part, old(d.regs), d.regs);
  }

  lemma HoldsMore(held: seq<Held>, r: Request, wp: nat)
    ensures Holds(held + [Held(r, wp)], KeyOf(r), wp)
    ensures forall key, v :: Holds(held, key, v) ==> Holds(held + [Held(r, wp)], key, v)
  {
    hide KeyOf;
    var more := held + [Held(r, wp)];
    assert more[|held|] == Held(r, wp);
    forall key, v | Holds(held, key, v)
      ensures Holds(more, key, v)
    {
      var i :| 0 <= i < |held| && KeyOf(held[i].r) == key && held[i].wp == v;
      assert more[i] == held[i];
    }
  }

  lemma HeldWithControl(h: Held, before: map<nat, bv64>, after: map<nat, bv64>, inUse: set<nat>)
    requires HeldIn(h, before, inUse) && forall off :: off != CONTROL ==> Reg(before, off) == Reg(after, off)
    ensures HeldIn(h, after, inUse)
  {
    hide Encode;
    forall i | 0 <= i < |h.r.match_.groups|
      ensures Programmed(h.r.dtm.part, after, h.wp + i, GroupWatchpoint(h.r, i))
    {
      assert Programmed(h.r.dtm.part, before, h.wp + i, GroupWatchpoint(h.r, i));
    }
  }

  lemma {:induction false} InSlotRange(n: nat, k: nat, s: nat)
    ensures s in SlotRange(n, k) <==> n <= s < n + k
  {
    if k > 0 {
      InSlotRange(n, k - 1, s);
    }
  }

  lemma {:induction false} GroupRegsControl(r: Request, regs: map<nat, bv64>, wp: nat, n: nat)
    requires n <= |r.match_.groups|
    ensures Reg(GroupRegs(r, regs, wp, n), CONTROL) == Reg(regs, CONTROL)
  {
    hide WpRegs;
    if n > 0 {
      GroupRegsControl(r, regs, wp, n - 1);
      WpLeavesControl(r.dtm.part, GroupRegs(r, regs, wp, n - 1), wp + n - 1, GroupWatchpoint(r, n - 1));
    }
  }

  /** A request's registers leave those of other slots alone. */
  lemma {:induction false} GroupRegsKeep(r: Request, regs: map<nat, bv64>, wp: nat, n: nat, v: nat, w: Watchpoint)
    requires n <= |r.match_.groups| && !(wp <= v < wp + n) && Programmed(r.dtm.part, regs, v, w)
    ensures Programmed(r.dtm.part, GroupRegs(r, regs, wp, n), v, w)
  {
    hide Programmed, WpRegs;
    if n > 0 {
      GroupRegsKeep(r, regs, wp, n - 1, v, w);
      ProgrammedStays(r.dtm.part, GroupRegs(r, regs, wp, n - 1), v, w, wp + n - 1, GroupWatchpoint(r, n - 1));
    }
  }

  lemma HeldStays(h: Held, r: Request, regs: map<nat, bv64>, inUse: set<nat>, wp: nat, k: nat, programmed: bool)
    requires h.r.dtm == r.dtm && HeldIn(h, regs, inUse) && SlotRange(wp, k) !! inUse
    requires programmed ==> k == |r.match_.groups|
    ensures HeldIn(h, if programmed then GroupRegs(r, regs, wp, k) else regs, inUse + SlotRange(wp, k))
  {
    hide Programmed, GroupRegs;
    if programmed {
      forall i | 0 <= i < |h.r.match_.groups|
        ensures Programmed(h.r.dtm.part, GroupRegs(r, regs, wp, k), h.wp + i, GroupWatchpoint(h.r, i))
      {
        InSlotRange(h.wp, |h.r.match_.groups|, h.wp + i);
        InSlotRange(wp, k, h.wp + i);
        GroupRegsKeep(r, regs, wp, k, h.wp + i, GroupWatchpoint(h.r, i));
      }
    }
  }

  lemma HeldNow(r: Request, regs: map<nat, bv64>, inUse: set<nat>, wp: nat)
    requires wp + |r.match_.groups| <= 4
    ensures HeldIn(Held(r, wp), GroupRegs(r, regs, wp, |r.match_.groups|), inUse + SlotRange(wp, |r.match_.groups|))
  {
    hide Programmed, GroupRegs;
    forall i | 0 <= i < |r.match_.groups|
      ensures Programmed(r.dtm.part, GroupRegs(r, regs, wp, |r.match_.groups|), wp + i, GroupWatchpoint(r, i))
    {
      GroupsAreProgrammed(r, regs, wp, |r.match_.groups|, i);
    }
  }

  method EnableDtms(active: set<Dtm>)
    requires forall d :: d in active ==> d.Good()
    modifies set d | d in active :: d`regs, set d | d in active :: d`log, set d | d in active :: d`cachedEnable
    ensures forall d :: d in active ==> d.Good() && d.cachedEnable == Some(true) && Written(d, [EnableWrite(old(d.regs))])
  {
    hide NoUnsafeWrite, SetMask, EnableBit;
    var todo := active;
    while todo != {}
      invariant todo <= active
      invariant forall d :: d in active && d !in todo ==>
        d.Good() && d.cachedEnable == Some(true) && Written(d, [EnableWrite(old(d.regs))])
      invariant forall d :: d in todo ==> d.Good() && d.regs == old(d.regs) && d.log == old(d.log)
      decreases |todo|
    {
      var d :| d in todo;
      todo := todo - {d};
      d.Enable();
    }
  }

  method DisableDtms(active: set<Dtm>)
    requires forall d :: d in active ==> d.Good()
    modifies set d | d in active :: d`regs, set d | d in active :: d`log, set d | d in active :: d`cachedEnable
    ensures forall d :: d in active ==> d.Disabled() && OnlyControl(d)
  {
    hide NoUnsafeWrite, ClearMask, EnableBit, SetsTags;
    var todo := active;
    while todo != {}
      invariant todo <= active
      invariant forall d :: d in active && d !in todo ==> d.Disabled() && OnlyControl(d)
      invariant forall d :: d in todo ==> d.Good() && d.regs == old(d.regs)
      decreases |todo|
    {
      var d :| d in todo;
      todo := todo - {d};
      EnablingKeepsTags(Reg(d.regs, CONTROL));
      d.Disable();
    }
  }

  /** On monitors that are enabled. */
  method ClearFifos(active: set<Dtm>)
    requires forall d :: d in active ==> d.Good() && d.cachedEnable == Some(true)
    modifies set d | d in active :: d`regs, set d | d in active :: d`log
    ensures forall d :: d in active ==> d.Good() && d.regs == old(d.regs) && d.log == old(d.log) + [FIFO_CLEARED]
  {
    hide NoUnsafeWrite, EnableBit;
    var todo := active;
    while todo != {}
      invariant todo <= active
      invariant forall d :: d in active ==> d.Good() && d.regs == old(d.regs)
      invariant forall d :: d in active && d !in todo ==> d.log == old(d.log) + [FIFO_CLEARED]
      invariant forall d :: d in todo ==> d.log == old(d.log)
      decreases |todo|
    {
      var d :| d in todo;
      todo := todo - {d};
      d.ClearFifo();
    }
  }

  method ResetDtms(active: set<Dtm>)
    requires forall d :: d in active ==> d.Good()
    modifies set d | d in active :: d`regs, set d | d in active :: d`log, set d | d in active :: d`cachedEnable
    ensures forall d :: d in active ==> d.Disabled() && AllReset(d) && TagsStay(d)
  {
    hide NoUnsafeWrite, EnableBit, Programmed, Quiet, SetsTags, ClearMask;
    var todo := active;
    while todo != {}
      invariant todo <= active
      invariant forall d :: d in active && d !in todo ==> d.Disabled() && AllReset(d) && TagsStay(d)
      invariant forall d :: d in todo ==> d.Good() && d.regs == old(d.regs)
      decreases |todo|
    {
      var d :| d in todo;
      todo := todo - {d};
      EnablingKeepsTags(Reg(d.regs, CONTROL));
      ResetDtm(d);
    }
  }

  lemma NoBitsNoEnable()
    ensures !EnableBit(0)
  {
    MasksAndEnable(0);
  }

  lemma StillReset(p: Part, before: map<nat, bv64>, after: map<nat, bv64>)
    requires forall wp :: 0 <= wp < 4 ==> Programmed(p, before, wp, RESET_WP)
    requires forall off :: off != CONTROL ==> Reg(before, off) == Reg(after, off)
    ensures forall wp :: 0 <= wp < 4 ==> Programmed(p, after, wp, RESET_WP)
  {
    hide Encode;
    forall wp | 0 <= wp < 4
      ensures Programmed(p, after, wp, RESET_WP)
    {
      assert Programmed(p, before, wp, RESET_WP);
    }
  }

  function SlotRange(n: nat, k: nat): set<nat> {
    if k == 0 then {} else SlotRange(n, k - 1) + {n + k - 1}
  }

  /** Testing the even slot, then the odd one, finds room exactly if the direction has enough free slots. */
  lemma SlotChoice(used: set<nat>, up: bool)
    requires InOrder(used)
    ensures var b, free := Base(up), Direction(up) - used;
            && |free| == (if b + 1 in used then 0 else if b in used then 1 else 2)
            && (b + 1 in used ==> b in used)
            && (b !in used ==> SlotRange(b, 1) <= free && SlotRange(b, 2) <= free
                               && InOrder(used + SlotRange(b, 1)) && InOrder(used + SlotRange(b, 2)))
            && (b in used && b + 1 !in used ==> SlotRange(b + 1, 1) <= free && InOrder(used + SlotRange(b + 1, 1)))
  {
    FreeSlots(used, up);
    OneAndTwo(Base(up));
    OneAndTwo(Base(up) + 1);
  }

  lemma OneAndTwo(n: nat)
    ensures SlotRange(n, 1) == {n} && SlotRange(n, 2) == {n, n + 1}
  {
  }

  ghost predicate InOrder(inUse: set<nat>) {
    inUse <= {0, 1, 2, 3} && (1 in inUse ==> 0 in inUse) && (3 in inUse ==> 2 in inUse)
  }

  lemma FreeSlots(inUse: set<nat>, up: bool)
    requires InOrder(inUse)
    ensures |Direction(up) - inUse| == (if Base(up) + 1 in inUse then 0 else if Base(up) in inUse then 1 else 2)
  {
    var b := Base(up);
    if b + 1 in inUse {
      assert Direction(up) - inUse == {};
    } else if b in inUse {
      assert Direction(up) - inUse == {b + 1};
    } else {
      assert Direction(up) - inUse == {b, b + 1};
    }
  }

  /** The registers once the first n groups of a request are programmed from slot wp on. */
  function GroupRegs(r: Request, regs: map<nat, bv64>, wp: nat, n: nat): map<nat, bv64>
    requires n <= |r.match_.groups|
  {
    if n == 0 then regs
    else WpRegs(r.dtm.part, GroupRegs(r, regs, wp, n - 1), wp + n - 1, GroupWatchpoint(r, n - 1))
  }

  lemma {:induction false} GroupsAreProgrammed(r: Request, regs: map<nat, bv64>, wp: nat, n: nat, i: nat)
    requires i < n <= |r.match_.groups|
    ensures Programmed(r.dtm.part, GroupRegs(r, regs, wp, n), wp + i, GroupWatchpoint(r, i))
  {
    hide Programmed, WpRegs;
    var before := GroupRegs(r, regs, wp, n - 1);
    if i == n - 1 {
      ProgrammedNow(r.dtm.part, before, wp + i, GroupWatchpoint(r, i));
    } else {
      GroupsAreProgrammed(r, regs, wp, n - 1, i);
      ProgrammedStays(r.dtm.part, before, wp + i, GroupWatchpoint(r, i), wp + n - 1, GroupWatchpoint(r, n - 1));
    }
  }

  /** Read back from the registers, a granted slot captures the request's group; the even one of a pair combines. */
  lemma GrantedSlotCaptures(r: Request, regs: map<nat, bv64>, wp: nat, i: nat)
    requires i < |r.match_.groups| && Encodable(r.dtm.part, GroupWatchpoint(r, i))
    ensures var after := GroupRegs(r, regs, wp, |r.match_.groups|);
            var g := r.match_.groups[i];
            && Decode(r.dtm.part, Reg(after, WP0_CONFIG + 24 * (wp + i)))
               == Config(r.match_.chn, r.dev, g.grp, r.fmt, true, true, false, |r.match_.groups| > 1 && i == 0, false, false)
            && Reg(after, WP0_VAL + 24 * (wp + i)) == g.val && Reg(after, WP0_MASK + 24 * (wp + i)) == g.mask
  {
    hide Decode, Encode, Encodable, GroupRegs;
    GroupsAreProgrammed(r, regs, wp, |r.match_.groups|, i);
    DecodeEncode(r.dtm.part, GroupWatchpoint(r, i));
  }
}
