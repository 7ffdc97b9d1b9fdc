/** What the loss of a side leaves of a slot. */
module Losses {
  import opened Prelude
  import opened Wire
  import opened CallModel
  import opened Runs

  /** No call, no queue, no timer, no cooldown and no memory of echoes. */
  predicate Silent(s: Slot) {
    && s.out.stream.None? && s.out.lc.None? && s.out.embLc.None? && s.out.ipscByte.None?
    && s.inb.lc.None? && s.inb.embLc.None? && s.inb.hbpStream.None? && s.inb.src.None? && s.inb.dst.None?
      && !s.inb.started
    && s.pacer.queue == [] && s.pacer.handle.None? && s.pacer.nextAt == 0
    && s.reflect.recent == [] && s.reflect.ignored == map[]
  }

  /** Any packet of any stream gets past the lock. */
  ghost predicate Open(c: Config, s: Slot) {
    forall dir, key, src, dst, isEnd, now :: LockGate(c, s, dir, key, src, dst, isEnd, now).pass
  }

  /**
   Main result: the loss of either side silences both slots; after the loss of IPSC the lock is
   open to all, while after the loss of HBP it is as it was.
   */
  lemma LossSilences(c: Config, evs: seq<Event>, ts: Timeslot, e: Event)
    requires e.PeerLost? || e.HbpLost?
    ensures var s, s' := Run(c, evs).At(ts), Run(c, evs + [e]).At(ts);
      && Silent(s')
      && (e.PeerLost? ==> Open(c, s'))
      && (e.HbpLost? ==> s'.lock == s.lock)
      && s'.hist.frames == s.hist.frames && s'.hist.offers == s.hist.offers
  {
    hide Run, SlotStep;
    assert (evs + [e])[..|evs|] == evs;
    RunIs(c, evs, e);
    StepSeen(c, ts, Run(c, evs), e);
    SlotSilenced(c, ts, Seen(c, ts, Run(c, evs), e), e);
  }

  lemma RunIs(c: Config, evs: seq<Event>, e: Event)
    ensures Run(c, evs + [e]) == Step(c, Run(c, evs), e)
  {
    hide Step;
    assert (evs + [e])[..|evs|] == evs;
  }

  lemma SlotSilenced(c: Config, ts: Timeslot, r: Res, e: Event)
    requires e.PeerLost? || e.HbpLost?
    ensures var s' := SlotStep(c, ts, r, e).s;
      && Silent(s')
      && (e.PeerLost? ==> Open(c, s'))
      && (e.HbpLost? ==> s'.lock == r.s.lock)
      && s'.hist.frames == r.s.hist.frames && s'.hist.offers == r.s.hist.offers
  {
    if e.PeerLost? {
      var s' := SlotStep(c, ts, r, e).s;
      forall dir, key, src, dst, isEnd, now ensures LockGate(c, s', dir, key, src, dst, isEnd, now).pass {
        FreeLockPasses(c, s', dir, key, src, dst, isEnd, now);
      }
    }
  }

  lemma FreeLockPasses(c: Config, s: Slot, dir: Direction, key: StreamKey, src: Bytes, dst: Bytes, isEnd: bool,
                       now: Time)
    requires s.lock.owner.None? && s.lock.blockedIpsc == map[] && s.lock.blockedHbp == map[]
    ensures LockGate(c, s, dir, key, src, dst, isEnd, now).pass
  {
  }
}
