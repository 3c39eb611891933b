/**
  Slot and volume-id allocation. A slot is free, held, or never issued; one slot is set
  aside for staging and never issued.
 */
module Allocator {
  import opened Wrappers

  const STAGING_SLOT := 254
  const LAST_SLOT := 255
  const FIRST_VOLUME_ID := 100

  // The allocator's memory as a value.
  datatype Pool = Pool(nextSlot: int, free: set<int>, nextVolume: int) {
    ghost predicate Sound() {
      && 1 <= nextSlot <= LAST_SLOT + 1
      && free <= Usable(nextSlot)
    }

    // issued and not handed back
    ghost function Held(): set<int> {
      Usable(nextSlot) - free
    }
  }

  // every slot below a bound that may be issued
  ghost function Usable(below: int): set<int> {
    set s | 1 <= s < below && !IsStaging(s)
  }

  predicate IsStaging(slot: int) {
    slot == STAGING_SLOT
  }

  ghost function AllSlots(): set<int> {
    Usable(LAST_SLOT + 1)
  }

  lemma {:induction false} UsableSize(below: int)
    requires 1 <= below <= STAGING_SLOT
    ensures |Usable(below)| == below - 1
  {
    if below == 1 {
      assert Usable(below) == {};
    } else {
      UsableSize(below - 1);
      assert Usable(below) == Usable(below - 1) + {below - 1};
    }
  }

  /** There are 254 slots to issue. */
  lemma AllSlotsAre254()
    ensures |AllSlots()| == 254
  {
    UsableSize(STAGING_SLOT);
    assert AllSlots() == Usable(STAGING_SLOT) + {255};
  }

  // ---- what the operations do to the pool ----

  // slot may be the one issued next; any free slot may
  ghost predicate MayIssue(p: Pool, slot: int) {
    if p.free - {STAGING_SLOT} != {} then slot in p.free - {STAGING_SLOT}
    else slot == FrontSlot(p) && slot <= LAST_SLOT
  }

  function FrontSlot(p: Pool): int {
    if p.nextSlot == STAGING_SLOT then STAGING_SLOT + 1 else p.nextSlot
  }

  ghost function Issue(p: Pool, slot: int): Pool
    requires MayIssue(p, slot)
  {
    var free := p.free - {STAGING_SLOT};
    if free != {} then p.(free := free - {slot}, nextVolume := p.nextVolume + 1)
    else Pool(slot + 1, free, p.nextVolume + 1)
  }

  function Release(p: Pool, slot: int): Pool {
    if slot == STAGING_SLOT || slot in p.free || !(1 <= slot < p.nextSlot) then p
    else p.(free := p.free + {slot})
  }

  /** Issuing moves one slot that was not held, and never the staging slot, into the held ones. */
  lemma IssueHolds(p: Pool, slot: int)
    requires p.Sound() && MayIssue(p, slot)
    ensures slot in AllSlots() && slot !in p.Held()
    ensures Issue(p, slot).Sound()
    ensures Issue(p, slot).Held() == p.Held() + {slot}
  {
    var q := Issue(p, slot);
    assert p.free - {STAGING_SLOT} == p.free;
    forall s ensures s in q.Held() <==> s in p.Held() + {slot} {
    }
  }

  /** Nothing can be issued exactly when all 254 slots are held. */
  lemma FullWhenNothingToIssue(p: Pool)
    requires p.Sound()
    ensures (forall slot :: !MayIssue(p, slot)) <==> p.Held() == AllSlots()
  {
    assert p.free - {STAGING_SLOT} == p.free;
    if p.free != {} {
      var s :| s in p.free;
      assert MayIssue(p, s);
      assert s in AllSlots() && s !in p.Held();
    } else {
      assert MayIssue(p, FrontSlot(p)) <==> FrontSlot(p) <= LAST_SLOT;
      if FrontSlot(p) <= LAST_SLOT {
        assert FrontSlot(p) in AllSlots() && FrontSlot(p) !in p.Held();
      } else {
        assert p.Held() == AllSlots();
      }
    }
  }

  /** Releasing a held slot frees it; releasing any other slot changes nothing. */
  lemma ReleaseFrees(p: Pool, slot: int)
    requires p.Sound()
    ensures Release(p, slot).Sound()
    ensures Release(p, slot).Held() == p.Held() - {slot}
    ensures slot !in p.Held() ==> Release(p, slot) == p
  {
    assert slot in p.Held() <==> !(slot == STAGING_SLOT || slot in p.free || !(1 <= slot < p.nextSlot));
    forall s ensures s in Release(p, slot).Held() <==> s in p.Held() - {slot} {
    }
  }

  // A pool rebuilt at startup from the slots still in use and the volume ids ever seen.
  ghost predicate Rebuilt(p: Pool, active: set<int>, volumes: set<int>) {
    && p.Sound()
    && p.Held() == active * AllSlots()
    && p.nextVolume >= FIRST_VOLUME_ID
    && forall v :: v in volumes ==> v < p.nextVolume
  }

  class SlotAllocator {
    var nextSlot: int
    var freeSlots: set<int>
    var nextVolumeId: int

    ghost function View(): Pool
      reads this
    {
      Pool(nextSlot, freeSlots, nextVolumeId)
    }

    ghost predicate Valid()
      reads this
    {
      View().Sound()
    }

    constructor ()
      ensures Valid() && View().Held() == {} && nextVolumeId == FIRST_VOLUME_ID
    {
      nextSlot := 1;
      freeSlots := {};
      nextVolumeId := FIRST_VOLUME_ID;
    }

    /**
      Startup: the rows still undestroyed hold their slots, and no known volume id comes back. The
      pool starts right after the last slot and the last volume id it saw.
     */
    method Initialize(slots: seq<int>, volumes: seq<int>, candidates: seq<Option<int>>)
      requires |slots| == |volumes|
      requires forall s :: s in slots ==> 1 <= s
      modifies this
      ensures Valid()
      ensures Rebuilt(View(), set s | s in slots,
                      (set v | v in volumes) + (set c | c in candidates && c.Some? :: c.value))
      ensures if slots == [] then nextSlot == 1 else nextSlot == 256 || nextSlot - 1 in slots
      ensures nextVolumeId == 100 || nextVolumeId - 1 in volumes || Some(nextVolumeId - 1) in candidates
    {
      var maxVol := FIRST_VOLUME_ID - 1;
      for i := 0 to |volumes|
        invariant maxVol >= FIRST_VOLUME_ID - 1
        invariant forall j :: 0 <= j < i ==> volumes[j] <= maxVol
        invariant maxVol == 99 || maxVol in volumes
      {
        maxVol := if volumes[i] > maxVol then volumes[i] else maxVol;
      }
      nextSlot := 1;
      freeSlots := {};
      if |slots| > 0 {
        var top := slots[0];
        for i := 1 to |slots|
          invariant top in slots
          invariant forall j :: 0 <= j < i ==> slots[j] <= top
        {
          top := if slots[i] > top then slots[i] else top;
        }
        nextSlot := if top + 1 < LAST_SLOT + 1 then top + 1 else LAST_SLOT + 1;
        freeSlots := set s | 1 <= s < nextSlot && s !in slots;
      }
      freeSlots := freeSlots - {STAGING_SLOT};
      for i := 0 to |candidates|
        invariant maxVol >= FIRST_VOLUME_ID - 1
        invariant forall j :: 0 <= j < |volumes| ==> volumes[j] <= maxVol
        invariant forall j :: 0 <= j < i && candidates[j].Some? ==> candidates[j].value <= maxVol
        invariant Valid() && View().Held() == (set s | s in slots) * AllSlots()
        invariant maxVol == 99 || maxVol in volumes || Some(maxVol) in candidates
      {
        if candidates[i].Some? && candidates[i].value > maxVol {
          maxVol := candidates[i].value;
        }
      }
      nextVolumeId := maxVol + 1;
    }

    /** A slot nobody holds and a volume id nobody had, or a refusal exactly when all are held. */
    method Acquire() returns (r: Option<(int, int)>)
      requires Valid()
      modifies this
      ensures Valid()
      ensures r.None? <==> old(View().Held()) == AllSlots()
      ensures r.None? ==> View().Held() == old(View().Held()) && nextVolumeId == old(nextVolumeId)
      ensures r.Some? ==> MayIssue(old(View()), r.value.0) && View() == Issue(old(View()), r.value.0)
      ensures r.Some? ==> r.value.1 == old(nextVolumeId)
    {
      ghost var before := View();
      FullWhenNothingToIssue(before);
      freeSlots := freeSlots - {STAGING_SLOT};
      var slot;
      if freeSlots != {} {
        slot :| slot in freeSlots;
        freeSlots := freeSlots - {slot};
      } else {
        slot := nextSlot;
        if slot == STAGING_SLOT {
          slot := STAGING_SLOT + 1;
        }
        if slot > LAST_SLOT {
          assert forall s :: !MayIssue(before, s);
          return None;
        }
        nextSlot := slot + 1;
      }
      assert MayIssue(before, slot);
      IssueHolds(before, slot);
      var volumeId := nextVolumeId;
      nextVolumeId := nextVolumeId + 1;
      return Some((slot, volumeId));
    }

    method AcquireVolumeId() returns (volumeId: int)
      requires Valid()
      modifies this
      ensures Valid() && View().Held() == old(View().Held())
      ensures volumeId == old(nextVolumeId) && nextVolumeId == volumeId + 1
    {
      volumeId := nextVolumeId;
      nextVolumeId := nextVolumeId + 1;
    }

    /** After this the slot is free: releasing one that already was, or never was issued, is harmless. */
    method ReleaseSlot(slot: int)
      requires Valid()
      modifies this
      ensures Valid() && View() == Release(old(View()), slot)
      ensures View().Held() == old(View().Held()) - {slot}
    {
      ReleaseFrees(View(), slot);
      if slot == STAGING_SLOT {
        return;
      }
      if slot in freeSlots || !(1 <= slot < nextSlot) {
        return;
      }
      freeSlots := freeSlots + {slot};
    }
  }
}
