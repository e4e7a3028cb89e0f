/** The canonical order of parameters: where each one lies in the flat buffers and in the noise stream. */
module IvonSlots {
  import opened IvonModel

  lemma {:induction false} TotalAppend(a: seq<Slot>, b: seq<Slot>)
    ensures Total(a + b) == Total(a) + Total(b)
  {
    if b == [] {
      assert a + b == a;
    } else {
      TotalAppend(a, b[..|b| - 1]);
      assert (a + b)[..|a + b| - 1] == a + b[..|b| - 1];
    }
  }

  lemma {:induction false} TotalPrefix(slots: seq<Slot>, k: nat)
    requires k <= |slots|
    ensures Total(slots[..k]) <= Total(slots)
  {
    TotalAppend(slots[..k], slots[k..]);
    assert slots[..k] + slots[k..] == slots;
  }

  lemma {:induction false} TotalNext(slots: seq<Slot>, k: nat)
    requires k < |slots|
    ensures Total(slots[..k + 1]) == Total(slots[..k]) + slots[k].size <= Total(slots)
  {
    assert slots[..k + 1][..k] == slots[..k];
    TotalPrefix(slots, k + 1);
  }

  lemma {:induction false} GroupTotal(group: nat, sizes: seq<nat>)
    ensures Total(GroupSlots(group, sizes)) == Sum(sizes)
    ensures |GroupSlots(group, sizes)| == |sizes|
  {
    if sizes != [] {
      GroupTotal(group, sizes[..|sizes| - 1]);
      var slots := GroupSlots(group, sizes);
      assert slots[..|slots| - 1] == GroupSlots(group, sizes[..|sizes| - 1]);
    }
  }

  /** The offset of a parameter within its group adds up the parameters before it. */
  lemma {:induction false} GroupOffset(group: nat, sizes: seq<nat>, k: nat)
    requires k < |sizes|
    ensures |GroupSlots(group, sizes)| == |sizes|
    ensures GroupSlots(group, sizes)[k] == Slot(group, sizes[k], Total(GroupSlots(group, sizes)[..k]))
  {
    GroupTotal(group, sizes);
    var last := |sizes| - 1;
    var slots := GroupSlots(group, sizes);
    GroupTotal(group, sizes[..last]);
    if k < last {
      GroupOffset(group, sizes[..last], k);
      assert slots[..k] == GroupSlots(group, sizes[..last])[..k];
    } else {
      assert slots[..last] == GroupSlots(group, sizes[..last]);
    }
  }

  lemma {:induction false} BasePrefix(groups: seq<Group>, n: nat, group: nat)
    requires group <= n <= |groups|
    ensures Base(groups[..n], group) == Base(groups, group)
  {
    if group > 0 {
      BasePrefix(groups, n, group - 1);
    }
  }

  lemma {:induction false} SlotsTotal(groups: seq<Group>)
    ensures Total(Slots(groups)) == Base(groups, |groups|)
  {
    if groups != [] {
      var last := |groups| - 1;
      SlotsTotal(groups[..last]);
      BasePrefix(groups, last, last);
      TotalAppend(Slots(groups[..last]), GroupSlots(last, groups[last].sizes));
      GroupTotal(last, groups[last].sizes);
    }
  }

  /** The running offset over all groups is the start of the group plus the offset within the group. */
  lemma {:induction false} SlotAligned(groups: seq<Group>, k: nat)
    requires k < |Slots(groups)|
    ensures var slot := Slots(groups)[k];
            slot.group < |groups| && Base(groups, slot.group) + slot.goffset == Total(Slots(groups)[..k])
  {
    var last := |groups| - 1;
    var before, mine := Slots(groups[..last]), GroupSlots(last, groups[last].sizes);
    if k < |before| {
      SlotAligned(groups[..last], k);
      BasePrefix(groups, last, before[k].group);
      assert Slots(groups)[..k] == before[..k];
    } else {
      GroupTotal(last, groups[last].sizes);
      GroupOffset(last, groups[last].sizes, k - |before|);
      SlotsTotal(groups[..last]);
      BasePrefix(groups, last, last);
      TotalAppend(before, mine[..k - |before|]);
      assert Slots(groups)[..k] == before + mine[..k - |before|];
    }
  }

  /** Elements off .. off + size belong to the group of slot k. */
  lemma {:induction false} OwnerAt(slots: seq<Slot>, k: nat, i: nat)
    requires k < |slots| && Total(slots[..k]) <= i < Total(slots[..k]) + slots[k].size
    ensures i < Total(slots) && GroupAt(slots, i) == slots[k].group
  {
    TotalNext(slots, k);
    var last := |slots| - 1;
    if k < last {
      TotalNext(slots[..last], k);
      assert slots[..last][..k] == slots[..k];
      assert slots[..last][..k + 1] == slots[..k + 1];
      OwnerAt(slots[..last], k, i);
    }
  }

  lemma {:induction false} RawNext(c: Config, slots: seq<Slot>, k: nat, st: nat)
    requires k < |slots|
    ensures Raw(c, slots[..k + 1], st).1 == c.next(Raw(c, slots[..k], st).1, slots[k].size)
  {
    assert slots[..k + 1][..k] == slots[..k];
  }

  /** The stream of a pass is the concatenation of one randn call per parameter. */
  lemma {:induction false} RawAt(c: Config, slots: seq<Slot>, k: nat, st: nat, j: nat)
    requires k < |slots| && j < slots[k].size
    ensures Total(slots[..k]) + j < Total(slots)
    ensures Raw(c, slots, st).0[Total(slots[..k]) + j] == c.randn(Raw(c, slots[..k], st).1, slots[k].size, j)
  {
    TotalNext(slots, k);
    var last := |slots| - 1;
    if k < last {
      assert slots[..last][..k] == slots[..k];
      RawAt(c, slots[..last], k, st, j);
    }
  }

  lemma {:induction false} FlatAt(slots: seq<Slot>, grads: Grads, k: nat, j: nat)
    requires k < |slots| && j < slots[k].size
    ensures Total(slots[..k]) + j < Total(slots)
    ensures Flat(slots, grads)[Total(slots[..k]) + j] == GradOf(grads, k, j)
  {
    TotalNext(slots, k);
    var last := |slots| - 1;
    if k < last {
      assert slots[..last][..k] == slots[..k];
      FlatAt(slots[..last], grads, k, j);
    }
  }

  /** Element Total(slots[..k]) + j has no finite gradient exactly when entry j of parameter k is not finite. */
  lemma {:induction false} HoleAt(slots: seq<Slot>, grads: Grads, k: nat, j: nat)
    requires k < |slots| && j < slots[k].size
    ensures Total(slots[..k]) + j in HolesIn(slots, grads) <==> EntryOf(grads, k, j).NotFinite?
  {
    var last := |slots| - 1;
    HolesInRange(slots[..last], grads);
    if k < last {
      assert slots[..last][..k] == slots[..k];
      TotalNext(slots[..last], k);
      HoleAt(slots[..last], grads, k, j);
    }
  }

  lemma {:induction false} HolesInRange(slots: seq<Slot>, grads: Grads)
    ensures forall i :: i in HolesIn(slots, grads) ==> i < Total(slots)
  {
    if slots != [] {
      HolesInRange(slots[..|slots| - 1], grads);
    }
  }
}
