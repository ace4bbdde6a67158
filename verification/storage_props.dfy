/**
 * Properties of the storage slots: how receiving and shopping move stock,
 * how the capacity query relates to slot allocation, and the slot invariant
 * being kept by every operation.
 */
module StorageProps {
  import opened Wrappers
  import opened Resources
  import opened Storage

  // ----------------------------------------------
  // Sums over slots
  // ----------------------------------------------

  lemma {:induction false} SumCountUpdate(slots: seq<Slot>, i: nat, x: Slot, kind: ResourceKind)
    requires i < |slots|
    ensures SumCount(slots[i := x], kind) == SumCount(slots, kind) - CountOf(slots[i], kind) + CountOf(x, kind)
  {
    if i > 0 {
      assert slots[i := x][1..] == slots[1..][i - 1 := x];
      SumCountUpdate(slots[1..], i - 1, x, kind);
    } else {
      assert slots[i := x][1..] == slots[1..];
    }
  }

  lemma {:induction false} SumFitUpdate(slots: seq<Slot>, i: nat, x: Slot, kind: ResourceKind, capacity: nat)
    requires i < |slots|
    requires CountsBounded(slots, capacity) && x.count <= capacity
    ensures CountsBounded(slots[i := x], capacity)
    ensures SumFit(slots[i := x], kind, capacity)
            == SumFit(slots, kind, capacity) - Fit(slots[i], kind, capacity) + Fit(x, kind, capacity)
  {
    var t := slots[i := x];
    assert CountsBounded(t, capacity) by {
      forall j | 0 <= j < |t| ensures t[j].count <= capacity {
        if j != i { assert t[j] == slots[j]; }
      }
    }
    if i > 0 {
      assert t[1..] == slots[1..][i - 1 := x];
      SumFitUpdate(slots[1..], i - 1, x, kind, capacity);
    } else {
      assert t[1..] == slots[1..];
    }
  }

  lemma {:induction false} SumCountPositive(slots: seq<Slot>, kind: ResourceKind)
    ensures SumCount(slots, kind) > 0 <==> exists j :: 0 <= j < |slots| && CountOf(slots[j], kind) > 0
  {
    if slots != [] {
      SumCountPositive(slots[1..], kind);
      if exists j :: 0 <= j < |slots| && CountOf(slots[j], kind) > 0 {
        var j :| 0 <= j < |slots| && CountOf(slots[j], kind) > 0;
        if j > 0 { assert slots[1..][j - 1] == slots[j]; }
      }
      if exists j :: 0 <= j < |slots[1..]| && CountOf(slots[1..][j], kind) > 0 {
        var j :| 0 <= j < |slots[1..]| && CountOf(slots[1..][j], kind) > 0;
        assert slots[j + 1] == slots[1..][j];
      }
    }
  }

  lemma {:induction false} SumFitPositive(slots: seq<Slot>, kind: ResourceKind, capacity: nat)
    requires CountsBounded(slots, capacity)
    ensures SumFit(slots, kind, capacity) > 0 <==> exists j :: 0 <= j < |slots| && Fit(slots[j], kind, capacity) > 0
  {
    if slots != [] {
      SumFitPositive(slots[1..], kind, capacity);
      if exists j :: 0 <= j < |slots| && Fit(slots[j], kind, capacity) > 0 {
        var j :| 0 <= j < |slots| && Fit(slots[j], kind, capacity) > 0;
        if j > 0 { assert slots[1..][j - 1] == slots[j]; }
      }
      if exists j :: 0 <= j < |slots[1..]| && Fit(slots[1..][j], kind, capacity) > 0 {
        var j :| 0 <= j < |slots[1..]| && Fit(slots[1..][j], kind, capacity) > 0;
        assert slots[j + 1] == slots[1..][j];
      }
    }
  }

  lemma {:induction false} SumFitAllFree(slots: seq<Slot>, kind: ResourceKind, capacity: nat)
    requires forall j :: 0 <= j < |slots| ==> slots[j] == FreeSlot
    ensures CountsBounded(slots, capacity)
    ensures SumFit(slots, kind, capacity) == |slots| * capacity
  {
    if slots != [] {
      SumFitAllFree(slots[1..], kind, capacity);
    }
  }

  // ----------------------------------------------
  // One slot
  // ----------------------------------------------

  /** Taking back out exactly what an increment added restores the slot. */
  lemma IncrementThenDecrement(slot: Slot, kind: ResourceKind, amount: nat, capacity: nat)
    requires capacity > 0 && WellFormedSlot(slot, capacity)
    requires slot.allocatedKind.None? || slot.allocatedKind == Some(kind)
    requires CountOf(slot, kind) + amount <= U32_MAX
    ensures var (inc, next) := Increment(slot, kind, amount, capacity);
            Decrement(inc, kind, next - CountOf(slot, kind)).0 == slot
  {
  }

  /**
   * The corrected increment differs from the code only when nothing is added
   * to a free slot.
   */
  lemma IncrementAgreesUnlessNothingAdded(slot: Slot, kind: ResourceKind, amount: nat, capacity: nat)
    requires capacity > 0 && WellFormedSlot(slot, capacity)
    requires slot.allocatedKind.None? || slot.allocatedKind == Some(kind)
    requires CountOf(slot, kind) + amount <= U32_MAX
    ensures Increment(slot, kind, amount, capacity) == IncrementAsWritten(slot, kind, amount, capacity)
            <==> !(IsFree(slot) && amount == 0)
  {
  }

  /**
   * A slot leaked by the code (allocated with a zero count) is never
   * released: every decrement of it changes nothing.
   */
  lemma LeakedSlotStaysAllocated(kind: ResourceKind, capacity: nat, amount: nat)
    ensures var leaked := IncrementAsWritten(FreeSlot, kind, 0, capacity).0;
            Decrement(leaked, kind, amount) == (leaked, 0) && leaked.allocatedKind == Some(kind)
  {
  }

  // ----------------------------------------------
  // Allocation and capacity
  // ----------------------------------------------

  /** A freshly built storage can take its whole capacity of any kind. */
  lemma NewHasFullRoom(accepted: set<ResourceKind>, numSlots: nat, slotCapacity: nat, kind: ResourceKind)
    requires slotCapacity <= U32_MAX
    requires New(accepted, numSlots, slotCapacity).Some?
    ensures HowManyCanFit(New(accepted, numSlots, slotCapacity).value, kind) == numSlots * slotCapacity
    ensures Stock(New(accepted, numSlots, slotCapacity).value, kind) == 0
  {
    var s := New(accepted, numSlots, slotCapacity).value;
    SumFitAllFree(s.slots, kind, s.capacity);
    SumCountPositive(s.slots, kind);
  }

  /** In a valid storage a slot can take more of `kind` exactly when it is free or holds `kind` below capacity. */
  lemma FitPositiveIffCandidate(s: StorageSlots, j: nat, kind: ResourceKind)
    requires Valid(s) && j < |s.slots|
    ensures Fit(s.slots[j], kind, s.capacity) > 0 <==> HasRoomFor(s.slots[j], kind, s.capacity) || IsFree(s.slots[j])
  {
  }

  /** No slot can be allocated for `kind` exactly when the building has no room for `kind`. */
  lemma AllocFailsIffNoRoom(s: StorageSlots, kind: ResourceKind)
    requires Valid(s)
    ensures AllocResourceSlot(s, kind).None? <==> HowManyCanFit(s, kind) == 0
  {
    SumFitPositive(s.slots, kind, s.capacity);
    forall j | 0 <= j < |s.slots|
      ensures Fit(s.slots[j], kind, s.capacity) > 0 <==> HasRoomFor(s.slots[j], kind, s.capacity) || IsFree(s.slots[j])
    {
      FitPositiveIffCandidate(s, j, kind);
    }
  }

  /** A slot is held by `kind` exactly when the building stocks some `kind`. */
  lemma StockIffResourceSlot(s: StorageSlots, kind: ResourceKind)
    requires Valid(s)
    ensures Stock(s, kind) > 0 <==> FindResourceSlot(s, kind).Some?
  {
    SumCountPositive(s.slots, kind);
    if FindResourceSlot(s, kind).Some? {
      var i := FindResourceSlot(s, kind).value;
      assert CountOf(s.slots[i], kind) > 0;
    }
  }

  /** Every slot is full exactly when the building has room for no kind at all. */
  lemma AllFullIffNoRoom(s: StorageSlots)
    requires Valid(s)
    ensures AreAllSlotsFull(s) <==> forall kind: ResourceKind :: HowManyCanFit(s, kind) == 0
  {
    if AreAllSlotsFull(s) {
      forall kind: ResourceKind ensures HowManyCanFit(s, kind) == 0 {
        SumFitPositive(s.slots, kind, s.capacity);
        forall j | 0 <= j < |s.slots| ensures Fit(s.slots[j], kind, s.capacity) == 0 {
          assert IsFull(s.slots[j], s.capacity);
        }
      }
    } else {
      var j :| 0 <= j < |s.slots| && !IsFull(s.slots[j], s.capacity);
      var kind: ResourceKind := if IsFree(s.slots[j]) then 0 else s.slots[j].allocatedKind.value;
      assert Fit(s.slots[j], kind, s.capacity) > 0;
      SumFitPositive(s.slots, kind, s.capacity);
      assert HowManyCanFit(s, kind) != 0;
    }
  }

  // ----------------------------------------------
  // Receiving
  // ----------------------------------------------

  /** Receiving adds exactly the accepted amount to the stock of `kind` and leaves every other kind alone. */
  lemma ReceiveMovesStock(s: StorageSlots, kind: ResourceKind, count: nat, other: ResourceKind)
    requires Valid(s) && CanReceive(s, kind, count)
    requires other != kind
    ensures Stock(ReceiveResources(s, kind, count).0, kind) == Stock(s, kind) + ReceiveResources(s, kind, count).1
    ensures Stock(ReceiveResources(s, kind, count).0, other) == Stock(s, other)
  {
    var r := ReceiveResources(s, kind, count);
    if AllocResourceSlot(s, kind).Some? {
      var i := AllocResourceSlot(s, kind).value;
      SumCountUpdate(s.slots, i, r.0.slots[i], kind);
      SumCountUpdate(s.slots, i, r.0.slots[i], other);
    }
  }

  /** Receiving uses up exactly the received amount of the room reported for `kind`. */
  lemma ReceiveConsumesRoom(s: StorageSlots, kind: ResourceKind, count: nat)
    requires Valid(s) && CanReceive(s, kind, count)
    ensures HowManyCanFit(ReceiveResources(s, kind, count).0, kind) + ReceiveResources(s, kind, count).1
            == HowManyCanFit(s, kind)
  {
    var r := ReceiveResources(s, kind, count);
    if AllocResourceSlot(s, kind).Some? {
      var i := AllocResourceSlot(s, kind).value;
      SumFitUpdate(s.slots, i, r.0.slots[i], kind, s.capacity);
    }
  }

  /** Something non-zero is stored exactly when the building had room for `kind`. */
  lemma ReceivePositiveIffRoom(s: StorageSlots, kind: ResourceKind, count: nat)
    requires Valid(s) && CanReceive(s, kind, count)
    requires count > 0
    ensures ReceiveResources(s, kind, count).1 > 0 <==> HowManyCanFit(s, kind) > 0
  {
    AllocFailsIffNoRoom(s, kind);
  }

  // ----------------------------------------------
  // Shopping
  // ----------------------------------------------

  predicate NoDuplicates(wanted: seq<ResourceKind>) {
    forall i, j :: 0 <= i < j < |wanted| ==> wanted[i] != wanted[j]
  }

  /** The kinds at positions `i..` of the list that the storage holds. */
  function HeldFrom(s: StorageSlots, wanted: seq<ResourceKind>, i: nat): set<ResourceKind> {
    set j | i <= j < |wanted| && Stock(s, wanted[j]) > 0 :: wanted[j]
  }

  /** Taking one unit of `kind` from its first slot. */
  lemma TakeOne(s: StorageSlots, kind: ResourceKind, slot: nat)
    requires Valid(s)
    requires FindResourceSlot(s, kind) == Some(slot)
    ensures kind in s.accepted
    ensures SlotResourceCount(s, slot, kind) > 0
    ensures DecrementSlotResourceCount(s, slot, kind, 1).1 < SlotResourceCount(s, slot, kind)
    ensures Stock(DecrementSlotResourceCount(s, slot, kind, 1).0, kind) + 1 == Stock(s, kind)
    ensures forall k :: k != kind ==> Stock(DecrementSlotResourceCount(s, slot, kind, 1).0, k) == Stock(s, k)
  {
    var s' := DecrementSlotResourceCount(s, slot, kind, 1).0;
    SumCountUpdate(s.slots, slot, s'.slots[slot], kind);
    forall k | k != kind ensures Stock(s', k) == Stock(s, k) {
      SumCountUpdate(s.slots, slot, s'.slots[slot], k);
    }
  }

  lemma {:induction false} ShopFromTaken(s: StorageSlots, basket: multiset<ResourceKind>, wanted: seq<ResourceKind>,
                                         i: nat, taken: set<ResourceKind>)
    requires Valid(s) && i <= |wanted|
    decreases |wanted| - i
    ensures ShopFrom(s, basket, wanted, i, taken).taken == taken + HeldFrom(s, wanted, i)
  {
    if i < |wanted| {
      var kind := wanted[i];
      StockIffResourceSlot(s, kind);
      match FindResourceSlot(s, kind)
      case None =>
        ShopFromTaken(s, basket, wanted, i + 1, taken);
        assert HeldFrom(s, wanted, i) == HeldFrom(s, wanted, i + 1);
      case Some(slot) =>
        TakeOne(s, kind, slot);
        var s' := DecrementSlotResourceCount(s, slot, kind, 1).0;
        ShopFromTaken(s', basket + multiset{kind}, wanted, i + 1, taken + {kind});
        assert HeldFrom(s, wanted, i) == HeldFrom(s, wanted, i + 1) + {kind};
        assert HeldFrom(s', wanted, i + 1) + {kind} == HeldFrom(s, wanted, i + 1) + {kind};
    }
  }

  lemma {:induction false} ShopFromConserves(s: StorageSlots, basket: multiset<ResourceKind>, wanted: seq<ResourceKind>,
                                             i: nat, taken: set<ResourceKind>, k: ResourceKind)
    requires Valid(s) && i <= |wanted|
    decreases |wanted| - i
    ensures Stock(ShopFrom(s, basket, wanted, i, taken).storage, k) + ShopFrom(s, basket, wanted, i, taken).basket[k]
            == Stock(s, k) + basket[k]
    ensures k !in wanted[i..] ==> ShopFrom(s, basket, wanted, i, taken).basket[k] == basket[k]
  {
    if i < |wanted| {
      var kind := wanted[i];
      assert wanted[i..] == [kind] + wanted[i + 1..];
      match FindResourceSlot(s, kind)
      case None =>
        ShopFromConserves(s, basket, wanted, i + 1, taken, k);
      case Some(slot) =>
        TakeOne(s, kind, slot);
        var s' := DecrementSlotResourceCount(s, slot, kind, 1).0;
        ShopFromConserves(s', basket + multiset{kind}, wanted, i + 1, taken + {kind}, k);
    }
  }

  lemma {:induction false} ShopFromDistinct(s: StorageSlots, basket: multiset<ResourceKind>, wanted: seq<ResourceKind>,
                                            i: nat, taken: set<ResourceKind>)
    requires Valid(s) && i <= |wanted|
    requires NoDuplicates(wanted)
    decreases |wanted| - i
    ensures ShopFrom(s, basket, wanted, i, taken).basket == basket + multiset(HeldFrom(s, wanted, i))
  {
    if i < |wanted| {
      var kind := wanted[i];
      StockIffResourceSlot(s, kind);
      match FindResourceSlot(s, kind)
      case None =>
        ShopFromDistinct(s, basket, wanted, i + 1, taken);
        assert HeldFrom(s, wanted, i) == HeldFrom(s, wanted, i + 1);
      case Some(slot) =>
        TakeOne(s, kind, slot);
        var s' := DecrementSlotResourceCount(s, slot, kind, 1).0;
        ShopFromDistinct(s', basket + multiset{kind}, wanted, i + 1, taken + {kind});
        assert HeldFrom(s', wanted, i + 1) == HeldFrom(s, wanted, i + 1);
        assert kind !in HeldFrom(s, wanted, i + 1);
        assert HeldFrom(s, wanted, i) == HeldFrom(s, wanted, i + 1) + {kind};
        assert multiset(HeldFrom(s, wanted, i)) == multiset(HeldFrom(s, wanted, i + 1)) + multiset{kind};
    }
  }

  /** The kinds shopping returns are exactly the wanted kinds the storage holds. */
  lemma ShopTakesHeldKinds(s: StorageSlots, basket: multiset<ResourceKind>, wanted: seq<ResourceKind>, allOrNothing: bool)
    requires Valid(s)
    requires !allOrNothing || AllInStock(s, wanted)
    ensures Shop(s, basket, wanted, allOrNothing).taken == set k | k in wanted && Stock(s, k) > 0
  {
    assert Shop(s, basket, wanted, allOrNothing) == ShopFrom(s, basket, wanted, 0, {});
    ShopFromTaken(s, basket, wanted, 0, {});
    forall k ensures k in HeldFrom(s, wanted, 0) <==> k in wanted && Stock(s, k) > 0 {
      assert wanted[0..] == wanted;
      if k in wanted && Stock(s, k) > 0 {
        var j :| 0 <= j < |wanted| && wanted[j] == k;
      }
    }
  }

  /**
   * Every unit that leaves the storage lands in the basket, and kinds not
   * on the list are untouched.
   */
  lemma ShopConservesStock(s: StorageSlots, basket: multiset<ResourceKind>, wanted: seq<ResourceKind>,
                           allOrNothing: bool, k: ResourceKind)
    requires Valid(s)
    ensures var r := Shop(s, basket, wanted, allOrNothing);
            Stock(r.storage, k) + r.basket[k] == Stock(s, k) + basket[k]
    ensures var r := Shop(s, basket, wanted, allOrNothing);
            k !in wanted ==> r.basket[k] == basket[k] && Stock(r.storage, k) == Stock(s, k)
  {
    if !(allOrNothing && !AllInStock(s, wanted)) {
      assert wanted[0..] == wanted;
      ShopFromConserves(s, basket, wanted, 0, {}, k);
    }
  }

  /** For a list without repeats, the basket gains exactly one unit of each returned kind. */
  lemma ShopBasketGainsTaken(s: StorageSlots, basket: multiset<ResourceKind>, wanted: seq<ResourceKind>, allOrNothing: bool)
    requires Valid(s) && NoDuplicates(wanted)
    ensures var r := Shop(s, basket, wanted, allOrNothing);
            r.basket == basket + multiset(r.taken)
  {
    if !(allOrNothing && !AllInStock(s, wanted)) {
      ShopFromDistinct(s, basket, wanted, 0, {});
      ShopFromTaken(s, basket, wanted, 0, {});
    } else {
      var none: set<ResourceKind> := {};
      assert multiset(none) == multiset{};
    }
  }

  /** With `allOrNothing`, shopping either takes nothing at all or takes every wanted kind. */
  lemma ShopAllOrNothing(s: StorageSlots, basket: multiset<ResourceKind>, wanted: seq<ResourceKind>)
    requires Valid(s)
    ensures var r := Shop(s, basket, wanted, true);
            r == ShopOutcome(s, basket, {}) || r.taken == set k | k in wanted
  {
    if AllInStock(s, wanted) {
      ShopTakesHeldKinds(s, basket, wanted, true);
      forall k | k in wanted ensures Stock(s, k) > 0 {
        var j :| 0 <= j < |wanted| && wanted[j] == k;
        StockIffResourceSlot(s, k);
      }
    }
  }

  // ----------------------------------------------
  // Worked scenarios
  // ----------------------------------------------

  /**
   * Eight slots of four, accepting rice and meat: an empty building fits 32
   * rice; after two deliveries of four rice (the second forcing a second
   * slot) it fits 24 rice and 24 meat.
   */
  lemma CapacityScenario()
    ensures New({Rice, Meat}, 8, 4).Some?
    ensures var s0 := New({Rice, Meat}, 8, 4).value;
            var (s1, n1) := ReceiveResources(s0, Rice, 4);
            var (s2, n2) := ReceiveResources(s1, Rice, 4);
            && HowManyCanFit(s0, Rice) == 32
            && n1 == 4 && n2 == 4
            && HowManyCanFit(s2, Rice) == 24
            && HowManyCanFit(s2, Meat) == 24
  {
    var s0 := New({Rice, Meat}, 8, 4).value;
    NewHasFullRoom({Rice, Meat}, 8, 4, Rice);
    NewHasFullRoom({Rice, Meat}, 8, 4, Meat);
    assert AllocResourceSlot(s0, Rice) == Some(0);
    var (s1, n1) := ReceiveResources(s0, Rice, 4);
    ReceiveConsumesRoom(s0, Rice, 4);
    SumFitUpdate(s0.slots, 0, s1.slots[0], Meat, 4);
    assert s1.slots[0] == Slot(Some(Rice), 4);
    assert IsFull(s1.slots[0], 4) && IsFree(s1.slots[1]);
    assert AllocResourceSlot(s1, Rice) == Some(1);
    var (s2, n2) := ReceiveResources(s1, Rice, 4);
    ReceiveConsumesRoom(s1, Rice, 4);
    SumFitUpdate(s1.slots, 1, s2.slots[1], Meat, 4);
    assert s2.slots[1] == Slot(Some(Rice), 4);
  }

  /**
   * The leak on a new granary-like storage: an offer of zero rice leaves the
   * code's slot 0 allocated to rice and empty, while the corrected receive
   * changes nothing.
   */
  lemma ReceiveNothingScenario()
    ensures New({Rice, Meat}, 8, 4).Some?
    ensures var s0 := New({Rice, Meat}, 8, 4).value;
            && ReceiveResourcesAsWritten(s0, Rice, 0) == (s0.(slots := s0.slots[0 := Slot(Some(Rice), 0)]), 0)
            && ReceiveResources(s0, Rice, 0) == (s0, 0)
            && !Valid(ReceiveResourcesAsWritten(s0, Rice, 0).0)
  {
    var s0 := New({Rice, Meat}, 8, 4).value;
    assert AllocResourceSlot(s0, Rice) == Some(0);
    ReceiveAsWrittenAgreesUnlessNothingOffered(s0, Rice, 0);
    assert s0.slots[0 := FreeSlot] == s0.slots;
  }

  /**
   * A leaked slot shadows real stock. On two slots of four: one meat goes to
   * slot 0, four rice fill slot 1, the meat is taken out again, and an offer
   * of zero rice then leaks slot 0 to rice. The slot found for rice is the
   * empty slot 0 although four rice are held, so a shopping step for rice
   * takes nothing from it.
   */
  lemma ShadowedStockScenario()
    ensures New({Rice, Meat}, 2, 4).Some?
    ensures var s0 := New({Rice, Meat}, 2, 4).value;
            var s1 := ReceiveResourcesAsWritten(s0, Meat, 1).0;
            var s2 := ReceiveResourcesAsWritten(s1, Rice, 4).0;
            var s3 := s2.(slots := s2.slots[0 := Decrement(s2.slots[0], Meat, 1).0]);
            var s4 := ReceiveResourcesAsWritten(s3, Rice, 0).0;
            && s4.slots == [Slot(Some(Rice), 0), Slot(Some(Rice), 4)]
            && Stock(s4, Rice) == 4
            && FindResourceSlot(s4, Rice) == Some(0)
            && Decrement(s4.slots[0], Rice, 1) == (s4.slots[0], 0)
  {
    var s0 := New({Rice, Meat}, 2, 4).value;
    assert AllocResourceSlot(s0, Meat) == Some(0);
    var s1 := ReceiveResourcesAsWritten(s0, Meat, 1).0;
    assert s1.slots == [Slot(Some(Meat), 1), FreeSlot];
    assert !HasRoomFor(s1.slots[0], Rice, 4) && !HasRoomFor(s1.slots[1], Rice, 4);
    assert !IsFree(s1.slots[0]) && IsFree(s1.slots[1]);
    assert AllocResourceSlot(s1, Rice) == Some(1);
    var s2 := ReceiveResourcesAsWritten(s1, Rice, 4).0;
    assert s2.slots == [Slot(Some(Meat), 1), Slot(Some(Rice), 4)];
    var s3 := s2.(slots := s2.slots[0 := Decrement(s2.slots[0], Meat, 1).0]);
    assert s3.slots == [FreeSlot, Slot(Some(Rice), 4)];
    assert ValidAsWritten(s3);
    assert AllocResourceSlot(s3, Rice) == Some(0);
    var s4 := ReceiveResourcesAsWritten(s3, Rice, 0).0;
    assert s4.slots == [Slot(Some(Rice), 0), Slot(Some(Rice), 4)];
    assert Stock(s4, Rice) == 4 by {
      assert s4.slots[1..] == [Slot(Some(Rice), 4)];
      assert s4.slots[1..][1..] == [];
      assert SumCount(s4.slots[1..], Rice) == 4;
    }
  }

  /**
   * One rice and no meat in stock: an all-or-nothing trip for rice and meat
   * takes nothing, while one for rice alone takes the single rice.
   */
  lemma ShoppingScenario(basket: multiset<ResourceKind>)
    ensures New({Rice, Meat}, 8, 4).Some?
    ensures var s := ReceiveResources(New({Rice, Meat}, 8, 4).value, Rice, 1).0;
            && Stock(s, Rice) == 1
            && Shop(s, basket, [Rice, Meat], true) == ShopOutcome(s, basket, {})
            && Shop(s, basket, [Rice], true).taken == {Rice}
            && Shop(s, basket, [Rice], true).basket == basket + multiset{Rice}
            && Stock(Shop(s, basket, [Rice], true).storage, Rice) == 0
  {
    var s0 := New({Rice, Meat}, 8, 4).value;
    NewHasFullRoom({Rice, Meat}, 8, 4, Rice);
    NewHasFullRoom({Rice, Meat}, 8, 4, Meat);
    assert AllocResourceSlot(s0, Rice) == Some(0);
    var s := ReceiveResources(s0, Rice, 1).0;
    ReceiveMovesStock(s0, Rice, 1, Meat);
    StockIffResourceSlot(s, Meat);
    StockIffResourceSlot(s, Rice);
    assert !AllInStock(s, [Rice, Meat]) by {
      assert [Rice, Meat][1] == Meat;
    }
    assert AllInStock(s, [Rice]);
    ShopTakesHeldKinds(s, basket, [Rice], true);
    ShopBasketGainsTaken(s, basket, [Rice], true);
    ShopConservesStock(s, basket, [Rice], true, Rice);
    assert (set k | k in [Rice] && Stock(s, k) > 0) == {Rice};
    assert multiset({Rice}) == multiset{Rice};
  }
}
