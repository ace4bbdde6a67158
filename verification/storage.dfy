/**
 * Slot-based stockpiles of a storage building (building/storage.rs).
 *
 * A storage building owns up to eight slots of one shared capacity. A slot is
 * either free or allocated to exactly one resource kind. The per-slot
 * `ResourceStock` of the game is reduced to the count of the allocated kind:
 * the stock entries of every other kind stay at zero, since only the
 * allocated kind is ever written.
 */
module Storage {
  import opened Wrappers
  import opened Resources

  const MAX_STORAGE_SLOTS: nat := 8
  const U32_MAX: nat := 0xFFFF_FFFF

  function Min(a: nat, b: nat): nat {
    if a <= b then a else b
  }

  // ----------------------------------------------
  // One slot
  // ----------------------------------------------

  datatype Slot = Slot(allocatedKind: Option<ResourceKind>, count: nat)

  const FreeSlot: Slot := Slot(None, 0)

  predicate IsFree(slot: Slot) {
    slot.allocatedKind.None?
  }

  predicate IsFull(slot: Slot, capacity: nat) {
    slot.allocatedKind.Some? && slot.count >= capacity
  }

  /** How many units of `kind` the slot holds. */
  function CountOf(slot: Slot, kind: ResourceKind): nat {
    if slot.allocatedKind == Some(kind) then slot.count else 0
  }

  /** The slot invariant: bounded count, and "allocated" exactly when non-empty. */
  predicate WellFormedSlot(slot: Slot, capacity: nat) {
    slot.count <= capacity && (slot.allocatedKind.None? <==> slot.count == 0)
  }

  predicate SlotInvariant(slot: Slot, capacity: nat, accepted: set<ResourceKind>) {
    && WellFormedSlot(slot, capacity)
    && (slot.allocatedKind.Some? ==> slot.allocatedKind.value in accepted)
  }

  /** Room left in a slot: all of it when free, capacity minus count otherwise. */
  function RemainingCapacity(slot: Slot, capacity: nat): nat
    requires slot.allocatedKind.Some? ==> slot.count <= capacity
  {
    if slot.allocatedKind.Some? then capacity - slot.count else capacity
  }

  /**
   * Adding to a slot exactly as storage.rs writes it: a free slot becomes
   * allocated to `kind` whatever the amount, even an amount of zero.
   * The first requires is the "can only accept" panic, the second the u32
   * addition overflow check.
   */
  function IncrementAsWritten(slot: Slot, kind: ResourceKind, amount: nat, capacity: nat): (r: (Slot, nat))
    requires slot.allocatedKind.None? || slot.allocatedKind == Some(kind)
    requires CountOf(slot, kind) + amount <= U32_MAX
    ensures r.0.allocatedKind == Some(kind)
    ensures CountOf(r.0, kind) == r.1
  {
    var prev := CountOf(slot, kind);
    var next := Min(prev + amount, capacity);
    (Slot(Some(kind), next), next)
  }

  /** Receiving nothing into a free slot leaves it allocated with a zero count. */
  lemma IncrementAsWrittenLeaksSlot(kind: ResourceKind, capacity: nat)
    ensures IncrementAsWritten(FreeSlot, kind, 0, capacity).0 == Slot(Some(kind), 0)
    ensures !WellFormedSlot(IncrementAsWritten(FreeSlot, kind, 0, capacity).0, capacity)
  {
  }

  /**
   * Adding to a slot, corrected so that a free slot is only allocated when
   * something is actually added. Returns the updated slot and its new count.
   */
  function Increment(slot: Slot, kind: ResourceKind, amount: nat, capacity: nat): (r: (Slot, nat))
    requires capacity > 0 && WellFormedSlot(slot, capacity)
    requires slot.allocatedKind.None? || slot.allocatedKind == Some(kind)
    requires CountOf(slot, kind) + amount <= U32_MAX
    ensures WellFormedSlot(r.0, capacity)
    ensures CountOf(r.0, kind) == r.1
    ensures r.1 - CountOf(slot, kind) == Min(amount, capacity - CountOf(slot, kind))
    ensures r.0.allocatedKind == (if IsFree(slot) && amount == 0 then None else Some(kind))
  {
    if IsFree(slot) && amount == 0 then
      (slot, 0)
    else
      var prev := CountOf(slot, kind);
      var next := Min(prev + amount, capacity);
      (Slot(Some(kind), next), next)
  }

  /**
   * Saturating removal from a slot; the slot is released once its count
   * reaches zero. Removing from a slot that holds none of `kind` changes
   * nothing and reports zero.
   */
  function Decrement(slot: Slot, kind: ResourceKind, amount: nat): (r: (Slot, nat))
    ensures CountOf(r.0, kind) == r.1
    ensures r.1 + Min(CountOf(slot, kind), amount) == CountOf(slot, kind)
    ensures CountOf(slot, kind) == 0 ==> r.0 == slot && r.1 == 0
    ensures CountOf(slot, kind) > 0 ==> (IsFree(r.0) <==> r.1 == 0)
    ensures r.0.allocatedKind.Some? ==> r.0.allocatedKind == slot.allocatedKind
    ensures forall k :: k != kind ==> CountOf(r.0, k) == CountOf(slot, k)
  {
    var prev := CountOf(slot, kind);
    if prev != 0 then
      var next := if prev >= amount then prev - amount else 0;
      (Slot(if next == 0 then None else Some(kind), next), next)
    else
      (slot, 0)
  }

  // ----------------------------------------------
  // The slots of one building
  // ----------------------------------------------

  datatype StorageSlots = StorageSlots(slots: seq<Slot>, capacity: nat, accepted: set<ResourceKind>)

  predicate Valid(s: StorageSlots) {
    && 0 < |s.slots| <= MAX_STORAGE_SLOTS
    && 0 < s.capacity <= U32_MAX
    && s.accepted != {}
    && forall i :: 0 <= i < |s.slots| ==> SlotInvariant(s.slots[i], s.capacity, s.accepted)
  }

  /**
   * The looser invariant the code itself keeps: counts bounded and allocated
   * kinds accepted, but an allocated slot may hold zero units (see
   * `IncrementAsWritten`).
   */
  predicate ValidAsWritten(s: StorageSlots) {
    && 0 < |s.slots| <= MAX_STORAGE_SLOTS
    && 0 < s.capacity <= U32_MAX
    && s.accepted != {}
    && forall i :: 0 <= i < |s.slots| ==>
         && s.slots[i].count <= s.capacity
         && (s.slots[i].allocatedKind.None? ==> s.slots[i].count == 0)
         && (s.slots[i].allocatedKind.Some? ==> s.slots[i].allocatedKind.value in s.accepted)
  }

  /** Same shape and configuration, possibly different contents. */
  predicate SameShape(s: StorageSlots, t: StorageSlots) {
    |s.slots| == |t.slots| && s.capacity == t.capacity && s.accepted == t.accepted
  }

  function FreeSlots(n: nat): (slots: seq<Slot>)
    ensures |slots| == n
    ensures forall i :: 0 <= i < n ==> slots[i] == FreeSlot
  {
    if n == 0 then [] else [FreeSlot] + FreeSlots(n - 1)
  }

  /**
   * Building the slots. The game panics on an empty accepted list, zero slots
   * or zero capacity, and the fixed-size slot array panics past eight slots;
   * each of these is a rejected construction (`None`) here.
   */
  function New(accepted: set<ResourceKind>, numSlots: nat, slotCapacity: nat): (r: Option<StorageSlots>)
    requires slotCapacity <= U32_MAX
    ensures r.None? <==> (accepted == {} || numSlots == 0 || slotCapacity == 0 || numSlots > MAX_STORAGE_SLOTS)
    ensures r.Some? ==> Valid(r.value)
    ensures r.Some? ==> |r.value.slots| == numSlots && r.value.capacity == slotCapacity && r.value.accepted == accepted
    ensures r.Some? ==> forall i :: 0 <= i < |r.value.slots| ==> IsFree(r.value.slots[i])
  {
    if accepted == {} || numSlots == 0 || slotCapacity == 0 then None
    else if numSlots > MAX_STORAGE_SLOTS then None
    else Some(StorageSlots(FreeSlots(numSlots), slotCapacity, accepted))
  }

  /** Count of `kind` in slot `i`; the game panics for a kind the slots do not accept. */
  function SlotResourceCount(s: StorageSlots, i: nat, kind: ResourceKind): (n: nat)
    requires Valid(s) && i < |s.slots|
    requires kind in s.accepted
    ensures n <= s.capacity
    ensures n > 0 <==> s.slots[i].allocatedKind == Some(kind)
  {
    CountOf(s.slots[i], kind)
  }

  /** Removes up to `amount` units of `kind` from slot `i`, returning the new count. */
  function DecrementSlotResourceCount(s: StorageSlots, i: nat, kind: ResourceKind, amount: nat): (r: (StorageSlots, nat))
    requires Valid(s) && i < |s.slots|
    requires kind in s.accepted
    ensures Valid(r.0) && SameShape(s, r.0)
    ensures r.0.slots == s.slots[i := r.0.slots[i]]
    ensures r.1 + Min(CountOf(s.slots[i], kind), amount) == CountOf(s.slots[i], kind)
    ensures CountOf(r.0.slots[i], kind) == r.1
  {
    var (slot, n) := Decrement(s.slots[i], kind, amount);
    (s.(slots := s.slots[i := slot]), n)
  }

  // ----------------------------------------------
  // Linear scans (first match in slot order)
  // ----------------------------------------------

  function FindFreeSlotFrom(slots: seq<Slot>, from: nat): (r: Option<nat>)
    requires from <= |slots|
    decreases |slots| - from
    ensures r.Some? ==> from <= r.value < |slots| && IsFree(slots[r.value])
    ensures r.Some? ==> forall j :: from <= j < r.value ==> !IsFree(slots[j])
    ensures r.None? ==> forall j :: from <= j < |slots| ==> !IsFree(slots[j])
  {
    if from == |slots| then None
    else if IsFree(slots[from]) then Some(from)
    else FindFreeSlotFrom(slots, from + 1)
  }

  /** The first free slot, if any. */
  function FindFreeSlot(s: StorageSlots): (r: Option<nat>)
    ensures r.Some? ==> r.value < |s.slots| && IsFree(s.slots[r.value])
    ensures r.Some? ==> forall j :: 0 <= j < r.value ==> !IsFree(s.slots[j])
    ensures r.None? ==> forall j :: 0 <= j < |s.slots| ==> !IsFree(s.slots[j])
  {
    FindFreeSlotFrom(s.slots, 0)
  }

  function FindResourceSlotFrom(slots: seq<Slot>, kind: ResourceKind, from: nat): (r: Option<nat>)
    requires from <= |slots|
    decreases |slots| - from
    ensures r.Some? ==> from <= r.value < |slots| && slots[r.value].allocatedKind == Some(kind)
    ensures r.Some? ==> forall j :: from <= j < r.value ==> slots[j].allocatedKind != Some(kind)
    ensures r.None? ==> forall j :: from <= j < |slots| ==> slots[j].allocatedKind != Some(kind)
  {
    if from == |slots| then None
    else if slots[from].allocatedKind == Some(kind) then Some(from)
    else FindResourceSlotFrom(slots, kind, from + 1)
  }

  /** The first slot allocated to `kind` (full or not), if any. */
  function FindResourceSlot(s: StorageSlots, kind: ResourceKind): (r: Option<nat>)
    ensures r.Some? ==> r.value < |s.slots| && s.slots[r.value].allocatedKind == Some(kind)
    ensures r.Some? ==> forall j :: 0 <= j < r.value ==> s.slots[j].allocatedKind != Some(kind)
    ensures r.None? ==> forall j :: 0 <= j < |s.slots| ==> s.slots[j].allocatedKind != Some(kind)
  {
    FindResourceSlotFrom(s.slots, kind, 0)
  }

  /** A slot already holding `kind` that still has room. */
  predicate HasRoomFor(slot: Slot, kind: ResourceKind, capacity: nat) {
    slot.allocatedKind == Some(kind) && !IsFull(slot, capacity)
  }

  function FindSlotWithRoomFrom(slots: seq<Slot>, kind: ResourceKind, capacity: nat, from: nat): (r: Option<nat>)
    requires from <= |slots|
    decreases |slots| - from
    ensures r.Some? ==> from <= r.value < |slots| && HasRoomFor(slots[r.value], kind, capacity)
    ensures r.Some? ==> forall j :: from <= j < r.value ==> !HasRoomFor(slots[j], kind, capacity)
    ensures r.None? ==> forall j :: from <= j < |slots| ==> !HasRoomFor(slots[j], kind, capacity)
  {
    if from == |slots| then None
    else if HasRoomFor(slots[from], kind, capacity) then Some(from)
    else FindSlotWithRoomFrom(slots, kind, capacity, from + 1)
  }

  /**
   * The slot that receives `kind`: the first slot already holding `kind`
   * that is not full, otherwise the first free slot, otherwise none.
   */
  function AllocResourceSlot(s: StorageSlots, kind: ResourceKind): (r: Option<nat>)
    ensures r.Some? ==> r.value < |s.slots|
    ensures r.Some? ==> HasRoomFor(s.slots[r.value], kind, s.capacity) || IsFree(s.slots[r.value])
    ensures (exists j :: 0 <= j < |s.slots| && HasRoomFor(s.slots[j], kind, s.capacity)) ==>
              && r.Some? && HasRoomFor(s.slots[r.value], kind, s.capacity)
              && forall j :: 0 <= j < r.value ==> !HasRoomFor(s.slots[j], kind, s.capacity)
    ensures (forall j :: 0 <= j < |s.slots| ==> !HasRoomFor(s.slots[j], kind, s.capacity)) ==>
              && (r.Some? ==> IsFree(s.slots[r.value]) && forall j :: 0 <= j < r.value ==> !IsFree(s.slots[j]))
              && (r.None? ==> forall j :: 0 <= j < |s.slots| ==> !IsFree(s.slots[j]))
  {
    match FindSlotWithRoomFrom(s.slots, kind, s.capacity, 0)
    case Some(i) => Some(i)
    case None => FindFreeSlot(s)
  }

  // ----------------------------------------------
  // Capacity and stock totals
  // ----------------------------------------------

  /** What one slot can still take of `kind`. */
  function Fit(slot: Slot, kind: ResourceKind, capacity: nat): nat
    requires slot.allocatedKind.Some? ==> slot.count <= capacity
  {
    if IsFree(slot) then capacity
    else if slot.allocatedKind == Some(kind) then RemainingCapacity(slot, capacity)
    else 0
  }

  predicate CountsBounded(slots: seq<Slot>, capacity: nat) {
    forall i :: 0 <= i < |slots| ==> slots[i].count <= capacity
  }

  function SumFit(slots: seq<Slot>, kind: ResourceKind, capacity: nat): (n: nat)
    requires CountsBounded(slots, capacity)
    ensures n <= |slots| * capacity
  {
    if slots == [] then 0
    else
      var rest := slots[1..];
      assert CountsBounded(rest, capacity) by {
        forall j | 0 <= j < |rest| ensures rest[j].count <= capacity {
          assert rest[j] == slots[j + 1];
        }
      }
      assert |slots| * capacity == capacity + |rest| * capacity by {
        assert |slots| == |rest| + 1;
      }
      Fit(slots[0], kind, capacity) + SumFit(rest, kind, capacity)
  }

  /**
   * How many units of `kind` the building can still take: the full capacity
   * of every free slot plus the room left in every slot holding `kind`.
   */
  function HowManyCanFit(s: StorageSlots, kind: ResourceKind): (n: nat)
    requires ValidAsWritten(s)
    ensures n <= |s.slots| * s.capacity
  {
    SumFit(s.slots, kind, s.capacity)
  }

  function SumCount(slots: seq<Slot>, kind: ResourceKind): nat {
    if slots == [] then 0 else CountOf(slots[0], kind) + SumCount(slots[1..], kind)
  }

  /** Total units of `kind` across all slots. */
  function Stock(s: StorageSlots, kind: ResourceKind): nat {
    SumCount(s.slots, kind)
  }

  function AllFullFrom(slots: seq<Slot>, capacity: nat, from: nat): (r: bool)
    requires from <= |slots|
    decreases |slots| - from
    ensures r <==> forall j :: from <= j < |slots| ==> IsFull(slots[j], capacity)
  {
    if from == |slots| then true
    else if !IsFull(slots[from], capacity) then false
    else AllFullFrom(slots, capacity, from + 1)
  }

  /** True when every slot is allocated and at capacity. */
  function AreAllSlotsFull(s: StorageSlots): (r: bool)
    ensures r <==> forall j :: 0 <= j < |s.slots| ==> IsFull(s.slots[j], s.capacity)
  {
    AllFullFrom(s.slots, s.capacity, 0)
  }

  // ----------------------------------------------
  // Receiving
  // ----------------------------------------------

  /**
   * What receiving demands of the caller: when a slot is found for `kind`,
   * the game reads that slot's stock entry for `kind` (a panic for a kind
   * the building does not accept) and adds in u32 arithmetic.
   */
  predicate CanReceive(s: StorageSlots, kind: ResourceKind, count: nat) {
    match AllocResourceSlot(s, kind)
    case None => true
    case Some(i) => kind in s.accepted && CountOf(s.slots[i], kind) + count <= U32_MAX
  }

  /**
   * Stores up to `count` units of `kind` in the slot `AllocResourceSlot`
   * picks, clamped to the slot capacity, and returns how many were taken.
   */
  function ReceiveResources(s: StorageSlots, kind: ResourceKind, count: nat): (r: (StorageSlots, nat))
    requires Valid(s)
    requires CanReceive(s, kind, count)
    ensures Valid(r.0) && SameShape(s, r.0)
    ensures r.1 <= count
    ensures AllocResourceSlot(s, kind).None? ==> r == (s, 0)
    ensures AllocResourceSlot(s, kind).Some? ==>
              var i := AllocResourceSlot(s, kind).value;
              && r.1 == Min(count, s.capacity - CountOf(s.slots[i], kind))
              && r.0.slots == s.slots[i := r.0.slots[i]]
              && CountOf(r.0.slots[i], kind) == CountOf(s.slots[i], kind) + r.1
    ensures count > 0 && AllocResourceSlot(s, kind).Some? ==> r.1 > 0
  {
    match AllocResourceSlot(s, kind)
    case None => (s, 0)
    case Some(i) =>
      var prev := CountOf(s.slots[i], kind);
      var (slot, next) := Increment(s.slots[i], kind, count, s.capacity);
      (s.(slots := s.slots[i := slot]), next - prev)
  }

  /**
   * Receiving exactly as storage.rs writes it, on the increment that
   * allocates the chosen slot whatever the amount. It keeps only
   * `ValidAsWritten`: an offer of zero into a free slot leaves that slot
   * allocated and empty.
   */
  function ReceiveResourcesAsWritten(s: StorageSlots, kind: ResourceKind, count: nat): (r: (StorageSlots, nat))
    requires ValidAsWritten(s)
    requires CanReceive(s, kind, count)
    ensures ValidAsWritten(r.0) && SameShape(s, r.0)
    ensures r.1 <= count
    ensures AllocResourceSlot(s, kind).None? ==> r == (s, 0)
    ensures AllocResourceSlot(s, kind).Some? ==>
              var i := AllocResourceSlot(s, kind).value;
              && r.1 == Min(count, s.capacity - CountOf(s.slots[i], kind))
              && r.0.slots == s.slots[i := Slot(Some(kind), CountOf(s.slots[i], kind) + r.1)]
  {
    match AllocResourceSlot(s, kind)
    case None => (s, 0)
    case Some(i) =>
      var prev := CountOf(s.slots[i], kind);
      var (slot, next) := IncrementAsWritten(s.slots[i], kind, count, s.capacity);
      (s.(slots := s.slots[i := slot]), next - prev)
  }

  /**
   * The code's receive and the corrected one agree except on an offer of
   * zero that lands in a free slot; there the code leaves the slot allocated
   * to `kind` with a zero count, breaking `Valid`.
   */
  lemma ReceiveAsWrittenAgreesUnlessNothingOffered(s: StorageSlots, kind: ResourceKind, count: nat)
    requires Valid(s)
    requires CanReceive(s, kind, count)
    ensures var leaks := count == 0 && AllocResourceSlot(s, kind).Some? && IsFree(s.slots[AllocResourceSlot(s, kind).value]);
            && (ReceiveResourcesAsWritten(s, kind, count) == ReceiveResources(s, kind, count) <==> !leaks)
            && (leaks ==> ReceiveResourcesAsWritten(s, kind, count).0.slots[AllocResourceSlot(s, kind).value] == Slot(Some(kind), 0)
                          && !Valid(ReceiveResourcesAsWritten(s, kind, count).0))
  {
  }

  // ----------------------------------------------
  // Shopping
  // ----------------------------------------------

  datatype ShopOutcome = ShopOutcome(storage: StorageSlots, basket: multiset<ResourceKind>, taken: set<ResourceKind>)

  /** Every wanted kind has a slot allocated to it. */
  predicate AllInStock(s: StorageSlots, wanted: seq<ResourceKind>) {
    forall i :: 0 <= i < |wanted| ==> FindResourceSlot(s, wanted[i]).Some?
  }

  /** One pass of the shopping loop from position `i` of the list onwards. */
  function ShopFrom(s: StorageSlots, basket: multiset<ResourceKind>, wanted: seq<ResourceKind>,
                    i: nat, taken: set<ResourceKind>): (r: ShopOutcome)
    requires Valid(s) && i <= |wanted|
    decreases |wanted| - i
    ensures Valid(r.storage) && SameShape(s, r.storage)
  {
    if i == |wanted| then ShopOutcome(s, basket, taken)
    else
      var kind := wanted[i];
      match FindResourceSlot(s, kind)
      case None => ShopFrom(s, basket, wanted, i + 1, taken)
      case Some(slot) =>
        var prev := SlotResourceCount(s, slot, kind);
        var (s', next) := DecrementSlotResourceCount(s, slot, kind, 1);
        if next < prev then ShopFrom(s', basket + multiset{kind}, wanted, i + 1, taken + {kind})
        else ShopFrom(s', basket, wanted, i + 1, taken)
  }

  /**
   * Takes one unit of every wanted kind the building holds, adding each to
   * the basket and to the returned kind set. With `allOrNothing`, nothing is
   * taken unless every wanted kind is held.
   */
  function Shop(s: StorageSlots, basket: multiset<ResourceKind>, wanted: seq<ResourceKind>,
                allOrNothing: bool): (r: ShopOutcome)
    requires Valid(s)
    ensures Valid(r.storage) && SameShape(s, r.storage)
    ensures allOrNothing && !AllInStock(s, wanted) ==> r == ShopOutcome(s, basket, {})
  {
    if allOrNothing && !AllInStock(s, wanted) then ShopOutcome(s, basket, {})
    else ShopFrom(s, basket, wanted, 0, {})
  }
}
