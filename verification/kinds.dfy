/**
 * Building kinds, building archetypes and the per-tile game-state handle that
 * links a tile to the entity occupying it.
 */
module BuildingKinds {
  import opened Wrappers

  /** The concrete kinds of building the configuration table knows. */
  datatype BuildingKind = House | Farm | WellSmall | WellBig | Market | Granary | StorageYard

  /** The four behavioural categories, in declaration (iteration) order. */
  datatype ArchetypeKind = ProducerKind | StorageKind | ServiceKind | HouseKind

  const ARCHETYPE_COUNT: nat := 4

  /** Which archetype each building kind belongs to. */
  function ArchetypeOf(k: BuildingKind): ArchetypeKind {
    match k
    case Farm => ProducerKind
    case Granary | StorageYard => StorageKind
    case WellSmall | WellBig | Market => ServiceKind
    case House => HouseKind
  }

  /** Position of an archetype's list inside the world (`archetype as usize`). */
  function ArchetypeIndex(a: ArchetypeKind): (i: nat)
    ensures i < ARCHETYPE_COUNT
  {
    match a
    case ProducerKind => 0
    case StorageKind => 1
    case ServiceKind => 2
    case HouseKind => 3
  }

  /** The archetype stored at list position `i`. */
  function ArchetypeAt(i: nat): (a: ArchetypeKind)
    requires i < ARCHETYPE_COUNT
    ensures ArchetypeIndex(a) == i
  {
    if i == 0 then ProducerKind
    else if i == 1 then StorageKind
    else if i == 2 then ServiceKind
    else HouseKind
  }

  /**
   * The one-bit flag of a building kind. The flag values are declared in
   * building/mod.rs, which is not part of this model; any choice of distinct
   * single bits serves, and the order of declaration is used here.
   */
  function KindBits(k: BuildingKind): nat {
    match k
    case House => 1
    case Farm => 2
    case WellSmall => 4
    case WellBig => 8
    case Market => 16
    case Granary => 32
    case StorageYard => 64
  }

  /** Decodes a flag back into a kind; flags no kind owns decode to `None`. */
  function KindFromBits(bits: nat): (k: Option<BuildingKind>)
    ensures k.Some? ==> KindBits(k.value) == bits
  {
    if bits == 1 then Some(House)
    else if bits == 2 then Some(Farm)
    else if bits == 4 then Some(WellSmall)
    else if bits == 8 then Some(WellBig)
    else if bits == 16 then Some(Market)
    else if bits == 32 then Some(Granary)
    else if bits == 64 then Some(StorageYard)
    else None
  }

  /** Encoding a kind and decoding it again gives the kind back. */
  lemma KindBitsRoundTrip(k: BuildingKind)
    ensures KindFromBits(KindBits(k)) == Some(k)
  {
  }

  /**
   * The game-state handle a tile carries: the index of its entity inside the
   * list it lives in, and that entity's kind flag. The invalid handle (the
   * sentinel index of tile/map.rs, which is not part of this model) is its
   * own constructor.
   */
  datatype GameStateHandle = InvalidHandle | Handle(index: nat, kindBits: nat)

  predicate IsValidHandle(h: GameStateHandle) {
    h.Handle?
  }

  /** A valid handle whose flag decodes to a building kind. */
  predicate IsBuildingHandle(h: GameStateHandle) {
    h.Handle? && KindFromBits(h.kindBits).Some?
  }
}
