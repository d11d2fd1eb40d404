/** The 47 block types, their one-byte encoding and the role predicates the other modules use. */
module BlockTypes {
  import opened Geometry

  datatype BlockType =
    | Air | Stone | Dirt | Grass | Planks | Leaves | Sand
    | Gravel | Water | Glass | Log | Model | Brick | Snow
    | Cobblestone | Iron | Bedrock | TintedGlass | Painted | Lava | GlowStone
    | GlowMushroom | Crystal | PineLog | WillowLog | PineLeaves | WillowLeaves | Ice
    | Mud | Sandstone | Cactus | DecorativeStone | Concrete | Deepslate | Moss
    | MossyCobblestone | Clay | Dripstone | Calcite | Terracotta | PackedIce | Podzol
    | Mycelium | CoarseDirt | RootedDirt | BirchLog | BirchLeaves

  /** `block as u8`: the discriminant. */
  function ToByte(b: BlockType): (r: Byte) {
    match b
    case Air => 0
    case Stone => 1
    case Dirt => 2
    case Grass => 3
    case Planks => 4
    case Leaves => 5
    case Sand => 6
    case Gravel => 7
    case Water => 8
    case Glass => 9
    case Log => 10
    case Model => 11
    case Brick => 12
    case Snow => 13
    case Cobblestone => 14
    case Iron => 15
    case Bedrock => 16
    case TintedGlass => 17
    case Painted => 18
    case Lava => 19
    case GlowStone => 20
    case GlowMushroom => 21
    case Crystal => 22
    case PineLog => 23
    case WillowLog => 24
    case PineLeaves => 25
    case WillowLeaves => 26
    case Ice => 27
    case Mud => 28
    case Sandstone => 29
    case Cactus => 30
    case DecorativeStone => 31
    case Concrete => 32
    case Deepslate => 33
    case Moss => 34
    case MossyCobblestone => 35
    case Clay => 36
    case Dripstone => 37
    case Calcite => 38
    case Terracotta => 39
    case PackedIce => 40
    case Podzol => 41
    case Mycelium => 42
    case CoarseDirt => 43
    case RootedDirt => 44
    case BirchLog => 45
    case BirchLeaves => 46
  }

  /** `BlockType::from(u8)`: unknown values decode to Air. */
  function FromByte(v: Byte): BlockType {
    match v
    case 0 => Air
    case 1 => Stone
    case 2 => Dirt
    case 3 => Grass
    case 4 => Planks
    case 5 => Leaves
    case 6 => Sand
    case 7 => Gravel
    case 8 => Water
    case 9 => Glass
    case 10 => Log
    case 11 => Model
    case 12 => Brick
    case 13 => Snow
    case 14 => Cobblestone
    case 15 => Iron
    case 16 => Bedrock
    case 17 => TintedGlass
    case 18 => Painted
    case 19 => Lava
    case 20 => GlowStone
    case 21 => GlowMushroom
    case 22 => Crystal
    case 23 => PineLog
    case 24 => WillowLog
    case 25 => PineLeaves
    case 26 => WillowLeaves
    case 27 => Ice
    case 28 => Mud
    case 29 => Sandstone
    case 30 => Cactus
    case 31 => DecorativeStone
    case 32 => Concrete
    case 33 => Deepslate
    case 34 => Moss
    case 35 => MossyCobblestone
    case 36 => Clay
    case 37 => Dripstone
    case 38 => Calcite
    case 39 => Terracotta
    case 40 => PackedIce
    case 41 => Podzol
    case 42 => Mycelium
    case 43 => CoarseDirt
    case 44 => RootedDirt
    case 45 => BirchLog
    case 46 => BirchLeaves
    case _ => Air
  }

  /** Block storage, GPU upload and saves all rely on this round trip. */
  lemma ByteRoundTrip(b: BlockType)
    ensures FromByte(ToByte(b)) == b
  {
    if ToByte(b) < 24 {
      assert FromByte(ToByte(b)) == b;
    } else {
      assert FromByte(ToByte(b)) == b;
    }
  }

  /** Where water comes from. */
  datatype WaterType = Ocean | Lake | River | Swamp | Spring

  predicate IsSolid(b: BlockType) {
    b != Air && b != Water && b != Model && b != Glass && b != TintedGlass && b != Lava && b != Ice
  }

  predicate StopsFluid(b: BlockType) {
    IsSolid(b)
  }

  predicate ProvidesSupport(b: BlockType) {
    IsSolid(b) || b == Glass || b == TintedGlass || b == Ice
  }

  predicate IsTargetable(b: BlockType) {
    b != Air && b != Water
  }

  predicate IsAffectedByGravity(b: BlockType) {
    b == Sand || b == Gravel || b == Snow
  }

  predicate IsLog(b: BlockType) {
    b == Log || b == PineLog || b == WillowLog || b == BirchLog
  }

  predicate IsLeaves(b: BlockType) {
    b == Leaves || b == PineLeaves || b == WillowLeaves || b == BirchLeaves
  }

  predicate IsTreePart(b: BlockType) {
    IsLog(b) || IsLeaves(b)
  }

  predicate IsLightSource(b: BlockType) {
    b == GlowStone || b == GlowMushroom || b == Crystal
  }
}
