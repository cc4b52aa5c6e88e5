/** The holiday store's products: the `Item` hierarchy (toys, stuffed
    animals, candy) and the validation each constructor performs on the
    keyword arguments it receives from an order row.

    A constructor either returns the item or raises; the exception becomes
    an `ItemError`. Python raises a TypeError at call time for a missing
    keyword argument, checking the outermost class's parameters before
    running any body, and each `__init__` calls its parent before its own
    checks; the constructors below keep that order. */
module SupplyItems {
  import opened Wrappers
  import opened Text

  /** One spreadsheet cell as pandas hands it over: text, a whole number,
      or blank (NaN). */
  datatype Cell = Text(text: string) | Whole(value: int) | Blank

  /** The keyword arguments of a constructor call: column name -> cell. */
  type Details = map<string, Cell>

  datatype ItemError =
    | MissingArgument(arg: string)   // TypeError: a required keyword is absent
    | WrongType(field: string)       // TypeError: a non-string where text is required
    | BadValue(field: string)        // ValueError

  datatype Holiday = Christmas | Halloween | Easter

  /** `ItemType`. */
  datatype ItemType = ToyType | StuffedAnimalType | CandyType

  function ItemTypeName(t: ItemType): string {
    match t
    case ToyType => "Toy"
    case StuffedAnimalType => "StuffedAnimal"
    case CandyType => "Candy"
  }

  /** `ItemType(value)`: None where the enum constructor raises. */
  function ItemTypeOf(c: Cell): (r: Option<ItemType>)
    ensures r.Some? <==> exists t :: c == Text(ItemTypeName(t))
    ensures r.Some? ==> c == Text(ItemTypeName(r.value))
  {
    if c == Text("Toy") then
      assert c == Text(ItemTypeName(ToyType));
      Some(ToyType)
    else if c == Text("StuffedAnimal") then
      assert c == Text(ItemTypeName(StuffedAnimalType));
      Some(StuffedAnimalType)
    else if c == Text("Candy") then
      assert c == Text(ItemTypeName(CandyType));
      Some(CandyType)
    else None
  }

  /** The first letter of a product id names its holiday ... */
  function HolidayLetter(h: Holiday): char {
    match h
    case Christmas => 'C'
    case Halloween => 'H'
    case Easter => 'E'
  }

  /** ... and the last letter its kind of item. */
  function TypeLetter(t: ItemType): char {
    match t
    case ToyType => 'T'
    case StuffedAnimalType => 'S'
    case CandyType => 'C'
  }

  /** The regular expression `^L[0-9]{4}K$` for holiday letter L and item
      letter K, matched against the whole id. */
  predicate IdShape(id: string, h: Holiday, t: ItemType) {
    |id| == 6 && id[0] == HolidayLetter(h) && IsDigitsOfLength(id[1..5], 4) && id[5] == TypeLetter(t)
  }

  /** An id names exactly one holiday and one item type. */
  lemma IdShapeUnique(id: string, h: Holiday, t: ItemType, h': Holiday, t': ItemType)
    requires IdShape(id, h, t) && IdShape(id, h', t')
    ensures h == h' && t == t'
  {
  }

  /** The regular expression `^[0-9]+,[0-9]+$`. */
  predicate DimensionsShape(s: string) {
    exists i: nat | i < |s| :: s[i] == ',' && IsDigitString(s[..i]) && IsDigitString(s[i + 1..])
  }

  datatype SpiderType = Tarantula | WolfSpider
  datatype RobotBunnyColour = Orange | BunnyBlue | BunnyPink
  datatype Stuffing = PolyesterFibrefill | Wool
  datatype Size = Small | Medium | Large
  datatype Fabric = Linen | Cotton | Acrylic
  datatype EasterBunnyColour = White | Grey | Pink | Blue
  datatype ToffeeVariety = SeaSalt | Regular
  datatype CandyCaneColour = Red | Green

  function SpiderTypeName(e: SpiderType): string {
    match e case Tarantula => "Tarantula" case WolfSpider => "Wolf Spider"
  }
  function RobotBunnyColourName(e: RobotBunnyColour): string {
    match e case Orange => "Orange" case BunnyBlue => "Blue" case BunnyPink => "Pink"
  }
  function StuffingName(e: Stuffing): string {
    match e case PolyesterFibrefill => "Polyester Fibrefill" case Wool => "Wool"
  }
  function SizeName(e: Size): string {
    match e case Small => "S" case Medium => "M" case Large => "L"
  }
  function FabricName(e: Fabric): string {
    match e case Linen => "Linen" case Cotton => "Cotton" case Acrylic => "Acrylic"
  }
  function EasterBunnyColourName(e: EasterBunnyColour): string {
    match e case White => "White" case Grey => "Grey" case Pink => "Pink" case Blue => "Blue"
  }
  function ToffeeVarietyName(e: ToffeeVariety): string {
    match e case SeaSalt => "Sea Salt" case Regular => "Regular"
  }
  function CandyCaneColourName(e: CandyCaneColour): string {
    match e case Red => "Red" case Green => "Green"
  }

  const SpiderTypes := [Tarantula, WolfSpider]
  const RobotBunnyColours := [Orange, BunnyBlue, BunnyPink]
  const Stuffings := [PolyesterFibrefill, Wool]
  const Sizes := [Small, Medium, Large]
  const Fabrics := [Linen, Cotton, Acrylic]
  const EasterBunnyColours := [White, Grey, Pink, Blue]
  const ToffeeVarieties := [SeaSalt, Regular]
  const CandyCaneColours := [Red, Green]

  /** `E(value)` for an Enum class `E` listed by `members`: the member whose
      value is the cell's text; ValueError when there is none. */
  function ParseEnum<E>(c: Cell, field: string, members: seq<E>, name: E -> string): (r: Result<E, ItemError>)
    ensures r.Ok? ==> r.value in members && c == Text(name(r.value))
    ensures r.Err? ==> r.error == BadValue(field) && forall e :: e in members ==> c != Text(name(e))
  {
    if |members| == 0 then Err(BadValue(field))
    else if c == Text(name(members[0])) then Ok(members[0])
    else ParseEnum(c, field, members[1..], name)
  }

  /** Parsing the value of a member gives back that member, as long as no
      two members share a value. */
  lemma {:induction false} ParseEnumRoundTrip<E>(e: E, field: string, members: seq<E>, name: E -> string)
    requires e in members
    requires forall i, j :: 0 <= i < j < |members| ==> name(members[i]) != name(members[j])
    ensures ParseEnum(Text(name(e)), field, members, name) == Ok(e)
  {
    if members[0] != e {
      assert name(members[0]) != name(e) by {
        var j :| 0 <= j < |members| && members[j] == e;
        assert j > 0;
      }
      ParseEnumRoundTrip(e, field, members[1..], name);
    }
  }

  /** The keyword argument `key`, or the TypeError for its absence. */
  function Arg(d: Details, key: string): (r: Result<Cell, ItemError>)
    ensures r.Ok? <==> key in d
    ensures r.Ok? ==> r.value == d[key]
    ensures r.Err? ==> r.error == MissingArgument(key)
  {
    if key in d then Ok(d[key]) else Err(MissingArgument(key))
  }

  /** `isinstance(value, str)`. */
  function Str(c: Cell, field: string): (r: Result<string, ItemError>)
    ensures r.Ok? <==> c.Text?
    ensures r.Ok? ==> r.value == c.text
    ensures r.Err? ==> r.error == WrongType(field)
  {
    if c.Text? then Ok(c.text) else Err(WrongType(field))
  }

  /** `int(value)`: a whole number, or text made of ASCII digits; anything
      else (blank included) raises ValueError. */
  function Int(c: Cell, field: string): (r: Result<int, ItemError>)
    ensures r.Ok? <==> c.Whole? || (c.Text? && IsDigitString(c.text))
    ensures c.Whole? ==> r == Ok(c.value)
    ensures r.Err? ==> r.error == BadValue(field)
  {
    match c
    case Whole(n) => Ok(n)
    case Text(s) => if IsDigitString(s) then Ok(DigitsValue(s)) else Err(BadValue(field))
    case Blank => Err(BadValue(field))
  }

  /** `BooleanType(value) == BooleanType.TRUE`: "Y" is true, "N" is false,
      any other value raises ValueError. */
  function Flag(c: Cell, field: string): (r: Result<bool, ItemError>)
    ensures r.Ok? <==> c == Text("Y") || c == Text("N")
    ensures r.Ok? ==> (r.value <==> c == Text("Y"))
    ensures r.Err? ==> r.error == BadValue(field)
  {
    if c == Text("Y") then Ok(true)
    else if c == Text("N") then Ok(false)
    else Err(BadValue(field))
  }

  function FlagCell(b: bool): Cell {
    if b then Text("Y") else Text("N")
  }

  datatype Toy =
    | SantaWorkshop(dimensions: string, numRooms: int)
    | RCSpider(speed: int, jumpHeight: int, hasGlow: bool, spiderType: SpiderType)
    | RobotBunny(numSound: int, colour: RobotBunnyColour)

  datatype Animal =
    | DancingSkeleton(hasGlow: bool)
    | Reindeer(hasGlow: bool)
    | EasterBunny(colour: EasterBunnyColour)

  datatype Candy =
    | PumpkinCaramelToffee(variety: ToffeeVariety)
    | CandyCanes(colour: CandyCaneColour)
    | CremeEggs(packSize: int)

  /** The middle layer of the class hierarchy with its own attributes. */
  datatype Line =
    | ToyLine(hasBatteries: bool, minAge: int, toy: Toy)
    | StuffedLine(stuffing: Stuffing, size: Size, fabric: Fabric, animal: Animal)
    | CandyLine(hasNuts: bool, hasLactose: bool, candy: Candy)

  datatype Item = Item(productId: string, name: string, description: string, line: Line)

  /** The abstract category a product belongs to. */
  function TypeOf(i: Item): ItemType {
    match i.line
    case ToyLine(_, _, _) => ToyType
    case StuffedLine(_, _, _, _) => StuffedAnimalType
    case CandyLine(_, _, _) => CandyType
  }

  /** The holiday a product is made for. */
  function HolidayOf(i: Item): Holiday {
    match i.line
    case ToyLine(_, _, t) => (match t case SantaWorkshop(_, _) => Christmas case RCSpider(_, _, _, _) => Halloween case RobotBunny(_, _) => Easter)
    case StuffedLine(_, _, _, a) => (match a case Reindeer(_) => Christmas case DancingSkeleton(_) => Halloween case EasterBunny(_) => Easter)
    case CandyLine(_, _, c) => (match c case CandyCanes(_) => Christmas case PumpkinCaramelToffee(_) => Halloween case CremeEggs(_) => Easter)
  }

  /** Everything the constructors check, stated per product. */
  predicate Valid(i: Item) {
    && |i.productId| > 0 && |i.name| > 0 && |i.description| > 0
    && IdShape(i.productId, HolidayOf(i), TypeOf(i))
    && match i.line
       case ToyLine(batteries, minAge, toy) =>
         && minAge >= 0
         && (match toy
             case SantaWorkshop(dims, rooms) => !batteries && DimensionsShape(dims) && rooms > 0
             case RCSpider(speed, jump, _, _) => batteries && speed > 0 && jump > 0
             case RobotBunny(sounds, _) => batteries && sounds > 0)
       case StuffedLine(stuffing, _, fabric, animal) =>
         (match animal
          case DancingSkeleton(glow) => stuffing == PolyesterFibrefill && fabric == Acrylic && glow
          case Reindeer(glow) => stuffing == Wool && fabric == Cotton && glow
          case EasterBunny(_) => stuffing == PolyesterFibrefill && fabric == Linen)
       case CandyLine(nuts, lactose, candy) =>
         (match candy
          case PumpkinCaramelToffee(_) => nuts && lactose
          case CandyCanes(_) => !nuts && !lactose
          case CremeEggs(pack) => nuts && lactose && pack > 0)
  }

  /** `c` reads as the whole number `n` under `int(...)`. */
  predicate IntCell(c: Cell, n: int) {
    c == Whole(n) || (c.Text? && IsDigitString(c.text) && DigitsValue(c.text) == n)
  }

  /** The arguments `d` describe item `i`: every attribute the item's
      constructor reads is present and reads as the item's value. */
  predicate Describes(d: Details, i: Item) {
    && "product_id" in d && d["product_id"] == Text(i.productId)
    && "name" in d && d["name"] == Text(i.name)
    && "description" in d && d["description"] == Text(i.description)
    && match i.line
       case ToyLine(batteries, minAge, toy) =>
         && "has_batteries" in d && d["has_batteries"] == FlagCell(batteries)
         && "min_age" in d && IntCell(d["min_age"], minAge)
         && (match toy
             case SantaWorkshop(dims, rooms) =>
               && "dimensions" in d && d["dimensions"] == Text(dims)
               && "num_rooms" in d && IntCell(d["num_rooms"], rooms)
             case RCSpider(speed, jump, glow, kind) =>
               && "speed" in d && IntCell(d["speed"], speed)
               && "jump_height" in d && IntCell(d["jump_height"], jump)
               && "has_glow" in d && d["has_glow"] == FlagCell(glow)
               && "spider_type" in d && d["spider_type"] == Text(SpiderTypeName(kind))
             case RobotBunny(sounds, colour) =>
               && "num_sound" in d && IntCell(d["num_sound"], sounds)
               && "colour" in d && d["colour"] == Text(RobotBunnyColourName(colour)))
       case StuffedLine(stuffing, size, fabric, animal) =>
         && "stuffing" in d && d["stuffing"] == Text(StuffingName(stuffing))
         && "size" in d && d["size"] == Text(SizeName(size))
         && "fabric" in d && d["fabric"] == Text(FabricName(fabric))
         && (match animal
             case DancingSkeleton(glow) => "has_glow" in d && d["has_glow"] == FlagCell(glow)
             case Reindeer(glow) => "has_glow" in d && d["has_glow"] == FlagCell(glow)
             case EasterBunny(colour) => "colour" in d && d["colour"] == Text(EasterBunnyColourName(colour)))
       case CandyLine(nuts, lactose, candy) =>
         && "has_nuts" in d && d["has_nuts"] == FlagCell(nuts)
         && "has_lactose" in d && d["has_lactose"] == FlagCell(lactose)
         && (match candy
             case PumpkinCaramelToffee(variety) => "variety" in d && d["variety"] == Text(ToffeeVarietyName(variety))
             case CandyCanes(colour) => "colour" in d && d["colour"] == Text(CandyCaneColourName(colour))
             case CremeEggs(pack) => "pack_size" in d && IntCell(d["pack_size"], pack))
  }

  datatype Base = Base(productId: string, name: string, description: string)

  /** `Item.__init__`: product_id, name and description must each be a
      non-empty string, checked in that order. */
  function NewBase(d: Details): (r: Result<Base, ItemError>)
    ensures r.Ok? <==> && "product_id" in d && "name" in d && "description" in d
                       && d["product_id"].Text? && |d["product_id"].text| > 0
                       && d["name"].Text? && |d["name"].text| > 0
                       && d["description"].Text? && |d["description"].text| > 0
    ensures r.Ok? ==> && d["product_id"] == Text(r.value.productId)
                      && d["name"] == Text(r.value.name)
                      && d["description"] == Text(r.value.description)
  {
    var pidCell :- Arg(d, "product_id");
    var nameCell :- Arg(d, "name");
    var descCell :- Arg(d, "description");
    var pid :- Str(pidCell, "product_id");
    if |pid| == 0 then Err(BadValue("product_id")) else
    var name :- Str(nameCell, "name");
    if |name| == 0 then Err(BadValue("name")) else
    var desc :- Str(descCell, "description");
    if |desc| == 0 then Err(BadValue("description")) else
    Ok(Base(pid, name, desc))
  }

  /** `Toy.__init__`: the base first, then `min_age >= 0`, then the
      batteries flag. */
  function NewToy(d: Details): (r: Result<(Base, bool, int), ItemError>)
    ensures r.Ok? ==> NewBase(d) == Ok(r.value.0)
    ensures r.Ok? ==> r.value.2 >= 0 && "min_age" in d && IntCell(d["min_age"], r.value.2)
    ensures r.Ok? ==> "has_batteries" in d && d["has_batteries"] == FlagCell(r.value.1)
    ensures ("has_batteries" !in d || "min_age" !in d) ==> r.Err? && r.error.MissingArgument?
    ensures "has_batteries" in d && "min_age" in d && NewBase(d).Err? ==> r == Err(NewBase(d).error)
  {
    var batteriesCell :- Arg(d, "has_batteries");
    var ageCell :- Arg(d, "min_age");
    var base :- NewBase(d);
    var age :- Int(ageCell, "min_age");
    if age < 0 then Err(BadValue("min_age")) else
    var batteries :- Flag(batteriesCell, "has_batteries");
    Ok((base, batteries, age))
  }

  /** `StuffedAnimal.__init__`: the base first, then stuffing, size and
      fabric parsed in that order. */
  function NewStuffed(d: Details): (r: Result<(Base, Stuffing, Size, Fabric), ItemError>)
    ensures r.Ok? ==> NewBase(d) == Ok(r.value.0)
    ensures r.Ok? ==> && "stuffing" in d && d["stuffing"] == Text(StuffingName(r.value.1))
                      && "size" in d && d["size"] == Text(SizeName(r.value.2))
                      && "fabric" in d && d["fabric"] == Text(FabricName(r.value.3))
    ensures ("stuffing" !in d || "fabric" !in d || "size" !in d) ==> r.Err? && r.error.MissingArgument?
    ensures "stuffing" in d && "fabric" in d && "size" in d && NewBase(d).Err? ==> r == Err(NewBase(d).error)
  {
    var stuffingCell :- Arg(d, "stuffing");
    var fabricCell :- Arg(d, "fabric");
    var sizeCell :- Arg(d, "size");
    var base :- NewBase(d);
    var stuffing :- ParseEnum(stuffingCell, "stuffing", Stuffings, StuffingName);
    var size :- ParseEnum(sizeCell, "size", Sizes, SizeName);
    var fabric :- ParseEnum(fabricCell, "fabric", Fabrics, FabricName);
    Ok((base, stuffing, size, fabric))
  }

  /** `Candy.__init__`: the base first, then the nuts and lactose flags. */
  function NewCandy(d: Details): (r: Result<(Base, bool, bool), ItemError>)
    ensures r.Ok? ==> NewBase(d) == Ok(r.value.0)
    ensures r.Ok? ==> && "has_nuts" in d && d["has_nuts"] == FlagCell(r.value.1)
                      && "has_lactose" in d && d["has_lactose"] == FlagCell(r.value.2)
    ensures ("has_nuts" !in d || "has_lactose" !in d) ==> r.Err? && r.error.MissingArgument?
    ensures "has_nuts" in d && "has_lactose" in d && NewBase(d).Err? ==> r == Err(NewBase(d).error)
  {
    var nutsCell :- Arg(d, "has_nuts");
    var lactoseCell :- Arg(d, "has_lactose");
    var base :- NewBase(d);
    var nuts :- Flag(nutsCell, "has_nuts");
    var lactose :- Flag(lactoseCell, "has_lactose");
    Ok((base, nuts, lactose))
  }

  /** The item a successful constructor returns: valid, described by its
      arguments, and of the constructor's holiday and category. */
  predicate Built(r: Result<Item, ItemError>, d: Details, h: Holiday, t: ItemType) {
    r.Ok? ==> Valid(r.value) && Describes(d, r.value) && HolidayOf(r.value) == h && TypeOf(r.value) == t
  }

  function NewSantaWorkshop(d: Details): (r: Result<Item, ItemError>)
    ensures Built(r, d, Christmas, ToyType) && (r.Ok? ==> r.value.line.toy.SantaWorkshop?)
  {
    var dimsCell :- Arg(d, "dimensions");
    var roomsCell :- Arg(d, "num_rooms");
    var (base, batteries, age) :- NewToy(d);
    if !IdShape(base.productId, Christmas, ToyType) then Err(BadValue("product_id"))
    else if batteries then Err(BadValue("has_batteries")) else
    var dims :- Str(dimsCell, "dimensions");
    if !DimensionsShape(dims) then Err(BadValue("dimensions")) else
    var rooms :- Int(roomsCell, "num_rooms");
    if rooms <= 0 then Err(BadValue("num_rooms"))
    else Ok(Item(base.productId, base.name, base.description, ToyLine(batteries, age, SantaWorkshop(dims, rooms))))
  }

  function NewRCSpider(d: Details): (r: Result<Item, ItemError>)
    ensures Built(r, d, Halloween, ToyType) && (r.Ok? ==> r.value.line.toy.RCSpider?)
  {
    var speedCell :- Arg(d, "speed");
    var jumpCell :- Arg(d, "jump_height");
    var glowCell :- Arg(d, "has_glow");
    var kindCell :- Arg(d, "spider_type");
    var (base, batteries, age) :- NewToy(d);
    if !IdShape(base.productId, Halloween, ToyType) then Err(BadValue("product_id"))
    else if !batteries then Err(BadValue("has_batteries")) else
    var speed :- Int(speedCell, "speed");
    if speed <= 0 then Err(BadValue("speed")) else
    var jump :- Int(jumpCell, "jump_height");
    if jump <= 0 then Err(BadValue("jump_height")) else
    var glow :- Flag(glowCell, "has_glow");
    var kind :- ParseEnum(kindCell, "spider_type", SpiderTypes, SpiderTypeName);
    Ok(Item(base.productId, base.name, base.description, ToyLine(batteries, age, RCSpider(speed, jump, glow, kind))))
  }

  function NewRobotBunny(d: Details): (r: Result<Item, ItemError>)
    ensures Built(r, d, Easter, ToyType) && (r.Ok? ==> r.value.line.toy.RobotBunny?)
  {
    var soundsCell :- Arg(d, "num_sound");
    var colourCell :- Arg(d, "colour");
    var (base, batteries, age) :- NewToy(d);
    if !IdShape(base.productId, Easter, ToyType) then Err(BadValue("product_id"))
    else if !batteries then Err(BadValue("has_batteries")) else
    var sounds :- Int(soundsCell, "num_sound");
    if sounds <= 0 then Err(BadValue("num_sound")) else
    var colour :- ParseEnum(colourCell, "colour", RobotBunnyColours, RobotBunnyColourName);
    Ok(Item(base.productId, base.name, base.description, ToyLine(batteries, age, RobotBunny(sounds, colour))))
  }

  function NewDancingSkeleton(d: Details): (r: Result<Item, ItemError>)
    ensures Built(r, d, Halloween, StuffedAnimalType) && (r.Ok? ==> r.value.line.animal.DancingSkeleton?)
  {
    var glowCell :- Arg(d, "has_glow");
    var (base, stuffing, size, fabric) :- NewStuffed(d);
    if !IdShape(base.productId, Halloween, StuffedAnimalType) then Err(BadValue("product_id"))
    else if stuffing != PolyesterFibrefill then Err(BadValue("stuffing"))
    else if fabric != Acrylic then Err(BadValue("fabric"))
    else if glowCell != Text("Y") then Err(BadValue("has_glow"))
    else Ok(Item(base.productId, base.name, base.description, StuffedLine(stuffing, size, fabric, DancingSkeleton(true))))
  }

  function NewReindeer(d: Details): (r: Result<Item, ItemError>)
    ensures Built(r, d, Christmas, StuffedAnimalType) && (r.Ok? ==> r.value.line.animal.Reindeer?)
  {
    var glowCell :- Arg(d, "has_glow");
    var (base, stuffing, size, fabric) :- NewStuffed(d);
    if !IdShape(base.productId, Christmas, StuffedAnimalType) then Err(BadValue("product_id"))
    else if stuffing != Wool then Err(BadValue("stuffing"))
    else if fabric != Cotton then Err(BadValue("fabric"))
    else if glowCell != Text("Y") then Err(BadValue("has_glow"))
    else Ok(Item(base.productId, base.name, base.description, StuffedLine(stuffing, size, fabric, Reindeer(true))))
  }

  function NewEasterBunny(d: Details): (r: Result<Item, ItemError>)
    ensures Built(r, d, Easter, StuffedAnimalType) && (r.Ok? ==> r.value.line.animal.EasterBunny?)
  {
    var colourCell :- Arg(d, "colour");
    var (base, stuffing, size, fabric) :- NewStuffed(d);
    if !IdShape(base.productId, Easter, StuffedAnimalType) then Err(BadValue("product_id"))
    else if stuffing != PolyesterFibrefill then Err(BadValue("stuffing"))
    else if fabric != Linen then Err(BadValue("fabric")) else
    var colour :- ParseEnum(colourCell, "colour", EasterBunnyColours, EasterBunnyColourName);
    Ok(Item(base.productId, base.name, base.description, StuffedLine(stuffing, size, fabric, EasterBunny(colour))))
  }

  function NewPumpkinCaramelToffee(d: Details): (r: Result<Item, ItemError>)
    ensures Built(r, d, Halloween, CandyType) && (r.Ok? ==> r.value.line.candy.PumpkinCaramelToffee?)
  {
    var varietyCell :- Arg(d, "variety");
    var (base, nuts, lactose) :- NewCandy(d);
    if !IdShape(base.productId, Halloween, CandyType) then Err(BadValue("product_id"))
    else if !nuts then Err(BadValue("has_nuts"))
    else if !lactose then Err(BadValue("has_lactose")) else
    var variety :- ParseEnum(varietyCell, "variety", ToffeeVarieties, ToffeeVarietyName);
    Ok(Item(base.productId, base.name, base.description, CandyLine(nuts, lactose, PumpkinCaramelToffee(variety))))
  }

  function NewCandyCanes(d: Details): (r: Result<Item, ItemError>)
    ensures Built(r, d, Christmas, CandyType) && (r.Ok? ==> r.value.line.candy.CandyCanes?)
  {
    var colourCell :- Arg(d, "colour");
    var (base, nuts, lactose) :- NewCandy(d);
    if !IdShape(base.productId, Christmas, CandyType) then Err(BadValue("product_id"))
    else if nuts then Err(BadValue("has_nuts"))
    else if lactose then Err(BadValue("has_lactose")) else
    var colour :- ParseEnum(colourCell, "colour", CandyCaneColours, CandyCaneColourName);
    Ok(Item(base.productId, base.name, base.description, CandyLine(nuts, lactose, CandyCanes(colour))))
  }

  function NewCremeEggs(d: Details): (r: Result<Item, ItemError>)
    ensures Built(r, d, Easter, CandyType) && (r.Ok? ==> r.value.line.candy.CremeEggs?)
  {
    var packCell :- Arg(d, "pack_size");
    var (base, nuts, lactose) :- NewCandy(d);
    if !IdShape(base.productId, Easter, CandyType) then Err(BadValue("product_id"))
    else if !nuts then Err(BadValue("has_nuts"))
    else if !lactose then Err(BadValue("has_lactose")) else
    var pack :- Int(packCell, "pack_size");
    if pack <= 0 then Err(BadValue("pack_size"))
    else Ok(Item(base.productId, base.name, base.description, CandyLine(nuts, lactose, CremeEggs(pack))))
  }
}
