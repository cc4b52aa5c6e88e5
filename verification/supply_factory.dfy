/** The three holiday factories: each builds one toy, one stuffed animal
    and one candy product, and the factory of a holiday is chosen by name. */
module SupplyFactory {
  import opened Wrappers
  import opened Text
  import opened SupplyItems

  /** `create_toy`, `create_stuffed_animal` and `create_candy` of the
      holiday's factory. */
  function Create(h: Holiday, t: ItemType, d: Details): (r: Result<Item, ItemError>)
    ensures r.Ok? ==> Valid(r.value) && Describes(d, r.value)
    ensures r.Ok? ==> HolidayOf(r.value) == h && TypeOf(r.value) == t
    ensures r.Ok? ==> IdShape(r.value.productId, h, t)
  {
    match (h, t)
    case (Christmas, ToyType) => NewSantaWorkshop(d)
    case (Christmas, StuffedAnimalType) => NewReindeer(d)
    case (Christmas, CandyType) => NewCandyCanes(d)
    case (Halloween, ToyType) => NewRCSpider(d)
    case (Halloween, StuffedAnimalType) => NewDancingSkeleton(d)
    case (Halloween, CandyType) => NewPumpkinCaramelToffee(d)
    case (Easter, ToyType) => NewRobotBunny(d)
    case (Easter, StuffedAnimalType) => NewEasterBunny(d)
    case (Easter, CandyType) => NewCremeEggs(d)
  }

  /** `OrderProcessor.factory_map`: the three holiday names; any other
      value is a KeyError and the row is skipped. */
  function FactoryFor(c: Cell): (r: Option<Holiday>)
    ensures r.Some? <==> c in {Text("Christmas"), Text("Halloween"), Text("Easter")}
    ensures c == Text("Christmas") ==> r == Some(Christmas)
    ensures c == Text("Halloween") ==> r == Some(Halloween)
    ensures c == Text("Easter") ==> r == Some(Easter)
  {
    if c == Text("Christmas") then Some(Christmas)
    else if c == Text("Halloween") then Some(Halloween)
    else if c == Text("Easter") then Some(Easter)
    else None
  }

  /** Each factory makes its own three products. */
  lemma FactoryProducts(d: Details)
    ensures Create(Christmas, ToyType, d) == NewSantaWorkshop(d)
    ensures Create(Christmas, CandyType, d) == NewCandyCanes(d)
    ensures Create(Christmas, StuffedAnimalType, d) == NewReindeer(d)
    ensures Create(Halloween, ToyType, d) == NewRCSpider(d)
    ensures Create(Halloween, CandyType, d) == NewPumpkinCaramelToffee(d)
    ensures Create(Halloween, StuffedAnimalType, d) == NewDancingSkeleton(d)
    ensures Create(Easter, ToyType, d) == NewRobotBunny(d)
    ensures Create(Easter, CandyType, d) == NewCremeEggs(d)
    ensures Create(Easter, StuffedAnimalType, d) == NewEasterBunny(d)
  {
  }

  lemma IntCellReads(c: Cell, n: int, field: string)
    requires IntCell(c, n)
    ensures Int(c, field) == Ok(n)
  {
  }

  lemma FlagCellReads(b: bool, field: string)
    ensures Flag(FlagCell(b), field) == Ok(b)
  {
  }

  lemma BaseComplete(i: Item, d: Details)
    requires Valid(i) && Describes(d, i)
    ensures NewBase(d) == Ok(Base(i.productId, i.name, i.description))
  {
  }

  lemma ToyComplete(i: Item, d: Details)
    requires Valid(i) && Describes(d, i) && i.line.ToyLine?
    ensures NewToy(d) == Ok((Base(i.productId, i.name, i.description), i.line.hasBatteries, i.line.minAge))
  {
    BaseComplete(i, d);
    IntCellReads(d["min_age"], i.line.minAge, "min_age");
    FlagCellReads(i.line.hasBatteries, "has_batteries");
  }

  lemma StuffedComplete(i: Item, d: Details)
    requires Valid(i) && Describes(d, i) && i.line.StuffedLine?
    ensures NewStuffed(d) == Ok((Base(i.productId, i.name, i.description), i.line.stuffing, i.line.size, i.line.fabric))
  {
    BaseComplete(i, d);
    ParseEnumRoundTrip(i.line.stuffing, "stuffing", Stuffings, StuffingName);
    ParseEnumRoundTrip(i.line.size, "size", Sizes, SizeName);
    ParseEnumRoundTrip(i.line.fabric, "fabric", Fabrics, FabricName);
  }

  lemma CandyComplete(i: Item, d: Details)
    requires Valid(i) && Describes(d, i) && i.line.CandyLine?
    ensures NewCandy(d) == Ok((Base(i.productId, i.name, i.description), i.line.hasNuts, i.line.hasLactose))
  {
    BaseComplete(i, d);
    FlagCellReads(i.line.hasNuts, "has_nuts");
    FlagCellReads(i.line.hasLactose, "has_lactose");
  }

  lemma ToyProductComplete(i: Item, d: Details)
    requires Valid(i) && Describes(d, i) && i.line.ToyLine?
    ensures Create(HolidayOf(i), TypeOf(i), d) == Ok(i)
  {
    ToyComplete(i, d);
    match i.line.toy
    case SantaWorkshop(_, rooms) =>
      IntCellReads(d["num_rooms"], rooms, "num_rooms");
    case RCSpider(speed, jump, glow, kind) =>
      IntCellReads(d["speed"], speed, "speed");
      IntCellReads(d["jump_height"], jump, "jump_height");
      FlagCellReads(glow, "has_glow");
      ParseEnumRoundTrip(kind, "spider_type", SpiderTypes, SpiderTypeName);
    case RobotBunny(sounds, colour) =>
      IntCellReads(d["num_sound"], sounds, "num_sound");
      ParseEnumRoundTrip(colour, "colour", RobotBunnyColours, RobotBunnyColourName);
  }

  lemma StuffedProductComplete(i: Item, d: Details)
    requires Valid(i) && Describes(d, i) && i.line.StuffedLine?
    ensures Create(HolidayOf(i), TypeOf(i), d) == Ok(i)
  {
    StuffedComplete(i, d);
    match i.line.animal
    case DancingSkeleton(_) =>
    case Reindeer(_) =>
    case EasterBunny(colour) =>
      ParseEnumRoundTrip(colour, "colour", EasterBunnyColours, EasterBunnyColourName);
  }

  lemma CandyProductComplete(i: Item, d: Details)
    requires Valid(i) && Describes(d, i) && i.line.CandyLine?
    ensures Create(HolidayOf(i), TypeOf(i), d) == Ok(i)
  {
    CandyComplete(i, d);
    match i.line.candy
    case PumpkinCaramelToffee(variety) =>
      ParseEnumRoundTrip(variety, "variety", ToffeeVarieties, ToffeeVarietyName);
    case CandyCanes(colour) =>
      ParseEnumRoundTrip(colour, "colour", CandyCaneColours, CandyCaneColourName);
    case CremeEggs(pack) =>
      IntCellReads(d["pack_size"], pack, "pack_size");
  }

  /** Validation accepts every valid item: arguments that describe a valid
      item make its factory method return exactly that item. Together with
      the contract of `Create`, the constructors accept precisely the
      arguments that describe valid items. */
  lemma CreateComplete(i: Item, d: Details)
    requires Valid(i) && Describes(d, i)
    ensures Create(HolidayOf(i), TypeOf(i), d) == Ok(i)
  {
    match i.line
    case ToyLine(_, _, _) => ToyProductComplete(i, d);
    case StuffedLine(_, _, _, _) => StuffedProductComplete(i, d);
    case CandyLine(_, _, _) => CandyProductComplete(i, d);
  }

  /** A factory never builds an item of another holiday's id: the id names
      the factory's holiday and the requested category. */
  lemma CreatedIdNamesFactory(h: Holiday, t: ItemType, d: Details)
    requires Create(h, t, d).Ok?
    ensures var id := Create(h, t, d).value.productId;
      && id[0] == HolidayLetter(h) && id[5] == TypeLetter(t)
      && forall h', t' :: IdShape(id, h', t') ==> h' == h && t' == t
  {
  }

  /** The keyword parameters of a product's constructor chain. */
  function Params(h: Holiday, t: ItemType): set<string> {
    {"product_id", "name", "description"} +
    match (h, t)
    case (Christmas, ToyType) => {"has_batteries", "min_age", "dimensions", "num_rooms"}
    case (Halloween, ToyType) => {"has_batteries", "min_age", "speed", "jump_height", "has_glow", "spider_type"}
    case (Easter, ToyType) => {"has_batteries", "min_age", "num_sound", "colour"}
    case (Christmas, StuffedAnimalType) => {"stuffing", "fabric", "size", "has_glow"}
    case (Halloween, StuffedAnimalType) => {"stuffing", "fabric", "size", "has_glow"}
    case (Easter, StuffedAnimalType) => {"stuffing", "fabric", "size", "colour"}
    case (Christmas, CandyType) => {"has_nuts", "has_lactose", "colour"}
    case (Halloween, CandyType) => {"has_nuts", "has_lactose", "variety"}
    case (Easter, CandyType) => {"has_nuts", "has_lactose", "pack_size"}
  }

  /** Base fields are checked before anything product-specific: with every
      keyword present, an empty product id is reported as such whichever
      factory runs. */
  lemma BaseCheckedFirst(h: Holiday, t: ItemType, d: Details)
    requires Params(h, t) <= d.Keys
    requires d["product_id"] == Text("")
    ensures Create(h, t, d) == Err(BadValue("product_id"))
  {
  }
}
