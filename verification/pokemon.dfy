/** The Pokedex records built from the web service's JSON: abilities, items,
    stats, moves and pokemon. The JSON objects are typed records holding the
    fields the constructors read. */
module Pokemon {
  import opened Wrappers

  /** One entry of `effect_entries`. */
  datatype EffectEntry = EffectEntry(effect: string, shortEffect: string, language: string)

  /** A `{name, url}` object that may also be null or empty. */
  datatype NamedRef = Null | EmptyObject | Named(name: string, url: string)

  predicate English(e: EffectEntry) {
    e.language == "en"
  }

  /** Entry `i` is English and no later entry is. */
  ghost predicate LastEnglishAt(entries: seq<EffectEntry>, i: int) {
    && 0 <= i < |entries| && English(entries[i])
    && forall j :: i < j < |entries| ==> !English(entries[j])
  }

  /** The last English entry: the `for` loop over the entries assigns on
      every English one, so the last assignment wins. */
  function LastEnglish(entries: seq<EffectEntry>): (r: Option<EffectEntry>)
    ensures r.None? <==> forall i :: 0 <= i < |entries| ==> !English(entries[i])
    ensures r.Some? ==> exists i :: LastEnglishAt(entries, i) && entries[i] == r.value
    decreases |entries|
  {
    if |entries| == 0 then None
    else
      var n := |entries| - 1;
      if English(entries[n]) then
        assert LastEnglishAt(entries, n);
        Some(entries[n])
      else
        var front := entries[..n];
        var r := LastEnglish(front);
        assert forall i :: 0 <= i < n ==> front[i] == entries[i];
        if r.Some? then
          assert exists i :: LastEnglishAt(entries, i) && entries[i] == r.value by {
            var i :| LastEnglishAt(front, i) && front[i] == r.value;
            assert LastEnglishAt(entries, i);
          }
          r
        else r
  }

  /** The loop itself: walk the entries forward, keeping the latest English
      one. */
  method ScanEffects(entries: seq<EffectEntry>) returns (found: Option<EffectEntry>)
    ensures found == LastEnglish(entries)
  {
    found := None;
    var i := 0;
    while i < |entries|
      invariant i <= |entries|
      invariant found == LastEnglish(entries[..i])
    {
      assert entries[..i + 1] == entries[..i] + [entries[i]];
      LastEnglishSnoc(entries[..i], entries[i]);
      if English(entries[i]) {
        found := Some(entries[i]);
      }
      i := i + 1;
    }
    assert entries[..|entries|] == entries;
  }

  /** One more entry at the end is the new last English entry when it is
      English, and changes nothing otherwise. */
  lemma LastEnglishSnoc(xs: seq<EffectEntry>, e: EffectEntry)
    ensures LastEnglish(xs + [e]) == if English(e) then Some(e) else LastEnglish(xs)
  {
    assert (xs + [e])[..|xs|] == xs;
  }

  function EffectOf(e: Option<EffectEntry>): Option<string> {
    if e.Some? then Some(e.value.effect) else None
  }

  function ShortEffectOf(e: Option<EffectEntry>): Option<string> {
    if e.Some? then Some(e.value.shortEffect) else None
  }

  // ----- Ability -----

  /** One entry of an ability's `pokemon` list. */
  datatype AbilityHolder = AbilityHolder(isHidden: bool, slot: int, pokemon: NamedRef)

  /** An effect left unset by the source (no English entry) is None. */
  datatype Ability = Ability(
    name: string, id: int, generation: string,
    effect: Option<string>, shortEffect: Option<string>, pokemon: seq<string>)

  /** The names of the holders, in input order; every holder names its
      pokemon. */
  function HolderNames(holders: seq<AbilityHolder>): (r: seq<string>)
    requires forall i :: 0 <= i < |holders| ==> holders[i].pokemon.Named?
    ensures |r| == |holders|
    ensures forall i :: 0 <= i < |holders| ==> r[i] == holders[i].pokemon.name
  {
    seq(|holders|, i requires 0 <= i < |holders| => holders[i].pokemon.name)
  }

  /** `PokemonAbility.__init__`: both effects come from the same, last,
      English entry. */
  function NewAbility(name: string, id: int, generation: string, effects: seq<EffectEntry>,
                      holders: seq<AbilityHolder>): (r: Ability)
    requires forall i :: 0 <= i < |holders| ==> holders[i].pokemon.Named?
    ensures r.name == name && r.id == id && r.generation == generation
    ensures r.effect.Some? <==> exists i :: 0 <= i < |effects| && English(effects[i])
    ensures r.effect.Some? <==> r.shortEffect.Some?
    ensures r.effect.Some? ==> exists e :: e in effects && English(e)
                                           && r.effect == Some(e.effect) && r.shortEffect == Some(e.shortEffect)
    ensures r.effect == EffectOf(LastEnglish(effects)) && r.shortEffect == ShortEffectOf(LastEnglish(effects))
    ensures |r.pokemon| == |holders|
    ensures forall i :: 0 <= i < |holders| ==> r.pokemon[i] == holders[i].pokemon.name
  {
    var e := LastEnglish(effects);
    Ability(name, id, generation, EffectOf(e), ShortEffectOf(e), HolderNames(holders))
  }

  // ----- Item -----

  datatype Item = Item(id: int, name: string, cost: int, flingPower: int, shortEffect: Option<string>)

  /** `PokemonItem.__init__`. */
  function NewItem(id: int, name: string, cost: int, flingPower: int, effects: seq<EffectEntry>): (r: Item)
    ensures r.id == id && r.name == name && r.cost == cost && r.flingPower == flingPower
    ensures r.shortEffect == ShortEffectOf(LastEnglish(effects))
    ensures r.shortEffect.None? <==> forall i :: 0 <= i < |effects| ==> !English(effects[i])
  {
    Item(id, name, cost, flingPower, ShortEffectOf(LastEnglish(effects)))
  }

  // ----- Stat -----

  datatype Stat = Stat(name: string, id: int, isBattleOnly: bool, moveDamageClass: Option<string>)

  /** `PokemonStat.__init__`: the damage class is the object's name, or None
      when the object is falsy (null or empty). */
  function NewStat(name: string, id: int, isBattleOnly: bool, damageClass: NamedRef): (r: Stat)
    ensures r.name == name && r.id == id && r.isBattleOnly == isBattleOnly
    ensures r.moveDamageClass.Some? <==> damageClass.Named?
    ensures damageClass.Named? ==> r.moveDamageClass == Some(damageClass.name)
  {
    Stat(name, id, isBattleOnly, if damageClass.Named? then Some(damageClass.name) else None)
  }

  // ----- Move -----

  datatype Move = Move(
    name: string, id: int, generation: string, accuracy: int, pp: int, power: int,
    moveType: string, damageClass: string, shortEffect: Option<string>)

  /** `PokemonMove.__init__`. */
  function NewMove(name: string, id: int, generation: string, accuracy: int, pp: int, power: int,
                   moveType: string, damageClass: string, effects: seq<EffectEntry>): (r: Move)
    ensures r.name == name && r.id == id && r.generation == generation && r.moveType == moveType
    ensures r.accuracy == accuracy && r.pp == pp && r.power == power && r.damageClass == damageClass
    ensures r.shortEffect == ShortEffectOf(LastEnglish(effects))
  {
    Move(name, id, generation, accuracy, pp, power, moveType, damageClass, ShortEffectOf(LastEnglish(effects)))
  }

  // ----- Pokemon -----

  /** The input list entries `Pokemon.__init__` reads. */
  datatype TypeSlot = TypeSlot(slot: int, typeName: string)
  datatype StatSlot = StatSlot(baseStat: int, effort: int, statName: string)
  datatype AbilitySlot = AbilitySlot(abilityName: string, isHidden: bool, slot: int)
  datatype MoveSlot = MoveSlot(moveName: string, levels: seq<int>)

  /** A stat or move of a pokemon: the (name, value) pair built from the
      JSON, or the full record an expanded query puts in its place. */
  datatype StatField = StatPair(statName: string, baseStat: int) | StatRecord(stat: Stat)
  datatype MoveField = MovePair(moveName: string, level: int) | MoveRecord(move: Move)

  datatype Pokemon = Pokemon(
    name: string, id: int, height: int, weight: int,
    types: seq<string>, stats: seq<StatField>, abilities: seq<string>, moves: seq<MoveField>)

  /** The IndexError of a move without version-group details. */
  datatype PokemonError = NoVersionDetails

  /** `Pokemon.__init__`: types, (stat, base value) pairs, ability names and
      (move, level of the first version-group detail) pairs, each in input
      order. A move with no version-group details raises. */
  function NewPokemon(name: string, id: int, height: int, weight: int, stats: seq<StatSlot>,
                      types: seq<TypeSlot>, abilities: seq<AbilitySlot>, moves: seq<MoveSlot>)
    : (r: Result<Pokemon, PokemonError>)
    ensures r.Ok? <==> forall i :: 0 <= i < |moves| ==> |moves[i].levels| > 0
    ensures r.Ok? ==> && r.value.name == name && r.value.id == id
                      && r.value.height == height && r.value.weight == weight
    ensures r.Ok? ==> && |r.value.types| == |types|
                      && forall i :: 0 <= i < |types| ==> r.value.types[i] == types[i].typeName
    ensures r.Ok? ==> && |r.value.stats| == |stats|
                      && forall i :: 0 <= i < |stats| ==>
                           r.value.stats[i] == StatPair(stats[i].statName, stats[i].baseStat)
    ensures r.Ok? ==> && |r.value.abilities| == |abilities|
                      && forall i :: 0 <= i < |abilities| ==> r.value.abilities[i] == abilities[i].abilityName
    ensures r.Ok? ==> && |r.value.moves| == |moves|
                      && forall i :: 0 <= i < |moves| ==>
                           r.value.moves[i] == MovePair(moves[i].moveName, moves[i].levels[0])
  {
    if exists i :: 0 <= i < |moves| && |moves[i].levels| == 0 then
      Err(NoVersionDetails)
    else
      Ok(Pokemon(name, id, height, weight,
        seq(|types|, i requires 0 <= i < |types| => types[i].typeName),
        seq(|stats|, i requires 0 <= i < |stats| => StatPair(stats[i].statName, stats[i].baseStat)),
        seq(|abilities|, i requires 0 <= i < |abilities| => abilities[i].abilityName),
        seq(|moves|, i requires 0 <= i < |moves| && |moves[i].levels| > 0 =>
          MovePair(moves[i].moveName, moves[i].levels[0]))))
  }

  function StatFieldName(f: StatField): string {
    match f
    case StatPair(n, _) => n
    case StatRecord(s) => s.name
  }

  function MoveFieldName(f: MoveField): string {
    match f
    case MovePair(n, _) => n
    case MoveRecord(m) => m.name
  }

  /** `stat_names`: one name per stat, in order, from a pair or a record. */
  function StatNames(p: Pokemon): (r: seq<string>)
    ensures |r| == |p.stats|
    ensures forall i :: 0 <= i < |p.stats| ==> r[i] == StatFieldName(p.stats[i])
  {
    seq(|p.stats|, i requires 0 <= i < |p.stats| => StatFieldName(p.stats[i]))
  }

  /** `move_names`: one name per move, in order, from a pair or a record. */
  function MoveNames(p: Pokemon): (r: seq<string>)
    ensures |r| == |p.moves|
    ensures forall i :: 0 <= i < |p.moves| ==> r[i] == MoveFieldName(p.moves[i])
  {
    seq(|p.moves|, i requires 0 <= i < |p.moves| => MoveFieldName(p.moves[i]))
  }

  /** Expanding a pair into the record of the same name leaves the names
      unchanged. */
  lemma ExpansionKeepsNames(p: Pokemon, i: nat, s: Stat, j: nat, m: Move)
    requires i < |p.stats| && s.name == StatFieldName(p.stats[i])
    requires j < |p.moves| && m.name == MoveFieldName(p.moves[j])
    ensures StatNames(p.(stats := p.stats[i := StatRecord(s)])) == StatNames(p)
    ensures MoveNames(p.(moves := p.moves[j := MoveRecord(m)])) == MoveNames(p)
  {
  }

  /** On a freshly built pokemon the names are the input's names. */
  lemma BuiltNames(name: string, id: int, height: int, weight: int, stats: seq<StatSlot>,
                   types: seq<TypeSlot>, abilities: seq<AbilitySlot>, moves: seq<MoveSlot>)
    requires NewPokemon(name, id, height, weight, stats, types, abilities, moves).Ok?
    ensures var p := NewPokemon(name, id, height, weight, stats, types, abilities, moves).value;
            && (forall i :: 0 <= i < |stats| ==> StatNames(p)[i] == stats[i].statName)
            && (forall i :: 0 <= i < |moves| ==> MoveNames(p)[i] == moves[i].moveName)
  {
  }
}
