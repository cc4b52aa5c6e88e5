/** Menus numbered from an enum: the members, in declaration order, are
    given the choices 1, 2, 3, ... */
module EnumMenu {
  import opened Wrappers

  /** `OutputMode` and `RequestMode`, in declaration order. */
  datatype OutputMode = TextFile | Console
  datatype RequestMode = Starships | Planets

  const OutputModes: seq<OutputMode> := [TextFile, Console]
  const RequestModes: seq<RequestMode> := [Starships, Planets]

  function OutputLabel(m: OutputMode): string {
    match m
    case TextFile => "Text File"
    case Console => "Console"
  }

  function RequestLabel(m: RequestMode): string {
    match m
    case Starships => "starships"
    case Planets => "planets"
  }

  /** The map as a menu should read: the keys are exactly 1..n and key `i`
      names the i-th member. */
  ghost predicate Numbers<T>(menu: map<int, T>, members: seq<T>) {
    && (forall k :: k in menu <==> 1 <= k <= |members|)
    && (forall k :: 1 <= k <= |members| ==> menu[k] == members[k - 1])
  }

  /** `generate_enum_menu_map`: walk the members with a counter from 1,
      storing each member under the current counter. */
  method GenerateMenuMap<T>(members: seq<T>) returns (menu: map<int, T>)
    ensures Numbers(menu, members)
  {
    menu := map[];
    var menuId := 1;
    var i := 0;
    while i < |members|
      invariant i <= |members| && menuId == i + 1
      invariant forall k :: k in menu <==> 1 <= k <= i
      invariant forall k :: 1 <= k <= i ==> menu[k] == members[k - 1]
    {
      menu := menu[menuId := members[i]];
      menuId := menuId + 1;
      i := i + 1;
    }
  }

  /** Choosing from the menu: a number that is not a key is the source's
      "Invalid choice". */
  function Choose<T>(menu: map<int, T>, choice: int): (r: Option<T>)
    ensures r.Some? <==> choice in menu
  {
    if choice in menu then Some(menu[choice]) else None
  }

  /** A numbering of distinct members is a bijection between 1..n and the
      members: every member has a key, and different keys name different
      members. */
  lemma NumberingIsBijection<T>(menu: map<int, T>, members: seq<T>)
    requires Numbers(menu, members)
    requires forall i, j :: 0 <= i < j < |members| ==> members[i] != members[j]
    ensures forall i :: 0 <= i < |members| ==> Choose(menu, i + 1) == Some(members[i])
    ensures forall k1, k2 :: k1 in menu && k2 in menu && k1 != k2 ==> menu[k1] != menu[k2]
    ensures forall m :: m in members <==> exists k :: k in menu && menu[k] == m
  {
    forall m | m in members
      ensures exists k :: k in menu && menu[k] == m
    {
      var i :| 0 <= i < |members| && members[i] == m;
      assert menu[i + 1] == m;
    }
    forall k1, k2 | k1 in menu && k2 in menu && k1 != k2
      ensures menu[k1] != menu[k2]
    {
      assert menu[k1] == members[k1 - 1] && menu[k2] == members[k2 - 1];
    }
  }

  /** Two numberings of the same members are the same map. */
  lemma NumberingUnique<T>(m1: map<int, T>, m2: map<int, T>, members: seq<T>)
    requires Numbers(m1, members) && Numbers(m2, members)
    ensures m1 == m2
  {
    assert forall k :: k in m1.Keys <==> k in m2.Keys;
    assert m1.Keys == m2.Keys;
    assert forall k :: k in m1 ==> m1[k] == m2[k];
  }

  /** The driver's two menus: 1 is "Text File" and 2 "Console"; 1 is
      "starships" and 2 "planets". */
  lemma DriverMenus(output: map<int, OutputMode>, query: map<int, RequestMode>)
    requires Numbers(output, OutputModes) && Numbers(query, RequestModes)
    ensures output == map[1 := TextFile, 2 := Console]
    ensures query == map[1 := Starships, 2 := Planets]
    ensures OutputLabel(output[1]) == "Text File" && OutputLabel(output[2]) == "Console"
    ensures RequestLabel(query[1]) == "starships" && RequestLabel(query[2]) == "planets"
    ensures Choose(output, 3).None? && Choose(query, 0).None?
  {
    NumberingUnique(output, map[1 := TextFile, 2 := Console], OutputModes);
    NumberingUnique(query, map[1 := Starships, 2 := Planets], RequestModes);
  }
}
