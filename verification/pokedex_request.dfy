/** The Pokedex request: query mode, input and output file names, and the
    modes the command line offers. */
module PokedexRequest {
  import opened Wrappers

  datatype QueryMode = PokemonMode | AbilityMode | MoveMode | ItemMode | StatMode

  datatype Request = Request(
    queryMode: QueryMode,
    inputfile: Option<string>,
    inputdata: Option<string>,
    expanded: bool,
    output: Option<string>)

  datatype RequestError = BadInputFile | BadOutput | UnknownMode(mode: string)

  /** `QueryMode(value)`: the five enum values. */
  function ParseMode(s: string): (r: Option<QueryMode>)
    ensures r.Some? <==> s in {"pokemon", "ability", "move", "item", "stat"}
  {
    if s == "pokemon" then Some(PokemonMode)
    else if s == "ability" then Some(AbilityMode)
    else if s == "move" then Some(MoveMode)
    else if s == "item" then Some(ItemMode)
    else if s == "stat" then Some(StatMode)
    else None
  }

  function ModeName(m: QueryMode): string {
    match m
    case PokemonMode => "pokemon"
    case AbilityMode => "ability"
    case MoveMode => "move"
    case ItemMode => "item"
    case StatMode => "stat"
  }

  /** Parsing a mode's value gives the mode back. */
  lemma ModeRoundTrip(m: QueryMode)
    ensures ParseMode(ModeName(m)) == Some(m)
  {
  }

  /** `re.match(r'.+\.txt', s)` succeeds with the dot of ".txt" at index
      `j`: at least one character before it and no newline among them, since
      `.` does not match a newline. What follows ".txt" is not looked at. */
  predicate TxtMatchAt(s: string, j: int) {
    && 1 <= j && j + 4 <= |s| && s[j..j + 4] == ".txt"
    && forall k :: 0 <= k < j ==> s[k] != '\n'
  }

  /** The regular expression matches at the start of `s`. */
  ghost predicate TxtMatch(s: string) {
    exists j :: TxtMatchAt(s, j)
  }

  /** The matcher: try every position of ".txt" from `i` on, giving up at
      the first newline. */
  function ScanTxt(s: string, i: nat): (r: bool)
    requires 1 <= i <= |s| + 1
    requires forall k :: 0 <= k < i - 1 ==> s[k] != '\n'
    ensures r <==> exists j :: i <= j && TxtMatchAt(s, j)
    decreases |s| - i
  {
    if i + 4 > |s| then false
    else if s[i - 1] == '\n' then
      assert forall j :: i <= j && TxtMatchAt(s, j) ==> s[i - 1] != '\n';
      false
    else if s[i..i + 4] == ".txt" then
      assert TxtMatchAt(s, i);
      true
    else ScanTxt(s, i + 1)
  }

  /** The matcher decides the regular expression. */
  function MatchTxt(s: string): (r: bool)
    ensures r <==> TxtMatch(s)
  {
    ScanTxt(s, 1)
  }

  /** The match is a prefix match: "a.txt.bak" passes, while ".txt" (nothing
      before the dot) and a name with a newline before ".txt" fail. */
  lemma TxtExamples()
    ensures MatchTxt("a.txt") && MatchTxt("a.txt.bak")
    ensures !MatchTxt(".txt") && !MatchTxt("a\n.txt") && !MatchTxt("a.tx")
  {
    assert TxtMatchAt("a.txt", 1);
    assert "a.txt.bak"[1..5] == ".txt";
    assert TxtMatchAt("a.txt.bak", 1);
    var t := "a\n.txt";
    assert t[1] == '\n' && t[1..5][0] == '\n';
  }

  /** Python truthiness of an optional name. */
  predicate Given(s: Option<string>) {
    s.Some? && s.value != ""
  }

  /** `Request.__init__`: a given input file name is checked first, then a
      given output name, then the query mode is parsed. */
  function NewRequest(mode: string, inputfile: Option<string>, inputdata: Option<string>,
                      expanded: bool, output: Option<string>): (r: Result<Request, RequestError>)
    ensures r.Ok? <==> && (Given(inputfile) ==> TxtMatch(inputfile.value))
                       && (Given(output) ==> TxtMatch(output.value))
                       && ParseMode(mode).Some?
    ensures Given(inputfile) && !TxtMatch(inputfile.value) ==> r == Err(BadInputFile)
    ensures (Given(inputfile) ==> TxtMatch(inputfile.value)) && Given(output) && !TxtMatch(output.value) ==>
              r == Err(BadOutput)
    ensures r.Ok? ==> r.value == Request(ParseMode(mode).value, inputfile, inputdata, expanded, output)
  {
    if Given(inputfile) && !MatchTxt(inputfile.value) then Err(BadInputFile)
    else if Given(output) && !MatchTxt(output.value) then Err(BadOutput)
    else match ParseMode(mode)
      case None => Err(UnknownMode(mode))
      case Some(m) => Ok(Request(m, inputfile, inputdata, expanded, output))
  }

  /** `CommandLineParser.SUPPORTED_MODES`. */
  const SupportedModes: seq<QueryMode> := [PokemonMode, AbilityMode, MoveMode, ItemMode]

  /** The command line offers every mode but stat, each once. */
  lemma SupportedModesExcludeStat(m: QueryMode)
    ensures m in SupportedModes <==> m != StatMode
    ensures |SupportedModes| == 4
    ensures forall i, j :: 0 <= i < j < |SupportedModes| ==> SupportedModes[i] != SupportedModes[j]
  {
  }
}
