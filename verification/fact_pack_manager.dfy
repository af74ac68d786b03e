/** Which fact pack is selected, which packs can be chosen, and the display data for each. */
module FactPackManager {
  import opened Seqs

  /** The published state of the manager. */
  datatype PackState = PackState(currentFactPack: string, availableFactPacks: seq<string>, isLoading: bool)

  /** The pack list the manager starts with and that discovery reports. */
  const BuiltInPacks: seq<string> := ["f1.json", "f2.json"]

  /** The manager as constructed. */
  const Initial: PackState := PackState("f1.json", BuiltInPacks, false)

  /** The selected pack is always one of the available ones, and those are the built-in list. */
  predicate Valid(s: PackState) {
    s.availableFactPacks == BuiltInPacks && s.currentFactPack in s.availableFactPacks
  }

  /** The first half of `switchToFactPack`: an unavailable name is refused at once (the
      completion gets false and nothing changes); an available one becomes current straight
      away and loading begins. */
  datatype SwitchStart = Refused | Loading(state: PackState)

  function SwitchToFactPack(s: PackState, name: string): (r: SwitchStart)
    ensures r.Refused? <==> name !in s.availableFactPacks
    ensures r.Loading? ==>
      && r.state.currentFactPack == name
      && r.state.isLoading
      && r.state.availableFactPacks == s.availableFactPacks
  {
    if name !in s.availableFactPacks then Refused
    else Loading(s.(isLoading := true, currentFactPack := name))
  }

  /** The second half: the pack load finished; loading stops, the selection stays, and the
      completion receives the load's own success flag, returned here. */
  function LoadFinished(s: PackState, loadOk: bool): (r: (PackState, bool))
    ensures !r.0.isLoading
    ensures r.0.currentFactPack == s.currentFactPack && r.0.availableFactPacks == s.availableFactPacks
    ensures r.1 == loadOk
  {
    (s.(isLoading := false), loadOk)
  }

  /** `discoverFactPacks`: the available list becomes the built-in list, which is also what
      the completion receives. */
  function DiscoverFactPacks(s: PackState): (r: (PackState, seq<string>))
    ensures r.0.availableFactPacks == BuiltInPacks && r.1 == BuiltInPacks
    ensures r.0.currentFactPack == s.currentFactPack && r.0.isLoading == s.isLoading
  {
    (s.(availableFactPacks := BuiltInPacks), BuiltInPacks)
  }

  /** `getCurrentFactPackName`. */
  function CurrentFactPackName(s: PackState): (name: string)
    ensures Valid(s) ==> name in BuiltInPacks
    ensures name == s.currentFactPack
  {
    s.currentFactPack
  }

  /** `getAvailableFactPacks`. */
  function AvailableFactPacks(s: PackState): (packs: seq<string>)
    ensures Valid(s) ==> packs == BuiltInPacks && s.currentFactPack in packs
    ensures packs == s.availableFactPacks
  {
    s.availableFactPacks
  }

  /** The initial state is valid, and every operation keeps it valid. */
  lemma ValidPreserved(s: PackState, name: string, loadOk: bool)
    ensures Valid(Initial)
    ensures Valid(s) && SwitchToFactPack(s, name).Loading? ==> Valid(SwitchToFactPack(s, name).state)
    ensures Valid(s) ==> Valid(LoadFinished(s, loadOk).0)
    ensures Valid(s) ==> Valid(DiscoverFactPacks(s).0)
  {
  }

  /** Display data for a pack. */
  datatype FactPackInfo = FactPackInfo(name: string, description: string, factCount: int, category: string)

  /** `getFactPackInfo`: the two built-in packs have fixed names and categories; any other
      name is shown as itself in the "Custom" category. The count is always 0 here. */
  function GetFactPackInfo(factPackName: string): (r: FactPackInfo)
    ensures r.factCount == 0
    ensures factPackName == "f1.json" ==>
      r.name == "Main Facts" && r.category == "General" && r.description == "Primary fact collection with diverse topics"
    ensures factPackName == "f2.json" ==>
      r.name == "Test Facts" && r.category == "Test" && r.description == "Test fact pack for development"
    ensures factPackName !in BuiltInPacks ==>
      r.name == factPackName && r.category == "Custom" && r.description == "Custom fact pack"
  {
    match factPackName
    case "f1.json" => FactPackInfo("Main Facts", "Primary fact collection with diverse topics", 0, "General")
    case "f2.json" => FactPackInfo("Test Facts", "Test fact pack for development", 0, "Test")
    case _ => FactPackInfo(factPackName, "Custom fact pack", 0, "Custom")
  }
}
