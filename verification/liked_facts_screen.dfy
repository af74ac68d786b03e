/** The liked-facts screen: every liked fact, optionally narrowed to one fact pack.

    Whether a fact is liked comes from the manager's `isFactLiked`, and the facts themselves
    from its `loadAllFactsForProfile`; the app calls both but defines neither. They are the
    parameter `isLiked` and the input `allFacts` here. */
module LikedFactsScreen {
  import opened Wrappers
  import opened Seqs
  import opened Decimal
  import opened FactModel
  import opened FactPackManager

  datatype LikedView = LikedView(
    allLikedFacts: seq<Fact>,
    filteredLikedFacts: seq<Fact>,
    availableFactPacks: seq<string>,
    selectedFactPack: Option<string>,
    filterTitle: string)

  /** The liked facts among those loaded, in loaded order. */
  function LikedAmong(allFacts: seq<Fact>, isLiked: string -> bool): (r: seq<Fact>)
    ensures IsSubseq(r, allFacts)
    ensures forall f :: multiset(r)[f] == if isLiked(f.id) then multiset(allFacts)[f] else 0
  {
    Filter(allFacts, (f: Fact) => isLiked(f.id))
  }

  /** `applyFilter`: everything with no selection, else the facts tagged with the selected pack. */
  function ApplyFilter(all: seq<Fact>, selected: Option<string>): (r: seq<Fact>)
    ensures IsSubseq(r, all)
    ensures selected.None? ==> r == all
    ensures selected.Some? ==>
      && (forall i :: 0 <= i < |r| ==> r[i].factPack == selected)
      && forall f :: multiset(r)[f] == if f.factPack == selected then multiset(all)[f] else 0
  {
    match selected
    case None => FilterKeepsAll(all, (f: Fact) => true); all
    case Some(p) => Filter(all, (f: Fact) => f.factPack == Some(p))
  }

  /** Filtering an already filtered list again changes nothing. */
  lemma ApplyFilterIdempotent(all: seq<Fact>, selected: Option<string>)
    ensures ApplyFilter(ApplyFilter(all, selected), selected) == ApplyFilter(all, selected)
  {
    var r := ApplyFilter(all, selected);
    if selected.Some? {
      FilterIdempotent(all, (f: Fact) => f.factPack == Some(selected.value));
    }
  }

  /** The filter button's title for a selection. */
  function FilterTitle(selected: Option<string>): string {
    match selected
    case None => "Filter: All Fact Packs"
    case Some(p) => "Filter: " + GetFactPackInfo(p).name
  }

  /** `loadLikedFacts`: collect the liked facts, take the discovered pack list, re-filter. */
  function LoadLikedFacts(v: LikedView, allFacts: seq<Fact>, isLiked: string -> bool): (r: LikedView)
    ensures r.allLikedFacts == LikedAmong(allFacts, isLiked)
    ensures r.availableFactPacks == BuiltInPacks
    ensures r.filteredLikedFacts == ApplyFilter(r.allLikedFacts, v.selectedFactPack)
    ensures r.selectedFactPack == v.selectedFactPack && r.filterTitle == v.filterTitle
  {
    var liked := LikedAmong(allFacts, isLiked);
    v.(allLikedFacts := liked, availableFactPacks := BuiltInPacks,
       filteredLikedFacts := ApplyFilter(liked, v.selectedFactPack))
  }

  /** The "All Fact Packs" action: clear the selection and show every liked fact. */
  function SelectAllPacks(v: LikedView): (r: LikedView)
    ensures r.selectedFactPack.None? && r.filteredLikedFacts == v.allLikedFacts
    ensures r.filterTitle == "Filter: All Fact Packs"
    ensures r.allLikedFacts == v.allLikedFacts && r.availableFactPacks == v.availableFactPacks
  {
    v.(selectedFactPack := None, filterTitle := FilterTitle(None), filteredLikedFacts := ApplyFilter(v.allLikedFacts, None))
  }

  /** A pack's action: select it and show only its liked facts. */
  function SelectPack(v: LikedView, pack: string): (r: LikedView)
    ensures r.selectedFactPack == Some(pack)
    ensures r.filteredLikedFacts == ApplyFilter(v.allLikedFacts, Some(pack))
    ensures r.filterTitle == "Filter: " + GetFactPackInfo(pack).name
    ensures r.allLikedFacts == v.allLikedFacts && r.availableFactPacks == v.availableFactPacks
  {
    v.(selectedFactPack := Some(pack), filterTitle := FilterTitle(Some(pack)),
       filteredLikedFacts := ApplyFilter(v.allLikedFacts, Some(pack)))
  }

  /** The options the filter sheet offers: "All", then one per available pack. */
  function FilterOptions(v: LikedView): (r: seq<string>)
    ensures |r| == |v.availableFactPacks| + 1 && r[0] == "All Fact Packs"
    ensures forall i :: 0 <= i < |v.availableFactPacks| ==> r[i + 1] == GetFactPackInfo(v.availableFactPacks[i]).name
  {
    ["All Fact Packs"] + PackNames(v.availableFactPacks)
  }

  function PackNames(packs: seq<string>): (r: seq<string>)
    ensures |r| == |packs|
    ensures forall i :: 0 <= i < |packs| ==> r[i] == GetFactPackInfo(packs[i]).name
  {
    if |packs| == 0 then [] else [GetFactPackInfo(packs[0]).name] + PackNames(packs[1..])
  }

  /** One table row per shown fact. */
  function RowCount(v: LikedView): (r: nat)
    ensures r == |v.filteredLikedFacts|
  {
    |v.filteredLikedFacts|
  }

  /** The title of the section header, before the count. */
  function HeaderTitle(selected: Option<string>): string {
    match selected
    case None => "All Liked Facts"
    case Some(p) => GetFactPackInfo(p).name
  }

  /** The section header: the selection's title, then in parentheses the number of rows
      shown, written as Swift writes it. */
  function Header(v: LikedView): (r: string)
    ensures var k := |HeaderTitle(v.selectedFactPack)| + 2;
      && k < |r| && r[..k] == HeaderTitle(v.selectedFactPack) + " (" && r[|r| - 1] == ')'
      && Spells(r[k..|r| - 1], RowCount(v))
  {
    var count := FromNat(|v.filteredLikedFacts|);
    FromNatSpells(|v.filteredLikedFacts|);
    var r := HeaderTitle(v.selectedFactPack) + " (" + count + ")";
    assert r[|HeaderTitle(v.selectedFactPack)| + 2..|r| - 1] == count;
    r
  }

  /** The section footer: an encouragement exactly when nothing is shown. */
  function Footer(v: LikedView): (r: Option<string>)
    ensures r.Some? <==> |v.filteredLikedFacts| == 0
    ensures r.Some? && v.selectedFactPack.None? ==> r.value == "You haven't liked any facts yet."
    ensures r.Some? && v.selectedFactPack.Some? ==>
      r.value == "You haven't liked any facts from " + GetFactPackInfo(v.selectedFactPack.value).name + " yet."
  {
    if |v.filteredLikedFacts| > 0 then None
    else match v.selectedFactPack
      case None => Some("You haven't liked any facts yet.")
      case Some(p) => Some("You haven't liked any facts from " + GetFactPackInfo(p).name + " yet.")
  }

  /** The pack badge of a row: the display name of the fact's pack, "Unknown" when untagged. */
  function PackBadge(f: Fact): (r: string)
    ensures f.factPack.None? ==> r == "Unknown"
    ensures f.factPack == Some("f1.json") ==> r == "Main Facts"
    ensures f.factPack == Some("f2.json") ==> r == "Test Facts"
    ensures f.factPack.Some? && f.factPack.value !in BuiltInPacks ==> r == f.factPack.value
  {
    GetFactPackInfo(f.factPack.GetOr("Unknown")).name
  }
}
