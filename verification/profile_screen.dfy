/** The profile screen: the user's liked and disliked facts as two tables, with counts in
    their headers and a placeholder row when a table is empty. */
module ProfileScreen {
  import opened Wrappers
  import opened Seqs
  import opened Decimal
  import opened FactModel
  import opened ProfileModel

  datatype ProfileView = ProfileView(
    emailLabel: string,
    tapsLabel: string,
    likedFacts: seq<Fact>,
    dislikedFacts: seq<Fact>,
    likedHeader: string,
    dislikedHeader: string)

  /** The loaded facts whose id is in `ids`, in loaded order, each as often as loaded. */
  function FactsWithIds(facts: seq<Fact>, ids: seq<string>): (r: seq<Fact>)
    ensures IsSubseq(r, facts)
    ensures forall f :: multiset(r)[f] == if f.id in ids then multiset(facts)[f] else 0
    ensures forall i :: 0 <= i < |r| ==> r[i].id in ids
  {
    Filter(facts, (f: Fact) => f.id in ids)
  }

  function LikedHeader(n: nat): string { "❤️ Liked Facts (" + FromNat(n) + ")" }
  function DislikedHeader(n: nat): string { "💔 Disliked Facts (" + FromNat(n) + ")" }

  /** `loadUserData`: with no profile nothing changes; otherwise both lists are rebuilt from
      the loaded facts and the headers count them. */
  function LoadUserData(v: ProfileView, profile: Option<UserProfile>, facts: seq<Fact>): (r: ProfileView)
    ensures profile.None? ==> r == v
    ensures profile.Some? ==>
      && r.likedFacts == FactsWithIds(facts, profile.value.likedFacts)
      && r.dislikedFacts == FactsWithIds(facts, profile.value.dislikedFacts)
      && r.likedHeader == LikedHeader(|r.likedFacts|)
      && r.dislikedHeader == DislikedHeader(|r.dislikedFacts|)
      && r.emailLabel == "📧 " + profile.value.email
      && r.tapsLabel == "🎯 Corner Button Taps: " + FromInt(profile.value.cornerButtonTaps)
  {
    match profile
    case None => v
    case Some(p) =>
      var liked := FactsWithIds(facts, p.likedFacts);
      var disliked := FactsWithIds(facts, p.dislikedFacts);
      ProfileView("📧 " + p.email, "🎯 Corner Button Taps: " + FromInt(p.cornerButtonTaps),
                  liked, disliked, LikedHeader(|liked|), DislikedHeader(|disliked|))
  }

  /** A fact is listed as liked exactly when it was loaded and its id is liked. */
  lemma LikedListMembership(v: ProfileView, p: UserProfile, facts: seq<Fact>, f: Fact)
    ensures f in LoadUserData(v, Some(p), facts).likedFacts <==> f in facts && f.id in p.likedFacts
    ensures f in LoadUserData(v, Some(p), facts).dislikedFacts <==> f in facts && f.id in p.dislikedFacts
  {
    var r := LoadUserData(v, Some(p), facts);
    assert f in r.likedFacts <==> multiset(r.likedFacts)[f] > 0;
    assert f in r.dislikedFacts <==> multiset(r.dislikedFacts)[f] > 0;
  }

  /** With a consistent profile no fact is listed both as liked and as disliked. */
  lemma ListsDisjoint(v: ProfileView, p: UserProfile, facts: seq<Fact>)
    requires Consistent(p)
    ensures var r := LoadUserData(v, Some(p), facts);
      forall f :: f in r.likedFacts ==> f !in r.dislikedFacts
  {
    var r := LoadUserData(v, Some(p), facts);
    forall f | f in r.likedFacts ensures f !in r.dislikedFacts {
      LikedListMembership(v, p, facts, f);
    }
  }

  /** The header's number reads back as the length of its list. */
  lemma HeaderCounts(n: nat)
    ensures var h := LikedHeader(n); var k := |"❤️ Liked Facts ("|;
      k < |h| && h[k..|h| - 1] == FromNat(n) && Spells(h[k..|h| - 1], n)
    ensures var h := DislikedHeader(n); var k := |"💔 Disliked Facts ("|;
      k < |h| && h[k..|h| - 1] == FromNat(n) && Spells(h[k..|h| - 1], n)
  {
    FromNatSpells(n);
  }

  /** Rows in a table: one per fact, or a single placeholder row when there are none. */
  function RowCount(list: seq<Fact>): (r: nat)
    ensures r >= 1
    ensures |list| > 0 ==> r == |list|
    ensures |list| == 0 ==> r == 1
  {
    if |list| == 0 then 1 else |list|
  }

  /** A table cell: its text and whether it is the greyed-out placeholder. */
  datatype Cell = Cell(text: string, isEmpty: bool)

  const LikedPlaceholder: string := "No liked facts yet. Start exploring and like some facts!"
  const DislikedPlaceholder: string := "No disliked facts yet."

  /** The cell for a row: the placeholder iff the list is empty, else that fact's text. */
  function CellFor(list: seq<Fact>, row: nat, placeholder: string): (r: Cell)
    requires row < RowCount(list)
    ensures r.isEmpty <==> |list| == 0
    ensures r.isEmpty ==> r.text == placeholder && row == 0
    ensures !r.isEmpty ==> r.text == list[row].text
  {
    if |list| == 0 then Cell(placeholder, true) else Cell(list[row].text, false)
  }
}
