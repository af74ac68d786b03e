/** The statistics screen: the user's most-liked comment and the fact pack they like most.

    The comment query fans out over every fact document and gathers the user's comments in
    whatever order the replies arrive; that gathered sequence is an input here. Swift's
    dictionary iteration order, which decides ties between packs, is an input as well, and
    so are the facts from `loadAllFactsForProfile` and the `isFactLiked` test, which the app
    calls but does not define. */
module StatsScreen {
  import opened Wrappers
  import opened Seqs
  import opened Decimal
  import opened FactModel
  import opened FactPackManager

  /** The signed-in account as the screen sees it. */
  datatype User = User(uid: string, email: Option<string>)

  /** The fields of a stored comment document, each of which may be missing or mistyped. */
  datatype CommentDoc = CommentDoc(username: string, commentText: Option<string>,
                                   timestamp: Option<int>, likeCount: Option<int>)

  /** A comment that made it into the running, with the fact it belongs to. */
  datatype Candidate = Candidate(factID: string, commentText: string, timestamp: int, likes: int)

  /** A gathered document counts when it is the user's and has both text and a timestamp. */
  predicate IsCandidate(d: (string, CommentDoc), userEmail: string) {
    d.1.username == userEmail && d.1.commentText.Some? && d.1.timestamp.Some?
  }

  /** A missing like count reads as 0. */
  function ToCandidate(d: (string, CommentDoc)): (c: Candidate)
    requires d.1.commentText.Some? && d.1.timestamp.Some?
    ensures c.likes == d.1.likeCount.GetOr(0)
  {
    Candidate(d.0, d.1.commentText.value, d.1.timestamp.value, d.1.likeCount.GetOr(0))
  }

  /** The candidates among the gathered documents, in gathered order. */
  function Candidates(gathered: seq<(string, CommentDoc)>, userEmail: string): (r: seq<Candidate>)
    ensures var kept := Filter(gathered, d => IsCandidate(d, userEmail));
      |r| == |kept| && forall i :: 0 <= i < |r| ==> IsCandidate(kept[i], userEmail) && r[i] == ToCandidate(kept[i])
  {
    var kept := Filter(gathered, d => IsCandidate(d, userEmail));
    seq(|kept|, i requires 0 <= i < |kept| => ToCandidate(kept[i]))
  }

  /** Swift's `max(by: <)`: the first position holding the largest value. */
  function FirstMaxIndex(xs: seq<int>): (k: nat)
    requires |xs| > 0
    ensures k < |xs|
    ensures forall j :: 0 <= j < |xs| ==> xs[j] <= xs[k]
    ensures forall j :: 0 <= j < k ==> xs[j] < xs[k]
  {
    if |xs| == 1 then 0
    else
      var k := FirstMaxIndex(xs[..|xs| - 1]);
      assert forall j :: 0 <= j < |xs| - 1 ==> xs[..|xs| - 1][j] == xs[j];
      if xs[|xs| - 1] > xs[k] then |xs| - 1 else k
  }

  function Likes(cs: seq<Candidate>): (r: seq<int>)
    ensures |r| == |cs| && forall i :: 0 <= i < |cs| ==> r[i] == cs[i].likes
  {
    seq(|cs|, i requires 0 <= i < |cs| => cs[i].likes)
  }

  /** "<n> likes": the count as Swift writes it, then the word. */
  function LikesLabel(n: int): (r: string)
    ensures |r| > 6 && r[|r| - 6..] == " likes"
    ensures n >= 0 ==> Spells(r[..|r| - 6], n)
    ensures n < 0 ==> r[0] == '-' && Spells(r[1..|r| - 6], -n)
  {
    assert (FromInt(n) + " likes")[..|FromInt(n)|] == FromInt(n);
    FromInt(n) + " likes"
  }

  /** What the most-liked-comment card ends up showing: its text, its likes line (`None`
      when that label is left untouched) and the fact remembered for a tap. */
  datatype CommentCard = CommentCard(text: string, likesText: Option<string>, factID: Option<string>)

  /** `loadMostLikedComment`. `query` is nil when the top-level comments query failed. */
  function MostLikedComment(user: Option<User>, query: Option<seq<(string, CommentDoc)>>): (r: CommentCard)
    ensures user.None? ==> r == CommentCard("No user signed in", None, None)
    ensures user.Some? && query.None? ==> r == CommentCard("Error loading comments", None, None)
    ensures user.Some? && query.Some? ==>
      var cs := Candidates(query.value, user.value.email.GetOr(""));
      && (|cs| == 0 ==> r == CommentCard("No comments found", Some("0 likes"), None))
      && (|cs| > 0 ==>
            exists k :: (0 <= k < |cs|
              && (forall j :: 0 <= j < |cs| ==> cs[j].likes <= cs[k].likes)
              && (forall j :: 0 <= j < k ==> cs[j].likes < cs[k].likes)
              && r == CommentCard(cs[k].commentText, Some(LikesLabel(cs[k].likes)), Some(cs[k].factID))))
  {
    match user
    case None => CommentCard("No user signed in", None, None)
    case Some(u) =>
      match query
      case None => CommentCard("Error loading comments", None, None)
      case Some(gathered) =>
        var cs := Candidates(gathered, u.email.GetOr(""));
        if |cs| == 0 then CommentCard("No comments found", Some("0 likes"), None)
        else
          var k := FirstMaxIndex(Likes(cs));
          CommentCard(cs[k].commentText, Some(LikesLabel(cs[k].likes)), Some(cs[k].factID))
  }

  /** The tally key of a fact: its pack, or "Unknown" when it has none. */
  function PackKey(f: Fact): string {
    f.factPack.GetOr("Unknown")
  }

  /** Reference count: liked facts whose key is `pack`. */
  function LikesIn(facts: seq<Fact>, isLiked: string -> bool, pack: string): nat {
    if |facts| == 0 then 0
    else LikesIn(facts[..|facts| - 1], isLiked, pack)
         + (if isLiked(facts[|facts| - 1].id) && PackKey(facts[|facts| - 1]) == pack then 1 else 0)
  }

  /** Reference count: liked facts. */
  function LikedCount(facts: seq<Fact>, isLiked: string -> bool): nat {
    if |facts| == 0 then 0
    else LikedCount(facts[..|facts| - 1], isLiked) + (if isLiked(facts[|facts| - 1].id) then 1 else 0)
  }

  /** Sum of the values a tally holds for `keys`. */
  ghost function SumOver(m: map<string, nat>, keys: set<string>): nat
    requires keys <= m.Keys
    decreases keys
  {
    if keys == {} then 0
    else
      var k :| k in keys;
      m[k] + SumOver(m, keys - {k})
  }

  /** Sum of all the values of a tally. */
  ghost function MapSum(m: map<string, nat>): nat {
    SumOver(m, m.Keys)
  }

  /** The sum can be split at any key. */
  lemma {:induction false} SumOverRemove(m: map<string, nat>, keys: set<string>, k: string)
    requires keys <= m.Keys && k in keys
    ensures SumOver(m, keys) == m[k] + SumOver(m, keys - {k})
    decreases keys
  {
    var k' :| k' in keys && SumOver(m, keys) == m[k'] + SumOver(m, keys - {k'});
    if k' != k {
      SumOverRemove(m, keys - {k'}, k);
      SumOverRemove(m, keys - {k}, k');
      assert keys - {k'} - {k} == keys - {k} - {k'};
    }
  }

  /** Changing the value of a key outside `keys` does not change their sum. */
  lemma {:induction false} SumOverUpdate(m: map<string, nat>, keys: set<string>, k: string, v: nat)
    requires keys <= m.Keys && k !in keys
    ensures SumOver(m[k := v], keys) == SumOver(m, keys)
    decreases keys
  {
    if keys != {} {
      var k' :| k' in keys;
      SumOverRemove(m, keys, k');
      SumOverRemove(m[k := v], keys, k');
      SumOverUpdate(m, keys - {k'}, k, v);
    }
  }

  /** Counting one more like for a key raises the sum by one. */
  lemma MapSumIncrement(m: map<string, nat>, k: string)
    ensures MapSum(m[k := (if k in m then m[k] else 0) + 1]) == MapSum(m) + 1
  {
    var m' := m[k := (if k in m then m[k] else 0) + 1];
    SumOverRemove(m', m'.Keys, k);
    assert m'.Keys - {k} == m.Keys - {k};
    SumOverUpdate(m, m.Keys - {k}, k, m'[k]);
    if k in m {
      SumOverRemove(m, m.Keys, k);
    } else {
      assert m.Keys - {k} == m.Keys;
    }
  }

  /** One more fact adds its like, if any, to the counts. */
  lemma CountsStep(facts: seq<Fact>, isLiked: string -> bool, i: nat)
    requires i < |facts|
    ensures forall k :: (LikesIn(facts[..i + 1], isLiked, k)
      == LikesIn(facts[..i], isLiked, k) + (if isLiked(facts[i].id) && PackKey(facts[i]) == k then 1 else 0))
    ensures LikedCount(facts[..i + 1], isLiked) == LikedCount(facts[..i], isLiked) + (if isLiked(facts[i].id) then 1 else 0)
  {
    assert facts[..i + 1][..i] == facts[..i];
  }

  /** The per-pack loop of `loadTopFactPack`: one count per pack holding a liked fact. */
  method CountLikesByPack(facts: seq<Fact>, isLiked: string -> bool) returns (tally: map<string, nat>)
    ensures forall k :: k in tally <==> LikesIn(facts, isLiked, k) > 0
    ensures forall k :: k in tally ==> tally[k] == LikesIn(facts, isLiked, k)
    ensures MapSum(tally) == LikedCount(facts, isLiked)
  {
    tally := map[];
    var i := 0;
    while i < |facts|
      invariant i <= |facts|
      invariant forall k :: k in tally <==> LikesIn(facts[..i], isLiked, k) > 0
      invariant forall k :: k in tally ==> tally[k] == LikesIn(facts[..i], isLiked, k)
      invariant MapSum(tally) == LikedCount(facts[..i], isLiked)
    {
      CountsStep(facts, isLiked, i);
      var key := PackKey(facts[i]);
      if isLiked(facts[i].id) {
        MapSumIncrement(tally, key);
        tally := tally[key := (if key in tally then tally[key] else 0) + 1];
      }
      i := i + 1;
    }
    assert facts[..i] == facts;
  }

  /** Swift's `max(by:)` over the tally, visiting keys in dictionary order. */
  function TopPack(tally: map<string, nat>, order: seq<string>): (r: Option<string>)
    requires forall k :: k in order <==> k in tally
    ensures r.None? <==> |tally| == 0
    ensures r.Some? ==> r.value in tally && forall k :: k in tally ==> tally[k] <= tally[r.value]
  {
    if |order| == 0 then
      assert forall k :: k !in tally;
      assert tally.Keys == {};
      None
    else
      var values := seq(|order|, i requires 0 <= i < |order| => tally[order[i]] as int);
      var k := FirstMaxIndex(values);
      assert order[k] in tally.Keys;
      assert forall key :: key in tally ==> tally[key] <= tally[order[k]] by {
        forall key | key in tally ensures tally[key] <= tally[order[k]] {
          var i :| 0 <= i < |order| && order[i] == key;
          assert values[i] <= values[k];
        }
      }
      Some(order[k])
  }

  /** What the top-pack card ends up showing: the pack line and its likes line (`None`
      when that label is left untouched). */
  datatype PackCard = PackCard(name: string, likesText: Option<string>)

  /** `loadTopFactPack`: tally the liked facts by pack and show the largest. */
  method TopFactPack(user: Option<User>, facts: seq<Fact>, isLiked: string -> bool, order: seq<string>)
    returns (card: PackCard)
    requires forall k :: k in order <==> LikesIn(facts, isLiked, k) > 0
    ensures user.None? ==> card == PackCard("No user signed in", None)
    ensures user.Some? && LikedCount(facts, isLiked) == 0 ==> card == PackCard("No liked facts found", Some("0 total likes"))
    ensures user.Some? && LikedCount(facts, isLiked) > 0 ==>
      exists pack :: LikesIn(facts, isLiked, pack) > 0
        && (forall k :: LikesIn(facts, isLiked, k) <= LikesIn(facts, isLiked, pack))
        && card == PackCard(GetFactPackInfo(pack).name, Some(FromNat(LikesIn(facts, isLiked, pack)) + " total likes"))
  {
    if user.None? {
      return PackCard("No user signed in", None);
    }
    var tally := CountLikesByPack(facts, isLiked);
    var top := TopPack(tally, order);
    match top {
      case None =>
        assert MapSum(tally) == 0;
        card := PackCard("No liked facts found", Some("0 total likes"));
      case Some(pack) =>
        assert MapSum(tally) > 0 by { SumOverRemove(tally, tally.Keys, pack); }
        forall k ensures LikesIn(facts, isLiked, k) <= LikesIn(facts, isLiked, pack) {
          if k in tally { assert tally[k] <= tally[pack]; }
        }
        card := PackCard(GetFactPackInfo(pack).name, Some(FromNat(tally[pack]) + " total likes"));
    }
  }
}
