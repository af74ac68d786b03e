/** The profile side of the app's backend manager: loading and saving the signed-in user's
    profile, and the tap/like/dislike updates applied to it.

    The manager's `userProfile` is modelled as an `Option<UserProfile>`. A database write
    is reduced to whether it succeeded (`writeOk`); the profile document fetched at
    sign-in to a `ProfileDoc`; `Int.random(in: 1000...9999)` to a parameter in that range. */
module FirebaseManager {
  import opened Wrappers
  import opened Seqs
  import opened Decimal
  import opened ProfileModel

  /** What the `users/<uid>` fetch produced. */
  datatype ProfileDoc =
    | FetchFailed              // the read reported an error
    | NoData                   // no document (or a document without data)
    | Undecodable              // data that does not decode as a UserProfile
    | Decoded(profile: UserProfile)

  /** The stored profile after a like or dislike, and whether the caller's completion ran. */
  datatype ReactionResult = ReactionResult(stored: Option<UserProfile>, completionCalled: bool)

  /** `saveUserProfile`: the stored profile becomes `proposed` only once the write succeeds. */
  function SaveUserProfile(stored: Option<UserProfile>, proposed: UserProfile, writeOk: bool): (r: Option<UserProfile>)
    ensures writeOk ==> r == Some(proposed)
    ensures !writeOk ==> r == stored
  {
    if writeOk then Some(proposed) else stored
  }

  /** The username given to a profile created without one: "User" and four digits. */
  function DefaultUsername(rnd: int): (name: string)
    requires 1000 <= rnd <= 9999
    ensures |name| == 8 && name[..4] == "User"
    ensures forall i :: 4 <= i < 8 ==> IsDigit(name[i])
    ensures ToNat(name[4..]) == rnd
  {
    FromNatWidth(rnd, 3);
    ToNatFromNat(rnd);
    var name := "User" + FromNat(rnd);
    assert name[4..] == FromNat(rnd);
    name
  }

  /** `loadUserProfile(uid:)`: a decoded document becomes the stored profile; a missing or
      undecodable one is replaced by a fresh profile, stored only if its write succeeds; a
      failed read changes nothing. `currentEmail` is the signed-in user's email. */
  function LoadUserProfile(stored: Option<UserProfile>, uid: string, currentEmail: Option<string>,
                           doc: ProfileDoc, rnd: int, writeOk: bool): (r: Option<UserProfile>)
    requires 1000 <= rnd <= 9999
    ensures doc.FetchFailed? ==> r == stored
    ensures doc.Decoded? ==> r == Some(doc.profile)
    ensures (doc.NoData? || doc.Undecodable?) && !writeOk ==> r == stored
    ensures (doc.NoData? || doc.Undecodable?) && writeOk ==>
      && r.Some?
      && r.value.uid == uid
      && r.value.email == currentEmail.GetOr("")
      && r.value.username == DefaultUsername(rnd)
      && r.value.cornerButtonTaps == 0
      && r.value.likedFacts == [] && r.value.dislikedFacts == []
  {
    match doc
    case FetchFailed => stored
    case Decoded(p) => Some(p)
    case _ => SaveUserProfile(stored, NewProfile(uid, currentEmail.GetOr(""), DefaultUsername(rnd)), writeOk)
  }

  /** `incrementCornerTaps`: one more tap, saved; nothing without a profile. */
  function IncrementCornerTaps(stored: Option<UserProfile>, writeOk: bool): (r: Option<UserProfile>)
    ensures stored.None? ==> r == None
    ensures !writeOk ==> r == stored
    ensures stored.Some? && writeOk ==>
      && r.Some?
      && r.value.cornerButtonTaps == stored.value.cornerButtonTaps + 1
      && SameIdentity(stored.value, r.value)
      && r.value.likedFacts == stored.value.likedFacts
      && r.value.dislikedFacts == stored.value.dislikedFacts
  {
    match stored
    case None => None
    case Some(p) => SaveUserProfile(stored, p.(cornerButtonTaps := p.cornerButtonTaps + 1), writeOk)
  }

  /** The profile `likeFact(id)` proposes to save. */
  function WithLike(p: UserProfile, id: string): (r: UserProfile)
    ensures id in r.likedFacts
    ensures id in p.likedFacts ==> r == p
    ensures id !in p.likedFacts ==>
      && id !in r.dislikedFacts
      && |r.likedFacts| == |p.likedFacts| + 1
      && r.likedFacts[..|p.likedFacts|] == p.likedFacts
      && r.likedFacts[|p.likedFacts|] == id
      && IsSubseq(r.dislikedFacts, p.dislikedFacts)
      && forall x :: x != id ==> multiset(r.dislikedFacts)[x] == multiset(p.dislikedFacts)[x]
    ensures SameIdentity(p, r) && r.cornerButtonTaps == p.cornerButtonTaps
  {
    if id in p.likedFacts then p
    else p.(likedFacts := p.likedFacts + [id], dislikedFacts := RemoveAll(p.dislikedFacts, id))
  }

  /** The profile `dislikeFact(id)` proposes to save: the mirror image of `WithLike`. */
  function WithDislike(p: UserProfile, id: string): (r: UserProfile)
    ensures id in r.dislikedFacts
    ensures id in p.dislikedFacts ==> r == p
    ensures id !in p.dislikedFacts ==>
      && id !in r.likedFacts
      && |r.dislikedFacts| == |p.dislikedFacts| + 1
      && r.dislikedFacts[..|p.dislikedFacts|] == p.dislikedFacts
      && r.dislikedFacts[|p.dislikedFacts|] == id
      && IsSubseq(r.likedFacts, p.likedFacts)
      && forall x :: x != id ==> multiset(r.likedFacts)[x] == multiset(p.likedFacts)[x]
    ensures SameIdentity(p, r) && r.cornerButtonTaps == p.cornerButtonTaps
  {
    if id in p.dislikedFacts then p
    else p.(dislikedFacts := p.dislikedFacts + [id], likedFacts := RemoveAll(p.likedFacts, id))
  }

  /** `likeFact(id, completion)`: without a profile nothing happens and the completion is
      dropped; an already-liked id leaves the profile alone; otherwise the edited profile is
      saved. The completion runs whenever there is a profile. */
  function LikeFact(stored: Option<UserProfile>, id: string, writeOk: bool): (r: ReactionResult)
    ensures stored.None? ==> r.stored.None? && !r.completionCalled
    ensures stored.Some? ==> r.completionCalled
    ensures stored.Some? && id in stored.value.likedFacts ==> r.stored == stored
    ensures stored.Some? && writeOk ==> r.stored == Some(WithLike(stored.value, id))
    ensures !writeOk ==> r.stored == stored
  {
    match stored
    case None => ReactionResult(None, false)
    case Some(p) =>
      if id in p.likedFacts then ReactionResult(stored, true)
      else ReactionResult(SaveUserProfile(stored, WithLike(p, id), writeOk), true)
  }

  /** `dislikeFact(id, completion)`: the mirror image of `LikeFact`. */
  function DislikeFact(stored: Option<UserProfile>, id: string, writeOk: bool): (r: ReactionResult)
    ensures stored.None? ==> r.stored.None? && !r.completionCalled
    ensures stored.Some? ==> r.completionCalled
    ensures stored.Some? && id in stored.value.dislikedFacts ==> r.stored == stored
    ensures stored.Some? && writeOk ==> r.stored == Some(WithDislike(stored.value, id))
    ensures !writeOk ==> r.stored == stored
  {
    match stored
    case None => ReactionResult(None, false)
    case Some(p) =>
      if id in p.dislikedFacts then ReactionResult(stored, true)
      else ReactionResult(SaveUserProfile(stored, WithDislike(p, id), writeOk), true)
  }

  /** The stored profile, if any, keeps its reaction lists duplicate-free and disjoint. */
  ghost predicate StoredConsistent(stored: Option<UserProfile>) {
    stored.Some? ==> Consistent(stored.value)
  }

  /** Liking keeps the reaction lists duplicate-free and disjoint. */
  lemma WithLikeConsistent(p: UserProfile, id: string)
    requires Consistent(p)
    ensures Consistent(WithLike(p, id))
  {
    if id !in p.likedFacts {
      var r := WithLike(p, id);
      NoDupAppend(p.likedFacts, id);
      SubseqMembers(r.dislikedFacts, p.dislikedFacts);
      forall x | x in r.likedFacts ensures x !in r.dislikedFacts {
        if x != id {
          assert x in p.likedFacts by {
            var k :| 0 <= k < |r.likedFacts| && r.likedFacts[k] == x;
            assert r.likedFacts[..|p.likedFacts|][k] == x;
          }
        }
      }
    }
  }

  /** Disliking keeps the reaction lists duplicate-free and disjoint. */
  lemma WithDislikeConsistent(p: UserProfile, id: string)
    requires Consistent(p)
    ensures Consistent(WithDislike(p, id))
  {
    if id !in p.dislikedFacts {
      var r := WithDislike(p, id);
      NoDupAppend(p.dislikedFacts, id);
      SubseqMembers(r.likedFacts, p.likedFacts);
      forall x | x in r.dislikedFacts ensures x !in r.likedFacts {
        if x != id {
          assert x in p.dislikedFacts by {
            var k :| 0 <= k < |r.dislikedFacts| && r.dislikedFacts[k] == x;
            assert r.dislikedFacts[..|p.dislikedFacts|][k] == x;
          }
        }
      }
    }
  }

  /** Every profile operation preserves the consistency of the stored profile, whatever
      the outcome of its write. */
  lemma OperationsPreserveConsistency(stored: Option<UserProfile>, id: string, writeOk: bool)
    requires StoredConsistent(stored)
    ensures StoredConsistent(LikeFact(stored, id, writeOk).stored)
    ensures StoredConsistent(DislikeFact(stored, id, writeOk).stored)
    ensures StoredConsistent(IncrementCornerTaps(stored, writeOk))
  {
    if stored.Some? {
      WithLikeConsistent(stored.value, id);
      WithDislikeConsistent(stored.value, id);
    }
  }

  /** Liking twice is liking once, and so is disliking. */
  lemma ReactionsIdempotent(stored: Option<UserProfile>, id: string, w1: bool, w2: bool)
    ensures var once := LikeFact(stored, id, w1).stored;
            once.Some? && w1 ==> LikeFact(once, id, w2).stored == once
    ensures var once := DislikeFact(stored, id, w1).stored;
            once.Some? && w1 ==> DislikeFact(once, id, w2).stored == once
  {
  }

  /** Two corner taps whose writes overlap, as the code is written: each tap builds its
      profile from the cached one, and the cache only changes once a write completes, so
      both taps propose the same count and the second write repeats the first. */
  function OverlappingTaps(stored: Option<UserProfile>, w1: bool, w2: bool): (r: Option<UserProfile>)
    ensures stored.None? ==> r == None
    ensures stored.Some? && (w1 || w2) ==>
      && r.Some?
      && r.value.cornerButtonTaps == stored.value.cornerButtonTaps + 1
      && SameIdentity(stored.value, r.value)
  {
    match stored
    case None => None
    case Some(p) =>
      var next := p.(cornerButtonTaps := p.cornerButtonTaps + 1);
      SaveUserProfile(SaveUserProfile(stored, next, w1), next, w2)
  }

  /** Both writes succeed, yet two taps count as one. */
  lemma OverlappingTapsLoseOne()
    ensures var stored := Some(NewProfile("u", "u@example.com", "User1000"));
            OverlappingTaps(stored, true, true).value.cornerButtonTaps == 1
  {
  }

  /** Two overlapping likes of different facts: the second write, built from the same
      cached profile, drops the first like. */
  function OverlappingLikes(stored: Option<UserProfile>, a: string, b: string, w1: bool, w2: bool): (r: Option<UserProfile>)
    ensures stored.None? ==> r == None
    ensures stored.Some? && w2 && a !in stored.value.likedFacts && b !in stored.value.likedFacts ==>
      r == Some(WithLike(stored.value, b))
  {
    match stored
    case None => None
    case Some(p) =>
      var first := LikeFact(stored, a, w1).stored;
      if b in p.likedFacts then first else SaveUserProfile(first, WithLike(p, b), w2)
  }

  /** Both writes succeed, yet only the second fact ends up liked. */
  lemma OverlappingLikesLoseFirst()
    ensures var stored := Some(NewProfile("u", "u@example.com", "User1000"));
            "fact-a" !in OverlappingLikes(stored, "fact-a", "fact-b", true, true).value.likedFacts
  {
    var p := NewProfile("u", "u@example.com", "User1000");
    assert WithLike(p, "fact-b").likedFacts == ["fact-b"];
    assert "fact-a" != "fact-b";
  }

  /** The evidently intended behaviour, which the screens use: each tap increments the
      profile left by the one before, so two successful taps count twice. */
  lemma SequentialTapsCountBoth(stored: Option<UserProfile>, w1: bool, w2: bool)
    ensures var r := IncrementCornerTaps(IncrementCornerTaps(stored, w1), w2);
            && (stored.Some? && w1 && w2 ==> r.Some? && r.value.cornerButtonTaps == stored.value.cornerButtonTaps + 2)
            && (stored.Some? && w1 != w2 ==> r.Some? && r.value.cornerButtonTaps == stored.value.cornerButtonTaps + 1)
            && (!w1 && !w2 ==> r == stored)
  {
  }

  /** Likes applied one after the other keep both facts. */
  lemma SequentialLikesKeepBoth(stored: Option<UserProfile>, a: string, b: string)
    requires stored.Some?
    ensures var r := LikeFact(LikeFact(stored, a, true).stored, b, true).stored;
            r.Some? && a in r.value.likedFacts && b in r.value.likedFacts
  {
    var once := LikeFact(stored, a, true).stored;
    var p := once.value;
    if b !in p.likedFacts {
      var q := WithLike(p, b);
      assert q.likedFacts[..|p.likedFacts|] == p.likedFacts;
      var k :| 0 <= k < |p.likedFacts| && p.likedFacts[k] == a;
      assert q.likedFacts[k] == a;
    }
  }
}
