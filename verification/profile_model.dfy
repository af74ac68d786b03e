/** The per-user document kept in the `users` collection. */
module ProfileModel {
  import opened Seqs

  /** `uid`, `email` and `username` are `let` constants of the struct; only the tap
      counter and the two reaction lists are `var`. */
  datatype UserProfile = UserProfile(
    uid: string,
    email: string,
    username: string,
    cornerButtonTaps: int,
    likedFacts: seq<string>,
    dislikedFacts: seq<string>)

  /** The reaction lists are duplicate-free and never share an id. */
  ghost predicate Consistent(p: UserProfile) {
    NoDup(p.likedFacts) && NoDup(p.dislikedFacts) && Disjoint(p.likedFacts, p.dislikedFacts)
  }

  /** `q` has the identity fields of `p`: the fields no operation may change. */
  predicate SameIdentity(p: UserProfile, q: UserProfile) {
    p.uid == q.uid && p.email == q.email && p.username == q.username
  }

  /** `UserProfile(uid:email:username:)`: the identity as given, no taps, no reactions. */
  function NewProfile(uid: string, email: string, username: string): (p: UserProfile)
    ensures p.uid == uid && p.email == email && p.username == username
    ensures p.cornerButtonTaps == 0
    ensures p.likedFacts == [] && p.dislikedFacts == []
    ensures Consistent(p)
  {
    UserProfile(uid, email, username, 0, [], [])
  }
}
