/** The main fact screen: the current fact with its undo history, the like/dislike
    highlight, and the comment-count badge.

    `getRandomFact()` (Swift's `randomElement`) is modelled by a `choice` parameter: nil
    exactly when no facts are loaded, otherwise one of them. The comment-count query is
    reduced to the number of documents it returned, nil when it failed. */
module MainScreen {
  import opened Wrappers
  import opened Decimal
  import opened Text
  import opened FactModel
  import opened ProfileModel
  import FirebaseManager

  /** What the screen shows about the current fact, and the facts it can go back to. */
  datatype Screen = Screen(current: Option<Fact>, history: seq<Fact>, factLabel: string, emojiLabel: string)

  const Placeholder: string := "Tap Corner to get a fact!"

  /** The fact label: the fact's text, or the invitation to tap when there is none. */
  function FactLabel(current: Option<Fact>): (r: string)
    ensures current.Some? ==> r == current.value.text
    ensures current.None? ==> r == Placeholder
  {
    match current
    case Some(f) => f.text
    case None => Placeholder
  }

  /** The emoji label: the fact's emojis in order, one space between neighbours, or
      nothing when there is no fact or it has no emojis. */
  function EmojiLabel(current: Option<Fact>): (r: string)
    ensures current.None? || current.value.emojis.None? ==> r == ""
    ensures current.Some? && current.value.emojis.Some? ==>
      var es := current.value.emojis.value;
      && (|es| == 0 ==> r == "")
      && (|es| == 1 ==> r == es[0])
      && (|es| > 1 ==> r == es[0] + " " + Join(es[1..], " "))
      && (|es| > 0 ==> |r| == Width(es) + |es| - 1)
  {
    if current.Some? && current.value.emojis.Some? then
      var es := current.value.emojis.value;
      if |es| > 1 then JoinFront(es, " "); Join(es, " ")
      else Join(es, " ")
    else ""
  }

  /** `randomElement` never invents a fact: nil iff there are none, else a member. */
  predicate ValidChoice(facts: seq<Fact>, choice: Option<Fact>) {
    (choice.None? <==> |facts| == 0) && (choice.Some? ==> choice.value in facts)
  }

  /** `loadRandomFact`: the fact being replaced, if any, goes on the history; the new
      current fact is the random choice. */
  function LoadRandomFact(s: Screen, facts: seq<Fact>, choice: Option<Fact>): (r: Screen)
    requires ValidChoice(facts, choice)
    ensures s.current.Some? ==> r.history == s.history + [s.current.value]
    ensures s.current.None? ==> r.history == s.history
    ensures r.current.Some? <==> |facts| > 0
    ensures r.current.Some? ==> r.current.value in facts
    ensures r.factLabel == FactLabel(r.current) && r.emojiLabel == EmojiLabel(r.current)
  {
    var history := if s.current.Some? then s.history + [s.current.value] else s.history;
    Screen(choice, history, FactLabel(choice), EmojiLabel(choice))
  }

  /** `undoButtonTapped`: pops the most recent history entry and shows it; with no history
      the screen is left exactly as it was. */
  function Undo(s: Screen): (r: Screen)
    ensures |s.history| == 0 ==> r == s
    ensures |s.history| > 0 ==>
      && r.current == Some(s.history[|s.history| - 1])
      && r.history + [s.history[|s.history| - 1]] == s.history
      && r.factLabel == s.history[|s.history| - 1].text
      && r.emojiLabel == EmojiLabel(r.current)
  {
    if |s.history| == 0 then s
    else
      var previous := s.history[|s.history| - 1];
      Screen(Some(previous), s.history[..|s.history| - 1], previous.text, EmojiLabel(Some(previous)))
  }

  /** `didSelectFact` / `handleShowSelectedFact`: jump to a fact chosen elsewhere without
      touching the history. */
  function SelectFact(s: Screen, f: Fact): (r: Screen)
    ensures r.current == Some(f) && r.history == s.history
    ensures r.factLabel == f.text && r.emojiLabel == EmojiLabel(Some(f))
  {
    Screen(Some(f), s.history, f.text, EmojiLabel(Some(f)))
  }

  /** The labels agree with the current fact. */
  predicate LabelsCurrent(s: Screen) {
    s.factLabel == FactLabel(s.current) && s.emojiLabel == EmojiLabel(s.current)
  }

  /** Loading a new fact and then undoing restores the screen, whenever a fact was shown. */
  lemma LoadThenUndo(s: Screen, facts: seq<Fact>, choice: Option<Fact>)
    requires ValidChoice(facts, choice)
    requires s.current.Some? && LabelsCurrent(s)
    ensures Undo(LoadRandomFact(s, facts, choice)) == s
  {
    var h := LoadRandomFact(s, facts, choice).history;
    assert h[..|h| - 1] == s.history;
  }

  /** Highlight of the two reaction buttons. */
  datatype Buttons = Buttons(likeHighlighted: bool, dislikeHighlighted: bool)

  /** `updateButtonStates`: each button is highlighted iff the current fact's id is in the
      matching profile list; with no fact or no profile the buttons keep their look. */
  function UpdateButtonStates(b: Buttons, current: Option<Fact>, profile: Option<UserProfile>): (r: Buttons)
    ensures current.None? || profile.None? ==> r == b
    ensures current.Some? && profile.Some? ==>
      && (r.likeHighlighted <==> current.value.id in profile.value.likedFacts)
      && (r.dislikeHighlighted <==> current.value.id in profile.value.dislikedFacts)
  {
    if current.None? || profile.None? then b
    else Buttons(current.value.id in profile.value.likedFacts, current.value.id in profile.value.dislikedFacts)
  }

  /** With a consistent profile the two buttons are never highlighted together. */
  lemma NeverBothHighlighted(b: Buttons, f: Fact, p: UserProfile)
    requires Consistent(p)
    ensures var r := UpdateButtonStates(b, Some(f), Some(p)); !(r.likeHighlighted && r.dislikeHighlighted)
  {
  }

  /** The comment badge label. */
  datatype Badge = Badge(text: string, hidden: bool)

  /** Badge text for a positive comment count: the count itself up to 99, "99+" above. */
  function BadgeText(count: nat): (r: string)
    requires count > 0
    ensures count <= 99 ==> |r| <= 2 && Spells(r, count)
    ensures count > 99 ==> r == "99+"
  {
    if count > 99 then "99+"
    else
      FromNatSpells(count);
      if count < 10 then FromNatWidth(count, 0); FromNat(count)
      else FromNatWidth(count, 1); FromNat(count)
  }

  /** `updateCommentCount`: with no current fact nothing happens; a failed fetch or a zero
      count hides the badge (its old text stays underneath); otherwise it shows the count. */
  function UpdateCommentCount(b: Badge, current: Option<Fact>, fetched: Option<nat>): (r: Badge)
    ensures current.None? ==> r == b
    ensures current.Some? && (fetched.None? || fetched == Some(0)) ==> r == b.(hidden := true)
    ensures current.Some? && fetched.Some? && fetched.value > 0 ==> r == Badge(BadgeText(fetched.value), false)
  {
    if current.None? then b
    else match fetched
      case None => b.(hidden := true)
      case Some(n) => if n > 0 then Badge(BadgeText(n), false) else b.(hidden := true)
  }

  /** The whole screen: the fact part, the reaction buttons and the comment badge. */
  datatype MainView = MainView(screen: Screen, buttons: Buttons, badge: Badge)

  /** The buttons and badge describe the current fact, if there is one: its reactions in
      `profile` (when one is loaded) and the comment count `fetched` its query returned. */
  predicate Reflects(v: MainView, profile: Option<UserProfile>, fetched: Option<nat>) {
    v.screen.current.Some? ==>
      && (profile.Some? ==>
            && (v.buttons.likeHighlighted <==> v.screen.current.value.id in profile.value.likedFacts)
            && (v.buttons.dislikeHighlighted <==> v.screen.current.value.id in profile.value.dislikedFacts))
      && (v.badge.hidden <==> fetched.None? || fetched == Some(0))
      && (fetched.Some? && fetched.value > 0 ==> v.badge.text == BadgeText(fetched.value))
  }

  /** `updateButtonStates()` followed by `updateCommentCount()`, as every change of the
      current fact ends. */
  function Refresh(v: MainView, profile: Option<UserProfile>, fetched: Option<nat>): (r: MainView)
    ensures r.screen == v.screen && Reflects(r, profile, fetched)
    ensures v.screen.current.None? ==> r == v
    ensures profile.None? ==> r.buttons == v.buttons
    ensures fetched.None? || fetched == Some(0) ==> r.badge.text == v.badge.text
  {
    MainView(v.screen, UpdateButtonStates(v.buttons, v.screen.current, profile),
             UpdateCommentCount(v.badge, v.screen.current, fetched))
  }

  /** `loadRandomFact` on the whole screen. When no fact can be chosen both refreshes stop
      at their guards, so the previous fact's highlight and badge stay on screen. */
  function ShowRandomFact(v: MainView, facts: seq<Fact>, choice: Option<Fact>,
                          profile: Option<UserProfile>, fetched: Option<nat>): (r: MainView)
    requires ValidChoice(facts, choice)
    ensures r.screen == LoadRandomFact(v.screen, facts, choice)
    ensures Reflects(r, profile, fetched)
    ensures |facts| == 0 ==> r.buttons == v.buttons && r.badge == v.badge
  {
    Refresh(v.(screen := LoadRandomFact(v.screen, facts, choice)), profile, fetched)
  }

  /** `undoButtonTapped` on the whole screen: with no history nothing at all happens. */
  function UndoTapped(v: MainView, profile: Option<UserProfile>, fetched: Option<nat>): (r: MainView)
    ensures r.screen == Undo(v.screen)
    ensures |v.screen.history| == 0 ==> r == v
    ensures |v.screen.history| > 0 ==> Reflects(r, profile, fetched)
  {
    if |v.screen.history| == 0 then v
    else Refresh(v.(screen := Undo(v.screen)), profile, fetched)
  }

  /** `didSelectFact` / `handleShowSelectedFact` on the whole screen. */
  function ShowSelectedFact(v: MainView, f: Fact, profile: Option<UserProfile>, fetched: Option<nat>): (r: MainView)
    ensures r.screen == SelectFact(v.screen, f)
    ensures Reflects(r, profile, fetched)
  {
    Refresh(v.(screen := SelectFact(v.screen, f)), profile, fetched)
  }

  /** Loading a fact and undoing it brings back the fact, its labels and its highlight, and
      whether the badge shows; when the badge showed a count, the whole screen is restored.
      `fetched` is the count the undone-to fact's query returns both times. */
  lemma LoadThenUndoView(v: MainView, facts: seq<Fact>, choice: Option<Fact>, profile: Option<UserProfile>,
                         fetchedNew: Option<nat>, fetched: Option<nat>)
    requires ValidChoice(facts, choice)
    requires v.screen.current.Some? && LabelsCurrent(v.screen) && Reflects(v, profile, fetched)
    ensures var r := UndoTapped(ShowRandomFact(v, facts, choice, profile, fetchedNew), profile, fetched);
      r.screen == v.screen && r.buttons == v.buttons && r.badge.hidden == v.badge.hidden
    ensures fetched.Some? && fetched.value > 0 ==>
      UndoTapped(ShowRandomFact(v, facts, choice, profile, fetchedNew), profile, fetched) == v
  {
    LoadThenUndo(v.screen, facts, choice);
  }

  /** `cornerButtonTapped`: count the tap on the profile, then load a new fact. The save
      lands later on the main queue, so the refresh reads the profile as it was. */
  function CornerButtonTapped(stored: Option<UserProfile>, v: MainView, facts: seq<Fact>, choice: Option<Fact>,
                              writeOk: bool, fetched: Option<nat>): (r: (Option<UserProfile>, MainView))
    requires ValidChoice(facts, choice)
    ensures r.0 == FirebaseManager.IncrementCornerTaps(stored, writeOk)
    ensures r.1 == ShowRandomFact(v, facts, choice, stored, fetched)
    ensures stored.Some? && writeOk ==> r.0.value.cornerButtonTaps == stored.value.cornerButtonTaps + 1
  {
    (FirebaseManager.IncrementCornerTaps(stored, writeOk), ShowRandomFact(v, facts, choice, stored, fetched))
  }

  /** `likeButtonTapped` / `dislikeButtonTapped`: with no current fact nothing happens;
      otherwise the current fact's id is reacted to, and the buttons refresh when the
      manager calls back. */
  function ReactionTapped(like: bool, stored: Option<UserProfile>, s: Screen, writeOk: bool, b: Buttons): (r: (Option<UserProfile>, Buttons))
    ensures s.current.None? ==> r == (stored, b)
    ensures s.current.Some? && like ==> r.0 == FirebaseManager.LikeFact(stored, s.current.value.id, writeOk).stored
    ensures s.current.Some? && !like ==> r.0 == FirebaseManager.DislikeFact(stored, s.current.value.id, writeOk).stored
    ensures s.current.Some? && stored.Some? ==> r.1 == UpdateButtonStates(b, s.current, r.0)
    ensures stored.None? ==> r.1 == b
  {
    if s.current.None? then (stored, b)
    else
      var res := if like then FirebaseManager.LikeFact(stored, s.current.value.id, writeOk)
                 else FirebaseManager.DislikeFact(stored, s.current.value.id, writeOk);
      (res.stored, if res.completionCalled then UpdateButtonStates(b, s.current, res.stored) else b)
  }

  /** After a successful like the like button is lit and the dislike button is not. */
  lemma LikeLightsLikeButton(p: UserProfile, s: Screen, b: Buttons)
    requires s.current.Some?
    requires Consistent(p)
    ensures var r := ReactionTapped(true, Some(p), s, true, b);
      r.1.likeHighlighted && !r.1.dislikeHighlighted
  {
    FirebaseManager.WithLikeConsistent(p, s.current.value.id);
  }
}
