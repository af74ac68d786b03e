# CornerApp core in Dafny

CornerApp is an iOS app. It shows a random fact each time the user taps the
corner button. Users can like or dislike the fact, undo back to earlier facts,
comment on a fact, and switch between fact packs. A profile screen, a liked-facts
screen and a statistics screen summarise what the user did.

This project models the app's logic as pure functions over immutable state.
The model covers:

- the user profile and how the backend manager loads, saves and updates it
  (corner taps, like, dislike);
- the sign-in / sign-up screen: field validation, the mode toggle, the return key,
  and the rewriting of backend error descriptions;
- the fact-pack manager: switching packs, pack discovery, and per-pack display data;
- the main screen: the current fact, undo history, reaction-button highlight and
  comment badge;
- the profile, liked-facts, statistics and comment screens: what each shows,
  given the state it reads.

Some inputs are outside the model, so they are parameters:

- **Backend outcomes.** A write's success is `writeOk` or `writeThrows`. A fetched
  document is a `ProfileDoc`, or a sequence of `Option<Comment>` where `None` means
  a document that does not decode. A failed query is `None`.
- **Randomness.** `Int.random(in: 1000...9999)` is a parameter `rnd` in that range.
  `randomElement()` is a `choice` constrained by `MainScreen.ValidChoice`: nil exactly
  when there are no facts, otherwise one of them. `UUID()` is a `commentID` parameter.
- **The clock.** `Date()` is a parameter `now`.
- **`isFactLiked` and `loadAllFactsForProfile`.** The screens call both, but the manager
  defines neither. `isFactLiked` is a parameter `isLiked`. The facts that
  `loadAllFactsForProfile` delivers are the input sequence `allFacts` (liked-facts
  screen) or `facts` (statistics screen).
- **Swift dictionary order.** It decides ties for the top fact pack, so it is a
  parameter `order`.

Strings are sequences of code points. `String.count` is the length of that sequence.

Modules, one per Swift file of the core, plus some helpers:

| module | models |
|---|---|
| `ProfileModel` | `UserProfile` |
| `FactModel` | `Fact` |
| `CommentModel` | `Comment` |
| `FirebaseManager` | the profile half of the backend manager |
| `FactPackManager` | the fact-pack manager |
| `Authentication` | the authentication screen |
| `MainScreen` | the main screen |
| `ProfileScreen` | the profile screen |
| `LikedFactsScreen` | the liked-facts screen |
| `StatsScreen` | the statistics screen |
| `CommentScreen` | the comment screen |
| `Wrappers` | `Option` and `Result` (helper) |
| `Seqs` | order-preserving filters, subsequences, duplicate-freedom (helper) |
| `Text` | trimming and substring search (helper) |
| `Decimal` | rendering of integers as decimal text (helper) |

## Model

| member | source | states |
|---|---|---|
| ProfileModel.NewProfile | CornerApp/Models/UserProfile.swift:20-28 | A new profile keeps its uid, email and username. It has zero taps and empty like and dislike lists, so it starts consistent: no duplicates and nothing both liked and disliked. |
| FirebaseManager.SaveUserProfile | CornerApp/Managers/FirebaseManager.swift:179-197 | The in-memory profile becomes the proposed one exactly when the write succeeds. A failed write (including a failure to encode) leaves it as it was. |
| FirebaseManager.DefaultUsername | CornerApp/Managers/FirebaseManager.swift:158 | The generated username is 8 characters: "User" then four digits that read back as the random number. |
| FirebaseManager.LoadUserProfile | CornerApp/Managers/FirebaseManager.swift:149-177 | A failed read changes nothing. A decoded document becomes the profile. A missing or undecodable document yields a fresh profile, stored only if its write succeeds. The fresh profile has the given uid, the signed-in email (or ""), a generated username, zero taps and no reactions. |
| FirebaseManager.IncrementCornerTaps | CornerApp/Managers/FirebaseManager.swift:200-204 | Without a profile nothing happens. A successful save adds exactly one tap and leaves the identity and both reaction lists unchanged. A failed save changes nothing. |
| FirebaseManager.WithLike | CornerApp/Managers/FirebaseManager.swift:206-212 | After liking, the id is liked. An already-liked id leaves the profile unchanged. Otherwise the id is appended to the liked list and every copy of it leaves the disliked list. No other disliked entry changes, and the identity and tap count are kept. |
| FirebaseManager.WithDislike | CornerApp/Managers/FirebaseManager.swift:220-226 | The mirror image of WithLike, with the two lists swapped. |
| FirebaseManager.LikeFact | CornerApp/Managers/FirebaseManager.swift:206-217 | Without a profile nothing changes and the completion is never called. With a profile the completion is always called. An already-liked id leaves the stored profile alone. A successful write stores the liked profile. A failed write stores nothing. |
| FirebaseManager.DislikeFact | CornerApp/Managers/FirebaseManager.swift:220-231 | The mirror image of LikeFact, for the disliked list. |
| FirebaseManager.WithLikeConsistent | CornerApp/Managers/FirebaseManager.swift:206-212 | Liking a consistent profile keeps both lists duplicate-free and disjoint. |
| FirebaseManager.WithDislikeConsistent | CornerApp/Managers/FirebaseManager.swift:220-226 | Disliking a consistent profile keeps both lists duplicate-free and disjoint. |
| FirebaseManager.OperationsPreserveConsistency | CornerApp/Managers/FirebaseManager.swift:200-231 | Tapping, liking and disliking all keep the stored profile consistent, whether the write succeeds or fails. |
| FirebaseManager.ReactionsIdempotent | CornerApp/Managers/FirebaseManager.swift:206-231 | Once a like (or dislike) has been stored, repeating it changes nothing, whatever the second write does. |
| FirebaseManager.OverlappingTaps | CornerApp/Managers/FirebaseManager.swift:184-204 | Two taps whose writes overlap, as written: whenever either write succeeds the profile gains exactly one tap, not two. |
| FirebaseManager.OverlappingTapsLoseOne | CornerApp/Managers/FirebaseManager.swift:184-204 | For a fresh profile and two successful writes, the overlapping taps leave the count at 1. |
| FirebaseManager.OverlappingLikes | CornerApp/Managers/FirebaseManager.swift:184-212 | Two likes whose writes overlap, as written: when the second write succeeds the profile is the cached one with only the second like applied. |
| FirebaseManager.OverlappingLikesLoseFirst | CornerApp/Managers/FirebaseManager.swift:184-212 | For a fresh profile, two successful overlapping likes of different facts leave the first fact unliked. |
| FirebaseManager.SequentialTapsCountBoth | CornerApp/Managers/FirebaseManager.swift:200-204 | Taps applied one after another count each successful write: two successes add two taps, one success adds one, none changes nothing. |
| FirebaseManager.SequentialLikesKeepBoth | CornerApp/Managers/FirebaseManager.swift:206-217 | Likes applied one after another with successful writes leave both facts liked. |
| FactPackManager.SwitchToFactPack | CornerApp/Managers/FactPackManager.swift:15-24 | A name that is not available is refused. An available one becomes current at once, loading starts, and the available list is kept. |
| FactPackManager.LoadFinished | CornerApp/Managers/FactPackManager.swift:26-31 | When the pack load finishes, loading stops, the selection and the list are kept, and the completion receives the load's own success flag. |
| FactPackManager.DiscoverFactPacks | CornerApp/Managers/FactPackManager.swift:43-49 | Discovery sets the available list to the two built-in packs and reports that list. The selection and the loading flag are unchanged. |
| FactPackManager.CurrentFactPackName | CornerApp/Managers/FactPackManager.swift:34-36 | In a valid state the current pack name is one of the built-in packs. |
| FactPackManager.AvailableFactPacks | CornerApp/Managers/FactPackManager.swift:38-40 | In a valid state the available packs are the built-in list, and that list includes the current pack. |
| FactPackManager.ValidPreserved | CornerApp/Managers/FactPackManager.swift:8-49 | The manager starts valid: the built-in list is available and the current pack is in it. Switching, finishing a load and discovery all keep it valid. |
| FactPackManager.GetFactPackInfo | CornerApp/Managers/FactPackManager.swift:52-76 | Each built-in pack has its fixed name, description and category. Any other name is shown as itself, as a custom pack. The fact count is always 0. |
| Text.Trim | CornerApp/ViewControllers/AuthenticationViewController.swift:219 | The result is a slice of the input. Everything cut off is whitespace, and the result neither starts nor ends with whitespace. |
| Text.TrimEmptyIff | CornerApp/ViewControllers/AuthenticationViewController.swift:219-220 | A field trims to empty exactly when it is all whitespace. |
| Text.TrimIdempotent | CornerApp/ViewControllers/AuthenticationViewController.swift:219 | Trimming a trimmed string changes nothing. |
| Text.ContainsChar | CornerApp/ViewControllers/AuthenticationViewController.swift:225 | A one-character substring occurs exactly when the character is in the string. |
| Authentication.ValidateInput | CornerApp/ViewControllers/AuthenticationViewController.swift:218-263 | Each alert is produced exactly when its check is the first to fail. The checks run in order: email empty, email missing "@" or ".", password empty, password under 6, and then, in sign-up mode only, username empty, under 3, over 20. Otherwise validation succeeds with the trimmed email, the untrimmed password, and the trimmed username in sign-up mode only. |
| Authentication.SignInIgnoresUsername | CornerApp/ViewControllers/AuthenticationViewController.swift:241-262 | In sign-in mode the username field has no influence on validation. |
| Authentication.ValidatedEmailIsTrimmed | CornerApp/ViewControllers/AuthenticationViewController.swift:219-262 | Validating accepted credentials again returns them unchanged, so the accepted email and username have no surrounding whitespace. |
| Authentication.FirstMatch | CornerApp/ViewControllers/AuthenticationViewController.swift:362-377 | Returns the first error code, from a given position on, that occurs in the description, or none if no code does. |
| Authentication.FormatErrorMessage | CornerApp/ViewControllers/AuthenticationViewController.swift:359-380 | The message is the text for the first listed code that occurs in the description. If no code occurs, it is the description itself. |
| Authentication.CodesHyphenated | CornerApp/ViewControllers/AuthenticationViewController.swift:362-377 | Every recognised error code contains a hyphen. |
| Authentication.UnhyphenatedDescriptionUnchanged | CornerApp/ViewControllers/AuthenticationViewController.swift:359-380 | A description without a hyphen is shown exactly as it is. |
| Authentication.SignInTapped | CornerApp/ViewControllers/AuthenticationViewController.swift:266-299 | In sign-up mode the button only switches to sign-in mode. In sign-in mode it never switches and never signs up. It issues a sign-in request exactly when validation succeeds, carrying the trimmed email and the raw password. Otherwise it alerts with the message of the first failing check. |
| Authentication.SignUpTapped | CornerApp/ViewControllers/AuthenticationViewController.swift:301-345 | In sign-in mode the button only switches to sign-up mode. In sign-up mode it issues a sign-up request exactly when sign-up validation succeeds, carrying a trimmed, acceptable username. Otherwise it alerts with the message of the first failing check. |
| Authentication.PasswordReturn | CornerApp/ViewControllers/AuthenticationViewController.swift:404-410 | Return in the password field keeps the mode and never just switches. It alerts exactly when the current mode's validation fails, with that validation's message. Otherwise it submits the current mode's request with the validated email and password, plus the trimmed username when signing up. |
| Authentication.RequestCompleted | CornerApp/ViewControllers/AuthenticationViewController.swift:279-298 | The screen is dismissed exactly when the request succeeded. A failure alerts with the formatted error description. |
| MainScreen.FactLabel | CornerApp/ViewControllers/MainViewController.swift:185-195 | The label shows the current fact's text, or the tap invitation when there is no fact. |
| MainScreen.EmojiLabel | CornerApp/ViewControllers/MainViewController.swift:192 | Without a fact or emojis, or with an empty list, the label is empty. One emoji shows alone. Otherwise it is the first emoji, a space, and the remaining emojis joined the same way; its length is the emojis' total length plus one space between each pair. |
| Text.Join | CornerApp/ViewControllers/MainViewController.swift:192 | Joining no parts gives "". Otherwise the result is as long as the parts plus one separator between each pair, starts with the first part and ends with the last. |
| Text.JoinFront | CornerApp/ViewControllers/MainViewController.swift:192 | A join of two or more parts is the first part, the separator, then the join of the rest; with the one-part case this fixes every character. |
| MainScreen.LoadRandomFact | CornerApp/ViewControllers/MainViewController.swift:185-195 | The fact being replaced, if any, goes on the end of the history. The new fact exists exactly when facts are loaded, and it is one of them. The labels show the new fact. |
| MainScreen.Undo | CornerApp/ViewControllers/MainViewController.swift:290-298 | With no history nothing changes. Otherwise the last history entry is shown and removed from the history. |
| MainScreen.SelectFact | CornerApp/ViewControllers/MainViewController.swift:329-353 | A fact chosen on another screen is shown without touching the history. |
| MainScreen.LoadThenUndo | CornerApp/ViewControllers/MainViewController.swift:185-298 | When a fact was shown, loading a new fact and then undoing restores the screen exactly. |
| MainScreen.Refresh | CornerApp/ViewControllers/MainViewController.swift:193-240 | After the two refreshes the buttons and badge describe the current fact: each button lit exactly when the fact's id is in the matching list, the badge hidden exactly when the count query failed or found nothing, and otherwise showing the count. With no fact nothing changes. With no profile the buttons keep their look. A hidden badge keeps its old text. |
| MainScreen.ShowRandomFact | CornerApp/ViewControllers/MainViewController.swift:185-195 | Loading a fact updates the fact part as LoadRandomFact says, and then the buttons and badge describe the new fact. When there are no facts, the previous highlight and badge stay on screen unchanged. |
| MainScreen.UndoTapped | CornerApp/ViewControllers/MainViewController.swift:290-298 | With no history the screen is untouched, buttons and badge included. Otherwise the previous fact returns and the buttons and badge describe it. |
| MainScreen.ShowSelectedFact | CornerApp/ViewControllers/MainViewController.swift:329-353 | A fact chosen elsewhere is shown without touching the history, and the buttons and badge describe it. |
| MainScreen.LoadThenUndoView | CornerApp/ViewControllers/MainViewController.swift:185-298 | If the buttons and badge described the shown fact, loading and then undoing restores the fact, its labels, its highlight and whether the badge shows, provided the undone-to fact's query returns the same count. When that count is positive, the whole screen is restored. |
| MainScreen.UpdateButtonStates | CornerApp/ViewControllers/MainViewController.swift:197-217 | Each button is lit exactly when the current fact's id is in the matching list. With no fact or no profile the buttons keep their look. |
| MainScreen.NeverBothHighlighted | CornerApp/ViewControllers/MainViewController.swift:197-217 | With a consistent profile, like and dislike are never lit together. |
| MainScreen.BadgeText | CornerApp/ViewControllers/MainViewController.swift:230 | Counts up to 99 show as at most two digits, written as Swift writes the number: they read back as the count and have no leading zero. Larger counts show "99+". |
| MainScreen.UpdateCommentCount | CornerApp/ViewControllers/MainViewController.swift:218-240 | With no fact nothing happens. A failed query or zero comments hides the badge. A positive count shows the badge text. |
| MainScreen.CornerButtonTapped | CornerApp/ViewControllers/MainViewController.swift:244-255 | A corner tap counts exactly one tap on a saved profile and then loads a new fact, refreshing the buttons from the profile as it was before the save lands. |
| MainScreen.ReactionTapped | CornerApp/ViewControllers/MainViewController.swift:274-288 | With no current fact nothing happens. Otherwise the current fact's id is liked or disliked. The buttons are refreshed from the new profile exactly when the manager calls back. |
| MainScreen.LikeLightsLikeButton | CornerApp/ViewControllers/MainViewController.swift:274-280 | After a successful like of a consistent profile, like is lit and dislike is not. |
| ProfileScreen.FactsWithIds | CornerApp/ViewControllers/ProfileViewController.swift:188-189 | The listed facts are the loaded facts whose id is in the list, in loaded order, each as many times as it was loaded. |
| ProfileScreen.LoadUserData | CornerApp/ViewControllers/ProfileViewController.swift:181-197 | With no profile nothing changes. Otherwise both tables are rebuilt from the loaded facts and each header counts its own table. |
| ProfileScreen.LikedListMembership | CornerApp/ViewControllers/ProfileViewController.swift:188-189 | A fact is in the liked table exactly when it was loaded and its id is liked. The same holds for the disliked table. |
| ProfileScreen.ListsDisjoint | CornerApp/ViewControllers/ProfileViewController.swift:188-189 | With a consistent profile no fact appears in both tables. |
| ProfileScreen.HeaderCounts | CornerApp/ViewControllers/ProfileViewController.swift:192-193 | The number in each header is the length of its table, written as Swift writes it: digits reading back as that length, with no leading zero. |
| ProfileScreen.RowCount | CornerApp/ViewControllers/ProfileViewController.swift:232-238 | There is always at least one row: one per fact, or a single placeholder row for an empty table. |
| ProfileScreen.CellFor | CornerApp/ViewControllers/ProfileViewController.swift:240-258 | A cell is the placeholder exactly when its table is empty. Otherwise it shows its row's fact text. |
| LikedFactsScreen.LikedAmong | CornerApp/ViewControllers/LikedFactsViewController.swift:74-76 | The liked facts are exactly the loaded facts that are liked, in loaded order and with their multiplicities. |
| LikedFactsScreen.ApplyFilter | CornerApp/ViewControllers/LikedFactsViewController.swift:90-100 | With no selection every liked fact is shown. With a selection, exactly the liked facts of that pack are shown, in order. |
| LikedFactsScreen.ApplyFilterIdempotent | CornerApp/ViewControllers/LikedFactsViewController.swift:90-100 | Filtering an already filtered list again changes nothing. |
| LikedFactsScreen.LoadLikedFacts | CornerApp/ViewControllers/LikedFactsViewController.swift:67-88 | Reloading collects the liked facts, takes the built-in pack list, and re-applies the current selection without changing it. |
| LikedFactsScreen.SelectAllPacks | CornerApp/ViewControllers/LikedFactsViewController.swift:106-111 | "All" clears the selection, shows every liked fact and retitles the button. |
| LikedFactsScreen.SelectPack | CornerApp/ViewControllers/LikedFactsViewController.swift:112-121 | Choosing a pack selects it, shows only its liked facts, and titles the button with the pack's display name. |
| LikedFactsScreen.FilterOptions | CornerApp/ViewControllers/LikedFactsViewController.swift:102-122 | The sheet offers "All Fact Packs" and then one option per available pack, with that pack's display name. |
| LikedFactsScreen.PackNames | CornerApp/ViewControllers/LikedFactsViewController.swift:112-116 | Each available pack maps, in order, to its display name. |
| LikedFactsScreen.Header | CornerApp/ViewControllers/LikedFactsViewController.swift:166-174 | The header is the selection's title ("All Liked Facts" or the pack's display name), then, in parentheses, the number of rows shown, written as Swift writes it. |
| LikedFactsScreen.Footer | CornerApp/ViewControllers/LikedFactsViewController.swift:176-186 | A footer appears exactly when no row is shown. It names the selected pack, if there is one. |
| LikedFactsScreen.PackBadge | CornerApp/ViewControllers/LikedFactsViewController.swift:151-161 | A row's pack badge is the display name of the fact's pack. An untagged fact shows "Unknown". |
| StatsScreen.ToCandidate | CornerApp/ViewControllers/StatsViewController.swift:243-258 | A comment without a like count counts as 0 likes. |
| StatsScreen.Candidates | CornerApp/ViewControllers/StatsViewController.swift:243-258 | The candidates are the gathered comments by the user that have both text and a timestamp, in gathered order. |
| StatsScreen.FirstMaxIndex | CornerApp/ViewControllers/StatsViewController.swift:276-282 | Returns the first position that holds the largest value: nothing after it is larger, and everything before it is smaller. |
| StatsScreen.LikesLabel | CornerApp/ViewControllers/StatsViewController.swift:333 | The label ends in " likes". Before that comes the like count as Swift writes it: its digits with no leading zero, after a minus sign when it is negative. |
| StatsScreen.MostLikedComment | CornerApp/ViewControllers/StatsViewController.swift:202-294 | There is a message when no user is signed in, when the query fails, and when there are no candidates. Otherwise the card shows the first candidate with the most likes: its text, its like count and its fact. |
| StatsScreen.MapSumIncrement | CornerApp/ViewControllers/StatsViewController.swift:309-313 | Counting one more like for a pack raises the tally's total by exactly one. |
| StatsScreen.CountLikesByPack | CornerApp/ViewControllers/StatsViewController.swift:307-314 | A pack is in the tally exactly when it holds a liked fact, and its value is the number of liked facts in it. Untagged facts count as "Unknown". The values add up to the number of liked facts. |
| StatsScreen.TopPack | CornerApp/ViewControllers/StatsViewController.swift:317 | There is a top pack exactly when the tally is non-empty. No pack has more likes than the top pack. |
| StatsScreen.TopFactPack | CornerApp/ViewControllers/StatsViewController.swift:296-329 | There is a message when no user is signed in, and a "0 total likes" card when nothing is liked. Otherwise the card shows a pack with the most liked facts, under its display name, with that count. |
| CommentScreen.NewComment | CornerApp/ViewControllers/CommentViewController.swift:78-84 | A posted comment carries the author's email (or "Anonymous"), the text as typed, the current time, no likes, and is not liked by the author. |
| CommentScreen.SendComment | CornerApp/ViewControllers/CommentViewController.swift:73-98 | A write is issued exactly when there is non-empty text, a signed-in user, and encoding does not throw. It goes under the given fact and UUID. Exactly then the field is cleared and the list refetched. Otherwise the text stays. |
| CommentScreen.BlankCommentAccepted | CornerApp/ViewControllers/CommentViewController.swift:74 | The text is not trimmed: any non-empty all-whitespace text, with a user and no throw, is written exactly as typed, even though it trims to nothing. |
| CommentScreen.Decodable | CornerApp/ViewControllers/CommentViewController.swift:107-110 | The listed comments are exactly the documents that decode, each as many times as it occurs, in query order. |
| CommentScreen.FetchComments | CornerApp/ViewControllers/CommentViewController.swift:101-118 | A snapshot replaces the list with its decodable documents. A failed query leaves the list unchanged. |
| Decimal.FromInt | CornerApp/ViewControllers/StatsViewController.swift:333 | An integer is written as its magnitude's digits with no leading zero, after a minus sign exactly when it is negative; the digits read back as the magnitude. |
| Decimal.SpellsIsFromNat | CornerApp/ViewControllers/MainViewController.swift:230 | Any digit string with no leading zero that reads back as n is the rendering of n, so a number has exactly one written form. |
| Decimal.ToNatFromNat | CornerApp/ViewControllers/MainViewController.swift:230 | Reading back the digits of n gives n. |
| CommentScreen.DecodableNewestFirst | CornerApp/ViewControllers/CommentViewController.swift:105-110 | If the query returns documents newest first, dropping the undecodable ones keeps the list newest first. |

## Findings

| source | as written | input that shows it | evidently intended | confidence | as-written member | corrected member |
|---|---|---|---|---|---|---|
| CornerApp/Managers/FirebaseManager.swift:184-204 | `incrementCornerTaps` builds the new profile from the cached `userProfile`, which is only replaced when a write completes | two corner taps before the first write completes, both writes succeeding: the count rises by 1 | each tap adds one to the count, so two taps add 2 | medium, not executed | FirebaseManager.OverlappingTapsLoseOne | FirebaseManager.SequentialTapsCountBoth |
| CornerApp/Managers/FirebaseManager.swift:184-212 | `likeFact` (and `dislikeFact`, 220-226) also start from the cached profile, so an overlapping second save overwrites the first | liking fact a, then fact b before the first write completes, both writes succeeding: only b is liked | both facts end up liked | medium, not executed | FirebaseManager.OverlappingLikesLoseFirst | FirebaseManager.SequentialLikesKeepBoth |

The screens' members (`MainScreen.CornerButtonTapped`, `MainScreen.ReactionTapped`) apply each operation to the profile the previous one left, which is the intended behaviour.

## Left out

- Sign-in, sign-up and sign-out against the authentication backend, and the auth-state listener: these are network calls. Only the requests the screen issues and its reaction to their outcome are modelled.
- Downloading and decoding fact packs (`loadFactsFromFactPack`, the sample facts): network and JSON I/O. A load's outcome is the `loadOk` parameter.
- `CommentManager` and the comment-like toggle: not part of this model.
- `CommentCell`: not part of this model. Its `configure(with:)` reads a `likes` field that `Comment` does not declare. The comment screen calls a `configure(with:factID:)` that `CommentCell` does not declare.
- Asynchronous delivery: each completion is modelled as if it ran at once on the main queue. This covers the `DispatchGroup` fan-out of the statistics queries, the delayed dismissal and the order in which callbacks arrive. The order in which the comment queries return is the input sequence `gathered`. The members behind "## Findings" are the exception: they model two writes in flight at once.
- UIKit layout, keyboard handling, alerts as views, sounds, haptics, sharing, the splash screen, `setButtonsEnabled` and the emoji search: presentation only.
- Date formatting: `Date` is an integer timestamp.
- Grapheme clusters: `String.count` is the number of code points, and `whitespacesAndNewlines` is an explicit list of code points.
- FirebaseManager.IncrementCornerTaps: does not model the trap on `Int` overflow, because taps are unbounded integers.
- MainScreen.ValidChoice: only says that `randomElement()` returns one of the facts. It does not model the random distribution.
- CommentScreen.SendComment: the UUID is a parameter, so its uniqueness is assumed rather than modelled.
- `Fact` declares only `id`, `text` and `category`, but the screens read `emojis` and `factPack` from it. The model includes both fields as optional.
- FirebaseManager.LikeFact: the write's success is a parameter. An encoding failure and a failed write both count as `writeOk == false`.
- StatsScreen.TopPack: Swift's `max(by:)` keeps the first maximum in dictionary order. That order is unspecified, so it is the parameter `order`. The contract says only that the chosen pack has the most likes.
