# Smart Safety: verified models of the hardware tool-chain and of the safety backend

This project models the parts of the Smart Safety repository where a mistake is hard to see by
reading one function, and proves what those parts are meant to guarantee.  Each component is one
module in one file.

**Hardware tool-chain**

- `ThermalWindow` - the charge-temperature check.  A few tolerance corners and three temperatures are
  shown to decide the question for every board and every temperature.
- `BalancedScan`, `FieldSync`, `StackupRewrite`, `StackupAcceptance`, `StackupThickness`, `SexpTrees`,
  `StackupMeaning` - surgery on S-expression text: the scanner inverts a printer, the deletion loop removes a
  union of extents, the stackup rewrite says exactly which boards it accepts and what they become, keeps a board
  balanced, and gives the same trees when run again.
- `PowerTracks` - widening of supply tracks against an opaque checker, with back-off and rollback: each
  width is told by the checks that the track offended in.
- `BoardPlacement` - greedy placement: exactly the legal positions, and the nearest of them.

**Backend and client**

- `RefreshRotation`, `SessionStore`, `ApiSession`, `AccessTokens` - refresh-token rotation under interleaving,
  the token that the client keeps, the composition of both in the client's single-flight refresh, and which
  access token its calls get.
- `RateLimit` - the sliding-window limiter against a log of everything it accepted.
- `GuardianConsent`, `ConsentRoles`, `Emergencies` - two state machines with history: consent of guardians,
  and emergencies whose updates read before their transaction.
- `Migrations` - the migration runner, alone and among others that may die.
- `PushPipeline` - audience, classification of provider replies, and pruning of dead tokens.
- `WebSocketRegistry` - two indices of connections, and deliveries that interleave with disconnects.

`Prelude`, `Sequences` and `PythonText` hold result types, equations about sequences and Python's character
classes.

Code that changes fields is a class whose methods are tied by their contracts to functions on values
(`Apply`, `Serial`, `Created`, `Rewrite`, ...); what the code promises is then proved about those
functions, over every run or every interleaving.  Where requests interleave, a state machine uses the
same functions as its atomic steps.  Clocks, fresh identifiers, provider replies, failures of the
secure store or of a database call, the design-rule checker and the execution of SQL are parameters.

Some properties that one would expect do not hold of the code in full generality.  For each the exact
condition is proved, and a run that shows the failure:

- `logout_all` ends every session for good if and only if no rotation of that user stands between its
  revoke and its issue (`RefreshRotation.LogoutAllIsFinalIff`, `RefreshRotation.RotationOutlivesLogoutAll`).
- An emergency's audit events form one path if and only if no update committed after the status it had
  read was gone (`Emergencies.ContiguousIffNeverStale`); a late acknowledgement can reopen a closed
  emergency (`Emergencies.ReopenedIff`, `Emergencies.ClosedThenAcknowledged`).
- A registration links every invite to its email if and only if each of them is pending and linking does
  not fail (`GuardianConsent.RegistrationLinksAllIff`, `ConsentRoles.RejectedInviteStaysUnlinked`).
- The owner's last word on an accepted guardian was an invite or a reopening if and only if the last move
  to pending was the owner's; a guardian can overrule a rejection (`ConsentRoles.OwnersLastWordIff`,
  `ConsentRoles.GuardianOverrulesRejection`).
- A session is reported lost although nobody revoked it if and only if the server answered a refresh with
  an error that says nothing of the token: the client ends the session on every such answer, also when the
  route's rate limiter turned it away (`ApiSession.SessionIsSafe`, `ApiSession.FailureLosesSession`).  That
  limiter turns nobody away if and only if no window holds more checks of a key than it allows
  (`RateLimit.NobodyIsTurnedAwayIff`).
- A saved refresh token is what later loads yield if and only if it reached the secure store or the app
  was not restarted, and a clearing lasts if and only if it reached the store or the store was empty
  (`SessionStore.SavedTokenIsLoadedIff`, `SessionStore.ClearingLastsIff`).  A restart of the app keeps the
  session if and only if the last renewal reached the store; otherwise it comes back with a consumed token
  (`ApiSession.RestartKeepsSessionIff`, `ApiSession.RestartLosesSession`).

Where the code and its own description differ, the model follows the code: the deletion loop of
`sync_board_fields.py` is safe if the scan of each match passes the later ones in an unchanged state, as it
does when all matches are outside string literals (`FieldSync.DeletedIsUnion`, `FieldSync.MatchesAreTidy`).
A match inside a literal can make it raise, or leave an unbalanced file without raising
(`FieldSync.MatchInsideStringBreaksLoop`, `FieldSync.MatchInsideStringUnbalances`), but need not
(`FieldSync.MatchInsideStringMayBeHarmless`): the condition is sufficient.  A rerun of the stackup script adds
a blank line (`StackupRewrite.NextRun`).

## Model

| member | source | states |
|---|---|---|
| `ThermalWindow.CornersBoundEveryBoard` | smart-safety-tag-v1/scripts/check_thermal_window.py:46-71 | at every temperature, every board inside the continuous tolerance box has its TS voltage and both references within the ranges computed at the corners |
| `ThermalWindow.CornersAreReached` | smart-safety-tag-v1/scripts/check_thermal_window.py:46-71 | the ranges are tight: a board inside the box reaches either end of the TS range together with both upper or both lower ends of the two references, which share one supply voltage |
| `ThermalWindow.VerdictsQuantifyOverBoards` | smart-safety-tag-v1/scripts/check_thermal_window.py:74-86 | each verdict holds at the corners if and only if it holds for every board in the box |
| `ThermalWindow.TsFallsWithTemperature` | smart-safety-tag-v1/scripts/check_thermal_window.py:37-39 | the TS voltage of any board falls strictly with temperature, whatever the direction in beta |
| `ThermalWindow.VerdictsAreMonotone` | smart-safety-tag-v1/scripts/check_thermal_window.py:74-81 | blocked-hot is upward closed and blocked-cold downward closed in temperature |
| `ThermalWindow.AllowedIsAnInterval` | smart-safety-tag-v1/scripts/check_thermal_window.py:84-86 | the temperatures at which charging is certainly allowed form an interval |
| `ThermalWindow.AllowedExcludesBlocked` | smart-safety-tag-v1/scripts/check_thermal_window.py:74-86 | allowed never overlaps a blocked verdict |
| `ThermalWindow.AssertedTemperatures` | smart-safety-tag-v1/scripts/check_thermal_window.py:89-100 | the script's three assertions follow from two laws of exp and the resistor values |
| `ThermalWindow.ReferenceNumbers` | smart-safety-tag-v1/scripts/circuit_data.py:93-96 | where the reference ranges lie for the resistors R11 to R14 |
| `ThermalWindow.WindowIsSettled` | smart-safety-tag-v1/scripts/check_thermal_window.py:89-100 | the three temperatures settle all: every board is blocked at 45 degrees and above and at 0 and below, and allowed at 25 |
| `BalancedScan.BalancedEnd` | smart-safety-tag-v1/scripts/set_fabrication_stackup.py:32-52 | the loop computes `EndOf`, and raises where that has no value |
| `BalancedScan.EndOfIsFirstClose` | smart-safety-tag-v1/scripts/set_fabrication_stackup.py:32-52 | the result is the first position where the unquoted depth returns to zero; it raises if and only if there is none |
| `BalancedScan.EndInvertsPrint` | smart-safety-tag-v1/scripts/set_fabrication_stackup.py:32-52 | from the opening parenthesis of any printed S-expression, in any surroundings, it returns exactly the end of the print |
| `BalancedScan.AcceptedIsPrinted` | smart-safety-tag-v1/scripts/set_fabrication_stackup.py:32-52 | conversely, whatever it accepts from an opening parenthesis is the print of an S-expression |
| `FieldSync.DeleteMatches` | smart-safety-tag-v1/scripts/sync_board_fields.py:73-76 | for any increasing positions the loop cuts right to left as `Deleted` says; where the scan of each match passes the later ones in an unchanged state, as for matches outside string literals, it removes exactly the union of the extents in the original text, and raises if and only if some match has no end there |
| `FieldSync.DeletedIsUnion` | smart-safety-tag-v1/scripts/sync_board_fields.py:73-76 | for such matches cutting right to left, each end found in text already edited, is removing the union of the original extents |
| `FieldSync.MatchesAreTidy` | smart-safety-tag-v1/scripts/sync_board_fields.py:72-76 | matches outside string literals are such matches |
| `FieldSync.CutExtendsUnion` | smart-safety-tag-v1/scripts/sync_board_fields.py:74-76 | an end found in already edited text cuts what the original extent still covers, nested matches included |
| `FieldSync.ExtentsNest` | smart-safety-tag-v1/scripts/sync_board_fields.py:74-76 | of two such matches, one lies inside the other or they are disjoint |
| `FieldSync.DeletionKeepsBalance` | smart-safety-tag-v1/scripts/sync_board_fields.py:67-78 | a balanced file stays balanced, if the scan of the whole file, too, passes the matches in an unchanged state |
| `FieldSync.BalancedIsPrinted` | smart-safety-tag-v1/scripts/sync_board_fields.py:67-69 | balanced means: the print of a sequence of S-expressions |
| `FieldSync.MatchInsideStringBreaksLoop` | smart-safety-tag-v1/scripts/sync_board_fields.py:72-76 | in a text where the regular expression matches at 0 and, inside a string literal, at 30, both expressions have an end and the loop raises |
| `FieldSync.MatchInsideStringUnbalances` | smart-safety-tag-v1/scripts/sync_board_fields.py:72-76 | in a balanced text where it matches at 0 and, inside a string literal, at 30, the loop does not raise and leaves a lone parenthesis |
| `FieldSync.MatchInsideStringMayBeHarmless` | smart-safety-tag-v1/scripts/sync_board_fields.py:72-76 | a match inside a string literal need not hurt: in another text the matches are passed in an unchanged state and the loop removes exactly the union |
| `StackupAcceptance.RewriteBoard` | smart-safety-tag-v1/scripts/set_fabrication_stackup.py:57-66 | the body of the loop: it accepts a board if and only if its first stackup, if it has one, closes, and what is left has a thickness and exactly one setup line; it raises from the scanner if and only if the first stackup does not close |
| `StackupAcceptance.AcceptedIff` | smart-safety-tag-v1/scripts/set_fabrication_stackup.py:57-66 | the same about `Rewrite`, over where the patterns occur, where the expression closes and where the thickness stands |
| `StackupAcceptance.AcceptedBecomes` | smart-safety-tag-v1/scripts/set_fabrication_stackup.py:57-66 | an accepted board, with or without a stackup, becomes the same text without its first stackup, with its leftmost thickness number replaced by 1.0 and with the indented stackup on lines of its own after its one setup line |
| `StackupAcceptance.CutIff` | smart-safety-tag-v1/scripts/set_fabrication_stackup.py:58-61 | the cut leaves the text alone if and only if no stackup occurs, and otherwise removes the first one up to its close |
| `StackupAcceptance.CountIsOneIff` | smart-safety-tag-v1/scripts/set_fabrication_stackup.py:63 | counting occurrences that do not overlap gives one if and only if the setup line occurs at exactly one position |
| `StackupThickness.StackupIsOneMillimetre` | smart-safety-tag-v1/scripts/set_fabrication_stackup.py:2-6 | the thicknesses written in the script's stackup add up to 1 mm |
| `StackupRewrite.FirstRun` | smart-safety-tag-v1/scripts/set_fabrication_stackup.py:57-66 | an accepted board with at most one stackup becomes a settled text with the stackup after its setup line |
| `StackupRewrite.NextRun` | smart-safety-tag-v1/scripts/set_fabrication_stackup.py:57-66 | every further run is accepted, adds exactly one blank line and keeps exactly one stackup |
| `StackupRewrite.SetThicknessTwice` | smart-safety-tag-v1/scripts/set_fabrication_stackup.py:62 | setting the general thickness is idempotent |
| `StackupRewrite.ThicknessSetAtFirstSite` | smart-safety-tag-v1/scripts/set_fabrication_stackup.py:62 | the substitution fails if and only if the pattern occurs nowhere; otherwise it replaces the whole number of the leftmost occurrence by 1.0 and nothing else |
| `StackupRewrite.BlankLineIsLayout` | smart-safety-tag-v1/scripts/set_fabrication_stackup.py:65 | the blank line changes no atom, string or parenthesis, if the setup line is outside strings |
| `StackupRewrite.RewriteIsIdempotent` | smart-safety-tag-v1/scripts/set_fabrication_stackup.py:55-66 | twice equals once up to one blank line, with exactly one stackup after either; the squeezed texts and the S-expression trees are the same if the setup line is outside strings |
| `StackupRewrite.FindIsFirst` | smart-safety-tag-v1/scripts/set_fabrication_stackup.py:58 | the search finds the first occurrence, and none if and only if there is none |
| `StackupRewrite.ScriptStackup` | smart-safety-tag-v1/scripts/set_fabrication_stackup.py:16-29 | the script's own stackup is a well-formed stackup expression |
| `StackupMeaning.RewriteKeepsBalance` | smart-safety-tag-v1/scripts/set_fabrication_stackup.py:57-66 | a balanced board stays balanced, if the old stackup and the setup line start outside string literals |
| `StackupMeaning.SecondRunKeepsTrees` | smart-safety-tag-v1/scripts/set_fabrication_stackup.py:55-66 | a run on a balanced board with at most one stackup gives a board that has S-expression trees, and a second run the same trees |
| `StackupMeaning.ExchangeKeepsBalance` | smart-safety-tag-v1/scripts/set_fabrication_stackup.py:61-65 | a piece of a balanced text may be exchanged for another that the scanner passes in the same state |
| `SexpTrees.TreesIff` | smart-safety-tag-v1/scripts/set_fabrication_stackup.py:32-52 | the trees read from a text are the only ones whose tokens are those of the text |
| `SexpTrees.LayoutDoesNotMatter` | smart-safety-tag-v1/scripts/set_fabrication_stackup.py:65 | texts that differ only in how much blank space they have outside strings have the same trees |
| `SexpTrees.BalancedHasTrees` | smart-safety-tag-v1/scripts/set_fabrication_stackup.py:32-52 | every balanced text has trees |
| `PowerTracks.BoardFile.Drc` | smart-safety-tag-v1/scripts/refine_power_tracks.py:32-37 | a check reports the findings of the current widths and saves refilled zones, or crashes and changes nothing |
| `PowerTracks.BoardFile.Widen` | smart-safety-tag-v1/scripts/refine_power_tracks.py:51-57 | every supply track gets the larger of its width and its net's target; no other track moves |
| `PowerTracks.BoardFile.BackOff` | smart-safety-tag-v1/scripts/refine_power_tracks.py:77-80 | each offending track gives back one step, never below its original width |
| `PowerTracks.BoardFile.Narrow` | smart-safety-tag-v1/scripts/refine_power_tracks.py:67-80 | after a failed check the widths become those of the next pass; "could not resolve" is unreachable |
| `PowerTracks.BoardFile.Attempt` | smart-safety-tag-v1/scripts/refine_power_tracks.py:60-80 | one turn of the loop: clean, one pass further, or raising because the checker, loading or saving fails |
| `PowerTracks.BoardFile.RefineLoop` | smart-safety-tag-v1/scripts/refine_power_tracks.py:59-82 | the loop ends at the first clean check, at a fault of the checker, of loading or of saving, or after ten failed checks |
| `PowerTracks.BoardFile.Refine` | smart-safety-tag-v1/scripts/refine_power_tracks.py:44-85 | it returns only on a saved board whose last check was clean, any raise inside the loop restores the original file; every width is then the target less 0.1 mm for each failed check that the track offended in, or the original if that is larger, and if no check reports anything every supply track ends at the larger of its width and its target |
| `PowerTracks.RunIsHistory` | smart-safety-tag-v1/scripts/refine_power_tracks.py:55-80 | after any number of failed checks every width is the one that the track has earned by the checks it offended in, and so was every width that a check saw |
| `PowerTracks.OffendingIff` | smart-safety-tag-v1/scripts/refine_power_tracks.py:68-74 | the tracks that step back are the widened ones that a finding names or, if no finding names a widened one, all of them |
| `PowerTracks.BelowTargetIff` | smart-safety-tag-v1/scripts/refine_power_tracks.py:56-80 | a supply track ends below its target if and only if it offended in some failed check |
| `PowerTracks.WidthsStayBounded` | smart-safety-tag-v1/scripts/refine_power_tracks.py:51-80 | at every pass each width lies between its original and the larger of original and target |
| `PowerTracks.SomethingOffends` | smart-safety-tag-v1/scripts/refine_power_tracks.py:67-76 | if the checker is clean at the baseline, a failed check always leaves a widened track to narrow |
| `PowerTracks.FailedPassProgresses` | smart-safety-tag-v1/scripts/refine_power_tracks.py:77-80 | each failed pass strictly lowers the total excess, and by at least one step |
| `PowerTracks.UncappedLoopEnds` | smart-safety-tag-v1/scripts/refine_power_tracks.py:60-82 | without the cap a clean check comes within the sum of ceil(excess / 0.1 mm) passes |
| `PowerTracks.FileEndsClean` | smart-safety-tag-v1/scripts/refine_power_tracks.py:44-85 | however `refine` ends, the file is clean and within the width bounds |
| `PowerTracks.TenAttemptsSuffice` | smart-safety-tag-v1/scripts/refine_power_tracks.py:60-82 | with a total excess below ten steps and no fault, `refine` succeeds |
| `BoardPlacement.IntersectsMeansNear` | smart-safety-tag-v1/scripts/place_tag_board.py:99-101 | two boxes intersect with a gap if and only if they hold points closer than the gap along both axes |
| `BoardPlacement.FitsIffLegal` | smart-safety-tag-v1/scripts/place_tag_board.py:104-132 | checking one new part against the placed ones succeeds if and only if the layout with it keeps all pairwise separations, outline, module and pack rules |
| `BoardPlacement.InsideIff` | smart-safety-tag-v1/scripts/place_tag_board.py:109-115 | the outline test means that no point of the box is closer than 0.45 mm to an edge of the board |
| `BoardPlacement.Placer.Obstacle` | smart-safety-tag-v1/scripts/place_tag_board.py:107-130 | no obstacle is found if and only if the part fits |
| `BoardPlacement.Placer.Place` | smart-safety-tag-v1/scripts/place_tag_board.py:104-132 | the part is recorded if and only if it fits; otherwise `placed` and all other parts are untouched |
| `BoardPlacement.Candidates` | smart-safety-tag-v1/scripts/place_tag_board.py:139-146 | the candidates are exactly the half-millimetre grid points within 14 mm of the anchor, each with its squared distance |
| `BoardPlacement.Sorted` | smart-safety-tag-v1/scripts/place_tag_board.py:147 | sorting orders by distance, x, y and keeps exactly the same points |
| `BoardPlacement.Placer.AutomaticPlace` | smart-safety-tag-v1/scripts/place_tag_board.py:135-150 | the part lands on the fitting grid point that is nearest to its anchor, of equally near ones the first by x and then y; it raises if and only if there is no anchor or no grid point fits, and then nothing else has changed |
| `BoardPlacement.Placer.PlaceFixed` | smart-safety-tag-v1/scripts/place_tag_board.py:255-256 | the layout is legal after every fixed part, and on success each of them stands at its spot |
| `BoardPlacement.Placer.PlaceComponents` | smart-safety-tag-v1/scripts/place_tag_board.py:257-260 | the layout stays legal, no placed part is moved, and on success every component is placed |
| `BoardPlacement.Placer.PlaceAll` | smart-safety-tag-v1/scripts/place_tag_board.py:254-260 | after the two loops, also when one raises, the layout obeys all design rules; on success all parts are placed and the fixed ones stand at their spots |
| `RefreshRotation.RefreshTokensRepository.Create` | server/app/auth/repository.py:17-28 | inserts one unrevoked row |
| `RefreshRotation.RefreshTokensRepository.RevokeByJti` | server/app/auth/repository.py:37-42 | revokes a live row and says whether there was one |
| `RefreshRotation.RefreshTokensRepository.RevokeAllForUser` | server/app/auth/repository.py:44-53 | revokes exactly the user's rows and counts those that were live |
| `RefreshRotation.AuthService.Login` | server/app/auth/service.py:91-103 | succeeds if and only if the account exists, the password verifies and the account is not disabled, and then adds one live token; the error says why not |
| `RefreshRotation.AuthService.Refresh` | server/app/auth/service.py:105-128 | succeeds if and only if the token is live and unexpired, and then replaces it by its successor; the error says why not |
| `RefreshRotation.AuthService.Logout` | server/app/auth/service.py:130-138 | revokes exactly the presented token |
| `RefreshRotation.AuthService.LogoutAll` | server/app/auth/service.py:140-141 | revokes all of the user's tokens |
| `RefreshRotation.SerialRefreshIsThreeSteps` | server/app/auth/service.py:105-128 | a refresh without interference is its read, conditional revoke and issue in a row |
| `RefreshRotation.StepKeepsInv` | server/app/auth/service.py:105-128 | every atomic step of any request keeps the rotation invariant |
| `RefreshRotation.AtMostOneLivePerChain` | server/app/auth/service.py:123-128 | in every interleaving tokens form chains with one login root each, each token has at most one successor, and at most one token of a chain is unrevoked |
| `RefreshRotation.LiveIsUnique` | server/app/auth/service.py:123-128 | in any state that satisfies the invariant every token descends from a login, and two unrevoked tokens with one root are the same |
| `RefreshRotation.ChainsDoNotFork` | server/app/auth/service.py:123-128 | any two descendants of one token are comparable |
| `RefreshRotation.RevocationIsFinal` | server/app/auth/repository.py:37-53 | over any run no row is lost, changes owner or expiry, or comes back to life |
| `RefreshRotation.LogoutAllIsFinalIff` | server/app/auth/service.py:140-141 | no token of the user is ever live again without a login if and only if no rotation of the user was between revoke and issue |
| `RefreshRotation.RotationOutlivesLogoutAll` | server/app/auth/service.py:105-141 | it happens from any reachable state: login, read and revoke of a refresh, logout of all, then the issue leave the user a live token |
| `SessionStore.Session.SaveRefreshToken` | client/src/services/session.ts:20-30 | the token goes to memory, and to the store if that works |
| `SessionStore.Session.LoadRefreshToken` | client/src/services/session.ts:32-44 | memory first, then the store, which is cached |
| `SessionStore.Session.ClearSession` | client/src/services/session.ts:46-58 | memory is emptied, and the store if that works |
| `SessionStore.LoadYields` | client/src/services/session.ts:20-58 | after any run of saves, loads, clears and restarts, each of whose accesses to the store may fail: what a load yields |
| `SessionStore.SavedTokenIsLoadedIff` | client/src/services/session.ts:20-44 | a saved token is what every later load yields, until a save or clear, if and only if it reached the store or the app was not restarted; otherwise the token before it comes back |
| `SessionStore.ClearingLastsIff` | client/src/services/session.ts:46-58 | no load of any later run without a save yields a token if and only if the clearing reached the store or the store was empty |
| `ApiSession.ApiClient.RefreshAccessToken` | client/src/services/api.ts:107-109 | a call joins the running refresh or starts the only one |
| `ApiSession.ApiClient.BeginRefresh` | client/src/services/api.ts:111-114 | the stored token is sent, or the refresh ends with nothing |
| `ApiSession.ApiClient.EndRefresh` | client/src/services/api.ts:115-131 | any answer but a pair clears the session and reports it lost; a pair is stored; the waiting calls get the client's new access token, or nothing |
| `ApiSession.PerformKeepsInv` | client/src/services/api.ts:61-136 | every action of client, server or another client keeps the composed invariant, except the delivery of an error reply that says nothing of the token |
| `ApiSession.ChainIsByRoot` | server/app/auth/service.py:123-128 | the client's tokens are exactly those whose root is its login |
| `ApiSession.SessionIsSafe` | client/src/services/api.ts:61-136 | for any number of concurrent calls and any failures of the server: at most one refresh runs, each call sends at most twice, at most one token of the chain is unrevoked, and "lost" is emitted if and only if an error reply that says nothing of the token was delivered; until then no refresh token is presented twice, and at rest the stored token is the only unrevoked one of its chain |
| `ApiSession.FailureLosesSession` | client/src/services/api.ts:116-121 | it happens after every login: a refresh turned away before the server looks at the token makes the client clear it and emit "lost", while the token is still live |
| `ApiSession.PerformKeepsOrder` | client/src/services/api.ts:61-136 | every action, failed refreshes included, keeps a single refresh running and every call at no more than two requests |
| `ApiSession.RestartKeepsSessionIff` | client/src/services/session.ts:20-44 | for every run without a failed refresh: whenever none is running, the token that a restarted app finds is honoured by the server if and only if the save of the last renewal reached the secure store |
| `ApiSession.RestartLosesSession` | client/src/services/session.ts:20-44 | it happens after every login: one renewal whose save fails, and a restart comes back with the consumed login token |
| `ApiSession.RefreshCompletes` | client/src/services/api.ts:107-131 | from every stage a refresh of an unexpired token that has not failed has actions left that finish it, as many as its stage says |
| `ApiSession.RefreshCanFinish` | client/src/services/api.ts:107-136 | the session does not get stuck: in any state after a login in which no refresh has failed, the running refresh can finish within six actions and give every waiting call a new access token |
| `AccessTokens.RenewalReachesCalls` | client/src/services/api.ts:108-136 | after any run, a refresh that has got its pair ends with every waiting call, and the client, holding the access token that the server issued for that refresh |
| `AccessTokens.ResumedWithIssued` | client/src/services/api.ts:70-73 | no call is resumed with a token that the server did not issue |
| `AccessTokens.ResumedCallsFinish` | client/src/services/api.ts:68-76 | a call that got a new token ends having sent its request twice, one that got none having sent it once |
| `RateLimit.SlidingWindowLimiter.Check` | server/app/core/ratelimit.py:26-36 | accepts if and only if fewer than max accepted hits of the key lie in the window, as the full log says; tracked keys stay bounded or in use |
| `RateLimit.SlidingWindowLimiter.Evict` | server/app/core/ratelimit.py:28-31 | popping from the left leaves the queue without its old times |
| `RateLimit.SlidingWindowLimiter.Accept` | server/app/core/ratelimit.py:34 | the hit is appended and the queues still show the log |
| `RateLimit.SlidingWindowLimiter.Prune` | server/app/core/ratelimit.py:38-42 | only keys without a hit in the window go, and the log is shown as before |
| `RateLimit.ReflectsPruning` | server/app/core/ratelimit.py:38-42 | pruning changes no later decision: every key's queue shows the same window |
| `RateLimit.ReflectsLater` | server/app/core/ratelimit.py:29-31 | queues that show the log now show it at every later time |
| `RateLimit.ReflectsEviction` | server/app/core/ratelimit.py:28-31 | evicting one key's old times leaves every key showing the log |
| `RateLimit.ReflectsHit` | server/app/core/ratelimit.py:34 | appending a hit to queue and log keeps them in step |
| `RateLimit.RecentLater` | server/app/core/ratelimit.py:29-31 | evicting from the recent hits of an ordered log is looking at a later window |
| `RateLimit.NoWindowOverflows` | server/app/core/ratelimit.py:26-36 | whatever the checks, no window of that length, wherever it ends, holds more than max accepted hits of a key |
| `RateLimit.AcceptedIff` | server/app/core/ratelimit.py:26-34 | a check is accepted, and logged, if and only if fewer than max logged hits of its key lie in the window that ends with it |
| `RateLimit.NobodyIsTurnedAwayIff` | server/app/core/ratelimit.py:26-36 | all checks are accepted if and only if no window holds more than max checks of a key, refused ones counted too |
| `GuardianConsent.GuardiansService.Invite` | server/app/guardians/service.py:20-51 | the tables and the error after an invite, re-invite or refusal |
| `GuardianConsent.GuardiansService.UpdateStatus` | server/app/guardians/service.py:69-89 | the tables and the error after a status change |
| `GuardianConsent.GuardiansService.Remove` | server/app/guardians/service.py:91-92 | the same for a removal |
| `GuardianConsent.GuardiansService.AssertCanRead` | server/app/guardians/service.py:94-99 | grants reading if and only if it is oneself or an accepted guardian |
| `GuardianConsent.GuardiansService.Register` | server/app/auth/service.py:42-66 | the account, and pending invites to its email linked unless linking fails |
| `GuardianConsent.GuardiansRepository.FindByProtectedAndEmail` | server/app/guardians/repository.py:53-59 | the one link for owner and email, if there is one |
| `GuardianConsent.GuardiansRepository.LinkPendingForEmail` | server/app/guardians/repository.py:78-87 | row by row, exactly the pending, unlinked invites to the email get the user, and their number is reported |
| `GuardianConsent.GuardiansRepository.IsAcceptedGuardian` | server/app/guardians/repository.py:89-96 | true if and only if an accepted link to this user exists |
| `GuardianConsent.GuardiansRepository.AcceptedGuardianUserIds` | server/app/guardians/repository.py:98-105 | exactly the linked users of accepted links |
| `GuardianConsent.ApplyKeepsSound` | server/app/guardians/service.py:20-92 | every operation keeps: linked users own the invited email, no self-links, one link per owner and email; links keep owner, email and guardian |
| `GuardianConsent.LinkStep` | server/app/guardians/service.py:7-12 | every status change of a row is one that its actor was entitled to |
| `GuardianConsent.InviteGoesThroughIff` | server/app/guardians/service.py:30-51 | an invite goes through if and only if the email is not the owner's and no live link to it exists; it leaves one pending link tied to the account with that email, if any |
| `GuardianConsent.AcceptedMeansConsent` | server/app/guardians/service.py:69-89 | in every run an accepted link was first invited by its owner and last accepted, from pending, by its linked user, whose account has the invited email |
| `GuardianConsent.ReadersConsented` | server/app/guardians/service.py:94-99 | whoever can read another's data was invited by that user and consented after the latest move to pending |
| `GuardianConsent.LinksAreProper` | server/app/guardians/service.py:30-42 | nobody guards themselves, one link per owner and email, and a removed link returns only by its owner's new invite |
| `GuardianConsent.RemovalEndsReading` | server/app/guardians/service.py:91-92 | a removal by either side ends the guardian's reading at once |
| `GuardianConsent.RegistrationLinksAllIff` | server/app/auth/service.py:57-65 | a new account gets all invites to its email if and only if each is pending and linking does not fail |
| `ConsentRoles.RejectedInviteStaysUnlinked` | server/app/auth/service.py:57-65 | it happens: invite, reject, register the invited email, reopen leave a pending invite that its account cannot accept |
| `ConsentRoles.ReachesAloneIff` | server/app/guardians/service.py:69-92 | exactly which statuses the owner alone, and the guardian alone, can bring a link to by any number of requests: the owner never an acceptance, the guardian never anything from removed |
| `ConsentRoles.OthersReachNothing` | server/app/guardians/service.py:73-76 | no requests of anybody else change a link at all |
| `ConsentRoles.OwnersLastWordIff` | server/app/guardians/service.py:77-86 | on an accepted link the owner's last word was an invite or reopening if and only if the last move to pending was the owner's; otherwise it was a rejection that the guardian reopened |
| `ConsentRoles.GuardianOverrulesRejection` | server/app/guardians/service.py:77-86 | it happens: the owner rejects, the guardian reopens and accepts, and can read |
| `ConsentRoles.InvitedPair` | server/app/guardians/service.py:20-51 | two accounts and an invite lead to a pending, linked invite, from which that run starts |
| `Emergencies.EmergenciesRepository.UpdateStatus` | server/app/emergencies/repository.py:109-121 | a terminal status stamps `resolved_at`, no other clears it |
| `Emergencies.EmergenciesRepository.CreateEvent` | server/app/emergencies/repository.py:50-71 | the old log is a proper prefix of the new, which ends in the entry; all other logs stay |
| `Emergencies.EmergenciesService.Create` | server/app/emergencies/service.py:65-122 | the active row and its first event in the owner's name, or a refusal for another's device that changes nothing |
| `Emergencies.EmergenciesService.MayWriteStatus` | server/app/emergencies/service.py:54-63 | the owner and accepted guardians may change the status |
| `Emergencies.EmergenciesService.UpdateStatus` | server/app/emergencies/service.py:176-216 | an update without interference: who is refused and why; if it moves the row, the new row, and an event with the actor, the status before, the target and the time at the end of the log; otherwise nothing changes |
| `Emergencies.EventStems` | server/app/emergencies/service.py:179-214 | in every interleaving each event after the first carries the actor and the target of one request that had passed its permission check, the status that it read, and the time of its commit |
| `Emergencies.FirstEventStems` | server/app/emergencies/service.py:65-122 | the first event was logged by the opening, in the owner's name |
| `Emergencies.CommitLogs` | server/app/emergencies/service.py:189-203 | conversely each commit appends exactly such an event to its emergency and changes no other |
| `Emergencies.EveryRunIsAudited` | server/app/emergencies/service.py:189-203 | in every interleaving every event is an allowed pair, the status is the last committed target and `resolved_at` the last terminal commit's time |
| `Emergencies.StepKeepsInv` | server/app/emergencies/service.py:176-216 | each step of any interleaving keeps that |
| `Emergencies.NothingIsForgotten` | server/app/emergencies/repository.py:109-121 | over any run `resolved_at` is never cleared, the owner never changes, events are only appended |
| `Emergencies.ContiguousIffNeverStale` | server/app/emergencies/service.py:179-203 | the events form one path if and only if no commit of this emergency was stale |
| `Emergencies.ReopenedIff` | server/app/emergencies/repository.py:109-121 | after every interleaving `resolved_at` is in step with the status if and only if the emergency was not acknowledged after it had been closed, which takes a stale commit |
| `Emergencies.ClosedThenAcknowledged` | server/app/emergencies/service.py:179-203 | two updates that read an active emergency can close and then acknowledge it |
| `Emergencies.PathIsShort` | server/app/emergencies/service.py:17-29 | a path has at most three events, only the last terminal, and `resolved_at` is set if and only if the status is terminal |
| `Emergencies.SerialRunsAreProper` | server/app/emergencies/service.py:176-216 | serial runs: one allowed path of at most three events, `resolved_at` set if and only if terminal, terminal emergencies never change |
| `Emergencies.ReachableByUpdatesIff` | server/app/emergencies/service.py:176-216 | exactly which statuses an actor can bring an emergency to by any number of serial updates: if permitted every one further from creation, otherwise none but the present one |
| `Emergencies.SerialIsReadThenCommit` | server/app/emergencies/service.py:176-203 | a serial update is a read directly followed by its commit |
| `Migrations.Connection.RunMigrations` | server/app/db/migrate.py:33-62 | one run: an empty directory touches nothing; otherwise the outcome of the files in order, up to the first failure |
| `Migrations.Connection.Apply` | server/app/db/migrate.py:52-57 | SQL and version are committed together or not at all |
| `Migrations.ThroughAppliesMissing` | server/app/db/migrate.py:45-58 | a run applies the missing files in order up to the first whose SQL fails; schema, versions and result say so |
| `Migrations.SecondRunDoesNothing` | server/app/db/migrate.py:1 | the runner is idempotent |
| `Migrations.CommitIsNext` | server/app/db/migrate.py:52-57 | with any number of runners, only the file after the recorded prefix can commit |
| `Migrations.StepKeepsInv` | server/app/db/migrate.py:33-62 | every step, and every crash, keeps the prefix invariant |
| `Migrations.MigrationsAreInOrder` | server/app/db/migrate.py:33-62 | in every interleaving with crashes the recorded versions are a prefix, each migration commits at most once and in order, the schema is their fold, and a finished runner means all |
| `Migrations.LoneRunnerFinishes` | server/app/db/migrate.py:33-62 | after any such run a new runner that is left alone finishes, if the SQL succeeds in order |
| `PushPipeline.FcmProvider.AccessToken` | server/app/notifications/fcm.py:68-102 | a bearer token is reused only with more than five minutes left, else exchanged and cached |
| `PushPipeline.FcmProvider.ReadReply` | server/app/notifications/fcm.py:151-171 | when the reply to one message means delivered, invalid or failed, by its status and the fields of its body |
| `PushPipeline.FcmProvider.SendAll` | server/app/notifications/fcm.py:139-174 | the three lists hold the tokens of each verdict in order, or the code raises |
| `PushPipeline.FcmProvider.SendToTokens` | server/app/notifications/fcm.py:126-174 | no tokens give an empty report, failed authentication fails all, otherwise the tokens are sorted by verdict |
| `PushPipeline.ClassifiedIff` | server/app/notifications/fcm.py:27-42 | every verdict by the reply's own fields: a token is held dead if and only if an error reply's code, the first detail's or else the status, is unregistered, or is invalid argument and a violation names the token; payload errors never prune |
| `PushPipeline.TokenBlamedIff` | server/app/notifications/fcm.py:35-41 | the search over the details finds a blaming violation if and only if there is one before it would raise, and raises if and only if it comes to a detail that does so first |
| `PushPipeline.ReportIsPartition` | server/app/notifications/fcm.py:126-174 | delivered, invalid and failed together are a permutation of the tokens |
| `PushPipeline.TokenFollowsLastUser` | server/app/push_tokens/repository.py:17-35 | a registered token is sent to for its last user only, and no other row changes |
| `PushPipeline.PushTokensRepository.Upsert` | server/app/push_tokens/repository.py:17-35 | the row is the user's afterwards, with the token given or, if none is given, the one on file; no other row changes |
| `PushPipeline.KeptTokenFollowsUser` | server/app/push_tokens/repository.py:17-35 | a device registered again without its token is sent to with the one on file, for the new user only |
| `PushPipeline.PushTokensRepository.TokensForUsers` | server/app/push_tokens/repository.py:53-61 | exactly the tokens on file for the users, each once |
| `PushPipeline.PruningIsExact` | server/app/notifications/service.py:97-102 | deleting by hash deletes exactly the rows whose token was sent and held dead |
| `PushPipeline.NotificationService.Audience` | server/app/notifications/service.py:69-78 | the owner first, then each accepted guardian once: exactly those who may read the owner's data |
| `PushPipeline.NotificationService.Prune` | server/app/notifications/service.py:97-102 | the rows of the invalid tokens go, apart from deletions that fail |
| `PushPipeline.NotificationService.Deliver` | server/app/notifications/service.py:80-107 | the rows afterwards are those before minus exactly the dead ones; if the provider raises nothing is pruned and nobody is reported |
| `WebSocketRegistry.ConnectionManager.Connect` | server/app/websocket/manager.py:25-31 | the pair joins the users' index, and the admins' index if and only if it is an admin's; no other pair comes or goes |
| `WebSocketRegistry.ConnectionManager.Disconnect` | server/app/websocket/manager.py:33-45 | exactly that pair is gone from both indices, emptied keys with it |
| `WebSocketRegistry.ConnectionManager.Send` | server/app/websocket/manager.py:47-59 | delivered counts the sockets that take the message, dead lists the others |
| `WebSocketRegistry.ConnectionManager.SendToUser` | server/app/websocket/manager.py:61-67 | a delivery without interference: the count, and exactly the user's dead sockets gone from each index |
| `WebSocketRegistry.ConnectionManager.BroadcastToUsers` | server/app/websocket/manager.py:69-76 | the total is the number of live connections, by places of the list, and exactly the listed users' dead sockets are gone from each index |
| `WebSocketRegistry.ConnectionManager.AdminEntries` | server/app/websocket/manager.py:79-80 | the snapshot lists the admin index, each key and socket once |
| `WebSocketRegistry.ConnectionManager.BroadcastToAdmins` | server/app/websocket/manager.py:78-87 | the total is the number of live pairs of the admins' index, and exactly its dead pairs are gone from both indices |
| `WebSocketRegistry.IndexIsItsPairs` | server/app/websocket/manager.py:20-23 | an index without empty sets is determined by its pairs of user and socket |
| `WebSocketRegistry.ConnectKeepsSound` | server/app/websocket/manager.py:25-31 | connecting keeps the admin index a part of the user index and adds only that pair, to the admin index only for an admin |
| `WebSocketRegistry.DisconnectKeepsSound` | server/app/websocket/manager.py:33-45 | disconnecting keeps it too and removes only that pair |
| `WebSocketRegistry.StepKeepsInv` | server/app/websocket/manager.py:20-87 | every section of every task keeps the invariant of indices and deliveries |
| `WebSocketRegistry.EveryRunIsSound` | server/app/websocket/manager.py:20-87 | in every interleaving the admin index is a sub-index without empty sets; a finished delivery's delivered and failed pairs are its snapshot, and the failed ones are gone |
| `WebSocketRegistry.GoneForGood` | server/app/websocket/manager.py:33-45 | a disconnected socket stays out of both indices |
| `WebSocketRegistry.SnapshotIsIndex` | server/app/websocket/manager.py:78-80 | a broadcast's snapshot holds each pair of the admin index once and nothing else |
| `WebSocketRegistry.IndexIff` | server/app/websocket/manager.py:25-45 | in every interleaving the user index holds exactly the sockets connected for the user and not disconnected since, the admin index exactly those of them connected as an admin's |
| `WebSocketRegistry.BroadcastAddressees` | server/app/websocket/manager.py:78-87 | a broadcast is addressed, once each, to exactly the sockets that were connected as an admin's and not disconnected when it began |
| `WebSocketRegistry.SendAddressees` | server/app/websocket/manager.py:61-67 | a delivery to a user is addressed, once each, to exactly the user's sockets of that moment |

## Left out

- JWT encoding, Argon2, SHA-256 and uuid generation: tokens are opaque values, hashing is an injective function, fresh identifiers are parameters that are new to their table.
- Floating-point rounding in the hardware scripts: `real` is used, and squared distances instead of `hypot`; `math.exp` is any function with `e(x+y) = e(x)e(y)` and `e(x) >= 1+x`.
- pcbnew, kicad-cli, file and network I/O, asyncpg and SQL text: oracles, parameters or atomic table steps.  A part's bounding box moves with its position.
- FieldSync.DeleteMatches: takes the positions that `finditer` yields as a parameter, in increasing order; for matches that an earlier one's scan does not pass in an unchanged state what the loop leaves is only said by `Deleted`: the condition is proved sufficient for removing the union, not necessary.
- Loading and saving the board before the `try` of `refine` are assumed not to fail; the statistics that `refine` collects afterwards are not modelled.
- BoardPlacement.Placer.PlaceAll: requires the fixed parts to start with U1, as the script's table does; the returned False and the raised errors of `place` are one error result.
- ApiSession.SessionIsSafe: is stated without lost replies, timeouts, expiry of the refresh token, revocation of this client's tokens and the refresh path of `useSessionRestore`, because the protocol does not recover from the first and the last bypasses the single flight.  A reply that arrives and is an error is part of the model.
- `api.ts` outside the stretches that touch its module variables is modelled on values: interleaved calls are states of a machine, not promises, and clearing the session and reporting it lost are one step.
- In `RefreshRotation` a token's subject is the user of its row, as issued; the account's disabled flag and the password are outside.
- Emails are values already stripped and lower-cased; names, relations and the primary flag of a guardian link carry no rule.
- The operations on guardian links run one after another; two invites at the same moment are kept apart only by the table's unique constraint.
- Admin `force_guardian_status` and `delete_guardian`, which deletes a link's row, user deletion and the cascades of foreign keys.
- Events of an emergency are kept in the order of their commits; `list_events` sorts by the start times of transactions.
- In the emergencies module the sending of notifications after the commit is left to `PushPipeline` and `WebSocketRegistry`; its failures are only logged.
- Migration files are given in their sorted order with distinct versions; two runners that create the version table at the same moment are covered only as a crash.
- The mock provider, unbound repositories, message payloads and the admin's send to chosen users.
- The order in which a SELECT without ORDER BY returns rows: `TokensForUsers` and `AcceptedGuardianUserIds` fix none.
- `admin_count`, log messages, pagination, dashboards, routing, schemas, screens, firmware tests and release packaging: easy members or I/O.
