# Code Galaxy challenge flow, modelled in Dafny

This project models the learner's path through Code Galaxy's front end, which is a gamified coding-challenge site. The model covers:

- the mock catalogue: three authored challenges, three step-less linked-list challenges and 96 generated ones;
- the generated badge list;
- the starter code templates;
- the challenge browser's search and filters;
- the challenge page.

On the challenge page, a learner works through the steps of one challenge. Each run checks the submitted code against the current step's keywords, case-insensitively. A passing run drives the linked-list visualization. Each "Mark Step Complete" click credits a share of the challenge's XP. The instructions panel shows progress, and the code editor simulates a one-second run.

Modules:

- `Text` (`text.dfy`): the JavaScript string operations the code relies on.
  - `toLowerCase` is restricted to ASCII.
  - `includes` is a left-to-right scan, proved equivalent to "occurs at some position".
  - Decimal rendering of numbers is proved injective.
- `MockData` (`mockdata.dfy`): the entity types, badge and catalogue generation, lookup by id and the code templates.
  - Random draws are parameters. `earned`/`dated` are indexed by badge position. `draw` gives category, difficulty, lock and completion for each generated challenge.
  - `new Date()` is the parameter `now`.
- `LinkedListVisualization` (`linkedlist.dfy`): the layout of the nodes, the arrows, the pointer labels and the HEAD/TAIL markers, all as functions of the node list.
- `InstructionsPanel` (`instructions.dfy`): step statuses, progress dots and label, the complete button and the expand toggle.
- `Challenges` (`challenges.dfy`): the filter callback and the filtered list.
- `CodeEditor` (`codeeditor.dfy`): the editor's state and handlers. Each handler returns the next state and the value it reports to the page.
- `ChallengePage` (`challengepage.dfy`): one attempt at a challenge as an immutable `Attempt` record.
  - Each handler is a function on it: open, switch challenge, edit, run, mark complete.
  - A session is a sequence of events replayed from `Open`.
  - The random node value of a `node-create` run is a parameter in [0, 100).

Behaviours of the code the model keeps:

- A challenge credits `floor(xpReward / steps)` per completion, and no remainder is ever added (`PythonIntroUnderCredit`: 99 of 100 XP).
- The complete button stays enabled on the last step, so every further activation credits XP again (`LinkedListOverCredit`: 175 XP on a 150 XP challenge). Once the success dialog is open its backdrop covers the page, so that activation comes from the keyboard rather than a pointer click.
- A run only validates and animates. Only the button advances the step.
- An empty keyword list is not a configuration error. It simply never validates.

## Model

| member | source | states |
|---|---|---|
| MockData.GenerateBadges | frontend/src/data/mockData.ts:42-81 | Exactly 70 badges: the six fixed ones, then one per action and tier (actions outer, tiers inner), then milestones numbered by their position up to 69. |
| MockData.TierIconDependsOnlyOnTier | frontend/src/data/mockData.ts:56-67 | Two tier badges have the same icon if and only if they have the same tier. |
| MockData.MilestoneIdsDistinct | frontend/src/data/mockData.ts:70-78 | Milestone badge ids are pairwise distinct. |
| MockData.TierBadge | frontend/src/data/mockData.ts:58-65 | A tier badge is earned and dated by two independent draws (an unearned badge can carry a date); its icon is the bronze medal iff the tier is Bronze, the trophy iff the tier is none of Bronze/Silver/Gold, never the milestone medal; its id starts with `badge-`. |
| MockData.MilestoneBadge | frontend/src/data/mockData.ts:71-77 | A milestone badge never has a date, even when earned, always shows the military medal, and its id starts with `milestone-`. |
| MockData.AuthoredChallengesWellFormed | frontend/src/data/mockData.ts:93-208 | Each authored challenge has steps and a positive reward, its step ids run 1..n, and every step has at least one non-empty keyword. |
| MockData.XpFor | frontend/src/data/mockData.ts:258 | A generated challenge's reward is 100, 250 or 500 exactly for beginner, intermediate and advanced. |
| MockData.NumberedChallenge | frontend/src/data/mockData.ts:255-270 | A generated challenge has no steps, a category from the list, a reward of 100, 250 or 500, the drawn lock and completion flags, and an id starting with `challenge-`. |
| MockData.GenerateChallenges | frontend/src/data/mockData.ts:210-274 | 102 challenges: the three authored ones, the three extra linked-list ones, then `challenge-5` … `challenge-100` built from the draws. |
| MockData.GeneratedIdsDistinct | frontend/src/data/mockData.ts:214-272 | No two challenges of the generated catalogue share an id. |
| MockData.NumberedChallengesShape | frontend/src/data/mockData.ts:255-272 | Every generated challenge has no steps and the reward its difficulty dictates. |
| MockData.ExtraChallengesHaveNoSteps | frontend/src/data/mockData.ts:220-252 | Catalogue entries 3-5 are data-structures challenges with empty step lists. |
| MockData.FindIndex | frontend/src/data/mockData.ts:349-351 | The index found holds the id and no earlier entry does; `None` only when no entry has the id. |
| MockData.GetChallenge | frontend/src/data/mockData.ts:349-351 | A found challenge has the id and is the first such entry; undefined exactly when no entry has the id. |
| MockData.CodeTemplate | frontend/src/data/mockData.ts:278-331 | Every editor language has a non-empty template. |
| Text.ToLower | frontend/src/pages/ChallengePage.tsx:58-60 | Lower-casing keeps the length, maps A-Z to a-z and leaves every other character as it is. |
| Text.Contains | frontend/src/pages/ChallengePage.tsx:58-60 | A found pattern is no longer than the text, and the empty pattern is always found. |
| Text.ContainsIffOccurs | frontend/src/pages/ChallengePage.tsx:58-60 | The `includes` scan succeeds exactly when the pattern occurs at some position of the text. |
| Text.ContainsLoweredLine | frontend/src/pages/ChallengePage.tsx:58-60 | A keyword found in one lower-cased line of a template is found in the lower-cased whole template. |
| Text.ShowInjective | frontend/src/components/visualizations/LinkedListVisualization.tsx:27 | Different numbers render as different decimal strings. |
| LinkedListVisualization.Layout | frontend/src/components/visualizations/LinkedListVisualization.tsx:25-35 | One laid-out node per list node, keeping its data, with id `node-i`, all on the row y = 120. |
| LinkedListVisualization.LayoutSpacing | frontend/src/components/visualizations/LinkedListVisualization.tsx:29 | Nodes sit left to right in list order, starting at x = 50, exactly (j - i) * 180 apart. |
| LinkedListVisualization.LayoutIdsDistinct | frontend/src/components/visualizations/LinkedListVisualization.tsx:27 | Node ids (the render keys) are pairwise distinct. |
| LinkedListVisualization.AtMostLastIsNew | frontend/src/components/visualizations/LinkedListVisualization.tsx:31 | The set of new nodes is the last node when the step is `create` and the list is non-empty, else empty. |
| LinkedListVisualization.AtMostOneTraversing | frontend/src/components/visualizations/LinkedListVisualization.tsx:32 | The set of highlighted nodes is `{traverseIndex}` during a traverse whose index names a node, else empty. |
| LinkedListVisualization.Connections | frontend/src/components/visualizations/LinkedListVisualization.tsx:65-91 | One arrow fewer than nodes (none for an empty list). |
| LinkedListVisualization.ConnectionsJoinNeighbours | frontend/src/components/visualizations/LinkedListVisualization.tsx:66-86 | Arrow i runs horizontally at mid-height from node i's right edge to node i+1's left edge, across exactly the gap; it is highlighted iff the step is `link` and it is the newest arrow. |
| LinkedListVisualization.ConnectionsDisjoint | frontend/src/components/visualizations/LinkedListVisualization.tsx:68-71 | Each arrow ends before the next one starts. |
| LinkedListVisualization.OnlyLastPointsToNull | frontend/src/components/visualizations/LinkedListVisualization.tsx:140 | A node's pointer reads `null` if and only if it is the last node. |
| LinkedListVisualization.PointerLabels | frontend/src/components/visualizations/LinkedListVisualization.tsx:140 | One label per node; every node but the last reads `next →`, and a `null` label appears iff the list is non-empty. |
| LinkedListVisualization.HeadMarker | frontend/src/components/visualizations/LinkedListVisualization.tsx:158-172 | HEAD is drawn iff the list is non-empty, 50 px above the node row, offset 20 px left of the first slot's centre. |
| LinkedListVisualization.TailMarker | frontend/src/components/visualizations/LinkedListVisualization.tsx:175-192 | TAIL is drawn iff the list is non-empty, 20 px below the nodes, offset 15 px left of the last node's centre. |
| LinkedListVisualization.Render | frontend/src/components/visualizations/LinkedListVisualization.tsx:19-35 | The view lays out the given nodes, has one arrow fewer than labels, and shows the empty state iff it shows no HEAD, and HEAD iff TAIL. |
| LinkedListVisualization.MarkersIffNonEmpty | frontend/src/components/visualizations/LinkedListVisualization.tsx:158-195 | HEAD and TAIL are drawn iff the list is non-empty, the empty state iff it is empty; HEAD sits over the first node and TAIL over the last, offset by 20 and 15. |
| InstructionsPanel.Status | frontend/src/components/challenge/InstructionsPanel.tsx:67-69 | A step is completed, current or locked exactly when its index is below, at or above the current index. |
| InstructionsPanel.DotCounts | frontend/src/components/challenge/InstructionsPanel.tsx:46-56 | There are min(current, n) completed dots, one current dot while the index names a step, and the rest locked. |
| InstructionsPanel.ProgressDots | frontend/src/components/challenge/InstructionsPanel.tsx:46-56 | One dot per step: green exactly before the current index, locked exactly after it, and a current dot iff the index names a step. |
| InstructionsPanel.ProgressLabel | frontend/src/components/challenge/InstructionsPanel.tsx:58-60 | The label is two digit strings around a single slash, which sits right after the rendering of current + 1. |
| InstructionsPanel.ProgressLabelInjective | frontend/src/components/challenge/InstructionsPanel.tsx:58-60 | The label `current+1/n` determines both the index and the step count. |
| InstructionsPanel.CompleteButtonView | frontend/src/components/challenge/InstructionsPanel.tsx:163-171 | The button is enabled and reads "Mark Step Complete" iff the index names a step, and reads "Challenge Complete!" otherwise; it carries the current step's id. |
| InstructionsPanel.ClickCompleteButton | frontend/src/components/challenge/InstructionsPanel.tsx:166-167 | A click reports a step id iff the index names a step, and then it is that step's id. |
| InstructionsPanel.ClickStep | frontend/src/components/challenge/InstructionsPanel.tsx:84-87 | A click on a locked step changes nothing; on an unlocked step it collapses that step if it was expanded, otherwise expands it alone. |
| InstructionsPanel.InitialExpansionShowsCurrent | frontend/src/components/challenge/InstructionsPanel.tsx:26 | On mount exactly the current step shows its content. |
| InstructionsPanel.ExpandedContentOnlyUnlocked | frontend/src/components/challenge/InstructionsPanel.tsx:136 | At most one step shows its content, and never a locked one. |
| InstructionsPanel.ClickTwice | frontend/src/components/challenge/InstructionsPanel.tsx:85 | Two clicks on an unlocked step restore the previous expansion iff nothing or that step was expanded; otherwise all is collapsed. |
| Challenges.Passes | frontend/src/pages/Challenges.tsx:18-35 | The early-return chain keeps a challenge iff it matches the search (case-insensitive, empty query matches all), the difficulty and the status filter. |
| Challenges.FilterChallenges | frontend/src/pages/Challenges.tsx:18-35 | The shown list holds exactly the passing challenges, as a subsequence of the catalogue, so it is never longer; each passing challenge appears as often as in the catalogue, duplicates included. |
| Challenges.EmptyStateIffNonePass | frontend/src/pages/Challenges.tsx:147 | "No challenges found" shows exactly when no challenge passes. |
| Challenges.NoFiltersShowAll | frontend/src/pages/Challenges.tsx:14-16 | With the initial filters the whole catalogue is shown in order. |
| Challenges.FilterIdempotent | frontend/src/pages/Challenges.tsx:18-35 | Filtering the filtered list again changes nothing. |
| Challenges.SearchFindsOwnTitle | frontend/src/pages/Challenges.tsx:20 | Searching for a challenge's title in any letter case finds it when the other filters pass it. |
| Challenges.StatusViewsOverlap | frontend/src/pages/Challenges.tsx:30-32 | In-progress shares nothing with completed or locked; a completed and locked challenge is in both of those. |
| Challenges.StatusViewsCover | frontend/src/pages/Challenges.tsx:30-32 | A challenge is in progress exactly when it is neither completed nor locked. |
| CodeEditor.Mount | frontend/src/components/editor/CodeEditor.tsx:35-41 | Language defaults to Python; an absent or empty initial code falls back to that language's template; the buffer is never empty; terminal 250 px, idle. |
| CodeEditor.SyncInitialCode | frontend/src/components/editor/CodeEditor.tsx:77-81 | An absent or empty `initialCode` puts the current language's template back; a non-empty one leaves the editor untouched. |
| CodeEditor.Edit | frontend/src/components/editor/CodeEditor.tsx:87-91 | A keystroke sets the buffer to the value, or "" when it is undefined, reports the same string and changes nothing else. |
| CodeEditor.Reset | frontend/src/components/editor/CodeEditor.tsx:100-104 | Reset loads and reports the current language's template and changes nothing else. |
| CodeEditor.ToggleMenu | frontend/src/components/editor/CodeEditor.tsx:113 | The menu button flips the menu flag and changes nothing else. |
| CodeEditor.ClearingRestoresTemplate | frontend/src/components/editor/CodeEditor.tsx:77-91 | Erasing the buffer reports "" to the page, and the initial-code effect then puts the template back into the editor. |
| CodeEditor.SelectLanguage | frontend/src/components/editor/CodeEditor.tsx:131-136 | Choosing a language loads and reports its (non-empty) template and closes the menu, leaving the run and terminal alone. |
| CodeEditor.ResetAfterSelectIsNoOp | frontend/src/components/editor/CodeEditor.tsx:100-104 | Reset right after choosing a language, or a second reset, changes nothing. |
| CodeEditor.MenuToggles | frontend/src/components/editor/CodeEditor.tsx:113 | The menu button flips the menu, two clicks restore it, and choosing a language leaves it closed. |
| CodeEditor.ClickRun | frontend/src/components/editor/CodeEditor.tsx:93-98 | After a click a run is pending; a click while one is pending does nothing; otherwise the pending run holds the current buffer and language. |
| CodeEditor.FinishRun | frontend/src/components/editor/CodeEditor.tsx:95-97 | When the timer fires, the run captured at the click is delivered, the editor is idle again, and nothing else changes. |
| CodeEditor.RunDeliversClickedCode | frontend/src/components/editor/CodeEditor.tsx:93-98 | Click then timer delivers exactly the clicked buffer and language and returns the editor to its prior state. |
| CodeEditor.EditsDuringRunAreNotRun | frontend/src/components/editor/CodeEditor.tsx:93-98 | Typing during a pending run changes the buffer but not what is delivered. |
| CodeEditor.DoubleClickRunsOnce | frontend/src/components/editor/CodeEditor.tsx:158 | A second click while running starts nothing, so one click yields one delivery. |
| CodeEditor.MouseMove | frontend/src/components/editor/CodeEditor.tsx:46-58 | The dragged height is taken iff resizing and 100 <= height <= container - 100; nothing but the height ever changes. |
| CodeEditor.StartResize | frontend/src/components/editor/CodeEditor.tsx:221-225 | A press on the handle starts resizing and changes nothing else. |
| CodeEditor.MouseUp | frontend/src/components/editor/CodeEditor.tsx:61-64 | Releasing the mouse ends resizing and changes nothing else. |
| CodeEditor.DragKeepsHeightInRange | frontend/src/components/editor/CodeEditor.tsx:52-58 | From a height in range, any sequence of moves keeps it in [100, container - 100]. |
| CodeEditor.NoDragWithoutPress | frontend/src/components/editor/CodeEditor.tsx:66-69 | Without a press on the handle, mouse moves change nothing. |
| CodeEditor.PressDragRelease | frontend/src/components/editor/CodeEditor.tsx:61-75 | Moves after a press change only the height, and after the release no move changes anything. |
| ChallengePage.ResolveChallenge | frontend/src/pages/ChallengePage.tsx:19 | The challenge shown is the one `getChallenge` would find (the first catalogue entry with the route's id), or the linked-list challenge when there is none or no id. |
| ChallengePage.ResolveAuthored | frontend/src/pages/ChallengePage.tsx:19 | In the generated catalogue, each authored challenge's id resolves to that challenge. |
| ChallengePage.InitialCode | frontend/src/pages/ChallengePage.tsx:25-29 | The starter code is the JavaScript template for the JavaScript category and the Python template for every other category. |
| ChallengePage.Open | frontend/src/pages/ChallengePage.tsx:21-51 | A freshly opened attempt is at step 0 with no XP, output or success, and holds one demo node (42) exactly for a data-structures challenge (the seeding effect at lines 141-146). |
| ChallengePage.ChangeChallenge | frontend/src/pages/ChallengePage.tsx:40-51 | Same id: nothing but the challenge value changes. New id: progress and output reset, the hint toggle kept, and the demo node reseeded only if the category changed to data structures while the old node list was empty (the effect at lines 141-146). |
| ChallengePage.SwitchIsReopen | frontend/src/pages/ChallengePage.tsx:40-51 | Switching to another challenge equals opening it afresh up to the kept hint toggle and the demo node; it matches a fresh open iff the hint is hidden and no seeding is lost, and between two data-structures challenges the node is dropped. |
| ChallengePage.EditCode | frontend/src/pages/ChallengePage.tsx:63-65 | An edit replaces the page's copy of the code and changes nothing else: progress, nodes and output stay as they were. |
| ChallengePage.Validate | frontend/src/pages/ChallengePage.tsx:54-61 | A passing verdict implies the step exists and has at least one keyword. |
| ChallengePage.ValidateIffSomeKeyword | frontend/src/pages/ChallengePage.tsx:54-61 | Code validates iff the step exists and some keyword, lower-cased, occurs in the lower-cased code. |
| ChallengePage.EmptyKeywordsNeverValidate | frontend/src/pages/ChallengePage.tsx:54-61 | A step without keywords, or an index past the steps, never validates. |
| ChallengePage.ValidateIgnoresCase | frontend/src/pages/ChallengePage.tsx:54-61 | Lower-casing the code does not change the verdict. |
| ChallengePage.EmptyCodeNeedsEmptyKeyword | frontend/src/pages/ChallengePage.tsx:54-61 | Empty code validates only through an empty keyword. |
| ChallengePage.StarterCodePassesLinkedListSteps | frontend/src/pages/ChallengePage.tsx:54-61 | The untouched Python starter code already validates every step of the linked-list challenge. |
| ChallengePage.TraversalFrames | frontend/src/pages/ChallengePage.tsx:112-122 | max(1, n) ticks highlighting 0, 1, … in order, followed by one clearing tick of -1. |
| ChallengePage.AnimateTraversal | frontend/src/pages/ChallengePage.tsx:112-122 | The interval loop produces exactly the frames of `TraversalFrames`: 0, 1, …, max(1, n) - 1 in order and then -1. |
| ChallengePage.TraversalHighlightsOneNodePerTick | frontend/src/pages/ChallengePage.tsx:112-122 | Tick t highlights exactly node t while t names a node, and no node otherwise (the final clearing tick, or the single tick of an empty list). |
| ChallengePage.Run | frontend/src/pages/ChallengePage.tsx:67-110 | Progress is untouched; the error flag is set iff validation fails, and then nothing else changes. A pass shows the last node's data (42 if none) and appends the value, highlights the newest arrow, or animates the traversal, according to the step's kind. |
| ChallengePage.StepXP | frontend/src/pages/ChallengePage.tsx:125 | The per-step credit is the largest x with x * n <= reward. |
| ChallengePage.MarkComplete | frontend/src/pages/ChallengePage.tsx:124-139 | Each completion credits the step XP; below the last step the index advances and the hint closes, on the last step the index stays and success opens; nothing else changes. |
| ChallengePage.ApplyProgress | frontend/src/pages/ChallengePage.tsx:184-192 | Runs and edits leave progress alone; a click through the panel's button advances, credits, or opens success as `MarkComplete` does. |
| ChallengePage.ReplayProgress | frontend/src/pages/ChallengePage.tsx:124-139 | Over any session, XP grows by clicks * step XP, the index is min(start + clicks, n - 1), and success opens iff start + clicks reaches n. |
| ChallengePage.ReplayXP | frontend/src/pages/ChallengePage.tsx:125-126 | Over any session, XP grows by exactly clicks * step XP and the challenge is unchanged. |
| ChallengePage.ReplayIndex | frontend/src/pages/ChallengePage.tsx:128-130 | Over any session, the index is min(start + clicks, n - 1). |
| ChallengePage.ReplaySuccess | frontend/src/pages/ChallengePage.tsx:135-138 | Over any session, success is open iff it was open or start + clicks reaches n. |
| ChallengePage.ReplayWithoutSteps | frontend/src/components/challenge/InstructionsPanel.tsx:167 | A challenge without steps never earns XP, advances or succeeds. |
| ChallengePage.OneClickPerStep | frontend/src/pages/ChallengePage.tsx:124-139 | One click per step finishes the challenge with n * floor(X / n) XP, never more than the reward. |
| ChallengePage.ExtraClicksKeepCrediting | frontend/src/pages/ChallengePage.tsx:128-138 | Activations past the last step (by keyboard once the dialog is open) keep crediting: XP equals clicks * step XP and the index stays on the last step. |
| ChallengePage.LinkedListOverCredit | frontend/src/pages/ChallengePage.tsx:124-139 | Six clicks and one further activation (by keyboard once the dialog is open) on the 150-XP, six-step linked-list challenge earn 175 XP. |
| ChallengePage.PythonIntroUnderCredit | frontend/src/pages/ChallengePage.tsx:125 | Finishing the 100-XP, three-step Python challenge earns 99 XP. |
| ChallengePage.CompleteButtonStaysEnabled | frontend/src/components/challenge/InstructionsPanel.tsx:163-171 | In any session on a challenge with steps, the button stays enabled on "Mark Step Complete" and the progress label never passes n/n. |
| ChallengePage.EditorLanguage | frontend/src/pages/ChallengePage.tsx:232 | The editor gets JavaScript exactly for the JavaScript category, Python otherwise. |
| ChallengePage.EditorMountsWithStarterCode | frontend/src/pages/ChallengePage.tsx:228-233 | The editor mounted beside a freshly opened challenge shows the page's starter code, which is its own language's template. |
| ChallengePage.EditorRunReachesPage | frontend/src/pages/ChallengePage.tsx:228-230 | A run started in the editor reaches the page's run handler with the editor's buffer at the click. |

## Left out

- Timing: the 800 ms compile delay, the 800 ms traversal interval, the 1 s clear and the editor's 1 s run are collapsed into atomic steps. The stale closures they capture are out of scope: `currentStepIndex` and `nodes` read by a delayed callback after a newer event.
- The traversal animation is modelled as its sequence of `traverseIndex` values (`AnimateTraversal`) and is not interleaved with other events.
- Output text, toasts, animation props, colours and the interface icons (the lucide glyphs on buttons and headers) are not modelled; the badge icons are, as `Icon`. The output is reduced to pass (with the node value shown) or fail.
- `toLowerCase` maps only the ASCII letters A-Z. Other case mappings are out of scope.
- Pixel positions are integers. The layout constants all divide evenly, but mouse coordinates and the container's bounding rectangle can be fractional in the source.
- LinkedListVisualization: the one-render lag between the `nodes` prop and `visualNodes` state is not modelled, because the view is computed directly from the props.
- InstructionsPanel: the mission-guide modal (open/close state only, no logic) and the unused hint props are left out.
- InstructionsPanel: `expandedStep` is initialised once from the current index and is not reset when the index changes. The model takes the expansion as a parameter and does not carry it across page events.
- MockData: the two fixed earned badges and every dated tier badge take their `earnedAt` from separate `new Date()` calls (mockData.ts lines 47, 48 and 64), which can read different instants. The model passes one `now` to all of them.
- MockData: the randomness is a parameter and its distributions are not modelled, for example the 30% chance a tier badge is earned. `mockUser`, the `UserProgress` type and the `api` placeholders other than `getChallenge` are left out, because they are constants or logging stubs.
- MockData.GenerateBadges: states the exact list, but distinctness is proved only for the milestone ids. The tier ids' distinctness rests on lower-casing the action and tier names and is not proved.
- CodeEditor: the Monaco editor widget, the language label map and the terminal's output styling are rendering only. The editor's `output`/`isError` props are display only.
- ChallengePage: the success dialog is reduced to the `showSuccess` flag. Its full-screen backdrop, which stops pointer clicks reaching the page behind it, is not modelled, so `ClickComplete` stands for any activation of the button.
- ChallengePage.Run: the random node value is a parameter restricted to [0, 100). The value shown in a pass is read from the node list before the append, as in the source.
- Authentication, routing other than the challenge id, the backend and the other pages are not part of this model.
