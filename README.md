# LinkedIn auto-apply: a Dafny model of the content script's core

The extension's content script runs on a LinkedIn jobs-search page. It keeps
a small record, `window.linkedInAutoApplyAgent`, holding `isRunning`,
`jobsApplied` and the search `settings`. A START message from the popup sets
the settings and starts `startAutoApply()`. That loop scans the job cards and
skips every card that is not "Easy Apply". It opens each remaining card, clicks
its Easy Apply button, and hands the application dialog to
`handleApplicationProcess()`, which clicks Continue, Review and finally Submit
for at most twenty ticks. Each success increments the counter and reports it
to the popup. After a batch the loop scrolls for more cards, and it ends when
scrolling loads none. A STOP message clears `isRunning`, and the loop notices
at its next test. The initial settings come from `getConfig()`, which merges
the built-in defaults with the user's custom record by object spread.

The model has seven modules:

- `Wrappers`: `Option`.
- `Text`: JavaScript `String.prototype.includes`, proved equal to "occurs at some index".
- `Config`: a plain JavaScript object as an ordered list of its own properties; own-property read, property write, spread, and `getConfig`.
- `Search`: the settings record, the defaults a START request falls back on, `buildSearchUrl`, `isOnJobsPage`, and the decision `navigateToJobSearch` takes.
- `Scanner`: `isEasyApplyJob` over what it can see of a card.
- `Driver`: `handleApplicationProcess`. `Drive` is a specification function over the page the dialog shows at each of the twenty ticks, and an imperative method is proved equal to it.
- `ContentScript`: the record as a class `AutoApplyAgent` whose methods update its fields. It holds the message listener, the inner `for` loop over a scan's cards, and the outer `while (isRunning)` loop. Each loop is proved against a specification function (`Outcomes`, `RunRounds`).

The page is not modelled as a DOM. Each loop sees what its source queries
would return:

- The driver sees twenty `Observation`s, one per tick.
- The outer loop sees a sequence of `Round`s. Each round is one scan's cards plus the card count after scrolling.
- A STOP message can only arrive while the asynchronous loop is suspended in a `wait`. It is therefore an event attached to the suspension point where it arrives:
  - `Card.stopRequested` for the wait before a card;
  - `Round.stopAfter` for the scroll wait or the empty-scan wait.

Where descriptions of this extension and its code disagree, the model follows
the code:

- There is no job-title or skill filter on cards. The title and company are read and only logged.
- `handleApplicationProcess` returns a plain boolean. The model's tick trace (`TickResult`) mirrors the log lines that tell the cases apart.
- In `navigateToJobSearch`, the query comparison is written `!current === target`. That compares a boolean with a string, so it is never true, and the answer depends on the address alone. The navigation itself is commented out in the source. The model keeps this behaviour (`Search.NavigateToJobSearch`).

## Model

| member | source | states |
|---|---|---|
| `Text.Contains` | content.js:110 | `String.prototype.includes` (also used at line 75): whether `t` occurs in `s`, checked from the front |
| `Text.ContainsIffOccurs` | content.js:75 | `includes(t)` holds exactly when `t` occurs in the string at some index |
| `Text.OccurrenceIsContained` | content.js:110 | an occurrence at any index makes `includes` true |
| `Config.Get` | config.js:21 | an own-property read: the value of the first property with that name, or `undefined` (`None`) |
| `Config.Set` | config.js:21 | a property write: replaces the value in place when the name exists, and otherwise adds the property last |
| `Config.Assign` | config.js:21 | spreading `src` into a target: writes each of `src`'s properties in order |
| `Config.Merge` | config.js:21 | `{ ...a, ...b }`: an empty object with `a` spread into it, then `b` |
| `Config.Defaults` | config.js:2-10 | the defaults record, property by property, in source order |
| `Config.Custom` | config.js:12-16 | the custom record, property by property, in source order |
| `Config.GetConfig` | config.js:20-22 | `getConfig()`: the merge of the defaults with the custom record |
| `Config.GetFindsKey` | config.js:21 | an own-property read is defined exactly when the name is one of the object's names |
| `Config.SetThenGet` | config.js:21 | a property write makes the written name read back as the new value and leaves every other name's value unchanged |
| `Config.SetKeys` | config.js:21 | a property write adds its name to the object's names and no other |
| `Config.SetWellFormed` | config.js:21 | a property write never creates a repeated name |
| `Config.AssignThenGet` | config.js:21 | after spreading `src` into a target, each of `src`'s names reads as in `src` and every other name reads as in the target |
| `Config.AssignKeys` | config.js:21 | a spread's names are the union of both objects' names, none repeated |
| `Config.MergeSpec` | config.js:20-22 | `{ ...a, ...b }` reads as `b` on `b`'s names and as `a` everywhere else, and has exactly the union of their names, none repeated |
| `Config.DefaultsWellFormed` | config.js:2-10 | the defaults record has no repeated name |
| `Config.CustomKeys` | config.js:12-16 | the custom record's names are exactly jobTitle, location and maxApplications, none repeated |
| `Config.CustomKeysAmongDefaults` | config.js:2-16 | every custom name is also a default name |
| `Config.MergedRead` | config.js:1-22 | `getConfig()` reads each custom name from the custom record and every other name from the defaults |
| `Config.CustomOverridesDefaults` | config.js:12-22 | `getConfig()` has jobTitle "Frontend Engineer", location "Remote" and maxApplications 100 |
| `Config.AbsentKeysKeepDefaults` | config.js:2-22 | `getConfig()` keeps jobType "none", experienceLevels ["2","3","4"], refreshInterval 5000 and autoScroll true |
| `Config.MergedKeySet` | config.js:20-22 | `getConfig()` has exactly the defaults' names, which are also the union with the custom names, with none repeated |
| `Search.OrElse` | content.js:40-42 | JavaScript's logical OR of a request field and its fallback: the field when it is present and truthy, and otherwise the fallback |
| `Search.FromRequest` | content.js:38-45 | START's settings take each request field, or its default when missing or empty; easy-apply is forced on and every field is non-empty |
| `Search.StartKeepsCompleteSettings` | content.js:38-45 | a START whose request carries every field of complete settings installs exactly those settings, so the defaulting loses nothing |
| `Search.StartWithoutFieldsInstallsDefaults` | content.js:38-45 | a START whose fields are all missing or all empty installs the fallback settings ("Software Engineer", "none", "San Francisco Bay Area", easy-apply) |
| `Search.StartFallbacksAreConfigDefaults` | content.js:40-42 | START's hard-coded fallbacks equal the defaults record's jobTitle, jobType and location |
| `Search.BuildSearchUrl` | content.js:55-70 | the URL has the jobs-search base and the parameters keywords, location, `f_AL=true` and `sortBy=R`, in that order; `f_WT` is added last exactly when a job type other than "none" is set |
| `Search.SearchUrlParams` | content.js:57-67 | reading the built query back yields each setting, and yields `f_WT` only when the job type filters |
| `Search.IsOnJobsPage` | content.js:73-76 | `isOnJobsPage()`: whether the address includes "linkedin.com/jobs/search" |
| `Search.BuiltUrlIsJobsPage` | content.js:55-76 | every built URL passes `isOnJobsPage` |
| `Search.PopupStartHasNoJobTypeFilter` | popup.js:43-46 | a popup START carries no job type, so its search never has an `f_WT` filter |
| `Search.NavigateToJobSearch` | content.js:79-103 | the answer is "navigate" exactly when the address is not a jobs-search page, whatever its query |
| `Scanner.SomeLabelContains` | content.js:109 | the `[aria-label*="Easy Apply"]` query: whether some element's aria-label includes the marker |
| `Scanner.IsEasyApplyJob` | content.js:106-113 | `isEasyApplyJob(card)`: the apply-button class, or the aria-label query, or the card text including "Easy Apply" |
| `Scanner.SomeLabelContainsIff` | content.js:109 | the aria-label query matches exactly when some label has "Easy Apply" at some index |
| `Scanner.EasyApplyIffOneCheck` | content.js:106-113 | a card is Easy Apply exactly when at least one of the button class, an aria-label or the text shows it |
| `Driver.Tick` | content.js:219-273 | one tick of the dialog loop: the first of error, Continue, Review, Submit (with Dismiss when shown), no buttons, or nothing matched |
| `Driver.RunFrom` | content.js:215-277 | the loop over the pages of the ticks left: ticks until one ends the run or the pages run out; the result is whether the last tick submitted |
| `Driver.Drive` | content.js:215-277 | the whole `while (attempts < maxAttempts)` loop over the twenty pages |
| `Driver.HandleApplicationProcess` | content.js:211-278 | the loop returns the result, and takes the ticks, that the specification `Drive` gives for the page flow |
| `Driver.TickPriority` | content.js:219-266 | an error overrides every button; Continue comes before Review, Review before Submit; at most one is clicked per tick, and Dismiss only right after Submit |
| `Driver.RunFromTicks` | content.js:215-274 | over the pages of the ticks left, the run takes at least one tick when any pages are left, and no more than there are pages, and each tick acts on its own page |
| `Driver.RunFromStops` | content.js:215-277 | over the pages of the ticks left, only the last tick can end the run; a run that stops early stopped on an ending tick; the result is whether that tick submitted |
| `Driver.DriveTrace` | content.js:211-278 | a whole run takes 1 to 20 ticks; tick i acts on page i; every tick but the last goes on; a run shorter than 20 ticks ended on its last tick; the result is true exactly when the last tick submitted |
| `Driver.AppliedIffSubmitReached` | content.js:211-278 | the result is true exactly when some tick reaches Submit before any tick ends the run |
| `Driver.BudgetExhausted` | content.js:274-277 | a flow on which no tick ends the run takes all twenty ticks and returns false |
| `Driver.ErrorEndsRun` | content.js:219-226 | an error on a tick that the run reaches ends the run there with false, whatever buttons the page shows |
| `Driver.NoButtonsEndsRun` | content.js:268-273 | a page with no buttons at all ends the run there with false |
| `Driver.EndingTickEndsRun` | content.js:215-274 | the first ending tick is the last tick of the run and decides its result |
| `Driver.ButtonsPresentTickConsumed` | content.js:268-274 | a tick where nothing matched but buttons exist clicks nothing and goes on |
| `Driver.NoSubmitBeforeEnd` | content.js:228-246 | ticks that go on click neither Submit nor Dismiss |
| `Driver.SubmitInClicks` | content.js:249-265 | a tick clicks Submit exactly when it is the Submit tick |
| `Driver.ClicksOfRun` | content.js:228-266 | on a run where only the last tick ends it, Submit is clicked exactly when the run succeeds, and nothing before the last tick clicks Submit or Dismiss |
| `Driver.SubmitClickedIffApplied` | content.js:211-278 | over a whole run, Submit is clicked exactly when the run succeeds, and only on its last tick |
| `Driver.DismissNeverDecidesFrom` | content.js:257-265 | over the pages of the ticks left, whether Dismiss appears changes neither the result nor the number of ticks |
| `Driver.DismissNeverDecides` | content.js:257-265 | the same for a whole run |
| `ContentScript.Outcome` | content.js:141-189 | the body for one reached card: skipped when not Easy Apply, no button when the apply button is missing, else applied or not as the driver returns |
| `ContentScript.Pass` | content.js:127-206 | one pass of the `while` loop: an empty scan waits and scans again; otherwise the batch up to the first STOP, then the end of the run when scrolling loaded no new card |
| `ContentScript.RunRounds` | content.js:126-207 | the `while (isRunning)` loop over the scans: the outcomes in order, why it exited, and whether it is still running |
| `ContentScript.FirstStop` | content.js:138-139 | the first card ahead of which a STOP arrives, or the number of cards when there is none |
| `ContentScript.FirstStopBound` | content.js:139 | no card after a STOP is reached: the loop stops at or before any card a STOP precedes |
| `ContentScript.CountAddsOnePerSuccess` | content.js:170-186 | a card adds one to the count exactly when it is Easy Apply, its apply button is present and the driver succeeds |
| `ContentScript.AutoApplyAgent.constructor` | content.js:14-24 | the initial record is idle, has applied nothing, and holds settings ("Frontend Engineer", "none", "Remote", easy-apply), read from `getConfig()` |
| `ContentScript.AutoApplyAgent.HandleMessage` | content.js:27-52 | START installs the defaulted request settings when there are any and sets `isRunning`; STOP clears `isRunning`; any other message changes nothing; the counter is never touched |
| `ContentScript.AutoApplyAgent.ProcessBatch` | content.js:138-192 | the `for` loop handles exactly the cards before the first STOP, in order, and ends still running exactly when no STOP came; the counter grows by the successes and one update is sent per success, carrying the new count |
| `ContentScript.AutoApplyAgent.VisitCard` | content.js:141-189 | a card reached while running, with no STOP before it or any earlier card, extends the outcomes by its own outcome, and the counter and the sent updates by its success |
| `ContentScript.AutoApplyAgent.HandleCard` | content.js:141-189 | a card's outcome is: skipped when not Easy Apply, no button, applied, or not applied; only an application adds one and sends the new count |
| `ContentScript.AutoApplyAgent.LoopPass` | content.js:126-206 | one pass of the `while` loop is the specification `Pass`: an empty scan only waits; otherwise the batch is handled and the run ends when scrolling loaded no new card |
| `ContentScript.AutoApplyAgent.StartAutoApply` | content.js:116-208 | off the search page it returns at once with nothing done; otherwise the run is the specification `RunRounds` (outcomes, exit reason, final `isRunning`), and the counter and the sent updates follow its successes |
| `ContentScript.RunHandlesPrefixBeforeStop` | content.js:126-207 | a run handles a prefix of all scanned cards, in order, that ends at or before the first card a STOP precedes |
| `ContentScript.StopMidBatchEndsRun` | content.js:126-192 | a STOP before a card of a scan ends the run after that scan, with the outcomes of the earlier cards, whatever later scans hold |
| `ContentScript.EmptyScanRetries` | content.js:132-136 | a scan with no cards is not terminal: the loop waits and scans again |
| `ContentScript.StagnantScanEndsRun` | content.js:194-206 | when scrolling loads no new cards, the run ends after the current batch |

## Left out

- I/O, the DOM and timing are not modelled. `document.querySelector*` results, `card.click()`, `scrollTo` and every `wait(ms)` are replaced by the observations they yield: `Observation`, `CardView`, `Card.hasApplyButton` and `Round.cardsAfterScroll`.
- Chrome messaging is modelled as values. Incoming messages become `Message` values passed to `HandleMessage`. `updateJobCount()`'s outgoing `UPDATE_COUNT` messages are the returned `sent` list; transport and delivery are not modelled.
- Interleaving is not modelled beyond STOP events. STOP is modelled only at the suspension points where it can be delivered. A second START while a run is active starts a second concurrent loop in the source; that re-entrancy is not modelled.
- `ContentScript.AutoApplyAgent.StartAutoApply`: the page's succession of scans is a finite sequence of rounds, so the model also ends when they run out (`ObservationEnded`), which is not an exit of the source.
- The source re-scans every card after scrolling. The model places no constraint between rounds, so a re-scanned card is simply another card.
- URL text is simplified. Percent-encoding in `URLSearchParams.toString()` and URL parsing are not modelled. The current page's serialized query is a parameter of `Search.NavigateToJobSearch`.
- `navigateToJobSearch`'s `if (!settings)` branch is not modelled, because it cannot be taken: the settings are always an object.
- The call to `navigateToJobSearch()` before the stagnant-scan return has no effect beyond its log line, because the navigation is commented out. The model returns `ResultsExhausted` there.
- The script's start-up is not modelled: the dynamic `import()` of the config module, the guard against initializing twice, and `console.log` output.
- Property reads are own-property reads: `Config.Get` does not consult the prototype chain. No name read here is an `Object.prototype` member.
- Property order is creation order. JavaScript lists integer-like names first, but no name here is integer-like.
- `ContentScript.AutoApplyAgent.ProcessBatch`: a STOP may arrive before any card, including one that follows a skipped non-Easy-Apply card. In the source there is no `await` between a skipped card and the next `isRunning` test, so STOP cannot arrive there. The model therefore admits more STOP timings than the source can produce.
- `getConfig()` returning a fresh object on each call is not modelled. `Config.GetConfig` is a pure function, so there is nothing to alias.
- `background.js` and the popup's own state, storage and UI are not part of this model. Only the START payload the popup sends (`Search.PopupStartHasNoJobTypeFilter`) is modelled.
