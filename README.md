# Onboarding questionnaire: step sequencing

This project models the lead-intake questionnaire of `components/OnboardingForm.tsx`. The visitor picks a service (live sound, studio recording, post-production, advice, something else) and answers a branch of questions. Most screens enable their "next" button only once the screen's answer is given. The instruments, equipment and practical-details screens enable it unconditionally, and the contact screen enables it only when the name, e-mail and telephone fields pass their checks. The visitor ends on a contact screen and then a success screen. Five parts are modelled:

- **Answers** (`Answers.dfy`): the answer bag, a string-keyed map of text or boolean values. Writes are last-write-wins, and the bag reads with JavaScript truthiness.
- **Steps** (`Steps.dfy`):
  - the 27 screens;
  - the decision table that picks the next screen (`NextStep`);
  - the step graph the table induces (`Successors`) and a rank on it (`Height`, the longest walk to the success screen);
  - `Trace`, the screens visited by following the decision table repeatedly, answers unchanged, until it gives no successor. The "next"-button gates are not consulted.
- **Routes** (`Routes.dfy`): whole routes of the decision table for given answers, with the button gates not consulted.
- **Validators** (`Validators.dfy`):
  - whitespace as JavaScript's `\s` class, and `trim`;
  - recognisers for the e-mail and telephone regular expressions, each proved equal to a direct description of what the expression matches;
  - the contact-screen check.
- **Form** (`Form.dfy`):
  - the "next"-button gates and the progress bar;
  - the class `Onboarding`, holding the current screen, the history of visited screens and the answers. Its methods are the next, back, restart, input and checkbox handlers.

Three behaviours of the code worth noting:

- `determineNextStep` returns the event-type screen, not null, when `live-type` is unset (`components/OnboardingForm.tsx:64`). The screen's button stays disabled until an answer is chosen (`:235`).
- The equipment screen consults only the `equip-weet-niet` and `equip-Weet ik niet` checkboxes (`:87`).
- In this file the contact screen leads straight to the success screen (`:115`). There is no submission step and no error screen.

## Model

| member | source | states |
|---|---|---|
| Answers.Truthy | components/OnboardingForm.tsx:87 | a key reads truthy exactly when it is present and holds neither `""` nor `false`; pinned down further by `Answers.OrEmpty` |
| Answers.Holds | components/OnboardingForm.tsx:56 | `===` against a literal matches only a stored string, and then the key is truthy exactly when the literal is non-empty |
| Answers.Set | components/OnboardingForm.tsx:38-40 | updateFormData adds the key, stores the new value under it and keeps every other entry |
| Answers.Toggled | components/OnboardingForm.tsx:344 | a checkbox toggle stores a boolean whose truthiness is the negation of the old one; other entries unchanged |
| Answers.OrEmpty | components/OnboardingForm.tsx:46-48 | `formData[key] \|\| ''` is the stored value exactly when that is truthy, else the empty string |
| Answers.ToggleTwice | components/OnboardingForm.tsx:360 | toggling a checkbox twice restores its truthiness and leaves other answers alone |
| Answers.SetTwice | components/OnboardingForm.tsx:38-40 | a second write to a key hides the first |
| Steps.Tag | components/OnboardingForm.tsx:6-16 | each step's literal is non-empty, and `main`, `contact` and `success` name exactly their screens; the studio and post-production gates read the answer stored under it (`Form.GateOf`) |
| Steps.NextStep | components/OnboardingForm.tsx:52-118 | the table takes only edges of the step graph; `Steps.SuccessorsComplete` shows it takes every edge, `Steps.NoSuccessorExactly` says where it stops, and the `*Branches` lemmas give each decision |
| Steps.MainBranches | components/OnboardingForm.tsx:53-60 | the five services lead to their five screens, each iff that service is stored; otherwise no successor |
| Steps.LiveTypeBranches | components/OnboardingForm.tsx:62-65 | only `hire` leads to the hire role; anything else, unset included, to the event type |
| Steps.EventTypeBranches | components/OnboardingForm.tsx:70-73 | `concert` or `Concert / Festival` lead to performers iff stored, otherwise the live-music check |
| Steps.MusicCheckBranches | components/OnboardingForm.tsx:75-78 | `ja` leads to performers, anything else to the equipment screen |
| Steps.PerformersBranches | components/OnboardingForm.tsx:81-84 | the four band answers lead to instruments, anything else to equipment |
| Steps.EquipmentBranches | components/OnboardingForm.tsx:86-88 | a truthy don't-know checkbox leads to the venue name, otherwise to the practical questions |
| Steps.AdviesGoalBranches | components/OnboardingForm.tsx:100-106 | the four goals lead to their four screens; any other goal has no successor |
| Steps.NoSuccessorExactly | components/OnboardingForm.tsx:52-118 | the table yields null exactly for main with an unknown service, the advice goal with an unknown goal, and success |
| Steps.NextStepReadsOnlyDecisionKeys | components/OnboardingForm.tsx:52-118 | two answer bags that agree on the eight decision keys get the same successor at every step |
| Steps.SuccessOnlyAfterContact | components/OnboardingForm.tsx:115-117 | success follows contact and no other step, in the table and in the graph |
| Steps.SpeakersOnlyUnreachable | components/OnboardingForm.tsx:52-118 | no step ever leads to the speakers-only screen |
| Steps.NextStepInGraph | components/OnboardingForm.tsx:52-118 | every transition the table takes lowers the rank |
| Steps.EdgeDescends | components/OnboardingForm.tsx:52-118 | every edge of the step graph lowers the rank |
| Steps.MainEdgesTaken | components/OnboardingForm.tsx:53-60 | each service screen is reached when that service is answered |
| Steps.AdviesGoalEdgesTaken | components/OnboardingForm.tsx:100-106 | each goal screen is reached when that goal is answered |
| Steps.LiveEdgesTaken | components/OnboardingForm.tsx:62-88 | each branch of the live questions is reached by the answer it tests, or by leaving it unset |
| Steps.FixedEdgesTaken | components/OnboardingForm.tsx:67-114 | a step that does not consult the answers takes its only edge under any answers |
| Steps.SuccessorsComplete | components/OnboardingForm.tsx:52-118 | every edge of the graph is taken under some answers, so the graph is exactly the table's reach |
| Steps.HeightIsLongestWalk | components/OnboardingForm.tsx:52-118 | the rank is 0 exactly at dead ends, drops along every edge and drops by exactly one along some edge |
| Steps.PathSuffix | components/OnboardingForm.tsx:125 | dropping the first entries of a walk leaves a walk |
| Steps.PathBelowStart | components/OnboardingForm.tsx:125 | along a walk the rank is below the start's by at least the number of steps taken |
| Steps.PathDescends | components/OnboardingForm.tsx:125 | between any two positions of a walk the rank drops by at least their distance, so the graph is acyclic |
| Steps.PathFromMain | components/OnboardingForm.tsx:120-130 | a walk from main has at most 12 entries and never repeats a step |
| Steps.Trace | components/OnboardingForm.tsx:120-130 | following the decision table repeatedly under fixed answers, gates not consulted, visits at most rank+1 steps, starting at the given one |
| Steps.TraceIsRun | components/OnboardingForm.tsx:120-130 | each step of a trace is the table's successor of the one before, so a trace is a walk of the graph |
| Steps.TraceEnds | components/OnboardingForm.tsx:120-122 | a trace stops only where the table gives no successor |
| Steps.TraceUnfold | components/OnboardingForm.tsx:120-130 | with a successor, the trace is the step followed by the successor's trace |
| Steps.TraceStops | components/OnboardingForm.tsx:122 | without a successor, the trace is the step alone |
| Routes.ContactTrace | components/OnboardingForm.tsx:115-117 | from contact the route is contact, success |
| Routes.PracticalTrace | components/OnboardingForm.tsx:90-115 | from the practical questions the route goes to contact, then success |
| Routes.UnknownVenueTrace | components/OnboardingForm.tsx:86-90 | with a ticked don't-know box the venue name is asked before the practical questions |
| Routes.KnownVenueTrace | components/OnboardingForm.tsx:86-90 | without it the practical questions follow the equipment screen directly |
| Routes.AdviesStart | components/OnboardingForm.tsx:53-99 | advice goes through who-for and then the goal question |
| Routes.PurchaseDetailsTrace | components/OnboardingForm.tsx:111-115 | purchase details, purchase type, contact, success |
| Routes.PurchaseBranchTrace | components/OnboardingForm.tsx:110-115 | from the usage question the purchase branch runs through to success |
| Routes.PurchaseGoalTrace | components/OnboardingForm.tsx:100-115 | the goal `aanschaffen` leads into the purchase branch and on to success |
| Routes.LiveHireRoute | components/OnboardingForm.tsx:53-65 | live with `hire` reaches the hire role, and live with `organize` reaches the event type |
| Validators.ValidateEmail | components/OnboardingForm.tsx:42 | an accepted address has at least five characters and starts and ends with a `[^\s@]` character; `Validators.ValidateEmailIsPattern` and `Validators.EmailMeaning` pin it down exactly |
| Validators.ValidatePhone | components/OnboardingForm.tsx:43 | an accepted number has 8 to 22 characters; `Validators.ValidatePhoneIsPattern` and `Validators.PhoneAccepted` pin it down exactly |
| Validators.IsContactStepValid | components/OnboardingForm.tsx:45-50 | a passing contact screen has text under name, e-mail and telephone; `Validators.ContactStepValidMeaning` gives the exact condition |
| Validators.IsSpace | components/OnboardingForm.tsx:42-49 | JavaScript's `\s`, also the set `trim` removes: it contains space, tab, newline and carriage return, and none of `@ . - / +` or the digits the patterns name |
| Validators.LeadingSpace | components/OnboardingForm.tsx:49 | counts exactly the whitespace characters in front of the first non-whitespace character |
| Validators.TrailingSpace | components/OnboardingForm.tsx:49 | counts exactly the whitespace characters after the last non-whitespace character |
| Validators.Trim | components/OnboardingForm.tsx:49 | `trim` yields the middle slice with no whitespace at either end, keeping every non-whitespace character |
| Validators.TrimLongerThanOne | components/OnboardingForm.tsx:49 | a trimmed name is longer than one character iff the name holds two non-whitespace characters |
| Validators.NameLongEnough | components/OnboardingForm.tsx:46-49 | `name.trim().length > 1` holds exactly when the name is text with two non-whitespace characters, via `Validators.TrimLongerThanOne` |
| Validators.IndexOf | components/OnboardingForm.tsx:42 | the position of the first occurrence, or the length when there is none |
| Validators.EmailRecogniserSound | components/OnboardingForm.tsx:42 | every accepted string splits as `A@B.C` over `[^\s@]+` runs |
| Validators.EmailRecogniserComplete | components/OnboardingForm.tsx:42 | every such split is accepted |
| Validators.ValidateEmailIsPattern | components/OnboardingForm.tsx:42 | the e-mail recogniser accepts exactly what the regular expression matches |
| Validators.EmailMeaning | components/OnboardingForm.tsx:42 | accepted iff no whitespace, exactly one `@` with something before it, and a `.` after it with a character on each side |
| Validators.EmailOfParts | components/OnboardingForm.tsx:42 | three non-empty runs of `[^\s@]` joined by `@` and `.` are accepted |
| Validators.EmailNeeds | components/OnboardingForm.tsx:42 | an accepted address contains `@` and `.` and no whitespace |
| Validators.LettersAreEmailChars | components/OnboardingForm.tsx:42 | lower-case letters belong to `[^\s@]` |
| Validators.EmailExampleSplit | components/OnboardingForm.tsx:42 | `jan@voorbeeld.nl` splits at positions 3 and 13 |
| Validators.EmailAcceptsExample | components/OnboardingForm.tsx:42 | `jan@voorbeeld.nl` is accepted |
| Validators.EmailRejectsMissingDot | components/OnboardingForm.tsx:42 | `jan@voorbeeld` is rejected |
| Validators.EmailRejectsSpace | components/OnboardingForm.tsx:42 | `jan voorbeeld.nl` is rejected |
| Validators.PhoneRecogniserSound | components/OnboardingForm.tsx:43 | every accepted string splits as the telephone expression demands |
| Validators.PhoneRecogniserComplete | components/OnboardingForm.tsx:43 | every such split is accepted |
| Validators.ValidatePhoneIsPattern | components/OnboardingForm.tsx:43 | the telephone recogniser accepts exactly what the regular expression matches |
| Validators.PhoneAccepted | components/OnboardingForm.tsx:43 | an accepted number has 8 to 22 characters, all from `+ ( ) 0-9 - . /` and whitespace |
| Validators.PhoneAcceptsExample | components/OnboardingForm.tsx:43 | `+31 6 12345678` is accepted |
| Validators.PhoneRejectsLetters | components/OnboardingForm.tsx:43 | `abc` is rejected |
| Validators.FallbacksRejected | components/OnboardingForm.tsx:46-48 | the empty fallback and the texts `true` and `false` match neither pattern |
| Validators.ToText | components/OnboardingForm.tsx:47-49 | the string conversion a regular-expression test applies keeps text as it is, and turns a stored boolean into a word neither pattern accepts |
| Validators.EmailFieldMeaning | components/OnboardingForm.tsx:47-49 | the e-mail field passes iff it holds text that matches the pattern |
| Validators.PhoneFieldMeaning | components/OnboardingForm.tsx:48-49 | the telephone field passes iff it holds text that matches the pattern |
| Validators.ContactStepValidMeaning | components/OnboardingForm.tsx:45-50 | the contact check holds iff name, e-mail and phone are text, the trimmed name is longer than one character, and both patterns match |
| Form.GateOf | components/OnboardingForm.tsx:221-680 | only success has no button, only contact waits for the contact check, and exactly instruments, equipment and practical details have no condition |
| Form.CanAdvance | components/OnboardingForm.tsx:221-680 | the button is never enabled on success, is enabled on contact exactly when the contact check holds, and always on the three unconditional screens; `Form.ContactGate` unfolds the contact case |
| Form.EnabledButtonMoves | components/OnboardingForm.tsx:221 | with answers the screens offer, an enabled "next" always has a successor; otherwise only main and the advice goal can strand |
| Form.ContactGate | components/OnboardingForm.tsx:680 | the send button is enabled exactly when the contact fields pass |
| Form.Progress | components/OnboardingForm.tsx:30-36 | 100 exactly on success, 95 exactly on contact, otherwise at most 90; at least 18 with a non-empty history |
| Form.ProgressGrowsWithHistory | components/OnboardingForm.tsx:30-36 | away from contact and success, a longer history never shows less progress, and shows more while under the cap |
| Form.Onboarding.constructor | components/OnboardingForm.tsx:23-27 | the form starts on main, with history `[main]` and only the default contact preference |
| Form.Onboarding.Next | components/OnboardingForm.tsx:120-130 | appends exactly the table's successor and makes it current, answers unchanged; no successor changes nothing; history stays distinct and at most 12 long |
| Form.Onboarding.Back | components/OnboardingForm.tsx:132-143 | a no-op on a one-entry history; otherwise drops the last entry and returns to the one before, answers unchanged |
| Form.Onboarding.Restart | components/OnboardingForm.tsx:700 | back to main with history `[main]` and answers exactly the initial store |
| Form.Onboarding.Update | components/OnboardingForm.tsx:38-40 | writes one answer and keeps screen and history |
| Form.Onboarding.Toggle | components/OnboardingForm.tsx:360 | flips one checkbox and keeps screen and history |
| Form.Onboarding.PressNext | components/OnboardingForm.tsx:221 | a disabled button changes nothing; an enabled one appends the successor and makes it current, or, without a successor (only on main or the advice goal), changes nothing; with offered answers it always moves |

## Left out

- Rendering (the option and checkbox cards, buttons, branding column and CSS, `components/OnboardingForm.tsx:145-202, 713-763`). It is presentation only. The screens enter the model only through their "next"-button gates (`Form.GateOf`).
- The 300 ms `setTimeout` and the `isAnimating` flag (`:123-128`, `:134-141`). Transitions take effect at once. `isAnimating` only changes opacity (`:756`) and never disables a button, so in the program a second "next" press within 300 ms appends the same successor again, and a back followed by a next inside the fade appends a step that is not a successor of the new last entry. The program's history can therefore repeat a step and leave the step graph. The distinctness and length bound that `Form.Onboarding.Next` keeps, and `Steps.PathFromMain`, hold only for the model's immediate transitions.
- React hook mechanics (`useState`, `useMemo`, `useCallback`). State is plain fields, and derived values are plain functions.
- The regular-expression engine. Each pattern is a hand-written recogniser, proved equal to a direct description of the pattern's matches.
- String lengths are counted in Unicode scalar values. JavaScript counts UTF-16 code units, so `trim().length > 1` can differ for characters outside the Basic Multilingual Plane.
- Validators.NameLongEnough: a boolean `true` stored under `contact-name` would make `name.trim()` throw. That call runs inside the `useMemo` at `components/OnboardingForm.tsx:45-50` on every render, so the throw would stop the whole component from rendering, on every screen. No handler of the form ever writes a boolean under `contact-name`. The model treats the case as not valid rather than modelling the failed render.
- `constants.tsx` and `App.tsx` are not part of this model. They hold static data and page composition only.
- Sending the request by e-mail, a loading state and an error screen: none of these appears in this file.
- Form.EnabledButtonMoves: stated under the assumption that the stored service and advice goal are values their screens offer. The screens only ever write those values, but the model does not track which writes the rendering can make.
