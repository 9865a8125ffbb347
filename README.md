# Study-aid app: quiz, flashcards and application shell

A model, in Dafny, of the three state machines of a single-page study aid. A user uploads a
PDF, a remote generative service turns it into a study session (a topic, flashcards and a
multiple-choice quiz), and the application presents it as a flashcard deck and a scored quiz.

- `types.dfy` (module `Types`): the records `Flashcard`, `QuizQuestion`, `StudySession`, the
  five screens of `AppState`, and `Option` for the application's `null`.
- `quiz_view.dfy` (module `QuizView`): the quiz screen. Its state is an answer log with one
  slot per question (`None` or the chosen option), the position of the question on screen,
  and the results flag. The pure functions `SelectOption`, `Advance` and `Retreat` are the
  three handlers on values; the class `QuizSession` holds the log in an `array` and each of
  its methods is proved to produce exactly the state the matching function gives. The score
  is the left fold of the source (`Score`), proved equal to the number of correctly answered
  positions. `Offered` says which controls are on screen (option buttons disabled once the
  slot is answered, Next only after answering, Previous only after the first question,
  nothing on the results page), and `Run` plays any sequence of clicks.
- `flashcard_view.dfy` (module `FlashcardView`): the flashcard screen. Next and Previous
  turn the card face down and move with wraparound; flipping toggles the face; a keydown
  dispatcher maps ArrowRight, ArrowLeft, Space/Enter and Escape to these actions. The class
  `FlashcardSession` holds `currentIndex` and `isFlipped`.
- `app.dfy` (module `AppShell`): the class `App` with the screen, the session, the error
  banner, the theme, the onboarding dialog and the persisted preferences (`prefs`, a map
  standing for the browser's storage). Uploads pass a gate (type first, then size against
  20 × 1024 × 1024 bytes) before processing starts. The file read and the remote call are
  the parameter `outcome` of `CompleteProcessing`: a generated session, a generation error
  with its message, a read error, or an error thrown while starting the read.

Preconditions that the code relies on without checking:
- A quiz needs at least one question: with none, the first render reads the correct option
  of a question that does not exist (components/QuizView.tsx:18-20).
- A deck needs at least one card: with none, the first render reads `cards[0]`, which does
  not exist (components/FlashcardView.tsx:53), and fails on its `category` field
  (components/FlashcardView.tsx:71).
- An option index is always below the number of options, because the handler is only
  reached from buttons rendered from the question's options (components/QuizView.tsx:151,174).
- Nothing in the source guarantees those two minimums where the screens are opened: the
  dashboard opens both screens (App.tsx:281-282, 292, 300) with whatever arrays the remote
  response held, and the response is not checked for a minimum number of items
  (services/gemini.ts:77). An empty quiz or deck therefore reaches the failures above;
  `OpenQuiz` and `OpenFlashcards` do not require non-empty arrays, so this gap stays in the
  source and the model's requirement sits on the two screens' constructors.
- `correctAnswer` is never checked to be a valid option index (it comes unchecked from the
  remote service), so the model lets it be any integer.
- The dashboard's two cards and the back action of the two study screens are rendered only
  on those screens, with a session present (App.tsx:281-283); their methods require that.

The model follows the code in these places:
- A saved theme that is the empty string counts as no saved theme, because the code tests
  the stored value for truthiness (App.tsx:18).
- Next does not check that the question is answered; only the rendering of the button does
  (components/QuizView.tsx:47-53, 227). The model keeps the handler unguarded and states the
  rendering rule in `Offered`.
- The processing callbacks do not look at the current screen: a reset during processing
  (the logo stays clickable) is followed by the dashboard if the generation then succeeds.
- The "Incorrect" count of the results page is `questions.length - score`, so it counts
  unanswered questions too; `ResultsFollowCompleteLog` shows that through the controls on
  screen the results page is only reached with every question answered.

## Model

| member | source | states |
|---|---|---|
| QuizView.Initial | components/QuizView.tsx:13-15 | index 0, results hidden, exactly one unanswered slot per question; the mounted state already satisfies the answered-so-far invariant used by `ResultsFollowCompleteLog` |
| QuizView.QuizSession.constructor | components/QuizView.tsx:12-15 | mounting with at least one question gives the initial state in a fresh array |
| QuizView.SelectedOption | components/QuizView.tsx:18 | the choice shown for the question on screen is an entry of the answer log |
| QuizView.IsAnswered | components/QuizView.tsx:19 | the question on screen is answered exactly when its slot is not empty |
| QuizView.IsCorrect | components/QuizView.tsx:18-20 | the banner says correct exactly when the slot on screen is answered and equal to that question's `correctAnswer`, which is exactly when that position scores a point |
| QuizView.Point | components/QuizView.tsx:29-36 | the fold's step adds 0 for an empty slot and for a slot without a question, 1 for an answer equal to that question's `correctAnswer`, and 0 for an answer that differs from it (the callback returns the running total unchanged) |
| QuizView.Score | components/QuizView.tsx:23-38 | the fold over the log never exceeds the number of slots |
| QuizView.ScoreCountsCorrectPositions | components/QuizView.tsx:23-38 | the fold equals the number of positions answered with that question's correct option; unanswered slots count 0, and the rest of the log is exactly the missed positions |
| QuizView.IncorrectCount | components/QuizView.tsx:62-65 | `questions.length - score` is never negative and counts the questions not answered correctly |
| QuizView.VerdictAgreesWithScore | components/QuizView.tsx:18-20 | the Correct/Incorrect banner shows "correct" exactly when the position on screen is counted by the score |
| QuizView.SelectOption | components/QuizView.tsx:40-45 | an answered slot leaves the whole state unchanged; an empty one receives the choice; the length, the other slots, the index and the results flag are unchanged |
| QuizView.QuizSession.HandleOptionSelect | components/QuizView.tsx:40-45 | copying the log, writing one slot and replacing the log yields exactly `SelectOption` of the old state |
| QuizView.Advance | components/QuizView.tsx:47-53 | before the last question the index goes up by one; on the last it stays and the results open; the log is unchanged |
| QuizView.QuizSession.NextQuestion | components/QuizView.tsx:47-53 | the method yields exactly `Advance` of the old state |
| QuizView.Retreat | components/QuizView.tsx:55-59 | the index goes down by one when positive and nothing changes at 0; the log is unchanged |
| QuizView.QuizSession.PrevQuestion | components/QuizView.tsx:55-59 | the method yields exactly `Retreat` of the old state |
| QuizView.NavigationKeepsScore | components/QuizView.tsx:47-59 | Next and Previous leave the score unchanged |
| QuizView.ScoreAfterSelect | components/QuizView.tsx:40-45 | an answer in an empty slot raises the score by one exactly when it is that question's correct option, otherwise the score is unchanged |
| QuizView.Offered | components/QuizView.tsx:61-235 | no control is offered on the results page (61); an option button only while the slot is empty and for an option of the question (173); Next only once the question is answered (227); Previous only after the first question (217); an offered option click always changes the log |
| QuizView.Step | components/QuizView.tsx:40-59 | a click keeps the index on a question and every recorded answer; a click on a control not on screen changes nothing |
| QuizView.Run | components/QuizView.tsx:40-59 | under any sequence of clicks the index stays on a question and the log keeps one slot per question |
| QuizView.RunKeepsAnswers | components/QuizView.tsx:40-45 | over any sequence of clicks a recorded answer is never overwritten, so the score never decreases |
| QuizView.StepKeepsAnsweredSoFar | components/QuizView.tsx:217-235 | one click keeps "every earlier question is answered, and results only with all answered" |
| QuizView.ResultsFollowCompleteLog | components/QuizView.tsx:173-235 | through the controls on screen the results page opens only with every question answered, and its Incorrect count is then the number of wrong answers |
| QuizView.ResultsFromMount | components/QuizView.tsx:13-235 | from the mounted quiz, after any sequence of clicks, the results page shows only a complete log and its Incorrect count is the number of wrong answers |
| FlashcardView.Initial | components/FlashcardView.tsx:12-13 | index 0, question face up |
| FlashcardView.FlashcardSession.constructor | components/FlashcardView.tsx:11-13 | mounting with at least one card gives the initial state |
| FlashcardView.NextIndex | components/FlashcardView.tsx:18 | the next position is in the deck: one further, or 0 after the last card |
| FlashcardView.PrevIndex | components/FlashcardView.tsx:25 | the previous position is in the deck: one back, or the last card before 0 |
| FlashcardView.NextPrevInverse | components/FlashcardView.tsx:15-27 | Previous undoes Next and Next undoes Previous |
| FlashcardView.NextTimes | components/FlashcardView.tsx:18 | any number of Next presses stays in the deck |
| FlashcardView.NextTimesAdd | components/FlashcardView.tsx:18 | a presses followed by b presses are a + b presses |
| FlashcardView.NextTimesWithinDeck | components/FlashcardView.tsx:18 | before the end of the deck each press moves exactly one card |
| FlashcardView.NextCycle | components/FlashcardView.tsx:18 | pressing Next once per card returns to the starting position |
| FlashcardView.Next | components/FlashcardView.tsx:15-20 | Next turns the card face down and moves to `NextIndex` |
| FlashcardView.Prev | components/FlashcardView.tsx:22-27 | Previous turns the card face down and moves to `PrevIndex` |
| FlashcardView.Flip | components/FlashcardView.tsx:41 | flipping shows the other face of the same card |
| FlashcardView.FlipTwice | components/FlashcardView.tsx:93 | flipping twice restores the face that was up |
| FlashcardView.ActionFor | components/FlashcardView.tsx:30-47 | ArrowRight is Next, ArrowLeft is Previous, Space or Enter is flip, Escape is exit, each exactly |
| FlashcardView.Dispatch | components/FlashcardView.tsx:30-47 | Escape and any key the chain does not name leave the state unchanged |
| FlashcardView.RunKeys | components/FlashcardView.tsx:29-51 | under any sequence of key presses the index stays in the deck |
| FlashcardView.RightArrowPresses | components/FlashcardView.tsx:32-33 | k presses of the right arrow land where k presses of Next do, face down |
| FlashcardView.RightArrowCycle | components/FlashcardView.tsx:32-33 | one right-arrow press per card returns to the same card, face down |
| FlashcardView.FlashcardSession.Card | components/FlashcardView.tsx:53 | the card on screen is a card of the deck |
| FlashcardView.FlashcardSession.HandleNext | components/FlashcardView.tsx:15-20 | the method yields exactly `Next` of the old state and keeps the index in the deck |
| FlashcardView.FlashcardSession.HandlePrev | components/FlashcardView.tsx:22-27 | the method yields exactly `Prev` of the old state and keeps the index in the deck |
| FlashcardView.FlashcardSession.ToggleFlip | components/FlashcardView.tsx:93 | the method yields exactly `Flip` of the old state |
| FlashcardView.FlashcardSession.HandleKeyDown | components/FlashcardView.tsx:30-47 | the listener yields `Dispatch` of the old state, asks to leave exactly on Escape and suppresses the default action exactly on Space |
| AppShell.CheckUpload | App.tsx:56-68 | no file does nothing; a non-PDF is refused for its type before size is looked at; a PDF over 20 MiB is refused for its size; exactly the PDFs of at most 20 MiB pass |
| AppShell.UploadLimitBoundary | App.tsx:65-68 | exactly 20 MiB passes, one byte more and 25 MiB are refused for size, a text file is refused for type |
| AppShell.FailureMessage | App.tsx:81-93 | every failure shows a non-empty message, the generation error's own message when it has one |
| AppShell.Lookup | App.tsx:17-24 | reading a stored preference gives no value for an absent key and the stored value otherwise |
| AppShell.InitialDarkMode | App.tsx:16-20 | a saved "dark" gives dark, any other non-empty saved value gives light, no (or an empty) saved value follows the system |
| AppShell.ThemeValue | App.tsx:43-52 | the persisted theme value read back at the next start gives the same theme whatever the system prefers |
| AppShell.ShowTutorialInitially | App.tsx:23-25 | the onboarding dialog opens unless completion was saved as "true" |
| AppShell.App.constructor | App.tsx:11-26 | start on the upload screen with no session and no error, theme and dialog from the saved preferences, and the chosen theme persisted |
| AppShell.App.ToggleDarkMode | App.tsx:43-54 | the theme is negated and the persisted value mirrors it |
| AppShell.App.HandleFileUpload | App.tsx:56-71 | a refused file only sets its message; an accepted one clears the error and enters processing; the session is untouched |
| AppShell.App.CompleteProcessing | App.tsx:73-94 | success stores the session and opens the dashboard; any failure keeps the stored session, sets a non-empty message and returns to the upload screen |
| AppShell.App.Reset | App.tsx:97-101 | from any screen: upload screen, no session, no error |
| AppShell.App.DismissError | App.tsx:335 | the banner's close button clears the error |
| AppShell.App.OpenFlashcards | App.tsx:292 | the dashboard's Flashcards card opens the flashcard screen, which has a session |
| AppShell.App.OpenQuiz | App.tsx:300 | the dashboard's Quiz card opens the quiz screen, which has a session |
| AppShell.App.BackToDashboard | App.tsx:281-282 | both study screens go back to the dashboard, which has a session |
| AppShell.App.CompleteTutorial | App.tsx:103-106 | the dialog closes and its completion is saved, so it stays closed at the next start |
| AppShell.App.AdvanceTutorial | App.tsx:224 | the page advances 0→1→2 and the last page completes the dialog, so the page never exceeds 2 |

## Left out

- The remote content-generation call and its JSON parsing (services/gemini.ts) are the
  `outcome` parameter of `CompleteProcessing`; the requested cardinalities (10 cards,
  5 questions, 4 options) are never enforced there, so the model does not assume them.
- Reading the file as a data URL and cutting out its base64 part (App.tsx:74-90) is done by
  the browser; only how it ends is modelled.
- The icon request and its cache (App.tsx:14, 28-40): a fire-and-forget call whose result
  only changes an image.
- The support dialog (App.tsx:15, 108-173, 361-367): it only opens and closes.
- The loading screen (components/Loading.tsx): a message rotator driven by a timer.
- The 150 ms delay before Next and Previous move the index (components/FlashcardView.tsx:17,
  24): each is modelled as one step, so the window in which the card is face down but not
  yet moved is not modelled.
- The accuracy percentage and the progress bar (components/QuizView.tsx:110, 139): floating
  point, and a division by the question count.
- Adding and removing the `dark` class on the document root (App.tsx:44-50): only the
  persisted value is modelled.
- Rendering, styling, the pie chart and icons.
