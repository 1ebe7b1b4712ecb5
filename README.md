# quiz_js — the quiz session, modelled in Dafny

The quiz is a browser page that asks ten multiple-choice trivia questions. A quiz
taker is a `User` with a name, an identifier, the fetched questions (`data`), those
questions prepared for display (`questions`: each question's answers shuffled), ten
answer slots, ten bookmark flags, the current question index, a score and a
`submitted` flag. `QuizApp` drives the screens:

- start: the name and identifier are trimmed and checked;
- question cards: answer, bookmark, next, back;
- a warning screen listing every question before submitting;
- the result;
- an answer review with its own next/back.

Every change made while answering is saved to browser storage under `user_<id>`, so
starting again with the same name and identifier resumes the saved user.

The model has four modules, one per concern of `script.js`:

- `JsText` (`text.dfy`): the JavaScript string builtins the quiz uses. These are `trim`, `split(" ")` and `join(" ")`.
- `Trivia` (`trivia.dfy`): the question data and the pure computations.
  - Preparing questions: the shuffled answer list is a permutation of the incorrect answers plus the correct one.
  - The score is a `reduce` over the questions. It equals the number of correctly answered questions.
  - The warning-screen label is the first four words of the question text.
  - The choice of navigation buttons on a question card. The handlers keep the buttons last drawn, and each handler's effect matches them.
- `Users` (`users.dfy`):
  - the saved form of a user (`UserRecord`, what `JSON.stringify` writes);
  - `localStorage` as a `Store` object holding a `map<string, UserRecord>`;
  - the `User` class, whose fields the handlers update in place, with its `save`/`load`.
- `Quiz` (`app.dfy`): the `QuizApp` class.
  - It has one method per button handler, each an atomic step.
  - Its invariant ties the showing screen to the user and to storage. For example: on a question card the bookmark icon shows the stored flag and storage holds the user as it is.

## Model

| member | source | states |
|---|---|---|
| `JsText.TrimStart` | script.js:89-90 | the result is a suffix of the input, everything dropped is white space, and it does not start with white space |
| `JsText.TrimEnd` | script.js:89-90 | the result is a prefix of the input, everything dropped is white space, and it does not end with white space |
| `JsText.Trim` | script.js:89-92 | the trimmed value is the infix of the input that starts where the leading white space ends, and everything after it is white space; it is empty exactly when the input is all white space (the case the start button refuses), and otherwise it neither starts nor ends with white space |
| `JsText.Split` | script.js:229 | `split(" ")` yields at least one piece and no piece contains a space |
| `JsText.JoinSplit` | script.js:229-231 | joining the pieces of `split(" ")` with single spaces gives back the original text |
| `JsText.FirstWordsIsPrefix` | script.js:229-231 | the first n words are the longest prefix of the text with at most n-1 spaces: a prefix, with min(spaces, n-1) spaces, that is the whole text or is followed by a space |
| `Trivia.Shuffle` | script.js:52-54 | whatever the random draws, the reordered list has the same length and the same multiset of elements |
| `Trivia.Prepare` | script.js:50-55 | a prepared question keeps the question text, and its answers are exactly the incorrect answers plus the correct one, as a multiset |
| `Trivia.PrepareQuestions` | script.js:49-56 | one prepared question per fetched question, in order, each satisfying the above |
| `Trivia.CorrectAnswerOffered` | script.js:52 | the correct answer is always among the prepared answers of its question |
| `Trivia.Tally` | script.js:169-172 | the running total after n steps of the `reduce` is at most n |
| `Trivia.Score` | script.js:169-172 | the score is between 0 and the number of questions |
| `Trivia.ScoreCountsCorrect` | script.js:169-172 | the score equals the number of indices whose chosen answer equals the correct answer |
| `Trivia.FullMarks` | script.js:169-172 | full marks if and only if every question was answered correctly |
| `Trivia.SummaryLabel` | script.js:229-231 | the warning label is the question text up to, not including, its fourth space: a prefix with at most three spaces that is the whole text or is followed by a space |
| `Trivia.Summary` | script.js:227-236 | the warning screen has one button per question, in order; button i carries i as its index, the label of question i and question i's bookmark flag |
| `Users.StorageKeyInjective` | script.js:14-16 | two identifiers with the same key `user_<id>` are equal |
| `Users.StoredUnderOwnId` | script.js:22-24 | in storage written by the quiz, the user found under `user_<id>` has identifier id and is well formed |
| `Users.Store.GetItem` | script.js:23 | `getItem` returns the stored value exactly when the key is present |
| `Users.Store.SetItem` | script.js:19 | `setItem` replaces the entry under its key and no other |
| `Users.User.constructor` | script.js:2-12 | a new user has score 0, index 0, ten empty answers, no questions, ten cleared bookmarks and is not submitted |
| `Users.User.FromRecord` | script.js:24 | a loaded user has every field of the saved one |
| `Users.User.Save` | script.js:18-20 | saving writes the user's current state under its own key, leaves every other entry alone, and keeps storage well formed |
| `Users.User.Load` | script.js:22-25 | load yields null exactly when nothing is stored under `user_<id>`, and otherwise a new user equal to the stored one |
| `Users.SaveThenLoad` | script.js:18-25 | loading a user right after saving it gives back the same user |
| `Quiz.QuizApp.constructor` | script.js:28-35 | the page starts on the start screen with no user, over the existing storage |
| `Quiz.QuizApp.RenderQuestion` | script.js:113-118 | the card of the current question is shown with the bookmark icon drawn from the stored flag and the answering buttons of its index (`Stuck` when the question is missing) |
| `Quiz.QuizApp.RenderAnswers` | script.js:189-196 | the current question is shown for review with the reviewing buttons of its index (`Stuck` when it is missing) |
| `Quiz.QuizApp.RenderWarning` | script.js:222-244 | the warning screen shows the summary of the questions and bookmarks |
| `Quiz.QuizApp.ShowResult` | script.js:164-174 | the score becomes the computed score and `submitted` becomes true, and the user is saved; nothing else changes; re-running it on a submitted user leaves the score as it was |
| `Quiz.QuizApp.StartQuiz` | script.js:88-111 | an empty trimmed name or ID is refused with nothing changed; a stored user whose key and name match is resumed unchanged, going to the result if submitted and to its question otherwise; in every other case a new user is created, and on a successful fetch it is given the fetched, prepared questions, saved under `user_<id>` and shown its first question; on a failed fetch nothing is saved |
| `Quiz.QuizApp.Resume` | script.js:96-98 | the resumed user becomes current; storage is unchanged; the screen is the result when submitted, else the user's question |
| `Quiz.QuizApp.CreateUser` | script.js:99-104 | a fresh user over the fetched questions, prepared and saved (the whole new record is stated) |
| `Quiz.QuizApp.SelectAnswer` | script.js:135-142 | the chosen button's text goes into `answers[currentIndex]`; every other slot and every other field is unchanged; the user is saved |
| `Quiz.QuizApp.ToggleBookmark` | script.js:125-129 | the icon flips and so does `marked[currentIndex]`; every other flag and field is unchanged; the user is saved |
| `Quiz.QuizApp.Next` | script.js:145-153 | below the last question the index becomes i+1 and is saved; on the last question the warning screen opens with the index and storage unchanged; the warning screen opens exactly when the confirm button read "Submit" (script.js:58-63) |
| `Quiz.QuizApp.Back` | script.js:155-161 | a no-op on the first question; otherwise the index becomes i-1 and is saved; the user is left unchanged exactly when the card drew the back button hidden (script.js:58-59) |
| `Quiz.QuizApp.JumpTo` | script.js:245-252 | warning button k sets the index to k, which is at most 9, saves, and shows that question |
| `Quiz.QuizApp.Submit` | script.js:255-259 | the index becomes 0, the score is computed, `submitted` becomes true and the user is saved |
| `Quiz.QuizApp.ShowAnswers` | script.js:180-186 | opens the review at the current question |
| `Quiz.QuizApp.ReviewBack` | script.js:209-214 | while reviewing, back moves to i-1 unless on the first question; storage is never written; the user is left unchanged exactly when the back button was drawn hidden |
| `Quiz.QuizApp.ReviewNext` | script.js:215-220 | while reviewing, next moves to i+1 only below the last question, so the index stays within 0..9; storage is never written; the user is left unchanged exactly when the confirm button was drawn hidden (script.js:80-82) |
| `Quiz.ToggleTwice` | script.js:125-129 | toggling the bookmark twice restores the user, the icon and storage |
| `Quiz.FirstVisit` | script.js:88-104 | on a browser with empty storage, a valid start with a successful fetch creates the new user with the prepared questions, and storage then holds exactly that user under `user_<id>`; otherwise storage stays empty and the start screen stays |
| `Quiz.ReloadAndResume` | script.js:92-110 | after a reload, starting with the same name and ID resumes an unchanged user: the same question for an unsubmitted user, the result with the same score for a submitted one |

Every `QuizApp` handler also keeps the class invariant `Valid()`. It says:

- the index stays within 0..9, and there are ten answers and ten flags (in the model; with fewer than ten questions the source can push the index past 9, see `Stuck` under "Left out");
- the questions are permutation-prepared from at most ten fetched ones;
- the score is the computed score once submitted, and 0 before;
- on a question card the bookmark icon matches the flag, and the navigation buttons are those drawn for its index;
- while answering, and on the result, storage holds the user exactly;
- while reviewing, storage holds the user up to the index.

The variable in `renderWarning` is called `firstThree`. The code, however, keeps the first *four* words (`slice(0, 4)`), and the model follows the code.

## Left out

- DOM rendering is not modelled: HTML templates, CSS classes, `style.display`, the "selected" highlight, and the green/red colouring of answers in the review (script.js:29-34, 64-86, 176-186, 202-208, 238-244). Only the screen that is showing, the bookmark icon's state and which navigation buttons are hidden and how the confirm button reads are kept.
- A button's `textContent` is taken to be the answer string itself. The source inserts answers as HTML, so an answer holding an HTML entity (the trivia service encodes quotes and ampersands that way) is decoded on the page. HTML decoding is not modelled. In the source the decoded text is stored as the answer (script.js:137-140) but is scored against the raw `correct_answer` (script.js:169-172), so a correct answer holding an entity never scores even when clicked; the model scores it.
- `fetchQuestions` and `alert` are network and dialog I/O. The fetch result is a parameter of `StartQuiz`: `None` when the fetch failed.
- `Quiz.QuizApp.StartQuiz` requires a fetch result of at most ten questions, which is what the request's `amount=10` asks the service for. A longer list would let a warning button set the index past 9.
- `Quiz.QuizApp.CreateUser` gives the user the empty question list of the constructor after a failed fetch. In the source, `data` is then `undefined`. No handler reads it before the next start replaces the user.
- Fewer than ten questions makes the source throw when it draws a missing card, and the previous card stays on the page with its listeners, which captured the old `currentIndex` (script.js:114, 127, 140, 146-148). Its Next button then keeps incrementing and saving the index past 9, one step per click, and its answer and bookmark buttons keep writing the old card's slot. The model stops at the `Stuck` screen and takes no further events, so its 0..9 bound on the index holds only because those clicks are not modelled.
- `JSON.stringify`/`JSON.parse` are not modelled: storage holds the saved record itself, so save-then-load returns the same user. Storage errors (quota, private mode) and entries of other pages are left out too.
- `Math.random` in the sort comparator is not modelled. The random draws are a parameter, and the model promises only that each answer list is a permutation.
- Async/await and listener registration are not modelled: each handler is one atomic step, taken only when its button's screen is showing. Starting twice while a fetch is pending is not modelled.
