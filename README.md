# Vedro learning games: client state machines and the tutor's data contracts

This project models, in Dafny, the interactive core of the Vedro study app:
the five client-side components that keep state, and the schema that the
chat tutor's generated content must satisfy. Each component is one module:

- `QuizRunner` models the "Scroll Catcher" quiz game.
  - Scrolls fall while the game is playing, and catching one opens its question.
  - A right answer earns 10 points; a wrong one costs 3 seconds, never going below zero.
  - The 60-second clock ends the game.
  - Every timer callback is an explicit event: the one-second tick, the spawner and the 1.5-second pause after an answer.
  - The pause callback decides whether the game goes on from the time left *before* the penalty. `LastSecondsScenario` walks through a wrong answer given with two seconds left: the game resumes with an empty clock, and the next tick ends it.
- `ConceptBuilder` models the photosynthesis equation builder.
  - Five tiles are moved from the available list into the reactant or the product zone, and only into the zone of their own type.
  - "Check My Work" compares the sorted ids of each zone with the expected ones.
  - The model proves three things about the class:
    - available, reactants and products always partition the five tiles;
    - the check depends only on which tiles each zone holds, not their order;
    - whenever the button is enabled, the answer is correct.
- `ChatTutor` models the chat page.
  - The mini quiz records one option per question. Its submit button is enabled exactly when every question has an answer.
  - The message log refuses blank input, going by JavaScript's `trim`, and refuses input while a request is in flight. An accepted send appends the user's message, and exactly one assistant reply follows it.
- `SandboxExperiment` models the alchemy sandbox.
  - The beaker holds at most one element per id, in arrival order.
  - Mixing needs two elements. It sends a one-sentence description, which is proved to read back to the element names.
- `AncientBook` models the paged book: its spreads, the turn lock and the page arithmetic (see Findings).
- `ChatbotTypes` models the zod schemas of the tutor's input and output.
  - Validity predicates state what each schema demands.
  - A parser accepts exactly the JSON values the predicates accept, and an encoder goes the other way.
  - Encoding a pack and parsing it back returns the pack exactly when the pack is valid.

Stateful components are classes with one method per handler, each of whose
`modifies` clauses names the fields that handler changes. Values the app draws from the outside world are method parameters:
wall-clock ids, random positions and picks, and the results of requests.

## Model

| member | source | states |
|---|---|---|
| QuizRunner.ScrollSpeed | src/app/running-quiz/components/quiz-runner-client.tsx:133-139 | a new scroll's speed is exactly 1 + score/50 while that is at most 4, and 4 above it; at least 1 for a non-negative score |
| QuizRunner.Penalized | src/app/running-quiz/components/quiz-runner-client.tsx:200 | a wrong answer takes 3 seconds off the clock, never going below 0 |
| QuizRunner.RemoveScroll | src/app/running-quiz/components/quiz-runner-client.tsx:186-188 | the filtered list holds exactly the scrolls whose id differs from the given one |
| QuizRunner.RemoveScrollAppend | src/app/running-quiz/components/quiz-runner-client.tsx:186-188 | filtering works piecewise over concatenation, so the kept scrolls stay in order |
| QuizRunner.RemoveAbsentScroll | src/app/running-quiz/components/quiz-runner-client.tsx:186-188 | removing an id no scroll carries changes nothing |
| QuizRunner.RemoveScrollIdempotent | src/app/running-quiz/components/quiz-runner-client.tsx:186-188 | a second removal of the same id changes nothing |
| QuizRunner.BuiltInQuestionsHaveOneCorrectOption | src/app/running-quiz/components/quiz-runner-client.tsx:12-20 | every built-in question has four distinct options, one of which is its answer |
| QuizRunner.Game.constructor | src/app/running-quiz/components/quiz-runner-client.tsx:119-129 | the game starts on the start screen with score 0, 60 seconds and no scrolls |
| QuizRunner.Game.StartGame | src/app/running-quiz/components/quiz-runner-client.tsx:215-223 | starting resets score, clock, scrolls and dialog and enters play |
| QuizRunner.Game.Spawn | src/app/running-quiz/components/quiz-runner-client.tsx:132-143 | a spawn appends one scroll with a built-in question and the capped speed for the score its callback saw |
| QuizRunner.Game.Tick | src/app/running-quiz/components/quiz-runner-client.tsx:145-157 | the clock runs only while playing; at 1 second or less it reaches 0 and ends the game |
| QuizRunner.Game.CatchScroll | src/app/running-quiz/components/quiz-runner-client.tsx:179-184 | while playing, a catch opens the scroll's question and removes the scroll; otherwise nothing changes |
| QuizRunner.Game.MissScroll | src/app/running-quiz/components/quiz-runner-client.tsx:186-188 | a missed scroll is removed from the list |
| QuizRunner.Game.HandleAnswer | src/app/running-quiz/components/quiz-runner-client.tsx:190-202 | outside a question nothing happens; otherwise the result is recorded, a right answer adds 10 points, a wrong one applies the penalty, and the pre-answer time and score are captured |
| QuizRunner.Game.ChooseOption | src/app/running-quiz/components/quiz-runner-client.tsx:84-98 | a click is answered only once per open question and is correct exactly when the option is the question's answer; a right answer adds 10 points and shows the indicator, a wrong one applies the penalty and leaves the indicator; an ignored click changes nothing |
| QuizRunner.Game.ResolveAnswer | src/app/running-quiz/components/quiz-runner-client.tsx:203-212 | the dialog closes; play resumes with a new scroll if the captured time was positive, otherwise the game ends |
| QuizRunner.Game.HidePointsIndicator | src/app/running-quiz/components/quiz-runner-client.tsx:198 | the points indicator is hidden |
| QuizRunner.Game.EndGame | src/app/running-quiz/components/quiz-runner-client.tsx:287 | the End button ends any game that has begun |
| ConceptBuilder.LexLeTotal | src/app/concept-builder/components/concept-builder-client.tsx:95-96 | the default sort order compares any two ids |
| ConceptBuilder.LexLeAntisymmetric | src/app/concept-builder/components/concept-builder-client.tsx:95-96 | ids that sort no later than each other are equal |
| ConceptBuilder.LexLeTransitive | src/app/concept-builder/components/concept-builder-client.tsx:95-96 | the default sort order is transitive |
| ConceptBuilder.SortIdsSorted | src/app/concept-builder/components/concept-builder-client.tsx:95-99 | sorting yields a sorted permutation of the ids |
| ConceptBuilder.SortedUnique | src/app/concept-builder/components/concept-builder-client.tsx:95-99 | two sorted lists with the same elements are equal |
| ConceptBuilder.SortIdsEqualIff | src/app/concept-builder/components/concept-builder-client.tsx:95-99 | two id lists sort to the same list exactly when they hold the same ids |
| ConceptBuilder.IdsPermutation | src/app/concept-builder/components/concept-builder-client.tsx:95-96 | rearranging tiles rearranges their ids |
| ConceptBuilder.CheckAnswerMeaning | src/app/concept-builder/components/concept-builder-client.tsx:94-108 | the check passes exactly when each zone holds the expected ids, in any order |
| ConceptBuilder.CheckIgnoresOrder | src/app/concept-builder/components/concept-builder-client.tsx:94-99 | the outcome does not depend on the order in which tiles were dropped |
| ConceptBuilder.ConceptTilesUnique | src/app/concept-builder/components/concept-builder-client.tsx:16-22 | the five tiles have distinct ids |
| ConceptBuilder.RemoveUniqueTile | src/app/concept-builder/components/concept-builder-client.tsx:83 | filtering out a placed tile's id removes exactly that tile from the available list |
| ConceptBuilder.MoveKeepsPartition | src/app/concept-builder/components/concept-builder-client.tsx:77-83 | moving an available tile into either zone keeps available, reactants and products a partition of the tiles |
| ConceptBuilder.AddKeepsTyped | src/app/concept-builder/components/concept-builder-client.tsx:77-82 | a tile added to the zone of its own type keeps every zone holding only its type |
| ConceptBuilder.ConceptTilesByKind | src/app/concept-builder/components/concept-builder-client.tsx:16-25 | the input tiles carry exactly the expected reactant ids and the output tiles the expected product ids |
| ConceptBuilder.CompleteIsCorrect | src/app/concept-builder/components/concept-builder-client.tsx:94-101 | once every tile is placed in its own zone, the check passes |
| ConceptBuilder.Builder.constructor | src/app/concept-builder/components/concept-builder-client.tsx:55-60 | all five tiles start available, the zones empty, no result and no glow |
| ConceptBuilder.Builder.DragStart | src/app/concept-builder/components/concept-builder-client.tsx:64-67 | the dragged tile is recorded |
| ConceptBuilder.Builder.Drop | src/app/concept-builder/components/concept-builder-client.tsx:73-92 | a drop in the dragged tile's own zone appends it there and removes it from the available list; any other drop changes no list; the drag always ends |
| ConceptBuilder.Builder.EnabledCheckIsCorrect | src/app/concept-builder/components/concept-builder-client.tsx:151 | whenever the check button is enabled, the answer is correct |
| ConceptBuilder.Builder.Check | src/app/concept-builder/components/concept-builder-client.tsx:94-108 | the result is the check's outcome, and a correct result lights the glow |
| ConceptBuilder.Builder.EndGlow | src/app/concept-builder/components/concept-builder-client.tsx:104 | the glow goes out |
| ConceptBuilder.Builder.Reset | src/app/concept-builder/components/concept-builder-client.tsx:110-116 | all tiles are available again, the zones empty, the result and glow cleared |
| ChatTutor.EnoughKeysAnswerAll | src/app/ai-chatbot/components/chat-interface.tsx:62 | with answers keyed by question index, having as many answers as questions means every question is answered |
| ChatTutor.MiniQuiz.constructor | src/app/ai-chatbot/components/chat-interface.tsx:25-27 | a quiz starts with no answers, not submitted |
| ChatTutor.MiniQuiz.ChangeAnswer | src/app/ai-chatbot/components/chat-interface.tsx:29-31 | choosing an option sets or overwrites that question's answer and keeps every other answer and its correctness |
| ChatTutor.MiniQuiz.SubmitEnabledMeansAllAnswered | src/app/ai-chatbot/components/chat-interface.tsx:62 | submit is enabled exactly when the quiz is unsubmitted and every question has an answer |
| ChatTutor.MiniQuiz.Submit | src/app/ai-chatbot/components/chat-interface.tsx:33 | after submission, answering and submitting are disabled |
| ChatTutor.MiniQuiz.UnreachableCorrectAnswer | src/app/ai-chatbot/components/chat-interface.tsx:35-37 | a question whose correct answer is not among its options can never be marked correct |
| ChatTutor.TrimStart | src/app/ai-chatbot/components/chat-interface.tsx:148 | the result is the suffix left after the leading white space |
| ChatTutor.TrimEnd | src/app/ai-chatbot/components/chat-interface.tsx:148 | the result is the prefix left before the trailing white space |
| ChatTutor.TrimEmptyIffBlank | src/app/ai-chatbot/components/chat-interface.tsx:148 | trimming leaves nothing exactly when every character is white space |
| ChatTutor.ReplyMessageRoundTrip | src/app/ai-chatbot/components/chat-interface.tsx:162-166 | the assistant's reply records its request's outcome: the pack of a success or the error of a failure reads back from it, so different outcomes give different replies |
| ChatTutor.ChatLog.constructor | src/app/ai-chatbot/components/chat-interface.tsx:131-133 | the log starts empty, with empty input and no request in flight |
| ChatTutor.ChatLog.SetInput | src/app/ai-chatbot/components/chat-interface.tsx:263 | typing replaces the input value |
| ChatTutor.ChatLog.SendMessage | src/app/ai-chatbot/components/chat-interface.tsx:147-158 | a send is accepted exactly for non-blank content with no request in flight; it appends the user's message, starts loading and clears the input |
| ChatTutor.ChatLog.ReceiveReply | src/app/ai-chatbot/components/chat-interface.tsx:160-169 | the settled request appends one assistant message and ends loading |
| ChatTutor.ChatLog.Send | src/app/ai-chatbot/components/chat-interface.tsx:147-170 | an accepted send adds exactly the user's message and one reply; a refused one changes nothing |
| ChatTutor.ChatLog.SubmitForm | src/app/ai-chatbot/components/chat-interface.tsx:172-175 | submitting sends the input, accepted exactly when the send button is enabled; an accepted send adds the user's message and one reply, clears the input and ends loading; a refused one changes nothing |
| ChatTutor.ChatLog.ClearChat | src/app/ai-chatbot/components/chat-interface.tsx:177-179 | the log is emptied |
| ChatTutor.ChatLog.NewChat | src/app/ai-chatbot/components/chat-interface.tsx:181-185 | the log is emptied, and nothing else is reset |
| SandboxExperiment.WithItem | src/app/sandbox-experiment/components/experiment-client-page.tsx:32-36 | a drop keeps ids unique, keeps the old contents as a prefix, and adds the element's id if it was missing |
| SandboxExperiment.WithItemIdempotent | src/app/sandbox-experiment/components/experiment-client-page.tsx:32-36 | dropping the same element twice equals dropping it once |
| SandboxExperiment.SplitJoin | src/app/sandbox-experiment/components/experiment-client-page.tsx:51-53 | comma-free names joined with ", " split back into the names |
| SandboxExperiment.DescriptionRoundTrip | src/app/sandbox-experiment/components/experiment-client-page.tsx:51-53 | the description of a non-empty beaker of comma-free names reads back to its names |
| SandboxExperiment.AvailableNamesCommaFree | src/app/sandbox-experiment/components/experiment-client-page.tsx:13-22 | no element on offer has a comma in its name |
| SandboxExperiment.AvailableIdsUnique | src/app/sandbox-experiment/components/experiment-client-page.tsx:13-22 | the elements on offer have distinct ids |
| SandboxExperiment.Bench.constructor | src/app/sandbox-experiment/components/experiment-client-page.tsx:27-29 | the beaker starts empty, with no explanation, not loading |
| SandboxExperiment.Bench.Drop | src/app/sandbox-experiment/components/experiment-client-page.tsx:32-36 | an element with a new id is appended; a repeated id leaves the beaker as it was |
| SandboxExperiment.Bench.StartMix | src/app/sandbox-experiment/components/experiment-client-page.tsx:38-53 | a mix is refused with fewer than two elements; otherwise loading starts, the explanation clears and the beaker's description is sent |
| SandboxExperiment.Bench.FinishMix | src/app/sandbox-experiment/components/experiment-client-page.tsx:55-66 | an explanation replaces the text, a failure leaves it, and loading ends |
| SandboxExperiment.Bench.Mix | src/app/sandbox-experiment/components/experiment-client-page.tsx:38-67 | a complete mix ends not loading, showing the explanation or an empty text |
| SandboxExperiment.Bench.PressMix | src/app/sandbox-experiment/components/experiment-client-page.tsx:92 | a press of the mix button starts a mix exactly when the button is enabled, so the handler's own guard never refuses it and no second request starts while one is in flight |
| SandboxExperiment.Bench.Reset | src/app/sandbox-experiment/components/experiment-client-page.tsx:69-73 | beaker, explanation and loading flag are all cleared |
| AncientBook.SpreadCount | src/components/ancient-book.tsx:23 | the spread count is half the page count, rounded up |
| AncientBook.ZIndex | src/components/ancient-book.tsx:76 | the current spread is on top, and every spread's stacking order is between 1 and the spread count |
| AncientBook.NearerSpreadIsAbove | src/components/ancient-book.tsx:76 | a spread nearer the current one is drawn above a farther one |
| AncientBook.ShownAsWrittenRange | src/components/ancient-book.tsx:85-89 | as written, the spreads show exactly pages 0 to 2·spreads − 2 |
| AncientBook.EvenBookHidesLastPage | src/components/ancient-book.tsx:85-89 | as written, a book with an even number of pages never shows its last page |
| AncientBook.DemoBookHidesSixthPage | src/app/book-demo/page.tsx:5-36 | the six-page demo book never shows its sixth page |
| AncientBook.EveryPageShownOnce | src/components/ancient-book.tsx:85-89 | with left 2i and right 2i + 1, every page is on exactly one spread |
| AncientBook.BackgroundPage | src/components/ancient-book.tsx:98 | past the first spread, the static left page is a page of the book, the one the previous spread shows on its right as written, and shown in both layouts |
| AncientBook.Book.CurrentPagesAsWritten | src/components/ancient-book.tsx:85-89 | as written, the current spread's left page exists only past the first spread, and its right page is a page of a non-empty book and the one the counter names |
| AncientBook.Book.Background | src/components/ancient-book.tsx:97-99 | the background page is shown exactly past the first spread, and is then a page of the book |
| AncientBook.Book.constructor | src/components/ancient-book.tsx:19-20 | the book opens on the first spread, not turning |
| AncientBook.Book.TurnPage | src/components/ancient-book.tsx:25-43 | a turn is accepted exactly when no turn is running and there is a spread that way; forward only starts the animation, backward moves back at once |
| AncientBook.Book.FinishTurn | src/components/ancient-book.tsx:30-41 | the animation's end moves a forward turn on by one spread and unlocks the book |
| AncientBook.Book.CurrentPages | src/components/ancient-book.tsx:85-89 | in the corrected layout (see Findings), the current spread's left page is a page of the book named by the counter, and only the last spread of an odd-length book lacks a right page |
| AncientBook.Book.PageNumberInRange | src/components/ancient-book.tsx:110 | for a non-empty book, the page counter never goes past the page count |
| AncientBook.Book.EmptyBookCounter | src/components/ancient-book.tsx:110 | an empty book stays on its first spread and its counter reads "Page 1 of 0" |
| ChatbotTypes.ParseEach | src/ai/flows/chatbot.types.ts:26-70 | an array is accepted exactly when every item is, with item k parsed into position k |
| ChatbotTypes.StringListRoundTrip | src/ai/flows/chatbot.types.ts:46-49 | a list of strings, such as the steps of an explanation, parses back to itself |
| ChatbotTypes.ParseQuizQuestion | src/ai/flows/chatbot.types.ts:19-23 | accepted exactly when the quiz question schema holds, and the result has four options |
| ChatbotTypes.KeyPointEncodeParse | src/ai/flows/chatbot.types.ts:34-39 | an accepted key point encodes back to its input, less the keys the schema does not name |
| ChatbotTypes.CauseEffectEncodeParse | src/ai/flows/chatbot.types.ts:55-58 | an accepted cause-and-effect pair encodes back to its input, less the keys the schema does not name |
| ChatbotTypes.ParseLearningPack | src/ai/flows/chatbot.types.ts:26-70 | accepted exactly when the learning pack schema holds, and the result respects every count bound |
| ChatbotTypes.ChatbotInputEncodeParse | src/ai/flows/chatbot.types.ts:7-15 | an accepted input encodes back to its input, less the keys the schema does not name, the file field kept exactly when present |
| ChatbotTypes.ParseEachEncodeEach | src/ai/flows/chatbot.types.ts:26-70 | parsing an encoded list gives the list back when each item round-trips |
| ChatbotTypes.QuizQuestionRoundTrip | src/ai/flows/chatbot.types.ts:19-23 | an encoded question parses back exactly when it has four options, and then to itself |
| ChatbotTypes.QuizQuestionEncodeParse | src/ai/flows/chatbot.types.ts:19-23 | an accepted question encodes back to its input, less the keys the schema does not name |
| ChatbotTypes.KeyPointRoundTrip | src/ai/flows/chatbot.types.ts:34-39 | an encoded key point parses back to itself |
| ChatbotTypes.CauseEffectRoundTrip | src/ai/flows/chatbot.types.ts:55-58 | an encoded cause-and-effect pair parses back to itself |
| ChatbotTypes.QuizListRoundTrip | src/ai/flows/chatbot.types.ts:65-69 | a list of valid questions parses back to itself |
| ChatbotTypes.ValidPackRoundTrip | src/ai/flows/chatbot.types.ts:26-70 | a valid pack parses back to itself |
| ChatbotTypes.InvalidPackRejected | src/ai/flows/chatbot.types.ts:26-70 | an invalid pack's encoding is rejected |
| ChatbotTypes.LearningPackRoundTrip | src/ai/flows/chatbot.types.ts:26-74 | an encoded pack parses back exactly when it is valid, and then to itself |
| ChatbotTypes.ChatbotInputRoundTrip | src/ai/flows/chatbot.types.ts:7-16 | every input parses back to itself |
| ChatbotTypes.CorrectAnswerNeedNotBeAnOption | src/ai/flows/chatbot.types.ts:19-23 | the schema accepts a question whose correct answer is none of its options |

## Left out

- The model replaces some outside inputs with method parameters and events, for these reasons:
  - The language model behind the tutor and the sandbox is opaque code, so each request's outcome is a success-or-failure parameter.
  - Wall-clock ids and random numbers are nondeterministic, so `Date.now`, `Math.random` and the scroll positions become parameters.
  - Timers are not under the handler's control, so each timer callback is an event method.
  - The modelled `await` splits each request handler in two. Interleavings of other events between the halves are allowed but not studied.
- Rendering is left out because it has no state logic: pixel geometry, CSS animation classes, toasts, scrolling, focus, the typewriter effect and the message rendering component.
- Authentication, the profile and settings pages, the server-side flows (`chatbot.ts`, `schemas.ts`) and the Gemini client are not part of this model.
- The book's `pages` prop is a fixed page count, because a page's content plays no part in the page arithmetic.
- QuizRunner.Game.Spawn: requires the picked question index to be in range, because `Math.floor(Math.random() * questions.length)` always is.
- QuizRunner.Game.ResolveAnswer: requires the picked question index to be in range, for the same reason.
- The quiz game's "result" state is declared but no handler enters it. The model keeps the state and `QuizRunner.Game.Valid` states that it is never entered.
- ConceptBuilder.Builder.DragStart: requires the tile to be available, because only the available tiles are rendered as draggable.
- ConceptBuilder.LexLeTotal: ids are ordered by code point, not by UTF-16 unit. The two orders agree on the tile ids, which are ASCII.
- ConceptBuilder.Builder.Check: the model leaves out that `CORRECT_INPUTS.sort()` sorts the constant in place. Sorting an already sorted list gives the same list, so every check sees the same expected ids.
- ChatTutor.MiniQuiz.ChangeAnswer: requires an in-range index, an option of that question, and an unsubmitted quiz. The radio group passes only its own index and option values, and it is disabled after submission.
- AncientBook.Book.PageNumberInRange: holds for non-empty books only. For an empty book the counter reads "Page 1 of 0", which `AncientBook.Book.EmptyBookCounter` states.
- ChatTutor.ReplyMessage: ids are parameters, not `Date.now()` strings, so the model does not promise that the reply's id differs from the user message's id.
- The rendering of assistant messages is left out, but it bears on what is reachable. `AssistantMessage` branches on a `type` field that a learning pack as the schema defines it does not have, so a successful reply shows the fallback sentence. The pack display also reads a `miniQuiz` field that the schema lacks. As written, the modelled `MiniQuiz` is therefore never mounted from a reply; it is modelled as the component it is.
- ChatbotTypes.ParseChatbotInput: the data-URI format of the attached file is only described by the schema, never checked, so the model does not check it either.
- JSON numbers are kept as `real` and never inspected, because none of these schemas contains a number.

## Findings

| source | as written | input that shows it | evidently intended | confidence | as-written member | corrected member |
|---|---|---|---|---|---|---|
| src/components/ancient-book.tsx:85-89 | spread `i` renders pages `2i − 1` (left) and `2i` (right) over `ceil(n/2)` spreads, so the highest index shown is `2·ceil(n/2) − 2` | the six-page demo book (`n = 6`, three spreads): indices −1 to 4 are referenced, page index 5 never is | every page appears on exactly one spread (left `2i`, right `2i + 1`), the layout `AncientBook.Book.CurrentPages` uses | not executed | AncientBook.EvenBookHidesLastPage | AncientBook.EveryPageShownOnce |
