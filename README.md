# Company-evaluation voice dialog: a Dafny model

This project models the dialog state machine of an automated customer
survey call. The call starts with a greeting (the hello unit). It goes on to
a recommendation question (the main unit), and it ends either in one of
four closing prompts that hang up (the hangup unit) or in a transfer to a
person (the forward unit).

Each state's handler works the same way. It speaks a prompt. A hello or
main handler then listens and turns what was recognised into an answer
category. It looks the category up in its unit's transition table and
returns the next state together with a call-control callback. The driver
(`Dialog`) repeats this until a handler returns no next state. The entry
point then invokes the last callback, if there is one.

Modules, one per part of the program:

- `Wrappers`: `Option` (Python's `None`) and `Result` (a raised exception).
- `IntText`: how an int is printed in an f-string and read back by `int()`.
- `Base`: the shared parts of `BaseLogic`. These are entity values and
  recognition results, the raw answer string (`null`, `entity=value` or
  `default`) and the two-level transition lookup with its DEFAULT fallback.
- `States`: the states of the four units as tagged values, the callbacks,
  and the handler result.
- `MainLogic`, `HelloLogic`: each unit's declared entities, answer
  mapping, transition table, prompts and handlers. Each also has reference
  definitions (`Expected` for the answer, `Target` for the next state).
  `AnswerIsExpected` and `TransitionsMatchTarget` prove that the mapping
  and the table agree with them. `Target` is written from the per-state
  expectations in `tests/test_logic.py`. `Expected` takes its precedence
  among several entities from the declared entity order
  (`company_evaluation/logic.py:153-159` and `:309`), and its reading of
  the texts "True" and "False" from the mapping's keys
  (`company_evaluation/logic.py:218-230` and `:341-348`).
- `HangupLogic`, `ForwardLogic`: the terminal units. They declare no
  entities, their answer is always None, and their table maps it to a
  DEFAULT of None. Their handlers' contracts state the result outright: no
  next state, and `hangup_action` or `bridge_action`.
- `NeuroVoice`: the speech and telephony library. `say` appends to a trace
  of prompt names. `listen` takes the next result from a finite script of
  recognition results. Invoking a callback appends it to a record.
- `Dialog`: the driver class with `NextStep` and `Run`. Each method is
  proved equal to a specification function on a configuration (`Advance`,
  `RunFrom`). As in the source, the driver only calls whatever handler the
  current state names. The specification functions therefore take the
  handler as a parameter, together with the properties the driver relies
  on (`WellBehaved`), and the four units' handlers are proved to have
  them. Lemmas about `RunFrom` say why and how a run stops, for any such
  handler.
- `Script`: `main()`. It builds a dialog at the greeting, runs it and
  dispatches the final callback.

The model follows the code on three points where a reader might expect otherwise:

- The code treats any score outside 0..8 as a high score (`range(0, 9)`),
  and that includes negative scores, not only scores of 9 and above.
- The forward unit's callback is `bridge_action`.
- A score that `int()` cannot read raises `ValueError` and ends the call
  without a callback. The model has this as an error path.

## Model

| member | source | states |
|---|---|---|
| `IntText.Parse` | company_evaluation/logic.py:213-215 | `int(value)` succeeds exactly on an optional sign followed by digits; it reads the digits as their decimal value, negated after a minus sign |
| `IntText.ParseShow` | company_evaluation/logic.py:212-216 | reading back the text an f-string printed for an int gives the same int |
| `IntText.ShowChars` | company_evaluation/logic.py:213 | the text of an int holds only digits and a leading minus, so it never adds an `=` to split on |
| `IntText.DigitsValueLeadingZero` | company_evaluation/logic.py:215 | leading zeros do not change the number a digit run denotes |
| `Base.Format` | company_evaluation/logic.py:52 | a value prints as `True`/`False`, as decimal text that parses back to the number, or as the text itself |
| `Base.FormatIsTrue` | company_evaluation/logic.py:52 | only `True` and the text "True" print as `True`, and only `False` and "False" print as `False` |
| `Base.FirstIndex` | company_evaluation/logic.py:49-51 | the scan stops at the first declared entity that has a value, and every entity before it has none; it finds none exactly when no declared entity has a value |
| `Base.Answer` | company_evaluation/logic.py:44-53 | `null` for a result without entities; otherwise `entity=value` for the first declared entity with a value; `default` when none has one |
| `Base.NextAction` | company_evaluation/logic.py:55-60 | the exact state's entry wins when it is present and not None; otherwise the DEFAULT entry decides; a missing row or DEFAULT gives None |
| `HangupLogic.Handle` | company_evaluation/logic.py:80-122 | every hangup handler returns no next state and `hangup_action`, and never listens |
| `ForwardLogic.Handle` | company_evaluation/logic.py:142-148 | `forward` returns no next state and `bridge_action`, and never listens |
| `MainLogic.AnswerIsExpected` | company_evaluation/logic.py:208-230 | the main answer equals the precedence reference: silence is null; a score wins over everything; then recommendation, repeat, wrong_time, question; unmapped values are default |
| `MainLogic.ScoreFirst` | company_evaluation/logic.py:211-216 | a present score alone decides the answer: 0..8 is the low range, any other int the high range, and unreadable text raises ValueError |
| `MainLogic.RecommendationFirst` | company_evaluation/logic.py:218-230 | with no score, the four recommendation words map to no/maybe/yes/dont_know and any other value to default |
| `MainLogic.FlagFirst` | company_evaluation/logic.py:218-230 | with no earlier entity, repeat, wrong_time or question gives its category when it prints `True`, and default otherwise |
| `MainLogic.FormatIsWord` | company_evaluation/logic.py:52 | only a text value prints as one of the recommendation words |
| `MainLogic.RecommendationKeys` | company_evaluation/logic.py:218-230 | the mapping reads `recommendation=x` as its four named words and as default for every other x |
| `MainLogic.FlagKeys` | company_evaluation/logic.py:218-230 | the mapping reads `repeat=x`, `wrong_time=x` and `question=x` as their category for `True` and as default for every other x |
| `MainLogic.EveryCategoryHasDefault` | company_evaluation/logic.py:170-206 | every main category has a DEFAULT entry that names a state |
| `MainLogic.TransitionsMatchTarget` | company_evaluation/logic.py:170-206 | the table lookup gives the expected target from every state for every category; only null and default escalate to `hangup_null`, from `recommend_null` and `recommend_default` |
| `MainLogic.Handle` | company_evaluation/logic.py:232-303 | a main handler returns the expected target for the answer it heard and no callback, or the ValueError of an unreadable score |
| `MainLogic.ScoreRoutes` | tests/test_logic.py:121-132 | a numeric score leads from every main state to `hangup_negative` for 0..8 and to `hangup_positive` otherwise |
| `MainLogic.TextScoreRoutes` | company_evaluation/logic.py:212-216 | a score given as text routes from every main state by the number `int` reads from it: 0..8 to `hangup_negative`, any other to `hangup_positive` |
| `MainLogic.SignedScoreTexts` | company_evaluation/logic.py:215 | the score texts "+3" and "-0" are low and "-03" is high |
| `MainLogic.QuestionForwards` | tests/test_logic.py:149 | `{question: True}` leads from every main state to `forward` |
| `MainLogic.UnknownEntityEscalates` | tests/test_logic.py:204-210 | an undeclared entity leads to `recommend_default`, and from `recommend_default` to `hangup_null` |
| `HelloLogic.AnswerIsExpected` | company_evaluation/logic.py:338-348 | the hello answer equals the precedence reference: silence is null; confirm beats wrong_time, which beats repeat; other values are default |
| `HelloLogic.ConfirmFirst` | company_evaluation/logic.py:338-348 | a present `confirm` alone decides the answer: yes when it prints `True`, no when it prints `False`, default otherwise |
| `HelloLogic.FlagFirst` | company_evaluation/logic.py:338-348 | with no earlier entity, wrong_time or repeat gives busy/repeat when it prints `True`, and default otherwise |
| `HelloLogic.ConfirmKeys` | company_evaluation/logic.py:341-348 | the mapping reads `confirm=True` as yes, `confirm=False` as no and any other `confirm=x` as default |
| `HelloLogic.FlagKeys` | company_evaluation/logic.py:341-348 | the mapping reads `wrong_time=x` and `repeat=x` as busy/repeat for `True` and as default otherwise |
| `HelloLogic.EveryCategoryHasDefault` | company_evaluation/logic.py:316-336 | every hello category has a DEFAULT entry that names a state |
| `HelloLogic.TransitionsMatchTarget` | company_evaluation/logic.py:316-336 | the table lookup gives the expected target from every hello state; only null from `hello_null` escalates to `hangup_null` |
| `HelloLogic.Handle` | company_evaluation/logic.py:350-372 | a hello handler returns the expected target for the answer it heard and no callback |
| `HelloLogic.SilenceEscalates` | tests/test_logic.py:78-109 | silence leads to `hello_null`, and from `hello_null` to `hangup_null` |
| `HelloLogic.ConfirmWins` | company_evaluation/logic.py:309 | a `confirm` value that prints `True` (the flag or the text) leads to `recommend_main` whatever the later entities hold |
| `NeuroVoice.Library.Say` | company_evaluation/logic.py:85 | speaking appends the prompt name and changes nothing else |
| `NeuroVoice.Library.Listen` | company_evaluation/logic.py:46 | listening returns the next recognition result and consumes it |
| `NeuroVoice.Library.Invoke` | company_evaluation/script.py:22 | invoking a callback records it once |
| `Dialog.HandleWellBehaved` | company_evaluation/logic.py:25 | calling any state through its unit's handler keeps what the driver relies on: terminal states return no next state and their callback; hello/main states name a next state with no callback; only main states raise |
| `Dialog.Advance` | company_evaluation/logic.py:22-27 | one step makes the current state the end state, speaks its prompt, consumes one input if it listens, and either moves on or, on a raise, keeps state and callback |
| `Dialog.AdvanceFollowsHandler` | company_evaluation/logic.py:25-27 | a step's new current state and callback are exactly the handler's result for the current state and the input it heard, and a raise reports the handler's own error |
| `Dialog.RunStopsForItsStatus` | company_evaluation/logic.py:29-32 | for any handler the driver can rely on, a finished run has no current state; other stops leave a listening state without input, or the main state that raised |
| `Dialog.FinishedRunEndsTerminal` | company_evaluation/logic.py:29-32 | for any handler the driver can rely on, a run that finishes last ran a hangup or forward state and keeps that state's callback, never None |
| `Dialog.RunAppends` | company_evaluation/logic.py:29-32 | for any handler the driver can rely on, a run only extends the prompt trace and consumes a prefix of the script, one prompt at least per input heard |
| `Dialog.Dialog.constructor` | company_evaluation/logic.py:17-20 | a new dialog has the start state as current and end state, and no callback |
| `Dialog.Dialog.NextStep` | company_evaluation/logic.py:22-27 | `next_step` changes the dialog and the library exactly as `Advance` says and invokes no callback |
| `Dialog.Dialog.Run` | company_evaluation/logic.py:29-32 | `run` ends in the configuration and status `RunFrom` gives and invokes no callback |
| `Script.RunCall` | company_evaluation/script.py:10-22 | the call starts at `hello`; the callback is read after `run` returns and is invoked exactly once when the run finished, never otherwise |
| `Script.TwoSilences` | company_evaluation/script.py:17-22 | two silent results visit `hello`, `hello_null`, `hangup_null` and finish with `hangup_action` |

## Left out

- Speech output, recognition and telephony (`NeuroVoiceLibrary.say`, `listen`, `bridge_action`, `hangup_action`): their code is not part of this model. They are the `NeuroVoice.Library` trace, script and record.
- The `with nv.listen(...)` context manager and its release of resources on every exit path.
- Failures of speech, recognition or telephony: only the ValueError of an unreadable score is modelled.
- The second `listen` in `MainLogic.answer` (logic.py:211 and 213): both reads are taken to see the same recognition result, so one input is consumed.
- IntText.Parse: accepts only an optional sign followed by ASCII digits. Python's `int()` also strips surrounding whitespace and accepts underscores between digits and non-ASCII digits. For such score texts the model raises a ValueError where the source reads a number.
- Base.Value: entity values are booleans, ints and strings. Floats and other types are not modelled. A result "has entities" when its map is not empty, as in the test double. A None-valued entity has no `Value`, so a result in which only None-valued entities appear is written as a map that holds only keys the unit does not declare. It then reads `default`, not `null`, as the source does.
- Dialog.Dialog.Run: runs over a finite script. When a listening state finds the script empty, the model stops with `Exhausted` before speaking. The source would speak and then block in `listen`. The model's run therefore always ends, while the source's loop need not (repeating `repeat` in `hello_repeat` loops forever).
- Dialog.Dialog.NextStep: requires a current state, and a recognition result left in the script when that state listens. Calling `next_step` with no current state would raise TypeError in the source, and `run` never does that. The second half comes from the finite script described on the `Dialog.Dialog.Run` line: where the model has no input left, the source would block in `listen`.
- The order in which `main()` builds the units (hangup and forward first, so that main and hello can name their states): the tables are constants over state tags, so the model builds no objects and has no order.
- Python's `Enum` classes and the use of bound methods as state identities: they are datatypes here.
- `company_evaluation/logics.py`: an earlier draft that nothing imports; it is not part of this model.
