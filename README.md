# K'iche' vocabulary quiz: the session engine in Dafny

This project models the quiz session engine of a flashcard trainer for Maya
K'iche'. The trainer has two shells with the same rules: a desktop
application (`kiche.py`) and a web application (`app.py`). In both, a learner
starts a lesson with 0 points (`puntos`) and 3 lives (`vidas`). Each question
shows the Spanish gloss (`espanol`) of one word. The learner picks its K'iche'
term (`maya`) from four options: the correct one and three wrong answers
(distractors). A correct answer adds 10 points, and the lesson is won at 100 or
more. A wrong answer costs a life, and the lesson is lost at 0 or fewer. The
next word comes from those whose gloss has not been asked yet. Once every gloss
has been asked, any word of the lesson may come next.

Modules:

- `Catalog` (`catalog.dfy`): word pairs (`Palabra`), lessons (`Leccion`),
  levels (`Nivel`), and the built-in default catalog both shells write out
  when their lesson file is missing, with its well-formedness proved.
- `Engine` (`engine.dfy`): the rules both shells share. It holds the unasked
  filter and the eligible words, the rejection-sampling loop for distractors,
  the in-place shuffle of the options, and the scoring of an answer.
- `Desktop` (`desktop.dfy`): the desktop application object as a class with
  the fields `leccionActual`, `puntos`, `vidas` and `palabrasPreguntadas` (a
  set), and its methods `IniciarLeccion`, `MostrarEjercicio` (with its
  word-choosing part `Elegir`) and `VerificarRespuesta`.
- `Web` (`web.dfy`): the lesson lookup by id, and the learner's session as a
  class whose fields stand for the session entries. `palabrasPreguntadas` is a
  list here. The class has the lesson route `IniciarLeccion` and the exercise
  route `Ejercicio`, which scores the answer (`Responder`) and then poses the
  next question (`Preguntar`, with its word-choosing part `Elegir`).
- `Wrappers` (`wrappers.dfy`): `Option`.

Randomness is an argument. A `Dice` value carries the random numbers that one
question-generating pass uses:

- `choice`: the index that `random.choice` picks among the eligible words;
- `samples`: the indices that `random.choice` draws from the whole lesson
  inside the distractor loop;
- `swaps`: the positions that `random.shuffle` draws. The model runs the
  same swap loop as CPython's `random.shuffle`: for i from n-1 down to 1,
  swap item i with item j, where 0 <= j <= i.

`Engine.Fits` states what the source needs of these numbers. They must be in
range, and the sample stream must be long enough for the distractor loop to
finish. That loop only finishes when the lesson has at least three terms other
than the correct one: `Engine.CompletesNeedsThreeOthers` proves this
direction. `Engine.ThreeOthersCanComplete` proves the converse: with three
such terms, some stream does finish.

The web shell's reset of the asked list is modelled as written. At app.py:213
the route empties the session's list. At app.py:218 it stores its local copy
back, with the new gloss appended. So during a lesson the stored list only
ever grows; only starting a lesson resets it (app.py:170). See
"## Findings".

The model follows the code as written:

- The web shell never clears the asked list during a lesson. Only starting a
  lesson resets it.
- Neither shell rejects an answer or a new question after a lesson is won or
  lost.
- An empty lesson raises an error at the word choice. A non-empty lesson with
  fewer than four distinct terms makes the distractor loop run forever, with
  no error. The model turns this case into a precondition on the
  random numbers, and `Engine.CanPoseIff` and `Engine.SmallLessonCannotPose`
  say exactly which lessons it excludes.

## Model

| member | source | states |
|---|---|---|
| `Catalog.DefaultCatalogWellFormed` | kiche.py:53-93 | the built-in catalog lists lessons 1, 2 and 3 in level order, so ids are unique; each lesson has at least 4 entries, with pairwise distinct terms and pairwise distinct glosses |
| `Engine.DefaultCatalogCanPose` | app.py:40-80 | for every lesson of the built-in catalog and any asked set, some random numbers let the next question be posed, so the distractor loop can finish |
| `Engine.PlayableCanPose` | kiche.py:317-367 | on any lesson with at least 4 entries and distinct terms and glosses, some random numbers can pose the next question, whatever has been asked |
| `Engine.MayasBound` | kiche.py:360-363 | a lesson holds no more distinct terms than entries |
| `Engine.CanPoseIff` | kiche.py:317-367 | whatever has been asked, some random numbers pose the next question exactly when the lesson has at least 4 distinct terms; with fewer, the distractor loop can never finish |
| `Engine.SmallLessonCannotPose` | app.py:222-225 | on a lesson of 3 or fewer entries no random numbers let the next question be posed: an empty lesson has no word to choose, and on 1 to 3 entries the distractor loop never ends |
| `Engine.Unasked` | kiche.py:318 | the filtered list holds exactly the lesson entries whose gloss is not in the asked set, and is no longer than the lesson |
| `Engine.UnaskedEmpty` | kiche.py:320 | no word is left unasked exactly when every gloss of the lesson is in the asked set |
| `Engine.Eligible` | kiche.py:317-325 | the eligible words are entries of the lesson; once every gloss is asked they are the whole lesson; otherwise they are non-empty, none of their glosses was asked, and every entry with an unasked gloss is among them |
| `Engine.PickDistractors` | kiche.py:357-363 | the loop returns exactly 3 pairwise distinct terms of the lesson, none of them the correct term, namely those the sample stream selects |
| `Engine.SampleKeepsDistractors` | kiche.py:360-363 | each draw keeps the collected list distinct, free of the correct term and made of lesson terms; it only extends the list, and never beyond 3 |
| `Engine.CompletesNeedsThreeOthers` | kiche.py:360-363 | the distractor loop finishes only if the lesson has at least 3 distinct terms other than the correct one |
| `Engine.ThreeOthersCanComplete` | app.py:222-225 | with at least 3 other distinct terms, some stream of draws makes the distractor loop finish |
| `Engine.Shuffle` | kiche.py:367 | the in-place shuffle leaves the array equal to the swap-loop result on the old contents, which is a permutation of them |
| `Engine.ShufflePermutes` | app.py:229 | every run of the shuffle's swap loop gives a permutation (equal multiset) of its input |
| `Engine.ShuffleKeepsDistinct` | kiche.py:366-367 | shuffling a list without repeats gives a list without repeats |
| `Engine.BuildOptions` | kiche.py:356-367 | 4 options that are a permutation of the correct term plus the 3 distractors; the correct term occurs exactly once, no option repeats, and every other option is a lesson term |
| `Engine.Judge` | kiche.py:381-398 | a correct answer adds exactly 10 points and keeps the lives; a wrong one takes exactly 1 life and keeps the points; won iff correct and points >= 100; lost iff wrong and lives <= 0 |
| `Engine.CorrectRun` | kiche.py:383-390 | n correct answers in a row add 10 each; the run is won exactly at the answer that first brings the score to 100 or more |
| `Engine.WrongRun` | kiche.py:391-398 | n wrong answers in a row take one life each; the run is lost exactly at the answer that brings the lives to 0 |
| `Engine.ThreeWrongAnswersLose` | kiche.py:391-398 | from a fresh start the lives go 3→2→1→0, the first two wrong answers continue, and the third loses with 0 points |
| `Engine.TenCorrectAnswersWin` | kiche.py:383-390 | from a fresh start 9 correct answers give 90 points and continue; the 10th wins with 100 |
| `Engine.PlayMonotone` | app.py:189-205 | along any run of answers the score never falls and changes by multiples of 10, and the lives never rise |
| `Desktop.AprendizajeMayaKiche.constructor` | kiche.py:18-26 | start-up state: no lesson, 0 points, 3 lives, empty asked set |
| `Desktop.AprendizajeMayaKiche.IniciarLeccion` | kiche.py:303-310 | starting a lesson of the application's catalog (the lesson buttons of kiche.py:284-296 offer only those) records it, sets 0 points, 3 lives and an empty asked set, and poses the first question |
| `Desktop.AprendizajeMayaKiche.MostrarEjercicio` | kiche.py:312-367 | the chosen word is eligible and its gloss was unasked unless all were; the asked set becomes the old set (or the empty set once all were asked) plus that gloss, stays within the lesson's glosses and never exceeds the lesson's length; the options satisfy the distractor and shuffle guarantees; score and lives unchanged |
| `Desktop.AprendizajeMayaKiche.Elegir` | kiche.py:317-326 | the chosen word is the eligible word at the chosen position; its gloss was unasked unless all were, and the asked set becomes the old set (or the empty set once all were asked) plus that gloss, within the lesson's glosses and no larger than the lesson |
| `Desktop.AprendizajeMayaKiche.VerificarRespuesta` | kiche.py:381-398 | the new points, lives and outcome are the verdict on the answer; a new question is posed exactly when the lesson goes on, and otherwise the asked set is untouched |
| `Desktop.AskedBound` | kiche.py:326 | an asked set made of the lesson's glosses has no more elements than the lesson has entries |
| `Web.FirstWithIdSpec` | app.py:152-164 | the lookup finds a lesson exactly when some lesson has the id, and what it finds is the earliest such lesson in catalog order |
| `Web.BuscarLeccion` | app.py:152-160 | the nested scan with breaks returns the first lesson with the id, levels in order and lessons in order within each level |
| `Web.WebSession.constructor` | app.py:180-183 | a fresh session: no lesson, and the defaults of 0 points, 3 lives and an empty asked list |
| `Web.WebSession.IniciarLeccion` | app.py:146-172 | without a logged-in learner: route to the index; for an unknown id: route to the lesson list; in both cases the session is unchanged; otherwise the found lesson is stored with 0 points, 3 lives and an empty asked list |
| `Web.WebSession.Ejercicio` | app.py:174-235 | a posted answer is scored by the shared verdict and ends at the lesson list when won or lost; otherwise the chosen word is eligible, the stored list grows by exactly its gloss (even after all were asked), and the page shows the word, valid options and the updated points and lives |
| `Web.WebSession.Responder` | app.py:185-205 | a posted answer changes points and lives exactly as the shared verdict says, a page request changes neither, and a question follows exactly when the lesson goes on |
| `Web.WebSession.Preguntar` | app.py:207-235 | the page shows the chosen eligible word, four valid options built from it, and the current points and lives; the stored list is the old list plus the word's gloss |
| `Web.WebSession.Elegir` | app.py:207-218 | the chosen word is the eligible word at the chosen position, its gloss was unasked unless all were, and the stored list is the old list with that gloss appended, also after all glosses were asked |
| `Web.StaysExhausted` | app.py:211-218 | once the asked list holds every gloss, it still does after the next append, so the whole lesson stays eligible on every later pass |
| `Web.ResetIsOverwritten` | app.py:213-218 | on the 4-word family lesson, after all 4 glosses are asked the next pass stores 5 entries, one gloss twice |
| `Web.ResetAskedList` | app.py:211-214 | the corrected list step has the same glosses as the desktop set step: the chosen gloss alone once all glosses were asked, else the old ones plus it |
| `Web.ResetAskedListBounded` | app.py:211-218 | with the reset in place, a repeat-free list of lesson glosses stays repeat-free and made of lesson glosses, so it never outgrows the lesson |

## Left out

- The tkinter screens, message boxes and `limpiar_pantalla` (kiche.py:99-301, 328-354, 369-379, 400-403) are user interface. The "Saltar" button calls `MostrarEjercicio` again, which keeps score and lives, so it has no member of its own.
- Desktop.AprendizajeMayaKiche.VerificarRespuesta: the win and loss branches in the source show the lesson list; the model returns `Won` or `Lost` instead.
- Flask routing, templates, `flash`, `redirect`, `logout` and the cookie that stores the session are left out. Routes are the `Route` datatype. The session is a plain object with typed fields, so the `.get` defaults of app.py:181-183 appear only as the constructor's values.
- SQLite, user registration and login are external persistence. The desktop `usuario_actual` is not modelled. The web learner id is a constructor argument.
- Reading and writing the JSON lesson file is file I/O. The catalog is a parameter, and only the built-in default catalog is kept, as a constant.
- The `random` module is replaced by the `Dice` argument. Uniform choice and uniform shuffling are statistical properties and are not modelled.
- Engine.PickDistractors: the runs in which the loop never ends are excluded by its precondition; the lemmas beside it say when a finishing run exists.
- Random choice over an empty lesson is excluded by `Fits`, since the source then raises an error.
- Lesson entries with missing keys are excluded, since the data model is typed.
- `__del__` and `main` are resource cleanup and the entry point.

## Findings

| source | as written | input that shows it | evidently intended | confidence | as-written member | corrected member |
|---|---|---|---|---|---|---|
| app.py:211-218 | line 213 empties the stored asked list, then line 218 stores the local list with the new gloss appended, so the list is never reset | lesson 3 (4 words) after its 4 glosses were asked: the next pass stores 5 entries, with "Madre" twice, and the whole lesson stays eligible from then on | the stored list restarts with only the new gloss, as kiche.py:320-326 does with its set | not executed; high | `Web.ResetIsOverwritten` | `Web.ResetAskedList` |
