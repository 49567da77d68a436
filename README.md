# Terminal, typing effect and glitch text — a Dafny model

This project models the three stateful pieces of a themed "hacker terminal"
web front end:

- **The terminal command interpreter** (`Terminal`). A session holds the
  transcript (`history`), a theme out of `matrix`, `cyber` and `hacker`, the
  input field and an `isProcessing` flag. Enter with non-blank input trims it
  and runs the echo phase: one line, the current theme's prompt, a space and
  the command, is appended and processing is turned on. A delayed callback
  then resolves the command. It switches on the whole lower-cased command
  over a closed table (`help`, `clear`, `status`, `matrix`, `theme matrix`,
  `theme cyber`, `theme hacker`, `scan`, `decrypt`, `exit`). Anything else
  falls back to the invalid-theme line when it starts with `theme`, and to
  `Command not recognized: <command>` otherwise. Processing is then turned
  off. The dispatch is a function `Parse` into a `Command` datatype. Its
  meaning is given by lemmas on the command text. The session is a class
  whose methods are the two phases.
- **The typing effect** (`Typing`). A class with the component's state
  fields `displayText`, `currentIndex`, `isTyping` and `isDeleting`, plus a
  marker for a typo excursion in flight. Each timer callback is one method:
  start, type a character, erase a typo, correct it, delete a character, and
  switch to deleting. Each `Math.random()` draw is a parameter. The object
  invariant says the display is the committed prefix of the text, except
  while a typo is shown. A typo excursion restores that prefix before the
  index advances.
- **The glitch text** (`Glitch`). `getGlitchAmount` as a function. The
  position loop and the overwrite of `createGlitchText` as methods over the
  supplied draws. The three-frame glitch burst as a class.

`Text` holds the string operations these rely on: JavaScript's `trim`
(with its exact white-space set), ASCII `toLowerCase` and `startsWith`.
`Wrappers` holds `Option`.

The model follows the code in these places:

- After deleting, the code's restart pause only sets `isTyping` to `true`,
  which it already is. So typing restarts at once, and so it does in the
  model.
- The `default` branches of `getPromptText`, `getCursorChar` and
  `getGlitchAmount` cannot be reached through the declared union types.
  Each of them gives the same result as one of the declared cases: the
  `matrix` prompt, the block cursor, medium intensity. In the model the themes,
  cursor styles and intensities are closed datatypes.

## Model

| member | source | states |
|---|---|---|
| `Text.Trim` | src/components/TerminalWindow.tsx:38-39 | `input.trim()` is the slice of the input after its leading white space, with only white space outside it and none at either end; it is empty exactly when the input is all white space |
| `Text.TrimIdempotent` | src/components/TerminalWindow.tsx:38-39 | the command handed on is already trimmed: trimming it again changes nothing |
| `Text.LowerChar` | src/components/TerminalWindow.tsx:52 | lower-casing leaves no upper-case ASCII letter, changes only the upper-case letters, and maps each capital to the small letter at the same place in the alphabet |
| `Terminal.Prompt` | src/components/TerminalWindow.tsx:131-141 | every prompt ends in `$` or `#`, and in `$` exactly for the `matrix` theme |
| `Terminal.PromptsDistinct` | src/components/TerminalWindow.tsx:131-141 | the three prompts are pairwise distinct |
| `Terminal.ThemeCommand` | src/components/TerminalWindow.tsx:88-99 | each theme's table entry is `theme`, a space and the theme's name |
| `Terminal.KeywordInjective` | src/components/TerminalWindow.tsx:52-119 | no two cases of the switch share a spelling |
| `Terminal.Dispatch` | src/components/TerminalWindow.tsx:52-125 | a table case is chosen only when the lower-cased command spells it; the invalid-theme branch only when it starts with `theme`; the not-recognised branch only when it does not, and it keeps the command as typed |
| `Terminal.Parse` | src/components/TerminalWindow.tsx:52 | a table case is chosen only when the command, lower-cased, spells it; the not-recognised branch keeps the command as typed |
| `Terminal.DispatchSound` | src/components/TerminalWindow.tsx:52-125 | a table case is chosen exactly when the whole lower-cased command spells it; otherwise the invalid-theme branch is chosen exactly when it starts with `theme`, and the not-recognised branch, keeping the command as typed, exactly when it does not |
| `Terminal.ParseSound` | src/components/TerminalWindow.tsx:52-125 | the same, for the command as typed in any case |
| `Terminal.ParseEntry` | src/components/TerminalWindow.tsx:52-119 | a table entry typed in any case is always found |
| `Terminal.Reply` | src/components/TerminalWindow.tsx:53-125 | only `clear` appends no line; `help` appends 9 lines, `status` 7, `matrix` 4, `scan` 5, `decrypt` 4, `exit` 2, and a theme change, an invalid theme or an unrecognised command one |
| `Terminal.Echo` | src/components/TerminalWindow.tsx:44-47 | the echo phase appends exactly one line, prompt of the theme in force, a space and the command, after the unchanged prior transcript, and keeps the theme |
| `Terminal.Resolve` | src/components/TerminalWindow.tsx:50-128 | the theme changes only through a theme command, to that command's theme; `clear` empties the transcript; any other command keeps the prior transcript as a proper prefix |
| `Terminal.ResolveKeepsHistory` | src/components/TerminalWindow.tsx:52-127 | the transcript is empty after resolution exactly when the command is `clear` in some case; every other command keeps the prior transcript as a proper prefix |
| `Terminal.ResolveEntry` | src/components/TerminalWindow.tsx:52-119 | a table entry appends exactly its reply; `theme <name>` in any case sets that theme and appends only `Terminal theme changed to: <name>`; a changed theme implies such a command |
| `Terminal.ResolveFallback` | src/components/TerminalWindow.tsx:120-125 | a command outside the table keeps the theme and appends one line: the invalid-theme line if it starts with `theme` (so `theme`, `themes`, `theme xyz`), else `Command not recognized: ` and the command in its original case |
| `Terminal.EchoUsesThemeBeforeCommand` | src/components/TerminalWindow.tsx:44-54 | the echo uses the prompt of the theme in force before the command runs, and survives resolution unless the command is `clear` |
| `Terminal.NextPromptFollowsTheme` | src/components/TerminalWindow.tsx:88-99 | after `theme <name>` the next command is echoed with that theme's prompt |
| `Terminal.Session.constructor` | src/components/TerminalWindow.tsx:6-10 | a new session has empty input, the three start-up lines, the `matrix` theme and processing off |
| `Terminal.Session.ChangeInput` | src/components/TerminalWindow.tsx:33-35 | the input becomes the field's value |
| `Terminal.Session.KeyDown` | src/components/TerminalWindow.tsx:37-42 | Enter with non-blank input runs the echo phase on the trimmed input, schedules its resolution and clears the input; any other key or blank input changes nothing |
| `Terminal.Session.ProcessCommand` | src/components/TerminalWindow.tsx:44-47 | the transcript becomes its echo, processing turns on and the command is pending |
| `Terminal.Session.ResolvePending` | src/components/TerminalWindow.tsx:50-128 | the transcript and theme become the resolution of the pending command, and processing turns off |
| `Typing.CursorChar` | src/components/TypingEffect.tsx:32-39 | block gives `█`, underscore `_`, pipe `\|`, each exactly for its style |
| `Typing.Neighbours` | src/components/TypingEffect.tsx:45-72 | exactly the 26 lower-case letters have three neighbours; no neighbour is the letter itself or an upper-case letter |
| `Typing.ChooseTypo` | src/components/TypingEffect.tsx:42-98 | a typo happens exactly when the draw is below the error probability and the lower-cased next character is a letter of the table; the wrong character is one of its neighbours and never the intended character |
| `Typing.TypingTask.constructor` | src/components/TypingEffect.tsx:19-27 | a new task shows nothing, at index 0, neither typing nor deleting; `loop`, `errorProbability` and `cursorStyle` default to `false`, `0.05` and `block` |
| `Typing.TypingTask.CursorVisible` | src/components/TypingEffect.tsx:180 | outside deletion and typo excursions, the cursor shows exactly while part of the text is still to be typed |
| `Typing.TypingTask.StartTyping` | src/components/TypingEffect.tsx:116-119 | the start delay sets `isTyping` and keeps the task's invariant, so typing begins from an empty display at index 0 |
| `Typing.TypingTask.TypeStep` | src/components/TypingEffect.tsx:148-162 | without a typo the next character is appended and the index advances by exactly one; with a typo the wrong character is appended and the index stays |
| `Typing.TypingTask.Backspace` | src/components/TypingEffect.tsx:83-84 | dropping the wrong character shows the committed prefix again, the index unchanged |
| `Typing.TypingTask.Correct` | src/components/TypingEffect.tsx:87-90 | the right character is appended, the index advances by one and the display is again the committed prefix |
| `Typing.TypingTask.DeleteStep` | src/components/TypingEffect.tsx:131-147 | one trailing character is removed; on an empty display deleting stops and the index resets to 0 |
| `Typing.TypingTask.FinishStep` | src/components/TypingEffect.tsx:163-168 | a complete text, when looping, switches to deleting with the whole text shown |
| `Typing.DoneIsFinal` | src/components/TypingEffect.tsx:128-180 | a complete text without looping enables no further step, shows exactly the text, and hides the cursor |
| `Typing.TypoExcursion` | src/components/TypingEffect.tsx:80-93 | a typo excursion ends exactly where a direct step would: the old display plus the intended character, index advanced by one |
| `Typing.TypeWithoutErrors` | src/components/TypingEffect.tsx:148-157 | with error probability 0, one step per character, whatever the draws, leaves the display equal to the text |
| `Typing.DeleteToRestart` | src/components/TypingEffect.tsx:131-147 | when looping, deleting empties the display and returns to typing from index 0 |
| `Glitch.GlitchAmount` | src/components/GlitchText.tsx:23-30 | the amount is always at least 1 |
| `Glitch.GlitchAmountFits` | src/components/GlitchText.tsx:23-30 | the amount fits among the drawable positions exactly for texts of length at least 0 (low), 2 (medium) or 3 (high) |
| `Glitch.DrawnBound` | src/components/GlitchText.tsx:38-41 | any number of draws yields at most max(length, 1) distinct positions |
| `Glitch.FirstOccurrences` | src/components/GlitchText.tsx:38-40 | the members of a Set filled by successive `add` calls, in its iteration order, are distinct and are exactly the values added |
| `Glitch.PickPositions` | src/components/GlitchText.tsx:37-41 | the loop ends with exactly `amount` distinct drawable positions; they are the Set's members, in first-insertion order, for the draws consumed; the loop stops at the first draw that brings the Set to `amount` |
| `Glitch.ShortTextLoopNeverExits` | src/components/GlitchText.tsx:35-41 | below the shortest glitchable length no draws ever satisfy the loop's exit test |
| `Glitch.EmptyTextGainsGlyph` | src/components/GlitchText.tsx:34-48 | as written, an empty text at low intensity asks for one position, draws 0, and comes out as a one-glyph string |
| `Glitch.CappedGlitchAmount` | src/components/GlitchText.tsx:35 | the capped amount never exceeds the length, equals `getGlitchAmount` wherever that fits, and is at least 1 for any non-empty text |
| `Glitch.CappedAmountReachable` | src/components/GlitchText.tsx:38-41 | for every text some draws make the position loop finish with the capped amount |
| `Glitch.CreateGlitchText` | src/components/GlitchText.tsx:33-49 | the result has the text's length; the positions are the distinct draws in first-draw order, taken up to the first draw that makes the amount; the k-th position visited holds the k-th drawn glyph; every other character is unchanged |
| `Glitch.OverwriteAsWritten` | src/components/GlitchText.tsx:44-48 | as written, the overwrite never shortens the text and lengthens it by at most one character per position; it keeps the length when every position is inside the text, and lengthens it when a position is one past the end |
| `Glitch.GlitchDisplay.constructor` | src/components/GlitchText.tsx:13-17 | a new display is not glitching and shows the text; the intensity defaults to `medium` |
| `Glitch.GlitchDisplay.Shown` | src/components/GlitchText.tsx:84-90 | outside a burst the text itself is rendered; during one, a frame with the text's length whose every character is the text's own or a glyph |
| `Glitch.GlitchDisplay.IntervalTick` | src/components/GlitchText.tsx:53-59 | a burst starts with frame count 0 unless one is running |
| `Glitch.GlitchDisplay.FrameTick` | src/components/GlitchText.tsx:61-70 | a frame shows a glitch of the text; the third frame restores the text exactly and ends the burst |
| `Glitch.GlitchBurst` | src/components/GlitchText.tsx:57-70 | after a burst of three frames the text is shown unchanged and no burst is running |

## Left out

- Rendering, class names (`getThemeClasses`), header labels, background
  gradients and the "Processing" indicator: presentation only.
- Focus, scrolling and the clock in the header: DOM and I/O effects.
- The cursor-blink intervals of both components. The cursor's render
  condition is modelled (`TypingTask.CursorVisible`); its blink phase is not.
- Timer durations: the 500 ms resolve delay, the start delay, the typing
  speed and its jitter, the typo delays, the delete speed, the restart
  pause and the glitch intervals. Each timer callback is one method call.
- `Math.random()`. The typo test's draw is a real number compared with
  `errorProbability`. The neighbour index, the glitch positions and the
  glyph indices are supplied integers in the range that `Math.floor`
  gives them.
- `Typing.TypingTask.TypeStep`: the effect depends on `displayText`, so
  React can schedule another typing step while a typo excursion is in
  flight and advance the index twice. The model treats the excursion as
  atomic: no typing step while one is in flight.
- Changing the `text` prop while a task runs, and unmounting while timers
  are pending. Their cancellation is not modelled.
- `Text.LowerChar`: lower-cases ASCII letters only. Other Unicode case
  mappings that `toLowerCase` performs are not modelled, for example the
  Kelvin sign to `k`. Such mappings could make `theme hacKer` select
  the hacker theme, or make a non-ASCII character typo-able.
- Strings are sequences of Unicode scalar values, not UTF-16 code units.
  `text[currentIndex]` on a character outside the Basic Multilingual Plane
  is not modelled.
- `Glitch.GlitchAmount`: `Math.floor(len * 0.1)`, `0.2` and `0.3` are taken
  as `len / 10`, `len / 5` and `len * 3 / 10` on integers. This is a
  modelling assumption about the floating-point products, not a proof.
- `Glitch.GlitchDisplay.FrameTick`: states only that an intermediate frame
  has the text's length and holds, at each position, either the text's
  character or a glyph. The exact frame is `CreateGlitchText`'s output.
- `Terminal.Session.ProcessCommand`: requires that no command is pending.
  The input field is not rendered while processing, so a second submission
  cannot interleave.
- `src/components/MatrixRain.tsx` (canvas drawing with floating-point
  speeds) is not part of this model, and neither are
  `src/components/Navbar.tsx` and `src/components/Footer.tsx` (links,
  scroll listener, static markup).

## Findings

| source | as written | input that shows it | evidently intended | confidence | as-written member | corrected member |
|---|---|---|---|---|---|---|
| src/components/GlitchText.tsx:35-41 | the position loop runs until `positions.size` reaches `getGlitchAmount()`, but at most max(length, 1) distinct positions can be drawn | `intensity = 'medium'` with a one-character text (amount 2), or `'high'` with a text of length 2 (amount 3): the loop never exits | at most as many positions as the text has | high, not executed | `Glitch.ShortTextLoopNeverExits` | `Glitch.CappedGlitchAmount` |
| src/components/GlitchText.tsx:34-48 | for an empty text, `Math.floor(Math.random() * 0)` is 0 and `textArray[0] = glyph` extends the empty array | `text = ''`, `intensity = 'low'`: amount 1, position 0, result `"!"` or another glyph instead of `""` | the glitched text has the text's length | high, not executed | `Glitch.EmptyTextGainsGlyph` | `Glitch.CreateGlitchText` |
