# Desktop Cat: a verified model of the scheduler, typing mode and chat bookkeeping

The Desktop Cat is a Tk desktop pet. A borderless window shows an animated cat
that walks along the bottom of the screen, eats, sleeps and idles; a
double-click opens a chat window in which "Miki" answers through a local
language model. This project models the control core of `DesktopCatApp`
(`Main.py`) in Dafny and proves what that code promises.

- **Action scheduler.** `play`, `_do_idle_n`, the five `action_*` routines and
  `next_action` are methods of the class `DesktopCat.DesktopCatApp`. They
  update the sprite's `x`, the frame the label shows, `actions_paused`, the
  action bag and the pending `root.after` callbacks step by step, with the
  same loops, the same edge tests, the same clamp and the same constants as
  the source.
- **Typing mode.** `start_typing_animation`, `_start_typing_loop` and
  `stop_typing_animation` are methods too. The cyclic index and the stop
  bookkeeping are specified by the functions of the module `TypingMode`.
- **Chat bookkeeping.** `open_chat_window`, `send_message`, `generate_response`
  and `on_close` are methods. Each chat window is a number; `liveWindows`
  stands for `winfo_exists()`. The prompt, the food hint, the canned reply and
  the history lines are the functions of `ChatPrompt`, over the Python string
  operations modelled in `Text`.

Each method is proved against a specification function:

- `play` against `Frames`, which is connected to the position run
  `Motion.PlayRun`, whose bounds, direction and early-stop properties are
  lemmas;
- the action routines against `RunFrom`, which plays an action's script
  (`ActionScript`) call by call through `PlayOnce`, and stops at the first
  pause check that finds `actions_paused` set; the new sprite state and the
  plays made are both given by it. `RanScript` restates its outcome as a prefix
  of the script with an early end only on pause;
- `next_action` against `ActionBag.Draw`, whose fairness over rounds of five
  draws is proved in `ActionBag`.

Modules and files:

| file | module | models |
|---|---|---|
| options.dfy | Options | `None`-or-value |
| text.dfy | Text | `str.strip()`, `str.lower()`, `in`, `s[:n]` |
| chat_prompt.dfy | ChatPrompt | prompt, food hint, fallback reply, history lines |
| action_bag.dfy | ActionBag | the bag of `next_action` and its fairness |
| motion.dfy | Motion | the clamp and edge tests of `play` |
| typing_mode.dfy | TypingMode | the typing loop index and the stop bookkeeping |
| desktop_cat.dfy | DesktopCat | the class `DesktopCatApp` |

Inputs the program takes from its environment are parameters or state:

- the screen size;
- the number of frames each GIF loaded (`frameCounts`, at least one and at
  most the count `GIF_FILES` asks for);
- the model: the flag `modelReady`, and the model's reply to each exchange,
  which is sampled and so is a parameter of `GenerateResponse`;
- the random draws (the chosen bag element, the walk length, the re-arm
  delay);
- the UI events handled inside `root.update()` (the map `uiEvents`: update
  number *k* may carry an event that sets `actions_paused` to a value).

`time.sleep` adds to a running total `sleptMs`. Every `play` call is recorded
in the ghost log `log`. Tk running a due `root.after` callback is the method
`Fire`.

The model keeps these details of the code:

- At a screen edge `play` breaks out of the whole frame loop once the frame has
  been shown (Main.py:173-176). It does not skip that frame's movement and
  carry on.
- `actions_paused` is tested only between `play` calls (Main.py:184, 190, 197,
  202, 208, 215), never within one. A pause takes effect at the next check.
  In walks and idles that is the end of the current animation. Eating and
  sleeping have no check between their plays (Main.py:203-204, 209-211), so
  there it is only the end of the whole eat or sleep sequence.
- `chat_count` and `chat_history` belong to the app and are never cleared
  (Main.py:150-151, 353, 373-374). Reopening the chat keeps them; only the
  window and its bubbles are replaced.
- The typing loop is stopped by `after_cancel` of the last scheduled id only
  (Main.py:257-262). Reopening the chat while it is open starts a second loop
  chain (Main.py:276-288, 251), and the model keeps it. While
  `typing_animation_running` holds, both chains run. Each callback shows a
  frame, re-arms itself and overwrites `typing_loop_id` (Main.py:249-251).
  The stop cancels only the id scheduled last, which may belong to either
  chain. Afterwards only the other chain's one pending callback fires, and it
  shows nothing and schedules nothing (`StartTypingLoop`, Main.py:246-247). `actions_paused` is simply set again,
  so there is no pause/unpause imbalance.

The rows below rely on these definitions, which have no row of their own:
`Motion.PlayRun` (the positions of one `play`), `DesktopCat.Frames` (the
sprite state after `play`), `DesktopCat.PlayOnce` (one play call),
`DesktopCat.IdleScript` and `DesktopCat.ActionScript` (the play calls of an
action), `DesktopCat.Unconditional` (how many of them precede the first pause
check after entry), `DesktopCat.RunFrom` (an action run with its checks),
`DesktopCat.CheckedAt` (whether a pause check precedes call k: Main.py:184,
190, 197, 202, 208, 215), `DesktopCat.ApplyEvent` and `DesktopCat.PausedAfter`
(what `root.update()` does to `actions_paused`: Main.py:179),
`DesktopCat.FrameLimit` (the `GIF_FILES` counts: Main.py:37-48),
`Motion.StopsAt` (the edge tests: Main.py:173-176), `Text.IsSpace` (the
`isspace()` set of `strip()`: Main.py:333), `TypingMode.IndexAfter` (the index
after k callbacks of one chain: Main.py:250-251), `ActionBag.Draw` (refill,
then remove the choice: Main.py:222-225), `ChatPrompt.MessageBlock` (the
message part of the prompt: Main.py:362-363) and `ChatPrompt.MentionsFood`
(`"food" in msg.lower()`: Main.py:365).

## Model

| member | source | states |
|---|---|---|
| Text.SkipSpace | Main.py:333 | the index of the first non-space character at or after `i` (or the end); everything skipped is white space |
| Text.BackSpace | Main.py:333 | one past the last non-space character before `j`, not below `lo`; everything skipped is white space |
| Text.Strip | Main.py:333 | `strip()` is the slice of the input between leading and trailing white space, and begins and ends with a non-space character unless empty |
| Text.StripEmptyIff | Main.py:333-335 | the stripped text is empty exactly when the entry text is all white space |
| Text.LowerChar | Main.py:365 | upper-case ASCII letters map to their lower-case letter, every other character to itself |
| Text.Lower | Main.py:365 | `lower()` keeps the length and lower-cases each character in place |
| Text.LowerIdempotent | Main.py:365 | lower-casing twice is lower-casing once |
| Text.Contains | Main.py:365 | `sub in s` holds exactly when `sub` occurs in `s` at some index |
| Text.Take | Main.py:369 | `s[:n]` is a prefix of `s` of length `min(n, len(s))` |
| ChatPrompt.Prompt | Main.py:354-366 | the prompt starts with the persona and rules; its length is persona + message block + the hint when the message mentions food |
| ChatPrompt.PromptQuotesMessage | Main.py:362-363 | right after the rules the prompt holds `"User message: " + msg + "\nMiki:"` |
| ChatPrompt.FoodHintIff | Main.py:365-366 | the prompt ends with `" Your favorite food is Pizza."` if and only if `"food"` occurs in `msg.lower()`; otherwise it ends with `"\nMiki:"` |
| ChatPrompt.MentionsFoodIgnoresCase | Main.py:365 | the food test gives the same answer on the lower-cased message |
| ChatPrompt.FoodAnywhere | Main.py:365 | "food" in any letter case anywhere in a message makes it mention food |
| ChatPrompt.FoodExample | Main.py:365 | "I like food" mentions food |
| ChatPrompt.UpperFoodExample | Main.py:365 | "FOOD" mentions food |
| ChatPrompt.NoFoodExample | Main.py:365 | "hello" does not mention food |
| ChatPrompt.Fallback | Main.py:369 | the canned reply is `"Mew~ I'm sleeeeepy! "` followed by a prefix of the message of length `min(10, len(msg))`, the whole message when it is at most 10 characters |
| ChatPrompt.Respond | Main.py:368-371 | not ready: exactly `Fallback(msg)`, which starts with the sleepy reply and is at most 30 characters; ready: exactly the model's reply to the prompt |
| ChatPrompt.Exchange | Main.py:373-374 | an exchange adds a `"You: "` line holding the message, then a `"Miki: "` line holding the reply |
| ChatPrompt.ExchangeKeepsHistory | Main.py:373-374 | appending an exchange keeps the history alternating user/Miki lines and grows it by exactly two |
| ActionBag.FullBagCounts | Main.py:145 | the initial bag holds each of the five actions exactly once |
| ActionBag.WellFormedMeans | Main.py:222-225 | a bag is a sub-multiset of `[1, 2, 3, 4, 5]` if and only if it has no duplicates and only identifiers 1..5 |
| ActionBag.Refilled | Main.py:222-223 | an empty bag becomes `[1, 2, 3, 4, 5]`, a non-empty one is kept |
| ActionBag.Remove | Main.py:225 | `list.remove` shortens the list by one; a matching head is dropped, any other head is kept |
| ActionBag.FirstIndex | Main.py:225 | the index of the first occurrence of `v`: it holds `v` and nothing before it does |
| ActionBag.RemoveDropsFirst | Main.py:225 | `list.remove(v)` cuts out exactly the element at the first occurrence of `v` and keeps everything before and after it in order |
| ActionBag.RemoveCounts | Main.py:225 | `list.remove(v)` takes exactly one `v` out and leaves every other count alone |
| ActionBag.RemoveFromWellFormed | Main.py:225 | removing from a well-formed bag keeps it well formed and removes exactly the chosen action |
| ActionBag.RemoveRestores | Main.py:225 | the removed action together with the rest is the bag before |
| ActionBag.DrawKeepsWellFormed | Main.py:222-225 | a refill-and-remove keeps the bag well formed, drops exactly the chosen action and shortens the refilled bag by one |
| ActionBag.DrawsWithinBag | Main.py:222-225 | up to `len(bag)` selections take out exactly the chosen actions: chosen plus left is the bag |
| ActionBag.NoRepeatWithinRound | Main.py:222-225 | within one round no action is chosen twice, and every choice was in the bag |
| ActionBag.FullRound | Main.py:222-225 | five selections from the full bag choose each of 1..5 once and empty it |
| ActionBag.WellFormedSize | Main.py:222-225 | a well-formed bag holds at most five actions |
| ActionBag.DrawCounts | Main.py:222-225 | per action, one draw moves the chosen action out, and a refill adds one of each |
| ActionBag.AccountingSize | Main.py:222-225 | over any selections the bag stays well formed, every refill adds five, and after a draw fewer than five remain |
| ActionBag.AccountingCounts | Main.py:222-225 | per action, drawn plus left equals held plus the number of refills |
| ActionBag.FairRounds | Main.py:222-225 | over `5m` selections from the full bag each action is chosen exactly `m` times, and the bag is then empty (full if `m == 0`) |
| Motion.Clamp | Main.py:177 | `max(0, min(hi, v))` lies in `[0, hi]`, is `v` inside the range and the nearer bound outside it |
| Motion.RunLength | Main.py:171-176 | `play` renders at most `len(frames)` frames, all of them unless an edge test stops it, which needs movement |
| Motion.RunInBounds | Main.py:177 | after every frame that moved, `0 <= x <= screen_width - gif_width`, from any starting x |
| Motion.RunRightAscends | Main.py:173-177 | with `move_x > 0`, x never decreases |
| Motion.RunLeftDescends | Main.py:175-177 | with `move_x < 0`, x never increases |
| Motion.RunStill | Main.py:177 | with `move_x == 0` and x in bounds, every frame is shown and x does not change |
| Motion.RunStopsAsSoonAs | Main.py:172-176 | no frame that moved started at a stopping x, and a stopped play ends at one: it stops as soon as the edge test holds |
| TypingMode.NextIndex | Main.py:250 | `(idx + 1) % len` is below `len`, the next index inside the animation and 0 after the last frame |
| TypingMode.IndexAfterFirstPass | Main.py:245-251 | the k-th callback of a loop started at 0 shows frame k during the first pass |
| TypingMode.IndexAfterWraps | Main.py:250 | after the last frame the loop is back at frame 0 |
| TypingMode.IndexAfterPeriodic | Main.py:245-251 | the loop repeats with period `len(frames)` |
| TypingMode.Stop | Main.py:253-265 | stopping clears running, the loop id and the pause, and cancels only the loop's pending callback |
| TypingMode.StopIdempotent | Main.py:253-265 | stopping twice is stopping once |
| TypingMode.StopWithoutPending | Main.py:257-262 | with no loop id, or one that already ran, stopping touches no timer |
| DesktopCat.QuietKeepsPaused | Main.py:179 | updates without a UI event leave `actions_paused` unchanged |
| DesktopCat.LastEventDecides | Main.py:179 | if the last update carried an event, `actions_paused` ends with that event's value |
| DesktopCat.FramesFollowRun | Main.py:170-180 | `play` moves x along the run that `Motion` describes; it makes one update and one sleep per frame that moved and shows the last frame rendered; `actions_paused` is whatever the events of those updates made of it |
| DesktopCat.FramesPosition | Main.py:171-177 | where x ends and which frame the label shows after `play` |
| DesktopCat.FramesClock | Main.py:179 | `play` makes one `root.update()` per frame that moved and pauses accordingly |
| DesktopCat.FramesSleep | Main.py:180 | `play` sleeps `delay` milliseconds per frame that moved |
| DesktopCat.FramesInBounds | Main.py:170-180 | an on-screen sprite stays on screen; without movement it stays put and every frame is shown |
| DesktopCat.RunFromStops | Main.py:182-216 | a run of a script ends short of it only at a pause check that found `actions_paused` set; started unpaused, it plays at least the calls before the first check after entry |
| DesktopCat.PausedRunsNothing | Main.py:182-216 | a routine entered with `actions_paused` set makes no play and changes nothing |
| DesktopCat.ActionRanScript | Main.py:182-216 | an action entered unpaused makes a prefix of its script, at least the part before the first check after entry, and ends early only with `actions_paused` set |
| DesktopCat.QuietRunsAll | Main.py:179-216 | with no UI event from the run's first update on, an unpaused run makes every play of its script and ends unpaused |
| DesktopCat.RunFromAppend | Main.py:201-212 | once the calls before the first check have played, the rest of the script runs as a script of its own, checked before each call |
| DesktopCat.DesktopCatApp.constructor | Main.py:126-166 | the sprite starts at `screen_width - gif_width - 100` / `screen_height - gif_height - 40`, flags cleared, bag full, chat empty; the idle animation plays once and `next_action` is pending after `firstDelay` |
| DesktopCat.DesktopCatApp.Appear | Main.py:164-166 | the idle play and the first `next_action` timer; the app is valid afterwards |
| DesktopCat.DesktopCatApp.Update | Main.py:179 | `root.update()` counts one update and applies that update's event to `actions_paused` |
| DesktopCat.DesktopCatApp.Play | Main.py:170-180 | the sprite state after the loop is `Frames` (one `PlayOnce`) of the state before; on-screen stays on-screen; no movement keeps x; one log entry |
| DesktopCat.DesktopCatApp.DoIdleN | Main.py:182-185 | x, frame, `actions_paused`, update count and sleep total become those of `RunFrom` over `n` idle plays with a check before each; the plays made are the prefix it reached; x and y unchanged |
| DesktopCat.DesktopCatApp.WalkSteps | Main.py:188-192 | the walk plays made are a prefix of the `steps` walks that `RunFrom` has reached, checked before each; the loop is cut short only by a check that found `actions_paused` set |
| DesktopCat.DesktopCatApp.Walk | Main.py:187-199 | the sprite state and the plays made are `RunFrom` over `steps` walks and then ten idles, with a check before each |
| DesktopCat.DesktopCatApp.ActionWalkLeft | Main.py:187-192 | the sprite state and the plays are `RunFrom` over the walk-left script (`steps` walks moving -3, then ten idles) |
| DesktopCat.DesktopCatApp.ActionWalkRight | Main.py:194-199 | the same for the walk-right script (moving +3) |
| DesktopCat.DesktopCatApp.ActionEat | Main.py:201-205 | the sprite state and the plays are `RunFrom` over pizza, pizza-to-idle and the ten idles, with a check on entry and before each idle only; x unchanged |
| DesktopCat.DesktopCatApp.ActionSleep | Main.py:207-212 | the sprite state and the plays are `RunFrom` over the three sleep plays and the ten idles, with a check on entry and before each idle only; x unchanged |
| DesktopCat.DesktopCatApp.ActionIdleOnly | Main.py:214-216 | the sprite state and the plays are `RunFrom` over ten idles, checked before each |
| DesktopCat.DesktopCatApp.Schedule | Main.py:236 | `root.after` adds one pending callback under a fresh id |
| DesktopCat.DesktopCatApp.NextAction | Main.py:218-236 | paused: bag, sprite and log unchanged, re-armed after exactly 1000 ms; unpaused: the bag becomes `Draw(bag, choice)`, sprite state and plays are `RunFrom` over the chosen action's script, re-armed after `delay` in [2000, 5000]; the app stays valid |
| DesktopCat.DesktopCatApp.DrawAndRun | Main.py:222-235 | the bag becomes `Draw(bag, choice)` and stays well formed; sprite state and plays are `RunFrom` over the chosen action's script |
| DesktopCat.DesktopCatApp.RunAction | Main.py:226-235 | 1 walks left, 2 eats, 3 walks right, 4 sleeps, anything else idles: sprite state and plays are `RunFrom` over that action's script |
| DesktopCat.DesktopCatApp.StartTypingLoop | Main.py:245-251 | running: shows typing frame `idx % len`, schedules the next index after 120 ms and records its id; not running: changes nothing |
| DesktopCat.DesktopCatApp.StartTypingAnimation | Main.py:239-243 | `actions_paused` and running set, typing frame 0 shown, the loop's callback pending with index `NextIndex(0, len)` |
| DesktopCat.DesktopCatApp.StopTypingAnimation | Main.py:253-271 | running cleared, loop id None, timers as `TypingMode.Stop` leaves them, then one idle play from the unpaused state |
| DesktopCat.DesktopCatApp.OpenChatWindow | Main.py:274-288 | the old window destroyed; one fresh live window, current and open; chat count and history kept; typing mode entered |
| DesktopCat.DesktopCatApp.ReplaceWindow | Main.py:276-287 | the old window destroyed; one fresh live window, current and open |
| DesktopCat.DesktopCatApp.SendMessage | Main.py:325-336 | no request and no bubble if and only if the window is gone or the entry is all white space; otherwise the stripped text is bubbled and sent |
| DesktopCat.DesktopCatApp.GenerateResponse | Main.py:352-381 | `chat_count` + 1, the prompt is `Prompt(msg)`, the reply is `Respond(msg, modelReady, modelReply)`, the history gains exactly the two lines even if the window has closed, Miki's bubble only if it still exists |
| DesktopCat.DesktopCatApp.OnClose | Main.py:404-413 | no window open or current, none live, quit requested, history kept, typing mode stopped as `StopTypingAnimation` states |
| DesktopCat.DesktopCatApp.CloseWindow | Main.py:404-413 | the open flag and the current window cleared, the window destroyed, quit requested |
| DesktopCat.DesktopCatApp.Fire | Main.py:218-251 | a due callback stops being pending and runs: `next_action` with `NextAction`'s bag, sprite, play and re-arm effects on the remaining timers, keeping the typing loop id; the typing loop with `StartTypingLoop`'s frame, loop id and timer effects, no play and the bag untouched; the app stays valid |

## Left out

- Tk and customtkinter widgets, styling, bubble layout, scrolling and window
  geometry (Main.py:121-124, 138-141, 164, 178, 282-285, 290-322, 338-350, 383-396) are
  not modelled. A chat window is a number, and a bubble is a record of
  window, speaker and text.
- `load_gif_frames`, `make_circular_ctkimage` and the asset paths
  (Main.py:53-85) are PIL and file I/O. The frames are counts `frameCounts`,
  between 1 and the `GIF_FILES` count (the non-empty check of Main.py:73-74).
  The GIF size is the parameter `gifWidth`/`gifHeight`; `gifWidth <=
  screenWidth` is assumed.
- `LocalGPT` (Main.py:89-114) wraps a library outside this model. It is the
  flag `modelReady` and the reply passed to each `GenerateResponse`. Its
  error strings are whatever that reply holds.
- `threading.Thread` (Main.py:399) is not modelled: `GenerateResponse` is one
  sequential step. It may be called after other steps, such as `OnClose`,
  so its window check sees the liveness of that later time.
- `random` and `time.sleep` (Main.py:166, 180, 188, 195, 224, 236) are
  parameters and the counter `sleptMs`. Uniformity of `random.choice` is not
  modelled; fairness is proved for every sequence of choices.
- `root.update()` (Main.py:179) is modelled only by its effect on
  `actions_paused`, through the oracle `uiEvents`. The other work of a
  nested event is not modelled: the chat window a double-click opens, or a
  timer callback run inside the update.
- The oracle is not tied to the double-click binding being in place: it may
  also act during the idle play of `__init__` (Main.py:165, 167).
- DesktopCat.DesktopCatApp.OnClose: the model clears the chat fields and
  records `quit()` before stopping typing mode, whereas the source calls
  `quit()` and `destroy()` after it. The stop reads and writes none of those
  fields.
- DesktopCat.DesktopCatApp.StopTypingAnimation: `if self.typing_loop_id:`
  tests a Tk timer id, which is a non-empty string; the model tests
  `Some`. The swallowed exceptions of `after_cancel` and of the idle play
  cannot arise in the model.
- `chat_win.quit()` (Main.py:412) is modelled as the flag `quitRequested`.
  In the program it makes `root.mainloop()` (Main.py:423) return, so the
  program ends at the first close of a chat window. The model does not stop
  there: `Fire` and the other methods may still be called once
  `quitRequested` is set, which is behaviour the program does not have.
- `entry.delete` (Main.py:336) empties a widget and is not modelled.
- The startup error dialog (Main.py:419-429) is not modelled.
- Text.LowerChar, Text.Lower: only ASCII letters are lower-cased, and the length is always
  kept. Python's `lower()` also maps non-ASCII letters, and U+0130 becomes two
  characters. The only non-ASCII characters whose `lower()` contains ASCII
  letters are U+0130 (which gives "i" and a combining dot) and U+212A (which
  gives "k"). Neither "i" nor "k" occurs in `"food"`. So
  `ChatPrompt.MentionsFood` agrees with `"food" in msg.lower()` on every
  string.
- The prompt's exact wording is a constant (`ChatPrompt.Persona`). The token
  budget and temperature (Main.py:31-32) belong to the model call and are
  not modelled.
