# Blog page animations, modelled in Dafny

This project models the page animation script of the blog
(`assets/js/animation.js`). The script runs three routines once the document
is ready:

- **Floating field** (`createFloatingElements`). If the page has a hero
  container, 25 decorative `div`s are appended to it. Each gets a shape and a
  colour drawn from fixed four-entry arrays, a square pixel size, a position,
  and an animation duration and delay. Triangles also get a bottom border
  colour. Module `FloatingField`, file `floating.dfy`.
- **Typing reveal** (`addTypingAnimation`). The biography text is captured,
  the element is emptied and marked `typing`. A 20 ms repeating timer then
  types the text back one character per tick. The first tick that finds
  nothing left clears the timer and schedules, 500 ms later, the swap of
  `typing` for `typing-done`. Module `TypingReveal`, file `typing.dfy`.
- **Hover pulse** (`addSocialHoverEffects`). On `mouseenter` a social link
  gets the class `bounce`, and a timer removes it 1000 ms later. Timers are
  never cancelled. Module `HoverPulse`, file `hover.dfy`.

Each routine is modelled twice:

- A pure state machine (datatypes and functions) that the lemmas are about.
- The imperative form the script takes: classes for the DOM elements and the
  closure state, with methods for the timer callbacks. Each method's
  `ensures` ties the new state to the pure function of the old state.

Randomness and time are inputs:

- Every `Math.random()` result is an injected real in [0, 1), seven per
  floating element, in the order the loop reads them (`FloatingField.Draws`).
- Timer firings are explicit calls: `TypingSession.Tick`,
  `TypingSession.Finalize`, `SocialLink.RemovalFires`.
- A pointer entry carries its time stamp.

Where the code and the design notes for this script disagree, the model
follows the code:

- The size comment says 15-55 px. `Math.floor(Math.random() * 40) + 15` gives
  15 to 54 inclusive. `Size` and `SizeAttainable` prove that 54 is the
  largest size and that 55 cannot occur.
- The design notes say a triangle's colour goes to the border *instead of*
  the fill. The code sets the fill for every shape and, for a triangle, sets
  the bottom border colour as well (`MakeElement`, `TriangleBorder`).
- The design notes say a new hover activation supersedes the pending removal.
  The code never cancels a timer, so two removals can be pending at once, and
  the older one clears the class early (`StaleRemoval`, `Run`).
- The design notes describe `generate(container, count)`. The code always
  appends exactly 25 elements (`FloatingCount`).

## Model

| member | source | states |
|---|---|---|
| FloatingField.Pick | assets/js/animation.js:13-14 | `Math.floor(r * n)` for r in [0, 1) is a valid index into an n-entry array, and r * n lies in [i, i + 1) |
| FloatingField.PickInterval | assets/js/animation.js:13-14 | index i is drawn exactly when r lies in [i/n, (i+1)/n), so every shape and every colour gets an interval of equal width |
| FloatingField.PickAttainable | assets/js/animation.js:13-14 | every index of the shape and colour arrays can be drawn |
| FloatingField.Size | assets/js/animation.js:15 | the size is an integer from 15 to 54 inclusive |
| FloatingField.SizeAttainable | assets/js/animation.js:15 | every size from 15 to 54 can be drawn, so the bounds are tight and the maximum is 54, not 55 |
| FloatingField.MakeElement | assets/js/animation.js:12-29 | the element has classes `floating-element` and its shape, a shape and a colour from the fixed arrays, width equal to height within [15, 54], left and top in [0, 100), duration in [7, 15), delay in [0, 5), and a bottom border colour equal to the fill exactly for triangles |
| FloatingField.TriangleBorder | assets/js/animation.js:20-29 | a border colour is set exactly when the drawn shape index is that of `triangle`, and it equals the fill colour, which stays set |
| FloatingField.FloatingElements | assets/js/animation.js:11-31 | one well-formed element per set of draws, in generation order |
| FloatingField.Hero.AppendChild | assets/js/animation.js:31 | the node is added after the existing children |
| FloatingField.CreateFloatingElements | assets/js/animation.js:3-33 | with no hero nothing changes; otherwise the children become the old children followed by the 25 generated elements, in order |
| TypingReveal.Started | assets/js/animation.js:41-49 | the captured text is the old text, the visible text is empty, `typing` is added, the index is 0, the repeating timer is set, and the reveal invariant holds |
| TypingReveal.Ticked | assets/js/animation.js:50-59 | a tick keeps the invariant `text == original[..charIndex]`; before the end it appends exactly `original[charIndex]` and advances the index by one; at the end it appends nothing, clears the timer and schedules the final swap |
| TypingReveal.Finalized | assets/js/animation.js:55-58 | the final swap adds `typing-done`, removes `typing`, leaves the full text unchanged and leaves no timer set |
| TypingReveal.Ticks | assets/js/animation.js:49-60 | any number of timer chances keeps the invariant, the captured text and the classes, and never moves the index backwards |
| TypingReveal.Progress | assets/js/animation.js:49-52 | after k ticks, for k up to the text length L, the visible text is the first k characters and the timer is still set |
| TypingReveal.Completion | assets/js/animation.js:50-55 | tick L + 1 shows the whole text, clears the timer and schedules the final swap; with Progress, the timer fires exactly L + 1 times, and empty text completes on its first tick |
| TypingReveal.Quiescent | assets/js/animation.js:54 | once the timer is cleared, later chances to tick change nothing |
| TypingReveal.Lifecycle | assets/js/animation.js:41-58 | start, L + 1 ticks and the final swap end with the whole text shown and the element marked `typing-done` and not `typing` |
| TypingReveal.TwoCharacterExample | assets/js/animation.js:49-60 | for "hi": "h" after one tick, "hi" after two with the timer still set, and the third tick stops the timer and schedules the swap |
| TypingReveal.TypingSession.constructor | assets/js/animation.js:41-49 | starting the reveal changes the element and session as `Started` says |
| TypingReveal.TypingSession.Tick | assets/js/animation.js:49-60 | the interval callback changes the element and session as `Ticked` says and keeps the invariant |
| TypingReveal.TypingSession.Finalize | assets/js/animation.js:55-58 | the timeout callback changes the classes as `Finalized` says and keeps the invariant |
| TypingReveal.AddTypingAnimation | assets/js/animation.js:36-61 | with no biography element nothing happens and no session exists; otherwise a fresh session is in the `Started` state |
| HoverPulse.Enter | assets/js/animation.js:68-72 | an entry at time t adds `bounce`, appends a removal due at t + 1000 after the earlier ones, and touches no other class |
| HoverPulse.Fire | assets/js/animation.js:70-72 | the earliest pending removal fires: `bounce` is gone whatever entries followed, that removal is dropped, and the clock reaches its due time |
| HoverPulse.Run | assets/js/animation.js:67-74 | over any feasible sequence of entries and removals, `bounce` is present exactly when the last event was an entry; pending removals equal entries minus removals fired; other classes are untouched; removals stay in due order |
| HoverPulse.SinglePulse | assets/js/animation.js:68-72 | one entry on an idle link sets `bounce` at once, and its removal clears it exactly 1000 ms later with nothing left pending |
| HoverPulse.StaleRemoval | assets/js/animation.js:68-72 | two entries less than 1000 ms apart leave two removals pending; the first clears `bounce` 1000 ms after the first entry, before the second entry's pulse has lasted 1000 ms, and the second removal is still pending |
| HoverPulse.SocialLink.MouseEnter | assets/js/animation.js:68-73 | with the handler registered the link changes as `Enter` says; without it only time passes |
| HoverPulse.SocialLink.RemovalFires | assets/js/animation.js:70-72 | the link changes as `Fire` says |
| HoverPulse.AddSocialHoverEffects | assets/js/animation.js:64-75 | every link in the collection gets the handler, and no link's classes or timers change; an empty collection changes nothing |

## Left out

- `Math.random()` itself is not modelled. Its results are inputs, with the one guarantee it gives: each lies in [0, 1).
- Floating-point arithmetic is not modelled. Positions, duration and delay are exact reals, so their bounds are those of real arithmetic. With IEEE-754 rounding, `Math.random() * 8 + 7` may round up to 15 for the largest possible draw. The model does not capture this.
- The formatting of sizes, percentages and seconds into CSS strings (`${size}px`, `%`, `s`) is not modelled. The style record holds the numbers.
- Timing itself is not modelled: the 20 ms tick interval, the 500 ms final delay and the delays between callbacks. These are constants or timer firings. For the hover pulse, a removal's due time is t + 1000, and the clock moves to that time when the removal fires.
- DOM queries (`querySelector`, `querySelectorAll`) are not modelled. Each routine takes the element it would find, or null.
- Event-listener registration is not modelled beyond a per-link flag.
- The `DOMContentLoaded` entry point and the 500 ms delay before the typing reveal starts (assets/js/animation.js:77-80) are not modelled. They only order the three independent routines.
- Text is a sequence of characters. JavaScript strings count UTF-16 code units, so a character outside the Basic Multilingual Plane is typed in two ticks there and in one here.
- Two reveals on the same element at once are not modelled. The script starts only one.
- `git/commitizen.js` is not part of this model: it is a static configuration object.
- `extract_pdf.py` is not part of this model: it is file I/O around a PDF library.
- `.eleventy.js` is not part of this model: it is site-build configuration.
