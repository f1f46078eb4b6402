# A verified model of a portfolio site's animation and contact logic

The site has three pieces of logic that carry state or make decisions. This
project models each of them in Dafny and proves properties about the model.

- **The particle background** (`js/main.js`).
  - A pool of up to 40 dots drifts over the viewport and bounces off its edges.
  - Two dots are joined by a line while they are close. Near the mouse, lines
    reach further and are brighter.
  - Every distance is scaled to the viewport's diagonal.
  - Every pair of particles within range is linked, and `devicePixelRatio`
    is used unclamped (js/main.js:26, 75-94).
  - The stat counters of the same file count up to their targets with an
    ease-out cubic.
- **The PCB loader** (`js/pcb-loader.js`).
  - SVG traces are measured: from a line's end points, from a polyline's
    `points` attribute, or through the browser. An uncached trace gets a
    positive length, which is then cached on the element. A `data-len`
    already present is returned as parsed, even `0`.
  - The traces and the fading elements are scheduled by their delays.
  - The "loading..." dots cycle through three frames.
  - A small flag machine lets the loader fade out at most once. The fade
    starts only after the drawing is done, and then once the page is ready
    or the hold after the drawing has elapsed, whichever comes first.
- **The contact endpoint** (`server.js`).
  - The message is HTML-escaped.
  - The two mail bodies are built from one wrapper template.
  - `/api/contact` validates the three fields, sends two mails in sequence and
    answers 200, 400 or 500.

The model follows the form of the source.

- Mutable state becomes classes with `modifies` frames:
  - the background's canvas, distances and particles;
  - a counter;
  - a trace and its `dataset.len` cache;
  - a `scheduleByDelay` call;
  - a label and its dots animation;
  - the loader's flags.
- Loops become methods, proved against specification functions. The
  specification functions carry their own lemmas.
- The string transforms and the handler are pure functions.

The platform is passed in as parameters:

- `Math.sqrt` is a function `sqrt` constrained by `Euclid.IsSqrt`.
- `parseFloat` followed by `isFinite` is `parse: string -> Option<real>`.
- `String(number)` is `show`.
- `Math.random` results are explicit `Draw` values in `[0, 1)`.
- The mouse position and the frame timestamps are explicit arguments.
- `transporter.sendMail` is `deliver: Mail -> bool`, which says whether a send resolves.

Files:

| file | module | contents |
|---|---|---|
| `wrappers.dfy` | `Wrappers` | `Option` |
| `euclid.dfy` | `Euclid` | the square root parameter and the vector norm |
| `particles.dfy` | `Particles` | the particle background |
| `countup.dfy` | `CountUp` | the stat counter |
| `measure.dfy` | `Measure` | `num`, `dist`, the points tokenizer and `polylineLength` |
| `traces.dfy` | `Traces` | `getTraceLength`, trace durations and delays |
| `scheduler.dfy` | `Scheduling` | `scheduleByDelay` |
| `dots.dfy` | `LoadingDots` | `startLoadingDots` |
| `loader.dfy` | `Loader` | `finishIfReady`, `startAnimation`, the events that drive them |
| `html.dfy` | `Html` | the escape and the mail templates |
| `contact.dfy` | `Contact` | the `/api/contact` handler |

## Model

| member | source | states |
|---|---|---|
| `Euclid.Norm` | js/main.js:79 | the length of a vector is non-negative, and its square is `dx*dx + dy*dy` |
| `Euclid.NormBelow` | js/main.js:59-63 | comparing a length with a non-negative bound is the same as comparing the squares, which makes every `dist < max` decision exact on reals |
| `Particles.DiagonalScale` | js/main.js:33-34 | the scale is non-negative, and its square is the ratio of the squared viewport diagonal to the squared 1920x1080 diagonal |
| `Particles.ScaledReach` | js/main.js:33-37 | the link distance, cursor link distance and cursor radius are 120, 200 and 250 times the diagonal scale, and none is negative |
| `Particles.ReachAtReference` | js/main.js:8-11 | at 1920x1080 the three distances are exactly 120, 200 and 250 |
| `Particles.ReachGrowsWithDiagonal` | js/main.js:33-37 | a viewport with a longer diagonal never gets shorter distances |
| `Particles.PoolSize` | js/main.js:46 | the count is at most 40, its 36000 px² per particle fit in the area, and below 40 one more would not fit; this is `min(floor(w*h/36000), 40)` |
| `Particles.PoolSizeMonotone` | js/main.js:46 | the count never decreases as `w*h` grows |
| `Particles.PopulatedViewport` | js/main.js:44-46 | a viewport that holds a particle has positive width and height |
| `Particles.Spawn` | js/main.js:48-54 | given draws in `[0,1)`: `x` is in `[0,w)`, `y` in `[0,h)`, `vx` and `vy` in `[-0.15,0.15)`, `r` in `[1,2.8)` |
| `Particles.NearCursor` | js/main.js:59-63 | a point is near the cursor iff its squared distance to the mouse is below the squared cursor radius |
| `Particles.AwayIsNearNothing` | js/main.js:19-21 | with the mouse at (-9999, -9999), no particle whose `x` lies at least the cursor radius to the right of -9999 is near it |
| `Particles.Link` | js/main.js:77-90 | a pair gets a line iff its squared distance is below the squared max distance. The max distance is the cursor link distance when both ends are near the cursor, and the link distance otherwise. The line's alpha is in `(0, 0.25]` or `(0, 0.13]`, and its width is 1.2 or 0.8 |
| `Particles.Links` | js/main.js:75-94 | the specification of a frame's lines, pair by pair in loop order; its properties are `LinksExactly` and `EachPairOnce` |
| `Particles.LinksExactly` | js/main.js:75-94 | a line appears in a frame exactly for the pairs `i < j` whose decision draws one, and the lines come in strict loop order |
| `Particles.EachPairOnce` | js/main.js:75-76 | no pair is drawn twice in one frame |
| `Particles.LinkPass` | js/main.js:75-94 | the nested loops produce exactly `Links`, the specification of the whole pass |
| `Particles.RowPass` | js/main.js:76-93 | the inner loop produces exactly the lines from particle `i` to the particles after it |
| `Particles.Move` | js/main.js:98-101 | a particle moves by its velocity. A component is negated exactly when the new coordinate is outside `[0,w]` (or `[0,h]`), so its magnitude never changes |
| `Particles.MoveKeepsRoaming` | js/main.js:98-101 | a particle on the surface, or one step away from it, stays that way after a move |
| `Particles.DotOf` | js/main.js:102-104 | a dot near the cursor has alpha 0.45 and 1.3 times the radius; any other dot has 0.25 and the particle's radius |
| `Particles.Background.constructor` | js/main.js:7-23 | the state before the first resize: no particles, ratio 1, a default canvas, the base distances |
| `Particles.Background.Resize` | js/main.js:25-38 | the ratio defaults to 1, the canvas is the viewport times the ratio truncated to an integer, and the distances are `ScaledReach` of the viewport; the particles are kept |
| `Particles.Background.Init` | js/main.js:42-56 | the old pool is dropped, and the new pool has exactly `PoolSize` particles, the k-th spawned from the k-th draw, all on the surface |
| `Particles.Background.Frame` | js/main.js:71-112 | the lines of a frame are `Links` of the positions before the move. Every particle becomes `Move` of itself, the dots are `DotOf` of the moved particles, and particles that were on the surface stay on it |
| `CountUp.Progress` | js/main.js:207 | the progress is at most 1, equals 1 iff `duration` ms have passed, is non-negative from the start on, and is proportional to the elapsed time below 1 |
| `CountUp.ProgressMonotone` | js/main.js:207 | progress never decreases over time |
| `CountUp.Eased` | js/main.js:208 | the definition of the ease-out cubic; its properties are `EasedMonotone`, `EasedEnds` and `EasedRange` |
| `CountUp.EasedMonotone` | js/main.js:208 | `1-(1-t)^3` is non-decreasing in `t` |
| `CountUp.EasedEnds` | js/main.js:208 | the easing is 0 at `t = 0` and 1 at `t = 1` |
| `CountUp.EasedRange` | js/main.js:208 | on `[0,1]` the easing stays in `[0,1]` |
| `CountUp.Round` | js/main.js:209 | `Math.round` gives the integer within half a unit, halves rounded up |
| `CountUp.Shown` | js/main.js:209 | the number a frame shows, `Math.round(eased * target)`; its properties are `ShownNeverDecreases` and `ShownBounded` |
| `CountUp.ShownNeverDecreases` | js/main.js:206-211 | for a non-negative target, a later frame never shows a smaller number |
| `CountUp.ShownBounded` | js/main.js:209 | while counting, the number shown is between 0 and the rounded target |
| `CountUp.Counter.constructor` | js/main.js:201-205 | a new counter has its target, suffix and start, and has requested its first frame |
| `CountUp.Counter.Tick` | js/main.js:206-216 | before the end a frame shows the rounded eased count and requests another frame. Once the progress reaches 1 it shows exactly `target + suffix`, marks the counter done and requests nothing more |
| `Measure.Num` | js/pcb-loader.js:31-34 | the parsed value when there is one, the fallback otherwise |
| `Measure.Dist` | js/pcb-loader.js:36-40 | non-negative, with square `dx² + dy²` |
| `Measure.ReplaceCommas` | js/pcb-loader.js:47 | every comma becomes a space and nothing else changes |
| `Measure.WithoutTrim` | js/pcb-loader.js:44 | trimming removes only white space |
| `Measure.WithoutReplaceCommas` | js/pcb-loader.js:47 | after the commas are replaced, dropping white space is dropping separators from the original |
| `Measure.FlattenSplit` | js/pcb-loader.js:47 | the pieces of `split(/\s+/)`, put back together, are the string without its white space |
| `Measure.Trim` | js/pcb-loader.js:44 | the definition of `trim`; its properties are `WithoutTrim` and `TokensExactly` |
| `Measure.Split` | js/pcb-loader.js:47 | the definition of `split(/\s+/)`; its properties are `FlattenSplit`, `JoinSplit` and `TokensExactly` |
| `Measure.Tokens` | js/pcb-loader.js:47 | the token list of a trimmed points string; its properties are `TokensExactly` |
| `Measure.JoinSplit` | js/pcb-loader.js:47 | the pieces of `split(/\s+/)` joined with single spaces are the string with every maximal run of white space collapsed to one space, so the pieces break exactly at those runs |
| `Measure.TokensExactly` | js/pcb-loader.js:47 | no token holds a comma or white space; every token is non-empty unless the trimmed string is empty; the tokens put back together are the input without its separators; and joined with single spaces they are the trimmed, comma-free input with each white-space run collapsed, which fixes where every token ends |
| `Measure.FiniteNumbers` | js/pcb-loader.js:47-51 | the filter keeps at most one number per token: every token when all parse, none when none does |
| `Measure.FiniteNumbersConcat` | js/pcb-loader.js:47-51 | the filter keeps the tokens' order: it distributes over concatenation |
| `Measure.Vertices` | js/pcb-loader.js:56-57 | `|nums|/2` vertices, the k-th being `(nums[2k], nums[2k+1])` |
| `Measure.OddCoordinateIgnored` | js/pcb-loader.js:56 | a trailing odd coordinate changes no vertex |
| `Measure.PathLength` | js/pcb-loader.js:55-59 | the sum of the segment lengths is non-negative |
| `Measure.PathLengthSplit` | js/pcb-loader.js:55-59 | the length of two joined polylines is the sum of their lengths and of the joining segment |
| `Measure.ShortPolylineIsZero` | js/pcb-loader.js:53 | fewer than 4 numbers give length 0 even without the guard |
| `Measure.PathTotal` | js/pcb-loader.js:55-59 | the accumulation loop computes `PathLength` of the vertices |
| `Measure.PolylineLength` | js/pcb-loader.js:42-60 | the result is `PolylineValue` and is non-negative. It is 0 for a null, empty or blank attribute, and for fewer than 4 finite numbers |
| `Traces.GeometricLength` | js/pcb-loader.js:67-79 | the length from a line's end points (missing coordinates are 0), from a polyline, or 0 for other tags; never negative |
| `Traces.MeasuredLength` | js/pcb-loader.js:67-89 | always positive. It is the geometric length when that is positive, else a positive `getTotalLength()`; otherwise 1 |
| `Traces.Trace.Cached` | js/pcb-loader.js:63 | the test `el.dataset && el.dataset.len`: a dataset with a non-empty `len`; `GetTraceLength` returns the cache exactly when it holds |
| `Traces.Trace.Reported` | js/pcb-loader.js:62-92 | what `getTraceLength` returns in the element's present state: the parsed cache, else `MeasuredLength`; `GetTraceLength` is proved against it |
| `Traces.Trace.LenAfter` | js/pcb-loader.js:63-91 | the cache after a `getTraceLength` call: unchanged when cached or without a `dataset`, else `String` of the measured length; `GetTraceLength` is proved against it |
| `Traces.Trace.GetTraceLength` | js/pcb-loader.js:62-92 | returns the cached number when `dataset.len` is set and leaves the cache alone. Otherwise it returns the positive measured length and stores `String(len)`. With a dataset, the next call finds that cache and returns the same number |
| `Traces.Duration` | js/pcb-loader.js:174 | `clamp(len/500, 0.25, 0.85) * _S`, with each of the three cases stated |
| `Traces.DurationMonotone` | js/pcb-loader.js:174 | a longer trace never draws faster |
| `Traces.Delay` | js/pcb-loader.js:172 | the parsed delay times `1000 * _S`, or 0 without one |
| `Scheduling.Insert` | js/pcb-loader.js:96 | inserting into a sorted queue keeps it sorted, adds exactly that item and grows by one |
| `Scheduling.SortByDelay` | js/pcb-loader.js:96 | the sort returns a permutation of the items in non-decreasing delay order |
| `Scheduling.InsertLast` | js/pcb-loader.js:96 | an item no earlier than all others goes to the end |
| `Scheduling.SortSorted` | js/pcb-loader.js:96 | a queue already in delay order is left as it is |
| `Scheduling.Scheduler.constructor` | js/pcb-loader.js:94-111 | an empty list is not touched and requests no frame; any other list is sorted and requests the first frame; nothing has run |
| `Scheduling.Scheduler.Tick` | js/pcb-loader.js:101-109 | the index never decreases. The items run are exactly the next ones with `delay <= elapsed`, in order, and afterwards every such item has run and the next has a later delay. The run so far is in delay order; a frame is requested iff items remain, and at the end every item has run exactly once |
| `LoadingDots.NextFrame` | js/pcb-loader.js:135 | `frame % 3 + 1` advances 1 to 2, 2 to 3 and 3 to 1 |
| `LoadingDots.FrameCycle` | js/pcb-loader.js:118-135 | from 1, 2 or 3 the frame returns after three ticks and not sooner |
| `LoadingDots.Dots` | js/pcb-loader.js:133 | `'.'.repeat(n)` is n dots |
| `LoadingDots.DropDots` | js/pcb-loader.js:131 | the longest prefix not ending in a dot, with only dots removed |
| `LoadingDots.Base` | js/pcb-loader.js:131 | the definition of the label's base, `replace(/\.+\s*$/, '').trim()`; its property is `BaseOfFallback` |
| `LoadingDots.FallbackText` | js/pcb-loader.js:133 | the base followed by exactly `frame` dots |
| `LoadingDots.BaseOfFallback` | js/pcb-loader.js:130-133 | the base is recovered from the text it produces, so the label does not drift |
| `LoadingDots.Opacities` | js/pcb-loader.js:123-125 | dot `i` is opaque (1) iff `i < frame`, and dim (0.18) otherwise |
| `LoadingDots.Ticked` | js/pcb-loader.js:121-133 | one label's new state in a tick; `Label.Show` and `Animation.Tick` are proved against it, and `FallbackBaseStable` states what repeated ticks keep |
| `LoadingDots.FallbackBaseStable` | js/pcb-loader.js:130-133 | once a fallback label has a base, later ticks keep it and show it followed by that tick's dots |
| `LoadingDots.Label.Show` | js/pcb-loader.js:121-133 | a label with dot characters gets `Opacities`, one without gets its base and the fallback text |
| `LoadingDots.Animation.constructor` | js/pcb-loader.js:115-118 | the animation starts at frame 1 over the scope's labels |
| `LoadingDots.Animation.Tick` | js/pcb-loader.js:119-136 | every label shows the current frame, then the frame advances by `NextFrame` |
| `LoadingDots.Animation.Start` | js/pcb-loader.js:114-139 | nothing happens without labels. Otherwise one tick runs at frame 1 and the interval is set |
| `Loader.FadeInQueue` | js/pcb-loader.js:186-193 | the closed form the fade-in loop `QueueFadeIns` is proved against; what a run of it shows is `FadeInsOnce` and `FadeInRunComplete` |
| `Loader.FadeInsOnce` | js/pcb-loader.js:186-196 | any reordering of the fade-in queue, such as the sorted one `scheduleByDelay` runs, holds every fading element exactly once, with its own delay and the opacity it fades to |
| `Loader.FadeInRunComplete` | js/pcb-loader.js:94-111 | once the fade-in `scheduleByDelay` requests no more frames, it has set the opacity of every fading element exactly once, to `num(data-opacity, 1)`, in delay order |
| `Loader.TraceEntry` | js/pcb-loader.js:171-177 | a trace's queue entry: its element and length, its parsed delay, and a duration that is `Duration(len)` and so within `[0.25, 0.85] * _S` |
| `Loader.WithDataset` | js/pcb-loader.js:170-172 | the number of leading traces with a `dataset`: all before it have one, the one at it has none |
| `Loader.QueueTrace` | js/pcb-loader.js:171-177 | one round of the trace loop: the element gets its new cache `LenAfter`; with a `dataset` the entry is `TraceEntry` of the length `getTraceLength` gave, and without one the round throws |
| `Loader.QueueTraces` | js/pcb-loader.js:169-178 | one entry per trace, in document order: the length `getTraceLength` gave, its delay and its clamped duration. The loop stops after measuring the first trace without a `dataset`, as `el.dataset.delay` throws there. Every trace measured gets `LenAfter` as its new cache, the others are untouched |
| `Loader.QueueFadeIns` | js/pcb-loader.js:186-193 | the loop builds exactly `FadeInQueue` |
| `Loader.Schedule` | js/pcb-loader.js:169-196 | the two queues handed to `scheduleByDelay`, and the new trace caches. When the trace loop throws, nothing is scheduled |
| `Loader.PcbLoader.constructor` | js/pcb-loader.js:24-29 | all flags start false, and no fade has started |
| `Loader.PcbLoader.Ready` | js/pcb-loader.js:142-145 | the guard of `finishIfReady`: not in debug mode, `done`, and `pageReady` or `allowForceFinish`; `Safe` and `Valid` say the fade has started only when, and as soon as, it holds |
| `Loader.PcbLoader.FinishIfReady` | js/pcb-loader.js:142-157 | the fade starts iff it has not started and the loader is ready: no debug flag, `done`, and `pageReady` or `allowForceFinish`. It starts at most once, the dots timer is cleared when it starts, and no other flag changes |
| `Loader.PcbLoader.PageLoaded` | js/pcb-loader.js:220-234 | `pageReady` is set and the fade starts if it now may; the dots timer is cleared exactly when the fade starts |
| `Loader.PcbLoader.AnimationEnd` | js/pcb-loader.js:198-205 | fires only while the `ANIM_END` timeout is set. `done` is set, the fade starts if it now may, the dots timer is cleared exactly when it does, and the hold timeout is set |
| `Loader.PcbLoader.HoldElapsed` | js/pcb-loader.js:201-204 | fires only while the hold timeout is set. `allowForceFinish` is set, the fade starts if it now may, and the dots timer is cleared exactly when it does |
| `Loader.PcbLoader.ReducedMotion` | js/pcb-loader.js:208-213 | with reduced motion the loader is ready at once and, unless in debug mode, has faded exactly once; the dots timer is cleared exactly when the fade starts |
| `Loader.PcbLoader.StartAnimation` | js/pcb-loader.js:159-206 | a second call changes nothing. The first call sets `started` and starts the dots: the labels get frame 1 and the animation moves to frame 2 when there are labels, and the timer is set only then. Every trace up to the first without a `dataset` gets its new cache. With all datasets it hands the trace and fade-in queues to `scheduleByDelay` and sets the `ANIM_END` timeout; otherwise the TypeError leaves both unscheduled and no timeout set, so the loader never fades |
| `Loader.PcbLoader.Begin` | js/pcb-loader.js:161-168 | the first `startAnimation` past its guard: the same new state as `StartAnimation`'s first call |
| `Loader.PcbLoader.ScheduleAll` | js/pcb-loader.js:169-206 | the trace loop, both `scheduleByDelay` calls and the `ANIM_END` timeout, set exactly when no trace lacks a `dataset`; the flags are unchanged |
| `Html.Replace` | server.js:62 | `s.replace(/c/g, r)` for one character c; its properties are `ReplaceConcat`, `ReplaceRemoves`, `ReplaceKeepsOut` and `ReplaceAbsent`, on which the escape lemmas rest |
| `Html.Escape` | server.js:62 | the definition of `safeMessage`; its properties are the four lemmas below |
| `Html.EscapeHasNoBrackets` | server.js:62 | the escaped message holds no `<` and no `>` |
| `Html.EscapeConcat` | server.js:62 | the escape works character by character |
| `Html.EscapeKeepsPlain` | server.js:62 | a message without `&`, `<` and `>` passes through unchanged |
| `Html.UnescapeEscape` | server.js:62 | because `&` is replaced first, reading `&lt;`, `&gt;` and `&amp;` back recovers the message |
| `Html.MailWrapper` | server.js:23-59 | the definition of `mailWrapper`; its properties are `MailWrapperParts` and `MailWrapperInjective` |
| `Html.NotificationHtml` | server.js:61-84 | the definition of `notificationHtml` for a string message; its properties are `SameHeader`, `NotificationFields`, `NotificationCount` and `OnlyMessageEscaped` |
| `Html.ConfirmationHtml` | server.js:86-103 | the definition of `confirmationHtml`; its property is `SameHeader` |
| `Html.MailWrapperParts` | server.js:23-59 | a wrapped mail is a fixed head, the subtitle, a fixed middle, the body and a fixed tail |
| `Html.MailWrapperInjective` | server.js:23-59 | two mails with the same subtitle are equal iff their bodies are |
| `Html.SameHeader` | server.js:83-102 | both mails open with the same frame and the subtitle `Portfolio Kontaktformular` |
| `Html.NotificationFields` | server.js:63-83 | the name, the email and the escaped message sit verbatim at fixed places of the notification |
| `Html.NotificationCount` | server.js:62-83 | the notification holds the template's own count of a character, plus those of the name, the email and the escaped message |
| `Html.OnlyMessageEscaped` | server.js:62-83 | the notification's `<` and `>` are the template's plus those of the name and the email: only the message is escaped |
| `Contact.Truthy` | server.js:108 | JavaScript truthiness of a field: absent is falsy, a string is truthy iff non-empty; `Handle` is stated in terms of it |
| `Contact.Shown` | server.js:114-126 | `${f}` in a template literal: a string field as it is, an absent one as `undefined`; the mails of `Handle` are built from it |
| `Contact.OwnerMail` | server.js:113-120 | the definition of the notification's `sendMail` fields; `Handle` and `FilledRequestIsSent` state it is the first mail sent |
| `Contact.ThanksMail` | server.js:122-128 | the definition of the confirmation's `sendMail` fields; `Handle` states it is sent only after `OwnerMail` succeeds |
| `Contact.Send` | server.js:112-134 | the second mail is sent only after the first succeeds; 200 with `{success: true}` iff both succeed, otherwise 500 with the fixed error text "E-Mail konnte nicht gesendet werden." |
| `Contact.Handle` | server.js:105-135 | 400 with "Alle Felder sind erforderlich." and no mail iff a field is falsy. Otherwise it sends the notification and then the confirmation, and answers 200 iff both succeed and 500 otherwise |
| `Contact.FilledRequestIsSent` | server.js:106-120 | three non-empty strings always pass validation, and the notification carries `NotificationHtml` of them |
| `Contact.NotificationIsSafe` | server.js:62-119 | any notification the handler sends has no `<` beyond the template's, the name's and the email's |

## Left out

- Drawing is left out: canvas calls, `particleColor`'s theme strings, `style` and `classList` writes. The model keeps only the numbers and decisions these consume.
- `requestAnimationFrame`, `setTimeout`, `setInterval` and `performance.now` are not modelled as a clock. Each callback is a method call, with the frame time as an argument.
- `Math.sqrt`, `parseFloat`, `String(number)` and IEEE-754 rounding are left out. The model uses exact reals and caller-supplied parsing and printing.
- A NaN returned by `getTotalLength` is left out: `TotalLength` holds a real. NaN would fall back to 1, as a throw does.
- The scroll-in animations, navigation highlighting, the mobile menu, the theme toggle and the contact form's `fetch` are left out (js/main.js:115-309). They are event wiring.
- User-agent and media-query detection are left out (js/pcb-loader.js:6-16, 163-165). So are `querySelector` scoping and the two nested animation frames before `startAnimation` (lines 216-218). The labels, traces and fading elements of the chosen scope are arguments.
- These server parts are left out: Express setup, the nodemailer transport, environment variables, `console.error` and `app.listen` (server.js:1-21, 132, 137-138). The sender address `SMTP_USER` is the `owner` argument.
- Sort stability: `Scheduling.SortByDelay` is an insertion sort that places equal delays in input order. Only sortedness, the permutation and `SortSorted` are proved, not stability as such.
- `Traces.Trace.GetTraceLength`: `r > 0` is promised only when the cache was empty. A `data-len` written in the markup is returned as parsed, even `0`, as the code does.
- `CountUp.Progress`: the progress is clamped at 1 but not at 0, as in the code. A timestamp before the start gives a negative progress.
- `Contact.Handle`: a truthy `message` that is not a string is taken to throw in `message.replace` and so answers 500 before any mail. A non-string object with its own `replace` method is not modelled.
- The particles are held as a sequence of values. The source mutates particle objects in place, but no particle is shared, so nothing is lost.
- SVG elements always carry a `dataset` in a browser, so the trace loop's TypeError (js/pcb-loader.js:172) is modelled only for completeness: `Traces.Trace.hasDataset` is false for no real element. The same TypeError in the fade-in loop (js/pcb-loader.js:190) is not modelled: `FadeIn` has no `dataset` flag. There the trace queue would already be scheduled, but neither the fade-ins nor the `ANIM_END` timeout would be.
