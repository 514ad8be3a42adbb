# Landing-page interaction logic in Dafny

The landing page is a single React page of presentational sections. Only two
of them carry client-side state with behaviour to state. This project models
those two and proves what they promise.

- **The project showcase carousel** (`app/src/sections/Projects.tsx`). It holds
  an active index into a fixed catalogue of three projects and an animation
  lock. The right arrow, the left arrow and the indicator dots are dropped
  while the lock is held. Otherwise each moves the index and takes the lock.
  A deferred release, scheduled by every accepted move, clears the lock.
  Module `Carousel` gives the controller in two forms. The first is a value
  form: `View`, `Step`, and `Run` over a stream of events, and the lemmas are
  stated on it. The second is a class, `Controller`, whose methods are proved
  against `Step`. Module `Projects` holds the catalogue itself and clients that
  replay example interactions with the section on a `Controller`.
- **The contact section** (`app/src/sections/Contact.tsx`). It holds a
  four-field form and a `submitting` flag. The submission is simulated by a
  fixed delay and always ends with one success notification. Module `Contact`
  gives the pure field update, `WithField`, and the class `ContactSection`.
  The submission is split at its `await` into `Submit` and `CompleteSubmit`.
  The notification channel is the sequence `notifications`.
- **The reveal latch** (module `Reveal`). Contact, Projects, About and Services
  each mount an identical copy of it. On the first intersecting notification
  the observer sets the section visible and disconnects, and on unmount it is
  disconnected unconditionally. It is modelled once, as the value `Latch`, and
  `ContactSection` holds one.

Events are strictly sequential and every state update takes effect at once.
Timers become explicit events: `Controller.EndCooldown` for the carousel's
500 ms release, and `ContactSection.CompleteSubmit` for the 1500 ms delay.
The observer's callback becomes `Intersect(isIntersecting)`. A notification
reaches it only while the observer is connected.

Decisions where the code leaves room:

- `handleSubmit` (Contact.tsx:65-75) has no guard of its own. Two browser
  checks stand before it. First, the submit button is disabled exactly while
  `isSubmitting` holds (Contact.tsx:203). Second, the name, email and message
  inputs are marked required (Contact.tsx:153, 167, 195). `ContactSection.Submit`
  models the submit action through both checks. It is ignored while
  `SubmitDisabled()` holds or while a required field is empty.
- `CompleteSubmit` and `EndCooldown` require the state in which the source has
  scheduled them. Only a submission in flight has a pending continuation, and
  only a held lock has a pending release.
- A dot click requires `target < |items|`. The dots are generated from the
  catalogue itself (Projects.tsx:229), and an index outside it would leave the
  rendered project undefined.

## Model

| member | source | states |
|---|---|---|
| `Carousel.NextIndex` | app/src/sections/Projects.tsx:71 | the next index stays below the item count and wraps from the last item to 0, otherwise adds one |
| `Carousel.PrevIndex` | app/src/sections/Projects.tsx:78 | the previous index is never negative, stays below the count, and wraps from 0 to the last item, otherwise subtracts one |
| `Carousel.NextPrevInverse` | app/src/sections/Projects.tsx:71-78 | a forward move and a backward move undo each other, in either order |
| `Carousel.Step` | app/src/sections/Projects.tsx:68-80 | every event keeps the index in bounds; the release clears the lock and keeps the index; every click leaves the lock held |
| `Carousel.Run` | app/src/sections/Projects.tsx:82 | after any sequence of arrow clicks, dot clicks and releases the index is in bounds, so the active project lookup is defined |
| `Carousel.LockedDropsRequests` | app/src/sections/Projects.tsx:68-80 | while the lock is held, any stream of arrow and dot clicks leaves index and lock unchanged: requests are dropped, not queued |
| `Carousel.NextRoundsAdvance` | app/src/sections/Projects.tsx:68-73 | k accepted right-arrow clicks, each followed by its release, move the index from i to (i + k) mod n and leave the lock free |
| `Carousel.FullCycle` | app/src/sections/Projects.tsx:71 | n accepted right-arrow clicks bring an n-item carousel back to where it started |
| `Carousel.NextThenPrevReturns` | app/src/sections/Projects.tsx:68-80 | right arrow, release, left arrow returns to the starting index, and so does left, release, right |
| `Carousel.Controller.constructor` | app/src/sections/Projects.tsx:47-48 | a mounted controller shows index 0 of a non-empty list, lock free |
| `Carousel.Controller.Next` | app/src/sections/Projects.tsx:68-73 | locked: nothing changes; free: index becomes the next index with wraparound and the lock is taken; agrees with `Step` |
| `Carousel.Controller.Prev` | app/src/sections/Projects.tsx:75-80 | locked: nothing changes; free: index becomes the previous index with wraparound and the lock is taken; agrees with `Step` |
| `Carousel.Controller.JumpTo` | app/src/sections/Projects.tsx:232-237 | locked: nothing changes; free: index becomes the clicked dot's position, also when it is already active, and the lock is taken |
| `Carousel.Controller.EndCooldown` | app/src/sections/Projects.tsx:72 | the release clears the lock and keeps the index; the item list is a constant and never changes |
| `Carousel.Controller.ActiveItem` | app/src/sections/Projects.tsx:82 | the rendered project is always an element of the catalogue |
| `Projects.Mount` | app/src/sections/Projects.tsx:5-48 | the catalogue has three projects; the section starts on the first, "E-Commerce Platform", with the lock free |
| `Projects.WrapAround` | app/src/sections/Projects.tsx:68-80 | from index 0 the left arrow gives 2; after the release the right arrow from 2 gives 0 |
| `Projects.Lockout` | app/src/sections/Projects.tsx:68-73 | a second right-arrow click before the release is dropped (index stays 1); after the release a third one moves to 2 |
| `Projects.ReselectLocks` | app/src/sections/Projects.tsx:232-237 | clicking the active project's dot still takes the lock, so an arrow click right after it is dropped |
| `Reveal.Mount` | app/src/sections/Contact.tsx:58-63 | a mounted latch is not visible, and observes exactly when the section's element exists |
| `Reveal.Deliver` | app/src/sections/Contact.tsx:48-56 | a notification never makes a visible section invisible, and keeps "visible implies disconnected" |
| `Reveal.Teardown` | app/src/sections/Contact.tsx:62 | unmounting disconnects and keeps visibility; on an already disconnected latch it changes nothing |
| `Reveal.DeliverAllExactlyOnce` | app/src/sections/Contact.tsx:47-63 | after any stream of notifications the section is visible iff it was, or it was observed and some notification intersected; it is still observed iff it was and none intersected |
| `Reveal.VisibleIsFinal` | app/src/sections/Contact.tsx:49-54 | once the section is visible and the observer disconnected, no stream of notifications changes the latch |
| `Reveal.StaysVisible` | app/src/sections/Contact.tsx:49-54 | a visible section stays visible through any stream of notifications |
| `Reveal.VisibleStays` | app/src/sections/Contact.tsx:49-54 | once a stream has made the section visible, every continuation of that stream leaves it visible |
| `Contact.WithField` | app/src/sections/Contact.tsx:80-83 | the named field takes the new value and the other three fields keep theirs |
| `Contact.EditsCompose` | app/src/sections/Contact.tsx:77-84 | a second edit of a field overrides the first; edits of two different fields commute |
| `Contact.WriteBackUnchanged` | app/src/sections/Contact.tsx:80-83 | writing back the value a field already shows leaves the form unchanged |
| `Contact.RequiredFilled` | app/src/sections/Contact.tsx:148-198 | a submission reaches the handler only when name, email and message are non-empty; company is optional |
| `Contact.ContactSection.constructor` | app/src/sections/Contact.tsx:38-45 | all four fields start empty, not submitting, no notifications, not visible |
| `Contact.ContactSection.Change` | app/src/sections/Contact.tsx:77-84 | a change event sets exactly the named field and nothing else in the section |
| `Contact.ContactSection.SubmitDisabled` | app/src/sections/Contact.tsx:203 | the submit button is disabled exactly while a submission is in flight |
| `Contact.ContactSection.Submit` | app/src/sections/Contact.tsx:65-70 | the flag is raised exactly when it already was or every required field is filled; fields and notifications are untouched |
| `Contact.ContactSection.CompleteSubmit` | app/src/sections/Contact.tsx:72-74 | after the delay exactly one success message is appended, all fields are empty and the flag is lowered |
| `Contact.ContactSection.Intersect` | app/src/sections/Contact.tsx:49-54 | the observer's notification acts on the latch as `Reveal.Deliver` and touches nothing else; once the section is visible it changes nothing |
| `Contact.ContactSection.Teardown` | app/src/sections/Contact.tsx:62 | unmounting disconnects the observer as `Reveal.Teardown` and touches nothing else |
| `Contact.SubmissionScenario` | app/src/sections/Contact.tsx:65-84 | filling in a form and submitting it disables the button and keeps the fields during the delay; afterwards the button is enabled, the fields are empty and exactly one success message was shown |
| `Contact.IncompleteFormIgnored` | app/src/sections/Contact.tsx:186-199 | submitting with the required message left empty leaves the button enabled and shows no notification |

## Left out

- Rendering, class strings, inline styles and icons other than as catalogue data: presentation only.
- The observer's thresholds (0.1 and 0.2) and the viewport geometry: browser internals. A notification is only its `isIntersecting` flag.
- Real time: the 500 ms and 1500 ms delays are explicit events, not clocks.
- React's batched updates and stale closures: two clicks handled before a re-render could both see the lock free. The model treats events as sequential, with immediate updates.
- The toast library: a success toast is one string appended to `notifications`, and its styling is not modelled.
- `Contact.ContactSection.Submit`: the email input's format check (`type="email"`, Contact.tsx:163) is not modelled. Only a non-empty email is required, so an email the browser would reject still reaches the handler in the model.
- `Contact.ContactSection.Change`: the source writes whatever name the input carries. The model admits only the four names the form's inputs have.
- The Hero parallax, which uses floating-point mouse maths and random particles. Navbar scrolling and every `scrollIntoView`/`scrollTo` call are window I/O. Footer and App hold no state to model, and the hover index of Services (Services.tsx:38) only selects styling.
- About, Services and the Projects section each mount their own reveal latch. It is the same code as Contact's, so `Reveal` covers it once, and only `ContactSection` holds an instance.
