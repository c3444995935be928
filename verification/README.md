# Portfolio page script: a verified model of its stateful widgets

The portfolio page's script (`script.js`) is mostly drawing and DOM glue. Four pieces of it hold state
that event and timer handlers update in place. This project models those four in Dafny and proves what
they promise:

- **Typewriter** (`typewriter.dfy`, module `Typewriter`). The header types a phrase one character per
  tick, pauses 2000 ms, deletes it one character per tick, pauses 500 ms and moves on to the next phrase,
  cyclically. The globals `phraseIndex`, `charIndex`, `isDeleting` and `typeSpeed` and the header text
  are the fields of class `Engine`. `Engine.Tick` is one timer callback and returns the delay it would
  pass to `setTimeout`. The pure function `Step` is the same transition on values. The lemmas prove the
  offset bounds, the displayed prefix, the four transitions with their delays, and the exact trajectory
  of a whole phrase cycle.
- **Certificate modal** (`certificate_modal.dfy`, module `CertificateModal`). A constant table of 14
  certificate records keyed `cert1`..`cert14`. Class `Controller` holds `currentCertId` and everything
  the handlers write: title, issuer line, image `src`/`alt`, description, the verify button's
  `href`/`target`/`rel` and its click listeners, the modal's `display` and the body's `overflow`.
  Open, close, the Escape and backdrop dismissals and the verify click are modelled. The verify
  button's listeners are a sequence, one entry per bound listener and its captured link. Replacing the
  button with a clone drops them all, so each successful open leaves exactly one. The handler functions
  take the certificate table as a parameter, and the controller binds it to the page's table.
- **Terminal log** (`terminal_log.dfy`, module `TerminalLog`). Each gated interval tick inserts a command
  line before the typing-animation element, advances `commandIndex` modulo 4, and removes the second
  paragraph once there are more than seven. The terminal body is a sequence of child nodes, and the
  random draw is a boolean input.
- **Konami matcher** (`konami.dfy`, module `Konami`). A prefix matcher over the ten-key code that fires
  the easter egg on a full match and resets to 0 on any mismatch.

`wrappers.dfy` holds the `Option` type used for `null` and for failed lookups.

Each component has a class whose methods change its fields. Each method's `ensures` ties the new fields
to a pure function of the old ones (`Typewriter.Step`, `CertificateModal.Opened` and `Closed`, `TerminalLog.Tick`, `Konami.Step`). The lemmas beside the
class prove the source's promises about those functions.

In two places the code does something a reader might not expect, and the model follows the code:

- Opening an id that is not in the table does *not* leave the session state unchanged. `currentCertId`
  is assigned before the lookup, so it names the unknown id while every visible field, the listener and
  the visibility stay as they were. If a certificate was on screen, it stays on screen under the wrong id
  (`UnknownOpenLeavesStaleModal`).
- An empty phrase would make the typewriter type forever, because the equality test never fires. The
  model requires every phrase to be non-empty (`WellFormed`), as the four phrases of the page are.

## Model

| member | source | states |
|---|---|---|
| `Typewriter.Substring` | script.js:92-97 | `substring(0, end)` yields a prefix of the phrase whose length is `end` clamped into 0..length |
| `Typewriter.Step` | script.js:87-115 | a tick keeps `phraseIndex` below the number of phrases and picks one of the delays 100, 50, 2000, 500 |
| `Typewriter.PhrasesWellFormed` | script.js:72-80 | the page's four phrases are non-empty and the initial state (0, 0, typing) is reachable |
| `Typewriter.StepKeepsReachable` | script.js:87-112 | with non-empty phrases, a tick keeps `charIndex` between 0 and the phrase length (below the length while typing, at least 1 while deleting), and the text shown is exactly the prefix of the current phrase of length `charIndex` |
| `Typewriter.StepTransitions` | script.js:90-112 | typing moves forward with delay 100; deleting moves back with delay 50; reaching the full length while typing sets deleting with 2000; reaching 0 while deleting clears it, advances `phraseIndex` modulo the phrase count and uses 500 |
| `Typewriter.TypingTrajectory` | script.js:95-106 | from (i, 0, typing), after k ticks, for k up to the phrase length L, the state is (i, k, typing), and it switches to deleting exactly at k = L |
| `Typewriter.DeletingTrajectory` | script.js:90-112 | with L the phrase length, the next j ticks give (i, L − j, deleting), and at j = L they give (i + 1 mod n, 0, typing) |
| `Typewriter.FullCycle` | script.js:87-115 | from (i, 0, typing), exactly twice the length of phrase i ticks reach (i + 1 mod n, 0, typing); every state in between is on phrase i with a positive offset or in deleting mode |
| `Typewriter.Engine.constructor` | script.js:72-81 | the globals start at phrase 0, offset 0, typing, `typeSpeed` 100 over the page's phrases |
| `Typewriter.Engine.Tick` | script.js:87-115 | one callback updates the globals and the header text as `Step` does, keeps them reachable, returns the next delay, and leaves the header showing `phrases[phraseIndex][..charIndex]` |
| `CertificateModal.Opened` | script.js:423-434 | opening any id records it in `currentCertId`, found in the table or not |
| `CertificateModal.Lookup` | script.js:429-431 | `certificateData[certId]`: the record for an id of the table, nothing for any other id |
| `CertificateModal.Closed` | script.js:492-498 | `closeCertificate` on values: display `none`, overflow `auto`, `currentCertId` null; the title, the verify `href` and its listeners are kept |
| `CertificateModal.WindowClick` | script.js:501-506 | the window click handler on values: it closes when the target is the modal backdrop and otherwise changes nothing |
| `CertificateModal.KeyDown` | script.js:509-513 | the modal's keydown handler on values: it closes on Escape and otherwise changes nothing |
| `CertificateModal.PopupBlocked` | script.js:472 | the popup test: a null handle, a closed window, or a window whose `closed` is undefined |
| `CertificateModal.VerifyListener` | script.js:460-479 | a verify listener always goes to the link it captured; it falls back to navigating the current page exactly when `window.open` gives null, a closed window, or one whose `closed` is undefined |
| `CertificateModal.ClickVerify` | script.js:454-479 | a verify click runs one navigation per bound listener, each to that listener's captured link |
| `CertificateModal.OpenKnown` | script.js:427-483 | opening a table id sets `currentCertId`, the title, the issuer and date joined by a space, a vertical bar and a space, image `src` and `alt` (the title), the description, the verify `href`/`target`/`rel`, exactly one listener on the record's link, display `block` and overflow `hidden` |
| `CertificateModal.OpenUnknown` | script.js:427-434 | opening an id absent from the table changes `currentCertId` to it and nothing else |
| `CertificateModal.UnknownOpenLeavesStaleModal` | script.js:427-434 | after opening `cert1` and then the absent `cert15`, the modal still shows `cert1` while `currentCertId` is `cert15` |
| `CertificateModal.CloseResets` | script.js:492-498 | close after open sets display `none`, overflow `auto` and `currentCertId` null; close∘close = close |
| `CertificateModal.DismissTriggers` | script.js:500-531 | Escape always closes and other keys do nothing; a window click closes exactly when its target is the modal backdrop itself |
| `CertificateModal.LatestOpenWins` | script.js:446-479 | after opening A then B, a verify click runs exactly one listener, on B's link, and never goes to A's link |
| `CertificateModal.HandlersKeepConsistent` | script.js:423-513 | open, close, Escape and backdrop click keep at most one verify listener, bound to the button's `href`; a visible modal has one, and it shows a table record with that link |
| `CertificateModal.VerifyMatchesShown` | script.js:423-531 | after any sequence of handler calls from page load, a verify click runs at most one listener; while the modal is visible, that listener goes to the link of the record on screen |
| `CertificateModal.Controller.constructor` | script.js:416-417 | `currentCertId` starts null with no listener bound |
| `CertificateModal.Controller.Open` | script.js:423-487 | `openCertificate` updates the fields as `Opened` does, including the early return, and keeps the invariant |
| `CertificateModal.Controller.Populate` | script.js:438-443 | the title, issuer line, image `src`/`alt` and description are set from the record and nothing else changes |
| `CertificateModal.Controller.BindVerify` | script.js:446-480 | the verify button gets the link as `href`, `target` `_blank`, `rel` `noopener noreferrer` and exactly one listener on that link, and nothing else changes |
| `CertificateModal.Controller.Close` | script.js:492-498 | `closeCertificate` updates the fields as `Closed` does |
| `CertificateModal.Controller.OnWindowClick` | script.js:501-506 | the window click listener closes on the backdrop only |
| `CertificateModal.Controller.OnKeyDown` | script.js:509-513 | the keydown listener closes on Escape only |
| `CertificateModal.Controller.OnVerifyClick` | script.js:460-479 | a verify click yields at most one navigation, to the button's current `href`, and exactly one while the modal is visible |
| `TerminalLog.Paragraphs` | script.js:567 | the paragraph list holds only paragraphs of the body and is no longer than it |
| `TerminalLog.FindTypingAnimation` | script.js:558 | the lookup finds the first typing-animation child, or reports that there is none |
| `TerminalLog.CommandLine` | script.js:551-552 | the new line is a `<p>`, not the typing animation, and holds the prompt span followed by the command |
| `TerminalLog.InsertBefore` | script.js:560 | `insertBefore`: the node goes in at position i, with every other child kept in order |
| `TerminalLog.AfterInsert` | script.js:557-561 | the insertion step: with a typing animation, one child more and the new line at the animation's old position; without one, the children unchanged |
| `TerminalLog.ParagraphsAreChildren` | script.js:567 | every paragraph listed is a child of the body |
| `TerminalLog.ParagraphPosition` | script.js:567-569 | the k-th paragraph's position among the children: a paragraph with exactly k paragraphs before it |
| `TerminalLog.RemoveParagraphInPlace` | script.js:569 | removing paragraph k takes out exactly the child at that paragraph's position and leaves every other child where it was |
| `TerminalLog.RemovesOneParagraphChild` | script.js:569 | the removal drops one paragraph child and moves nothing else |
| `TerminalLog.RemoveParagraph` | script.js:568-570 | removing paragraph k removes one child, and the paragraph list loses exactly its k-th element |
| `TerminalLog.Tick` | script.js:548-572 | a tick keeps `commandIndex` below 4 |
| `TerminalLog.InsertLandsBeforeAnimation` | script.js:551-561 | the new line (prompt plus the current command) goes immediately before the first typing animation and adds one paragraph in that place |
| `TerminalLog.NoAnimationNoInsert` | script.js:558-561 | without a typing animation nothing is inserted |
| `TerminalLog.AfterInsertCount` | script.js:557-561 | the insertion adds one paragraph exactly when there is a typing animation |
| `TerminalLog.TickCounts` | script.js:548-572 | an ungated tick changes nothing; a gated tick advances `commandIndex` mod 4 whether or not a line was inserted, removes a paragraph exactly when there are more than 7, and keeps a count of at most 7 at most 7 after the tick |
| `TerminalLog.RemovalKeepsFirstLine` | script.js:566-570 | the removal takes exactly the paragraph at index 1: the first is kept and the rest keep their order |
| `TerminalLog.InsertKeepsLineLeads` | script.js:557-561 | the insertion keeps the first line ahead of the typing animation |
| `TerminalLog.RemoveKeepsLineLeads` | script.js:566-570 | removing the paragraph at index 1 keeps the first line ahead of the typing animation |
| `TerminalLog.TickKeepsLineLeads` | script.js:548-572 | every tick keeps the first line ahead of the typing animation |
| `TerminalLog.FirstLineKept` | script.js:548-572 | when the first paragraph precedes the typing animation, one tick leaves the first line unchanged |
| `TerminalLog.Ticks` | script.js:548-572 | over any run of interval ticks, `commandIndex` stays below 4 |
| `TerminalLog.FirstLineAlwaysKept` | script.js:548-572 | when the first paragraph precedes the typing animation, it stays the first line and stays ahead of the animation over any number of ticks |
| `TerminalLog.Terminal.constructor` | script.js:545 | `commandIndex` starts at 0 over the markup's children |
| `TerminalLog.Terminal.OnInterval` | script.js:548-572 | the interval body updates the children and `commandIndex` as `Tick` does |
| `Konami.Step` | script.js:626-636 | `konamiIndex` stays in 0..9, and the easter egg fires exactly on the matching tenth key |
| `Konami.Feed` | script.js:624-636 | from page load, any key sequence leaves the index in 0..9 |
| `Konami.StepCases` | script.js:627-635 | a matching key advances the index by one, or fires and resets at the end; any other key resets to 0 |
| `Konami.IndexIsMatchedSuffix` | script.js:623-636 | an index of i means that the last i keys typed are the first i keys of the code |
| `Konami.FiresOnlyOnCode` | script.js:627-632 | the easter egg fires only when the last ten keys are exactly the code |
| `Konami.CodePrefix` | script.js:627-632 | from index 0, the first k keys of the code lead to index k, and all ten fire once and return to 0 |
| `Konami.FullCodeFiresOnce` | script.js:623-636 | typing exactly the code after page load fires once and leaves the index at 0 |
| `Konami.IdleKeys` | script.js:633-635 | at index 0, keys other than the first key of the code change nothing |
| `Konami.ExtraArrowUpMissesCode` | script.js:623-636 | a mismatch is not re-checked against the first key, so an extra ArrowUp before the code means it never fires |
| `Konami.Listener.constructor` | script.js:624 | `konamiIndex` starts at 0 |
| `Konami.Listener.OnKeyDown` | script.js:626-636 | the keydown listener updates `konamiIndex` as `Step` does and reports whether the easter egg fired |

## Left out

- Matrix rain (script.js:12-64): canvas drawing driven by floating-point drop positions and random glyphs; it is cosmetic.
- Skills animation, scroll reveal and 3D tilt (script.js:183-275): they depend on floating-point arithmetic (`Math.PI`, mouse coordinates) and on the host's `IntersectionObserver`.
- Navbar scroll toggle (script.js:164-173): a single comparison `scrollY > 50` with nothing to prove about it.
- Hamburger and navigation toggles, smooth scrolling, the glitch effect, the footer year, hover effects, console logging and `window.testCertificate`: DOM glue with no state of their own.
- Timers: `setTimeout` and `setInterval` are not modelled. The typewriter returns its next delay, and the terminal's interval body is a method called once per tick.
- `window.open`, `alert` and `location.href` are outcomes (`Navigation`). The handle `window.open` gives back is an input.
- `activateEasterEgg` (script.js:638-644): its filter, timeout and alert are left out; a key press only reports that it fired.
- Lookups of ids that name members inherited by every JavaScript object (`toString`, `constructor`): `certificateData[id]` finds a function there and does not take the early return. The model treats every id outside the table as absent.
- The verify button's behaviour before any certificate was opened: with no listener bound, a click follows the anchor's markup `href`, which is not part of this model.
- The contents the markup gives the modal, the header text and the terminal before any handler runs: the modal starts with empty fields, and the others are constructor inputs.
- The terminal's DOM is flat: its child elements in order. `querySelector` and `querySelectorAll` in the source also search deeper descendants, and `insertBefore` throws when the typing animation is not a direct child. Neither case is modelled.
- The inline styles given to each new terminal line (colour, margin, font) are not modelled.
- A missing header element (`typeText` null) makes the typewriter throw; the model assumes the element exists.
