# Interest form and modal dialog of the portfolio site

The site's one interactive component is the file `src/components/ui/modal.jsx`, and this project models it in three Dafny modules:

- `EmailRegex` (`email_regex.dfy`) is the email check of the interest form, the JavaScript regex `^[^\s@]+@[^\s@]+\.[^\s@]+$`.
  - `ValidEmail` states what the regex means. A string matches when there are indices `at` and `dot` that split it into local part, `@`, domain head, `.`, domain tail. All three pieces are non-empty and contain no `@` and no whitespace.
  - `PlainShape` says the same thing in plain words: no whitespace, exactly one `@`, not at the start, and a `.` in the domain that is neither its first nor its last character. Other dots may sit anywhere in the domain, because `.` is itself in `[^\s@]`.
  - The method `Matches` is a one-pass scanner. It is proved equal to `ValidEmail`.
- `Interest` (`interest_form.dfy`) is the `InterestForm` component.
  - The draft `formData` is the datatype `FormData`, edited by `HandleInputChange`.
  - The multipart body is a `MultipartBody` filled by six `Append` calls.
  - The submit handler's observable effects are a sequence of `Event`s: flag changes, alerts, the fetch with its body, `onSubmit` and `onClose`. The ghost function `SubmitTrace` gives this sequence for a draft, a project title and a backend response, and the lemmas beside it state the form's promises. `InterestForm.HandleSubmit` changes the flag step by step and appends each event to a ghost log. It is proved to append exactly `SubmitTrace` and to leave the draft unchanged.
- `Dialog` (`modal.dfy`) is the `Modal` component's effect. The class `Modal` holds:
  - the `isOpen` prop;
  - whether the component is mounted;
  - whether the current effect run's Escape listener is registered;
  - `document.body.style.overflow`;
  - a ghost count of `onClose` calls.

  `Valid()` is the invariant between events. While mounted, the listener is registered exactly when the modal is open, and the overflow is `hidden` whenever it is open. After unmount, no listener is left and the overflow is `unset`.

The network, `alert` and the parent's callbacks are outside the model. The backend is a function parameter from the posted body to `Ok | NotOk | Threw`. `NotOk` covers a response whose `ok` is false, where `response.json()` may itself throw. `Threw` covers a rejected `fetch`. Both reach the same `catch`. Alerts and callback calls are entries of the ghost log; `onClose` calls of the modal are a ghost counter.

Two behaviours of the code worth noting:

- On success the code calls `onClose` at once, with no delay before closing (modal.jsx:108-112).
- `handleSubmit` has no re-entrancy check of its own; only the buttons' `disabled={isSubmitting}` guards it. In this model each handler runs to completion before the next event, and when it ends `isSubmitting` is `false` (`HandleSubmit` ensures `!isSubmitting`).

Two client methods call the proved contracts in sequence as scenarios; Dafny proves their assertions. They have no contract of their own, so they have no row below. `Interest.RetryAfterFailure` types a draft, submits it against a failing backend, checks that the draft is kept and `onSubmit` was not called, and then retries against an accepting backend, which reports that same draft to `onSubmit` and ends with `onClose`. `Dialog.OpenEscapeClose` mounts a closed modal, opens it, and presses another key and then Escape, which gives one `onClose`. It then closes and unmounts the modal and shows that no listener is left and the overflow is `unset`.

`company || ''` and `role || ''` are the identity here. The draft starts with four strings and only the four named inputs write to it, so those fields are always strings.

## Model

| member | source | states |
|---|---|---|
| `EmailRegex.ValidEmailIffPlainShape` | src/components/ui/modal.jsx:83 | a string matches the regex's split semantics iff it has no whitespace, exactly one `@` with a non-empty local part, and a `.` that is neither first nor last in the domain (both directions) |
| `EmailRegex.Matches` | src/components/ui/modal.jsx:83-84 | the scanner's answer equals `ValidEmail(s)` for every string, including the empty one |
| `EmailRegex.JoinMatches` | src/components/ui/modal.jsx:83 | any non-empty runs of `[^\s@]` joined as local part, `@`, domain head, `.`, domain tail match |
| `EmailRegex.AcceptedExamples` | src/components/ui/modal.jsx:83 | `a@b.c` and `a@b..c` match |
| `EmailRegex.RejectedExamples` | src/components/ui/modal.jsx:83 | `a@.c`, `a@b.`, `a b@c.d`, `a@b@c.d`, `@b.c` and `a@bc` do not match |
| `EmailRegex.SplitCharacters` | src/components/ui/modal.jsx:83 | in a matching split, every character is non-whitespace and only the split's `@` is an `@` |
| `Interest.Update` | src/components/ui/modal.jsx:63-69 | the named field gets the new value; the other three fields keep theirs |
| `Interest.UpdateOverwrites` | src/components/ui/modal.jsx:65-68 | a second change of the same field replaces the first; writing a field's own value changes nothing |
| `Interest.UpdatesCommute` | src/components/ui/modal.jsx:65-68 | changes to two different fields do not interfere, in either order |
| `Interest.PayloadRoundTrip` | src/components/ui/modal.jsx:92-98 | the body's names are `name, email, company, role, project, _subject` in that order; a backend reading it gets back exactly the draft and the project title; `_subject` is `"New Interest Form Submission for "` followed by the title |
| `Interest.SubmittingEndsCleared` | src/components/ui/modal.jsx:73-121 | every completed run first sets `isSubmitting` and its last change to the flag sets it to `false` |
| `Interest.MissingFieldsSkipBackend` | src/components/ui/modal.jsx:76-80 | an empty name or email raises the missing-fields alert; no fetch, `onSubmit` or `onClose` |
| `Interest.InvalidEmailSkipsBackend` | src/components/ui/modal.jsx:83-88 | a non-matching email raises the invalid-email alert; no fetch, `onSubmit` or `onClose` |
| `Interest.BackendCalledIffAccepted` | src/components/ui/modal.jsx:76-106 | fetch happens iff both checks pass (both directions); it happens at most once, with exactly this draft's body |
| `Interest.SuccessCallsBackInOrder` | src/components/ui/modal.jsx:108-112 | on an OK response, `onSubmit` is called once with the draft, then the flag is cleared, then `onClose` is called once, last |
| `Interest.FailureCallsNoCallback` | src/components/ui/modal.jsx:113-121 | on a non-OK response or a thrown error, the failure alert is raised and neither callback is called |
| `Interest.SampleDraftAccepted` | src/components/ui/modal.jsx:76-88 | the draft `Jane Lee`, `jane@example.com`, `Acme`, `Engineer` passes both checks |
| `Interest.ValidSubmissionScenario` | src/components/ui/modal.jsx:71-112 | Jane Lee's valid draft with an OK backend gives: flag on, fetch of her body, thanks alert, `onSubmit` with her fields, flag off, `onClose` |
| `Interest.BuildBody` | src/components/ui/modal.jsx:92-98 | the six appends produce a fresh body equal to `SubmissionPayload` |
| `Interest.MultipartBody.constructor` | src/components/ui/modal.jsx:92 | a new body has no entries |
| `Interest.MultipartBody.Append` | src/components/ui/modal.jsx:93-98 | an append adds one entry at the end and keeps the rest |
| `Interest.InterestForm.constructor` | src/components/ui/modal.jsx:53-61 | a new form has four empty fields, the flag down and an empty log |
| `Interest.InterestForm.HandleInputChange` | src/components/ui/modal.jsx:63-69 | the draft becomes `Update(old draft, field, value)`; the flag and the log are untouched |
| `Interest.InterestForm.HandleSubmit` | src/components/ui/modal.jsx:71-122 | the draft is unchanged; the flag ends `false`; the log grows by exactly `SubmitTrace` of the draft and the backend's response to its body |
| `Dialog.Modal.Mount` | src/components/ui/modal.jsx:5-14 | first render and effect: `Valid()` holds; the overflow is `hidden` if open and the page's own value otherwise |
| `Dialog.Modal.RunEffect` | src/components/ui/modal.jsx:11-14 | run after the previous cleanup (no listener registered), only an open modal registers the listener and sets overflow `hidden`; a closed one changes nothing |
| `Dialog.Modal.Cleanup` | src/components/ui/modal.jsx:16-19 | unconditionally, the listener is removed and the overflow is `unset` |
| `Dialog.Modal.Rerender` | src/components/ui/modal.jsx:6-20 | after a change of `isOpen` or `onClose`, cleanup then the effect: listener registered iff open, overflow `hidden` if open and `unset` otherwise; with neither changed, the document is untouched; `Valid()` is kept |
| `Dialog.Modal.Unmount` | src/components/ui/modal.jsx:16-19 | the last cleanup leaves no listener and the overflow `unset`, whether the modal was open or not |
| `Dialog.Modal.KeyDown` | src/components/ui/modal.jsx:7-9 | `onClose` is called once iff the modal is showing and the key is `Escape`; no other state changes |
| `Dialog.Modal.ClickClose` | src/components/ui/modal.jsx:22-38 | a backdrop or close-button click calls `onClose` once iff the modal is rendered; a closed modal renders nothing to click |

## Left out

- `src/Portfolio.jsx` is static content and markup; it does not use the modal or the form, so it is not part of this model.
- JSX rendering, CSS classes and the `ModalContent` wrapper are left out because they are presentation.
- The buttons' `disabled={isSubmitting}` attributes are left out. The disabled submit button is the only re-entrancy guard, and the sequential model, where each handler finishes before the next event, does not need it.
- The model covers `handleSubmit` alone, not the browser's handling of the form around it. `e.preventDefault()` (modal.jsx:72), which stops the browser's own form submission, is not an event of the trace. The inputs' `required` (modal.jsx:156, 172) and `type="email"` (modal.jsx:167) attributes make the browser refuse to submit before the handler runs: an empty name or email, or an address outside HTML's email grammar such as `a@b..c`, which the regex accepts. `type="email"` also sanitizes the input's value: the browser strips newlines and leading and trailing ASCII whitespace before `handleInputChange` (modal.jsx:63-64) reads it, so typing `" a@b.c"` reaches the handler as `a@b.c`. The model leaves out that constraint validation and that sanitization, and models the handler on the string it is given. Its missing-fields and invalid-email paths are the handler's own, reached only when the browser lets the submit through.
- `Interest.InterestForm.HandleSubmit`: the `backend` parameter stands for a `fetch` (modal.jsx:100) and a `response.json()` (modal.jsx:114) that settle. The code sets no timeout, so a request that never settles leaves `isSubmitting` true and the form disabled (modal.jsx:214, 221), with the button showing "Submitting..." (modal.jsx:223). `SubmittingEndsCleared` and `HandleSubmit`'s `!isSubmitting` describe runs that complete.
- The real `fetch` to the form service, its URL, headers and JSON parsing are network I/O. They are replaced by the `backend` parameter.
- `console.error` in the `catch` is dropped, because it has no effect the form relies on. The text of the thrown error (`data.error` or `'Form submission failed'`) is dropped with it, because only the log shows it.
- The interest form's backdrop and Cancel/close buttons call the parent's `onClose` directly. They are markup wiring with no logic of their own.
- `onSubmit` and `onClose` are assumed to return normally. If one of them threw inside the `try`, the code would go on to the failure alert. The model does not cover that path.
- React scheduling is not modelled: state batching, the exact moment effects run, and async interleaving with other events. Each handler is one sequential step, so the late-callback-after-close race of an in-flight submission is not represented.
- `IsWs`: JavaScript's `\s` is written out as the ECMAScript WhiteSpace and LineTerminator characters, with the Unicode space separators as of current Unicode. The general lemmas and `Matches` hold for any whitespace set that leaves out `@` and `.`. The concrete examples (`AcceptedExamples`, `RejectedExamples`, `SampleDraftAccepted`) also rely on a space being whitespace and on the letters not being whitespace.
- `Dialog.Modal` keeps `escapeListener` and `bodyOverflow` per instance, but in the code the keydown listeners and `document.body.style.overflow` belong to the one global document (modal.jsx:12-13, 17-18). The model assumes one modal per document. With two modals on a page, a closed one whose parent passes a new `onClose` on each render re-runs its cleanup (dependencies `[isOpen, onClose]`, modal.jsx:20). That cleanup sets the overflow to `unset` under the open one, so `Valid()`'s `isOpen ==> bodyOverflow == Hidden` would not hold for the shared document. Shared listeners and that interference are not modelled.
- `projectTitle` is a prop and is read again on each render (modal.jsx:53, 97-98, 109). `Interest.InterestForm` fixes it as a `const` when the form is built, so a title change while the form is mounted is not modelled.
