# Conventional commit-message builder, modelled in Dafny

The repository is a `commitizen` adapter: a single configuration object whose
`prompter(cz, commit)` asks six questions (change type, scope, subject, body,
footer, confirmation), formats the answers into a commit message and hands it
to the host's `commit` callback, or cancels. This project models the three
pieces of logic in `index.js` and proves what they guarantee:

- the fixed list of eight change types offered by the first question
  (`change_type.dfy`, module `ChangeType`);
- the `filter` of the subject question, which drops one trailing period and
  lower-cases the first character (`subject.dfy`, module `Subject`);
- `buildCommit`, which trims the scope and parenthesises it only when it is
  non-empty, builds `type + scope + ": " + trim(subject)`, cuts that head
  hard at 100 characters and joins head, wrapped body and wrapped footer with
  blank lines (`formatter.dfy`, module `Formatter`);
- the completion handler, which calls `commit(buildCommit(answers))` exactly
  when `confirmCommit === 'yes'` and otherwise only reports the cancellation
  (`prompter.dfy`, module `Prompter`: the pure decision `OnComplete` and a
  `Session` class recording the callback calls and status lines).

`js_string.dfy` (module `JsString`) models the ECMAScript built-ins the core
uses: `trim` over the exact ECMAScript WhiteSpace and LineTerminator set,
`slice(0, n)`, and lower-casing of one character (ASCII only, see below).
`wrappers.dfy` holds an `Option` type.

The `word-wrap` library is a foreign call: the formatter takes it as a
parameter `wrap: string -> string`, standing for `wrap(s, wrapOptions)` with
the fixed options of `index.js:119-124`, and nothing is assumed about it.

Beyond the source's promises the model proves an inverse for the head:
`ParseHead` reads a head back into type, scope and subject, and
`ParseHeadRoundTrip` shows it recovers the trimmed scope and subject whenever
the head was not cut and the scope holds no `)`; `ParseTypeHead` shows the
type can be read back from every head, cut or not.

A sharp edge the model makes explicit (`Subject.BlanksDefeatFilter`): the
subject filter runs on the raw input, before `buildCommit` trims it, so a
subject typed as `" Fix bug. "` keeps its capital and its period in the
head (`Fix bug.`). This is the code's behaviour and the model keeps it.

## Model

| member | source | states |
|---|---|---|
| JsString.TrimSpec | index.js:127-131 | `trim` leaves the middle part of its input between a whitespace prefix and a whitespace suffix, with no whitespace at either end; the result is empty exactly when the input is all whitespace |
| JsString.TrimUnique | index.js:127-131 | any split of a string into whitespace prefix, whitespace-free-ended middle and whitespace suffix has `trim`'s result as its middle (trim is fully determined by that description) |
| JsString.TrimIdempotent | index.js:127-131 | trimming an already trimmed scope or subject changes nothing |
| JsString.TrimBare | index.js:127-131 | a string without whitespace at its ends is its own trim |
| JsString.TrimChars | index.js:127-131 | every character of a trimmed string occurs in the original |
| JsString.SliceTo | index.js:131 | `slice(0, n)` yields at most `n` characters, a prefix of its input, the whole input when it is short enough and exactly `n` characters otherwise |
| JsString.ToLowerAscii | index.js:76 | the lower-cased character is never an ASCII capital, and a character changes only when it is a capital, to the letter 32 code points above |
| ChangeType.Tag | index.js:38-63 | every choice value is a lower-case word of 3 to 8 letters |
| ChangeType.ChoiceNameShowsTag | index.js:38-63 | every choice's display name begins with its value and a colon |
| ChangeType.FromTagTag | index.js:38-63 | every choice value reads back to its own change type |
| ChangeType.TagInjective | index.js:38-63 | two choices have the same value exactly when they are the same type |
| ChangeType.ChoicesComplete | index.js:38-63 | the list offers every one of the eight types, none twice |
| Subject.SubjectFilter | index.js:72-77 | one character shorter exactly when the input ends in `.`; every character after the first unchanged; the first character lower-cased; empty exactly for `""` and `"."` |
| Subject.OnePeriodOnly | index.js:73-75 | only one trailing period is removed: filtering `s + ".."` still ends in a period, and `"a.."` becomes `"a."` |
| Subject.FilterStable | index.js:72-77 | filtering a second time changes nothing exactly when the first pass left no trailing period |
| Subject.FilterIdempotentWithoutPeriod | index.js:72-77 | on an input that does not end in a period the filter is idempotent |
| Subject.FixBugExample | index.js:72-77 | `"Fix bug."` is stored as `"fix bug"` |
| Subject.BlanksDefeatFilter | index.js:72-77 | a subject with surrounding blanks passes the filter unchanged, so the trimmed head text keeps its capital and its period |
| Formatter.Head | index.js:117-131 | the head has at most 100 characters, is a prefix of `type + scope + ": " + trim(subject)`, equals it when it fits and is exactly its first 100 characters otherwise, with nothing appended |
| Formatter.BuildCommit | index.js:134-139 | the message is the head, `"\n\n"`, the wrapped body, `"\n\n"` and the wrapped footer, by length and by each of its three parts |
| Formatter.ScopeShapes | index.js:127-131 | with a blank scope the untruncated head is `type + ": " + trim(subject)`; otherwise `type + "(" + trim(scope) + ")" + ": " + trim(subject)` |
| Formatter.HeadStartsWithTag | index.js:127-131 | the head starts with the type tag, and the next character is `(` exactly when the trimmed scope is non-empty and `:` exactly when it is empty |
| Formatter.NoParensWithoutScope | index.js:127-131 | with a blank scope and a subject without parentheses the head holds no parenthesis |
| Formatter.ParseTypeHead | index.js:131 | the change type can be read back from every head, however it was cut |
| Formatter.ParseHeadRoundTrip | index.js:127-131 | a head that was not cut reads back to the type, the trimmed scope and the trimmed subject when the scope holds no `)` |
| Formatter.FirstLineIsHead | index.js:131-137 | when scope and subject hold no line feed, the message's first line is exactly the head |
| Prompter.OnComplete | index.js:104-111 | a message is committed exactly when `confirmCommit` is `"yes"`, and it is `buildCommit(answers)` |
| Prompter.ConfirmChoiceDispatch | index.js:87-97 | of the two values the confirmation list offers, only the first (`yes`) commits |
| Prompter.Session.Complete | index.js:104-111 | on `yes` the callback receives `buildCommit(answers)` once and the success line is written; on any other value the callback is not called and the cancellation line is written |
| Prompter.Session.Run | index.js:33-111 | a prompt run filters the subject, then hands the callback what `OnComplete` decides for the collected answers, and writes one status line |
| Prompter.DryRunExample | index.js:72-140 | type feat, scope `cli`, subject typed `Add dry-run flag.`, confirmed: the message's first line is `feat(cli): add dry-run flag`, then a blank line, and it ends with a blank line and the wrapped footer |
| Prompter.AbortExample | index.js:105-110 | the same answers with `no` commit nothing |

## Left out

- The banner printed before prompting (index.js:24) and the preview printed by the confirmation question's dynamic `message` (index.js:98-101): terminal output only. The preview calls the same `buildCommit` that is modelled.
- The green and red styling of the status lines (index.js:107, 109): the model records the plain text.
- The inquirer prompt engine `cz.prompt` and its question descriptors (index.js:33-103): an external library driving asynchronous user input. The model takes the typed answers as a value and applies the one thing the descriptors do to them, the subject filter.
- The `word-wrap` library (index.js:3, 134-135): a foreign call, passed in as the `wrap` function parameter; no line-width property is claimed for body and footer.
- JsString.ToLowerAscii: lower-cases only the ASCII capitals, whereas `toLowerCase` follows full Unicode case mapping (which can also change the length of the string).
- Formatter.Head and JsString.SliceTo: count Unicode code points, whereas JavaScript's `slice` and `length` count UTF-16 code units, so characters outside the Basic Multilingual Plane count once here and twice in the source.
- Module export and SystemJS wiring (index.js:1, 9): not behaviour.
