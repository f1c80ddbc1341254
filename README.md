# npm package tooling, modelled in Dafny

This project models three small Node.js command-line scripts that teach how npm
packages are described and inspected:

- **the package.json inspector** (`inspect-package-json.js`). It validates the
  manifest's fields, explains how Node resolves the package's entry point, and
  bumps the `X.Y.Z` version and writes the file back.
- **the npm package inspector CLI** (`app.js`). It has the subcommands `info`,
  `versions`, `deps` and `compare`, the flags `--json`, `--limit=<n>` and
  `--max=<n>`, and a box-drawing table renderer.
- **the package checker** (`check-package.js`). It prints a package's registry
  fields, its recent versions and its dependency count.

Each script is one Dafny module:

- `Manifest` (manifest.dfy);
- `Inspector` (inspector.dfy);
- `Checker` (checker.dfy).

Four modules hold what the scripts share:

- `Text` (text.dfy): JavaScript's `\d`, `\w` and `\s` classes; `split`, `join`,
  `repeat` and `trim`; ASCII `toLowerCase`; `parseInt` and `String` on integers.
- `JsArray` (jsarray.dfy): `Number(text)`, `ToIntegerOrInfinity`, and the index
  clamping of `Array.prototype.slice`.
- `QuasiJson` (quasijson.dfy): the two text rewrites the scripts apply before
  `JSON.parse`.
  - The quote swap turns `'` into `"`.
  - The key quoting turns `word:` into `"word":`.
  - `JSON.parse` itself is modelled for the two shapes it receives from `npm view`:
    a list of strings, and a flat object of strings.
  - Object key order follows JavaScript's rule: a repeated key keeps its first
    position and takes its last value.
- `Wrappers` (wrappers.dfy): `Option` and `Result`.

The `npm view` subprocess becomes a function parameter:

- `Registry` in `Inspector`, from package and field to trimmed output;
- `Npm` in `Checker`, from package and field to output or failure.

The package.json record that the inspector reads and rewrites is the class
`Manifest.PackageFile`. Its `BumpVersion` method changes `version` in place and
records what `savePkg` writes.

The central results are these:

- The rewrite-and-parse pipelines invert the renderers for npm's one-line
  listings: `ObjishRoundTrip`, `JsonishRoundTrip` and `ArrayRoundTrip`. For
  objects this holds only when no key or value contains `:`. A range with a
  colon, such as `npm:pkg@^1` or `github:user/repo`, makes the whole listing
  unparseable (`ColonRangeNotObject`, `ColonRangeNotAvailable`).
- The two scripts apply their rewrites in opposite orders, and both orders give
  the same result (`RewritesCommute`, `SameAsInspector`).
- A version bump yields a valid version that is strictly greater, and it fails
  in exactly the documented cases (`BumpResult`, `BumpErrors`).
- `validate` stops at exactly the first failing rule (`Manifest.Validate`).
- Every rendered table is rectangular (`TableShape`), and so is every box drawn
  with one-character glyphs (`BoxLayout`).
- Each command resolves its flags as JavaScript does: `slice(-limit)`, the
  `||` defaults, and the last repeated flag wins.

## Model

| member | source | states |
|---|---|---|
| Manifest.Property | examples/package-json/example-01-package-json-essentials/inspect-package-json.js:127 | property access yields a value iff the object has the key, and then it is that key's value; anything else reads as `undefined` |
| Manifest.NameRule | examples/package-json/example-01-package-json-essentials/inspect-package-json.js:83-90 | a name is valid iff it is a non-empty string with no upper-case letter, no white space, and does not start with `.` or `_` |
| Manifest.SemverShape | examples/package-json/example-01-package-json-essentials/inspect-package-json.js:92-95 | the version rule accepts a text iff it is three non-empty digit runs joined by dots |
| Manifest.SemverOfDotted | examples/package-json/example-01-package-json-essentials/inspect-package-json.js:165 | splitting such a version on `.` gives back exactly its three digit runs |
| Manifest.SemverParts | examples/package-json/example-01-package-json-essentials/inspect-package-json.js:164-165 | every accepted version is the dotted join of the three pieces `split('.')` returns |
| Manifest.DottedJoin | examples/package-json/example-01-package-json-essentials/inspect-package-json.js:173 | `[a, b, c].join('.')` is the dotted version text |
| Manifest.TripleTextValue | examples/package-json/example-01-package-json-essentials/inspect-package-json.js:165-173 | writing a version triple and reading it back with `parseInt` gives the same triple, and the text passes the version rule |
| Manifest.BumpResult | examples/package-json/example-01-package-json-essentials/inspect-package-json.js:163-173 | a successful bump yields a valid version whose triple is the bumped triple and is strictly greater than the old one |
| Manifest.BumpErrors | examples/package-json/example-01-package-json-essentials/inspect-package-json.js:164-171 | the bump fails with "cannot bump" iff the version fails the rule, with a TypeError iff it passes but is not a string, and with "unknown kind" iff it is a valid string and the kind is not patch, minor or major |
| Manifest.UndefinedNotSemver | examples/package-json/example-01-package-json-essentials/inspect-package-json.js:94 | a missing version is matched as the text `undefined`, which fails the rule |
| Manifest.BumpLeadingZeros | examples/package-json/example-01-package-json-essentials/inspect-package-json.js:165-173 | leading zeros are dropped by `parseInt`: `01.2.3` bumped by patch becomes `1.2.4` |
| Manifest.PackageFile.constructor | examples/package-json/example-01-package-json-essentials/inspect-package-json.js:69-76 | the loaded record is held unchanged and nothing is saved yet |
| Manifest.PackageFile.BumpVersion | examples/package-json/example-01-package-json-essentials/inspect-package-json.js:163-177 | the result is the next version; on success only `version` changes and the record is saved; on failure nothing changes |
| Manifest.TypeText | examples/package-json/example-01-package-json-essentials/inspect-package-json.js:119-120 | a falsy `type` prints as `commonjs`, and a truthy `type` prints as its String, so `module` prints as itself |
| Manifest.Validate | examples/package-json/example-01-package-json-essentials/inspect-package-json.js:98-143 | each fatal error holds iff the earlier rules pass and its own rule fails, in the order the script checks them; no fatal iff name, version and `exports` are valid; a failing name or version prints no note; a non-object `exports` stops after the first three field notes, and otherwise the notes are the whole field-note sequence, ending with "passed"; the private, `engines.node`, exports-present, no-exports, missing-`exports["."]`, no-import-or-require and sideEffects notes each appear iff their conditions hold |
| Manifest.CheckFields | examples/package-json/example-01-package-json-essentials/inspect-package-json.js:107-142 | after name and version, `exports` that is truthy and not an object is the only fatal finding, printed after the private, `engines.node` and type notes; otherwise the notes are the field notes in order |
| Manifest.ExportsNotes | examples/package-json/example-01-package-json-essentials/inspect-package-json.js:122-136 | the block starts with "exports present" for a truthy `exports` and "no exports" otherwise; "missing `exports["."]`" appears iff `exports` is truthy and its `.` entry is not a truthy object; "no import or require" appears iff that entry is an object with neither a truthy `import` nor a truthy `require`; no other kind of note appears |
| Manifest.FieldNotesKinds | examples/package-json/example-01-package-json-essentials/inspect-package-json.js:107-142 | the field notes end with "passed", once; the private, `engines.node`, sideEffects and the four `exports` notes each appear iff their conditions hold |
| Manifest.FieldPrefix | examples/package-json/example-01-package-json-essentials/inspect-package-json.js:107-120 | the notes printed before `exports` is checked are the private, `engines.node` and type notes, and warn about `private` and `engines.node` iff those are unset |
| Manifest.MainText | examples/package-json/example-01-package-json-essentials/inspect-package-json.js:149 | an absent or null `main` prints `(not set)`; any other value prints as its `String`, so an empty string prints as empty |
| Manifest.ShowEntries | examples/package-json/example-01-package-json-essentials/inspect-package-json.js:145-161 | resolution goes via `exports` iff it is truthy, via `main` iff `exports` is falsy and `main` truthy, and falls back to `index.js` otherwise; exports is shown as `present` iff it is truthy; Type is printed as `pkg.type || 'commonjs'` and Main as `pkg.main ?? '(not set)'` |
| Manifest.EmptyMainFallsBack | examples/package-json/example-01-package-json-essentials/inspect-package-json.js:149-158 | an empty `main` is printed as set, yet resolution falls back to `index.js` |
| Manifest.PadRight | examples/package-json/example-01-package-json-essentials/inspect-package-json.js:48 | the result is exactly `n` characters: those of `s`, then spaces |
| Manifest.BoxIsLines | examples/package-json/example-01-package-json-essentials/inspect-package-json.js:53-60 | the box text is its lines joined by newlines |
| Manifest.RowWithoutNewline | examples/package-json/example-01-package-json-essentials/inspect-package-json.js:55-57 | a framed row of a text without newlines has no newline and is `width + 2` wide |
| Manifest.LinesWithoutNewline | examples/package-json/example-01-package-json-essentials/inspect-package-json.js:53-60 | every line of the box is newline-free and `width + 2` wide |
| Manifest.BoxLinesShape | examples/package-json/example-01-package-json-essentials/inspect-package-json.js:53-59 | the box has one line per body line plus four; line 1 frames the title and line `i + 3` frames body line `i` |
| Manifest.BoxLayout | examples/package-json/example-01-package-json-essentials/inspect-package-json.js:53-60 | splitting the printed box on newlines gives one line per body line plus four, all of the same width, with the title and the body lines framed in order |
| Manifest.Without | examples/package-json/example-01-package-json-essentials/inspect-package-json.js:221 | the filtered arguments hold exactly the arguments other than the flag, and are no longer than before; arguments without the flag are kept as they are, in order |
| Manifest.WithoutAppend | examples/package-json/example-01-package-json-essentials/inspect-package-json.js:221 | filtering a concatenation filters each part |
| Manifest.WithoutAnywhere | examples/package-json/example-01-package-json-essentials/inspect-package-json.js:221 | removing the flag from any position gives the same filtered arguments |
| Manifest.PlainIgnored | examples/package-json/example-01-package-json-essentials/inspect-package-json.js:220-223 | `--plain` anywhere in the arguments does not change the command chosen |
| Manifest.Run | examples/package-json/example-01-package-json-essentials/inspect-package-json.js:217-243 | `bump` gives the next version of the old record, or that failure, and saves and changes only `version` on success; `validate` reports `validate`'s own result: each fatal error exactly when the earlier checks pass and its own fails, with no notes before a name or version error and the three field notes before the `exports` error, and otherwise the full field-note sequence ending with "passed"; no command shows the overview; `entries` shows the resolution; an unknown command fails; every command but a successful bump leaves the record unchanged and unsaved |
| Text.Repeat | examples/package-json/example-01-package-json-essentials/inspect-package-json.js:47 | `c.repeat(n)` is `n` copies of `c` |
| Text.Split | examples/package-json/example-01-package-json-essentials/inspect-package-json.js:57 | `split` on a one-character separator gives at least one piece, and no piece holds the separator |
| Text.JoinSplit | examples/package-json/example-01-package-json-essentials/inspect-package-json.js:57 | joining the pieces of a split with the separator gives the text back |
| Text.SplitJoin | examples/package-json/example-01-package-json-essentials/inspect-package-json.js:59 | splitting a join of separator-free pieces gives the pieces back |
| Text.JoinConcat | examples/01-fundamentals/example-04-npm-package-inspector/app.js:56 | joining two non-empty piece lists puts one separator between their joins |
| Text.LeadingSpace | examples/01-fundamentals/example-04-npm-package-inspector/app.js:30 | `trim` removes the longest all-white-space prefix |
| Text.TrailingSpace | examples/01-fundamentals/example-04-npm-package-inspector/app.js:30 | `trim` removes the longest all-white-space suffix |
| Text.Trim | examples/01-fundamentals/example-2-checking-package-info/check-package.js:27 | the trimmed text is a contiguous piece of the input surrounded only by white space, and neither starts nor ends with white space |
| Text.ToLower | examples/01-fundamentals/example-04-npm-package-inspector/app.js:12 | lower-casing maps every character and keeps the length |
| Text.LowerUnchanged | examples/package-json/example-01-package-json-essentials/inspect-package-json.js:87 | a string equals its lower-case form iff it holds no upper-case letter |
| Text.NatToDecimal | examples/01-fundamentals/example-04-npm-package-inspector/app.js:149 | `String(n)` is a non-empty digit run without a leading zero |
| Text.DecimalRoundTrip | examples/package-json/example-01-package-json-essentials/inspect-package-json.js:165-173 | `parseInt(String(n))` is `n` |
| Text.LeadingZeros | examples/package-json/example-01-package-json-essentials/inspect-package-json.js:165 | leading zeros do not change the value `parseInt` reads |
| JsArray.NumberOf | examples/01-fundamentals/example-04-npm-package-inspector/app.js:113 | `Number` of blank text is 0; the result is NaN iff the trimmed text is neither `[sign]Infinity` nor `[sign]digits[.digits]`; `[sign]Infinity` is the infinity of that sign, and a finite result is the signed integer part of the digits |
| JsArray.RelativeIndex | examples/01-fundamentals/example-04-npm-package-inspector/app.js:114 | a slice index in range is taken as is, a negative one counts from the end, and the result is clamped to the length |
| JsArray.SliceFrom | examples/01-fundamentals/example-04-npm-package-inspector/app.js:114 | `slice(start)` is a suffix of the array |
| JsArray.SliceTo | examples/01-fundamentals/example-04-npm-package-inspector/app.js:125 | `slice(0, end)` is a prefix of the array |
| JsArray.LastN | examples/01-fundamentals/example-2-checking-package-info/check-package.js:72 | `slice(-n)` for `n >= 1` keeps the last `n` items, or all of them when there are fewer |
| JsArray.SliceFromZero | examples/01-fundamentals/example-04-npm-package-inspector/app.js:114 | `slice(-0)` keeps the whole array |
| JsArray.NumberOfDigits | examples/01-fundamentals/example-04-npm-package-inspector/app.js:113 | `Number` of a digit run is its decimal value |
| JsArray.NumberOfWord | examples/01-fundamentals/example-04-npm-package-inspector/app.js:113 | `Number('abc')` is NaN |
| QuasiJson.QuoteSwap | examples/01-fundamentals/example-04-npm-package-inspector/app.js:73 | the quote swap keeps the length |
| QuasiJson.QuoteSwapAt | examples/01-fundamentals/example-04-npm-package-inspector/app.js:73 | every `'` becomes `"`, every other character is kept, and no `'` is left |
| QuasiJson.QuoteSwapAppend | examples/01-fundamentals/example-04-npm-package-inspector/app.js:73 | the swap distributes over concatenation |
| QuasiJson.QuoteSwapIdentity | examples/01-fundamentals/example-04-npm-package-inspector/app.js:73 | a text without `'` is unchanged |
| QuasiJson.WordRun | examples/01-fundamentals/example-04-npm-package-inspector/app.js:83 | the `\w+` run is the longest prefix of word characters |
| QuasiJson.QuoteKeysIdentity | examples/01-fundamentals/example-04-npm-package-inspector/app.js:83 | text without a bare `word:` key is unchanged by the key quoting |
| QuasiJson.QuoteKeysAppend | examples/01-fundamentals/example-04-npm-package-inspector/app.js:83 | the key quoting distributes over a split point that follows a non-word character |
| QuasiJson.QuoteKeysKey | examples/01-fundamentals/example-04-npm-package-inspector/app.js:83 | a leading `word:` becomes `"word":` and the rest is rewritten on its own |
| QuasiJson.RewritesCommute | examples/01-fundamentals/example-2-checking-package-info/check-package.js:110 | quoting keys then swapping quotes equals swapping quotes then quoting keys |
| QuasiJson.QuoteKeysOnlyAddsQuotes | examples/01-fundamentals/example-04-npm-package-inspector/app.js:83 | once double quotes are ignored, the key quoting changes nothing |
| QuasiJson.SkipSpace | examples/01-fundamentals/example-04-npm-package-inspector/app.js:85 | what is left after JSON white space does not start with white space |
| QuasiJson.SkipSpaceDrops | examples/01-fundamentals/example-04-npm-package-inspector/app.js:85 | skipping white space drops a prefix of the text, and every dropped character is JSON white space |
| QuasiJson.ParseString | examples/01-fundamentals/example-04-npm-package-inspector/app.js:85 | a parsed JSON string is escape-free and consumes input |
| QuasiJson.ParseStringText | examples/01-fundamentals/example-04-npm-package-inspector/app.js:85 | a string literal that is read is its value between two double quotes, followed by the rest of the text |
| QuasiJson.Keys | examples/01-fundamentals/example-04-npm-package-inspector/app.js:123 | `Object.keys`: the keys of the entries, in order |
| QuasiJson.Put | examples/01-fundamentals/example-04-npm-package-inspector/app.js:85 | assigning a new key appends it; assigning an existing key keeps the key order; the pair is then present |
| QuasiJson.PutReplaces | examples/01-fundamentals/example-04-npm-package-inspector/app.js:85 | with distinct keys, setting an existing key replaces that member's value in place and changes no other member |
| QuasiJson.PutDistinct | examples/01-fundamentals/example-04-npm-package-inspector/app.js:85 | setting a key keeps the keys distinct |
| QuasiJson.CollectKeysDistinct | examples/01-fundamentals/example-04-npm-package-inspector/app.js:85 | the object `JSON.parse` builds never holds a key twice, whatever the text repeats |
| QuasiJson.CollectDistinct | examples/01-fundamentals/example-04-npm-package-inspector/app.js:85 | an object with distinct keys keeps its members in text order |
| QuasiJson.ArrayRoundTrip | examples/01-fundamentals/example-04-npm-package-inspector/app.js:73 | `JSON.parse` of a rendered list of plain strings gives the list back |
| QuasiJson.ObjectRoundTrip | examples/01-fundamentals/example-04-npm-package-inspector/app.js:85 | `JSON.parse` of a rendered flat object gives its members, with repeated keys collected |
| QuasiJson.SwapArrayText | examples/01-fundamentals/example-04-npm-package-inspector/app.js:73 | swapping quotes turns npm's single-quoted list into the double-quoted JSON list |
| QuasiJson.JsonishRoundTrip | examples/01-fundamentals/example-04-npm-package-inspector/app.js:70-77 | `parseJsonish` of a single-quoted list as npm prints it gives the list back |
| QuasiJson.NormaliseObject | examples/01-fundamentals/example-04-npm-package-inspector/app.js:82-84 | both rewrites turn npm's one-line object text into the JSON text of the same members, for identifier keys printed bare and other keys printed between single quotes, when no key or value contains `:` or a quote |
| QuasiJson.NormaliseQuotedMember | examples/01-fundamentals/example-04-npm-package-inspector/app.js:82-84 | a member whose key npm prints between single quotes, such as `'body-parser'`, is left alone by the key quoting and becomes the JSON member after the quote swap |
| QuasiJson.QuotedKeyText | examples/01-fundamentals/example-04-npm-package-inspector/app.js:82-84 | a single-quoted key without `:` normalises to the double-quoted key |
| QuasiJson.ObjishRoundTrip | examples/01-fundamentals/example-04-npm-package-inspector/app.js:79-89 | `parseObjish` of a one-line object as npm prints it gives its members, with repeated keys collected, when no key or value contains `:` or a quote; keys may be identifiers or quoted names |
| QuasiJson.JsonishExample | examples/01-fundamentals/example-04-npm-package-inspector/app.js:71 | the list in the script's comment parses to its two versions |
| QuasiJson.ObjishExample | examples/01-fundamentals/example-04-npm-package-inspector/app.js:80 | the object in the script's comment, `{ dep: '^1.0.0', x: '...' }`, parses to its two dependencies |
| QuasiJson.ObjishQuotedExample | examples/01-fundamentals/example-04-npm-package-inspector/app.js:79-89 | `{ 'body-parser': '^1.20.0' }` parses to its one dependency |
| QuasiJson.NotArray | examples/01-fundamentals/example-04-npm-package-inspector/app.js:74-75 | text that does not start with `[` is not a list |
| QuasiJson.NotObject | examples/01-fundamentals/example-04-npm-package-inspector/app.js:86-87 | text that does not start with `{` is not an object |
| QuasiJson.BareWordNotJson | examples/01-fundamentals/example-04-npm-package-inspector/app.js:70-89 | a bare word, such as npm's `undefined`, fails both parsers, so the fallback applies |
| QuasiJson.NotJsonExample | examples/01-fundamentals/example-04-npm-package-inspector/app.js:74-75 | a prose text fails both parsers |
| QuasiJson.ColonRangeNotObject | examples/01-fundamentals/example-04-npm-package-inspector/app.js:79-89 | a listing whose first range starts with a word and `:` (`npm:`, `github:`, `file:`, `workspace:`) gives `null`, because the key rewrite also quotes that word |
| QuasiJson.ColonRangeText | examples/01-fundamentals/example-04-npm-package-inspector/app.js:82-84 | for such a listing, JSON.parse receives the key with the empty value `""`, followed by the word |
| QuasiJson.AliasRangeExample | examples/01-fundamentals/example-04-npm-package-inspector/app.js:79-89 | `{ foo: 'npm:bar@^1.0.0' }` gives `null` |
| Inspector.ParseFlags | examples/01-fundamentals/example-04-npm-package-inspector/app.js:15-26 | the loop's positionals and named flags are those of the specification functions |
| Inspector.PositionalsAppend | examples/01-fundamentals/example-04-npm-package-inspector/app.js:17-23 | the positionals of a concatenation are those of each part |
| Inspector.PositionalsMembers | examples/01-fundamentals/example-04-npm-package-inspector/app.js:17-23 | an argument is positional iff it occurs and does not start with `--` |
| Inspector.LastFlagWins | examples/01-fundamentals/example-04-npm-package-inspector/app.js:19-20 | a repeated flag takes the value of its last occurrence |
| Inspector.UnsetFlag | examples/01-fundamentals/example-04-npm-package-inspector/app.js:16-24 | a key that no flag names is not set |
| Inspector.FlagWithValue | examples/01-fundamentals/example-04-npm-package-inspector/app.js:19 | `--k=v` sets `k` to `v`, and any further `=` part is dropped |
| Inspector.FlagWithoutValue | examples/01-fundamentals/example-04-npm-package-inspector/app.js:19 | `--k` sets `k` to `true` |
| Inspector.FlagNumber | examples/01-fundamentals/example-04-npm-package-inspector/app.js:113 | an unset or empty flag reads as the default; any other value is read with `Number` |
| Inspector.RecentVersions | examples/01-fundamentals/example-04-npm-package-inspector/app.js:114 | the recent versions are a suffix of all versions |
| Inspector.RecentLast | examples/01-fundamentals/example-04-npm-package-inspector/app.js:114 | a limit `n >= 1` keeps the last `n` versions, or all of them when there are fewer |
| Inspector.RecentWhole | examples/01-fundamentals/example-04-npm-package-inspector/app.js:114 | a limit of 0 or NaN keeps every version |
| Inspector.RecentCount | examples/01-fundamentals/example-04-npm-package-inspector/app.js:114 | a numeric limit `n` keeps all versions when `n` is 0 and the last `n` otherwise |
| Inspector.RecentDefault | examples/01-fundamentals/example-04-npm-package-inspector/app.js:113-114 | without `--limit`, or with an empty one, the last five versions are kept |
| Inspector.FlagDigits | examples/01-fundamentals/example-04-npm-package-inspector/app.js:113 | a digit-only flag reads as its decimal value |
| Inspector.RecentFromDigits | examples/01-fundamentals/example-04-npm-package-inspector/app.js:113-114 | `--limit=<digits>` keeps that many last versions, and `--limit=0` keeps all of them |
| Inspector.RecentFromWord | examples/01-fundamentals/example-04-npm-package-inspector/app.js:113-114 | `--limit=abc` is `slice(NaN)` and keeps every version |
| Inspector.LimitOne | examples/01-fundamentals/example-04-npm-package-inspector/app.js:113 | `--limit=1` reads as the number 1 |
| Inspector.FirstDeps | examples/01-fundamentals/example-04-npm-package-inspector/app.js:125 | the listed dependencies are a prefix of all of them |
| Inspector.FirstN | examples/01-fundamentals/example-04-npm-package-inspector/app.js:125 | a maximum `n >= 0` keeps the first `n`, a negative one drops that many from the end, and NaN keeps none |
| Inspector.FirstFromFlags | examples/01-fundamentals/example-04-npm-package-inspector/app.js:124-125 | without `--max`, the first ten are kept; `--max=<digits>` keeps that many |
| Inspector.ColonRangeNoDeps | examples/01-fundamentals/example-04-npm-package-inspector/app.js:119-146 | a listing whose first range starts with a word and `:` gives no entries, so `deps` shows none and `compare` counts none |
| Inspector.ColumnWidth | examples/01-fundamentals/example-04-npm-package-inspector/app.js:49 | a column's width is the maximum of its header's and its cells' lengths: at least each, and equal to one |
| Inspector.Widths | examples/01-fundamentals/example-04-npm-package-inspector/app.js:49 | each column is at least as wide as its header and every cell, and exactly as wide as one of them |
| Inspector.PadEnd | examples/01-fundamentals/example-04-npm-package-inspector/app.js:53 | `padEnd` keeps the text as a prefix, fills up to the width with spaces, and never truncates |
| Inspector.Rules | examples/01-fundamentals/example-04-npm-package-inspector/app.js:50-52 | each rule segment is its column's width plus two |
| Inspector.BodyLines | examples/01-fundamentals/example-04-npm-package-inspector/app.js:58-60 | one line per row, in row order |
| Inspector.RenderTable | examples/01-fundamentals/example-04-npm-package-inspector/app.js:46-62 | the printed lines are those of the table specification |
| Inspector.EmptyTable | examples/01-fundamentals/example-04-npm-package-inspector/app.js:47 | no rows print nothing |
| Inspector.CellWidth | examples/01-fundamentals/example-04-npm-package-inspector/app.js:53 | a cell is its column's width plus two |
| Inspector.CellsFit | examples/01-fundamentals/example-04-npm-package-inspector/app.js:56-59 | a row whose cells fit their widths is as long as the border |
| Inspector.RowFits | examples/01-fundamentals/example-04-npm-package-inspector/app.js:49-59 | the header and every row fit the computed widths, so each is as long as the border |
| Inspector.BordersAlike | examples/01-fundamentals/example-04-npm-package-inspector/app.js:50-52 | the three borders have the same length |
| Inspector.FrameFits | examples/01-fundamentals/example-04-npm-package-inspector/app.js:55-57 | the top border, header and middle rule have the same length |
| Inspector.BodyFits | examples/01-fundamentals/example-04-npm-package-inspector/app.js:58-61 | every body line has the length of the border |
| Inspector.TableShape | examples/01-fundamentals/example-04-npm-package-inspector/app.js:46-62 | a non-empty table prints its rows plus four lines, all of the same length |
| Inspector.RowCells | examples/01-fundamentals/example-04-npm-package-inspector/app.js:53-59 | splitting a row on the bar gives back its cells, and each cell starts with the cell text |
| Inspector.ExitCode | examples/01-fundamentals/example-04-npm-package-inspector/app.js:178-181 | the exit code is 1 iff the outcome is a usage error, and 0 otherwise |
| Inspector.Run | examples/01-fundamentals/example-04-npm-package-inspector/app.js:11-13 | the outcome is the router's dispatch on the lower-cased command and the parsed flags |
| Inspector.UsageErrors | examples/01-fundamentals/example-04-npm-package-inspector/app.js:94 | the exit code is 1 iff a command is missing its package argument (both arguments for `compare`) |
| Inspector.UsageWithoutLookup | examples/01-fundamentals/example-04-npm-package-inspector/app.js:110 | a usage error is reached before any registry lookup |
| Inspector.UnknownShowsHelp | examples/01-fundamentals/example-04-npm-package-inspector/app.js:184-191 | any other command shows the help, and no command at all means `help` |
| Inspector.CommandCase | examples/01-fundamentals/example-04-npm-package-inspector/app.js:12 | the command is matched case-insensitively |
| Inspector.LowerTwice | examples/01-fundamentals/example-04-npm-package-inspector/app.js:12 | lower-casing is idempotent |
| Inspector.VersionsOutcome | examples/01-fundamentals/example-04-npm-package-inspector/app.js:109-117 | `versions <pkg>` shows the last five versions the registry lists without `--limit` or with an empty one, the last `n` for `--limit=<n>`, and all of them for `--limit=0` or a limit that is not a number |
| Inspector.VersionsExample | examples/01-fundamentals/example-04-npm-package-inspector/app.js:109-117 | with `--limit=1`, the registry's list `[ '1.0.0', '1.1.0' ]` shows `1.1.0` only |
| Inspector.LastListed | examples/01-fundamentals/example-04-npm-package-inspector/app.js:114 | the last entry of that list is `1.1.0` |
| Inspector.CompareColumns | examples/01-fundamentals/example-04-npm-package-inspector/app.js:147-150 | a compare row has the columns `field`, `a` and `b`, in that order |
| Inspector.CompareSame | examples/01-fundamentals/example-04-npm-package-inspector/app.js:147-150 | comparing a package with itself keeps one column, holding the second value |
| Inspector.CollectThree | examples/01-fundamentals/example-04-npm-package-inspector/app.js:147 | an object literal with distinct keys keeps its keys in order |
| Inspector.CollectRepeated | examples/01-fundamentals/example-04-npm-package-inspector/app.js:147 | a repeated key keeps its first position and takes the later value |
| Inspector.Render | examples/01-fundamentals/example-04-npm-package-inspector/app.js:104-151 | with `--json` no table is printed; otherwise info, versions and compare print the table of their rows, deps prints `(no dependencies)` for an empty list and its table otherwise, and help or a usage error prints no table |
| Checker.GetNpmView | examples/01-fundamentals/example-2-checking-package-info/check-package.js:22-31 | a failed command gives the sentinel message; otherwise the result is the trimmed output, which neither starts nor ends with white space |
| Checker.TrimmedOutputKept | examples/01-fundamentals/example-2-checking-package-info/check-package.js:27 | output without white space at either end is returned as printed |
| Checker.BlankOutputEmpty | examples/01-fundamentals/example-2-checking-package-info/check-package.js:27 | output made only of white space reads as empty and is not shown |
| Checker.DisplayPackageInfo | examples/01-fundamentals/example-2-checking-package-info/check-package.js:36-61 | the loop prints exactly the shown rows of the info |
| Checker.ShownRowsAppend | examples/01-fundamentals/example-2-checking-package-info/check-package.js:54-58 | the filter distributes over concatenation |
| Checker.ShownRowsMembers | examples/01-fundamentals/example-2-checking-package-info/check-package.js:55 | a row is printed iff it is in the info and its value is non-empty and not the sentinel |
| Checker.InfoRowsSelected | examples/01-fundamentals/example-2-checking-package-info/check-package.js:42-58 | a label's row is printed iff its lookup gives a shown value |
| Checker.UnknownPackageShowsNothing | examples/01-fundamentals/example-2-checking-package-info/check-package.js:28-29 | a package whose lookups all fail prints no info row |
| Checker.NoneShown | examples/01-fundamentals/example-2-checking-package-info/check-package.js:55 | with no shown value, nothing is printed |
| Checker.VersionLine | examples/01-fundamentals/example-2-checking-package-info/check-package.js:75-76 | the line is the version after a four-character margin, with the arrow iff it is the last one |
| Checker.HistoryLines | examples/01-fundamentals/example-2-checking-package-info/check-package.js:74-77 | one line per recent version, in order: each is the version after a four-character margin, and the margin holds the arrow iff it is the last line |
| Checker.RecentOf | examples/01-fundamentals/example-2-checking-package-info/check-package.js:72 | the recent versions are a suffix of all versions |
| Checker.DisplayVersionHistory | examples/01-fundamentals/example-2-checking-package-info/check-package.js:66-82 | an unparsable listing reports "could not retrieve"; otherwise the lines of the last `limit` versions |
| Checker.PrintVersions | examples/01-fundamentals/example-2-checking-package-info/check-package.js:74-77 | the loop prints the history lines |
| Checker.ArrowOnLast | examples/01-fundamentals/example-2-checking-package-info/check-package.js:72-77 | for a positive limit, the arrow marks exactly the newest version shown |
| Checker.FailedHistory | examples/01-fundamentals/example-2-checking-package-info/check-package.js:28-29 | a failed lookup reaches the catch branch, because the sentinel is not JSON |
| Checker.WordNotList | examples/01-fundamentals/example-2-checking-package-info/check-package.js:71 | text starting with a word character is not a list |
| Checker.HistoryOfListing | examples/01-fundamentals/example-2-checking-package-info/check-package.js:70-72 | npm's listing parses back to its versions, all kept when the limit covers them |
| Checker.DisplayDependencies | examples/01-fundamentals/example-2-checking-package-info/check-package.js:104-127 | "no dependencies" iff the output is empty, `undefined` or the sentinel; "not available" iff it does not parse; otherwise the total is the number of keys of the parsed object, and the names listed are all its keys, in order, iff there are 1 to 10 |
| Checker.SameAsInspector | examples/01-fundamentals/example-2-checking-package-info/check-package.js:110 | the checker's rewrite order parses exactly as the inspector's |
| Checker.FailedDependencies | examples/01-fundamentals/example-2-checking-package-info/check-package.js:109 | a failed lookup counts as no dependencies, not as an error |
| Checker.CountsListing | examples/01-fundamentals/example-2-checking-package-info/check-package.js:110-119 | npm's one-line listing of distinct dependencies, bare or quoted names, with no `:` or quote in a name or range, is counted, and its keys are listed iff there are at most ten |
| Checker.ColonRangeNotAvailable | examples/01-fundamentals/example-2-checking-package-info/check-package.js:104-127 | a listing whose first range starts with a word and `:` is reported as "Dependency information not available" |
| Checker.BracedKept | examples/01-fundamentals/example-2-checking-package-info/check-package.js:109 | a `{…}` text is left alone by `trim` and is not taken for "no dependencies" |
| Checker.ListingTrimmed | examples/01-fundamentals/example-2-checking-package-info/check-package.js:27 | `trim` leaves npm's object listing unchanged |
| Checker.ListingNotAbsent | examples/01-fundamentals/example-2-checking-package-info/check-package.js:109 | a non-empty listing is not taken for "no dependencies" |

## Left out

- Subprocesses and the file system are parameters, not I/O:
  - the `execSync` call behind `npm view` is the `Registry` or `Npm` function parameter;
  - `loadPkg` is the record the class is built with, and `savePkg` is the `saved` field;
  - a missing or unparsable package.json and the `fs` errors are not modelled.
- Console output: colours, symbols, the banners, the help text, `asJson`'s layout and the `=====` separators are left out. The models return the rows and lines they would print.
- `prettyOverview` and `kv` are left out. They are text layout over `Box`, and `Box` itself is modelled.
- `kb` and `displayPackageSize` are left out. They are floating-point division with `toFixed(2)`, and `Inspector` takes `kb` as a function parameter.
- JSON values: `JSON.parse` is recognised only for a flat list of strings and a flat object of strings, without backslash escapes. Any other shape counts as a failure.
- Manifest JSON numbers are integers.
- Integer-like object keys: JavaScript orders them first, and the model keeps insertion order.
- `Text.ToLower`: lower-cases ASCII letters only, not the full Unicode case mapping.
- `Manifest.NameRule`: the upper-case test is ASCII-only, because it rests on `Text.ToLower`.
- String lengths count code points, not UTF-16 code units. Widths of text outside the BMP therefore differ.
- `JsArray.NumberOf`: reads only `[sign]digits[.digits]`, `Infinity` and blank text. Exponent, hex, octal and binary forms become NaN, whereas JavaScript reads them as numbers.
- `Text.DecimalValue`: `parseInt` is exact here. JavaScript loses precision above 2^53.
- `Inspector.ParseFlags`: a flag named `__proto__` or `_` is kept as an ordinary key. JavaScript's object semantics differ for those keys.
- `Manifest.Box`: requires `width >= 2`. For a smaller width the script's `repeat` throws a RangeError.
- `Manifest.Box`: the glyphs are a `Frame` parameter of single characters. The script's glyph literals are mis-encoded strings of two or three characters, and `hr` repeats such a string, so the box it prints is not rectangular in code units. `BoxLayout` holds only for one-character glyphs.
- `QuasiJson.ObjishRoundTrip`, `QuasiJson.NormaliseObject` and `Checker.CountsListing`: proved only for npm's one-line rendering of members whose keys and values contain no `:`, quote, backslash or control character. npm also prints long listings over several lines, and `IsJsonSpace` reads those newlines, but no lemma covers that layout. Ranges with a colon are not parsed, as the script does (see `ColonRangeNotObject`).
- `Checker.DisplayDependencies`: dependency output that is valid JSON but not a flat object of strings counts as "not available". Examples are a number, an array or a nested object. For these the script would count `Object.keys` instead.
- `Manifest.Run`: `main`'s `fail` and `process.exit` are the `Failed` outcome, not a process exit.
- The repository's other examples are not part of this model. These include the script runners, build scripts, the lock-file checker and the package entry points.
