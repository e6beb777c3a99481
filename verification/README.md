# Résumé page renderer — a Dafny model

The page script of this résumé site reads a JSON document and fills a static
HTML page with it. It composes the owner's full name from a pattern and a
capitalisation mode. It builds the description and the contact line. Then it
appends one entry template per experience, education, project and
certification, and it removes every section whose key the document lacks.

The model has six modules:

- `Text`: `changeTextCapitalization` in its five modes and the full-name chain
  of `replaceAll` calls. Title mode is the global regular-expression replace
  `/(^\w|\s\w)(\S*)/g`, modelled as a left-to-right scan (`TitleStep`,
  `TitleFrom`). It is proved equal to a per-character reference definition
  (`TitleChar`).
- `Markup`: `buildList`, `buildLink`, `buildPills` and the contact line of
  `renderContact`.
- `Template`: `buildTemplate`. It works as a method of DOM steps on a cloned
  fragment, where a lookup by id that finds nothing throws. It is proved equal
  to a declarative `Instantiate`.
- `Sections`: how each entry becomes the four arguments of `buildTemplate`. It
  also holds the container of a section (a class whose `fragments` grow by
  `Append`) and the loop shared by the four `render*` functions. That loop is
  proved against `RunAll`: one fragment per entry, stopping at the first
  entry that throws.
- `Page`: the page (a class with the name, title, description and contact
  texts and the four section containers) and the data handler of
  `window.onload`. The handler is proved against `LoadSections`.
- `Wrappers`: `Option` and `Result`.

Where the code as written departs from what it evidently means to do, the
model follows the code:

- An empty subheading is not removed. Line 24 evidently means to drop only the
  empty subheading element; as written, its misspelled selector
  `#tmplate_subheading` finds nothing and the call throws (scripts.js:24). So a
  project with no stacks throws and is not shown.
- A non-external entry with an empty heading throws. The heading is removed,
  then looked up again to drop its hover class (scripts.js:23, 26).
- A thrown error is not confined to the fetch. It stops the handler: fragments
  already appended stay, later entries and later sections are neither rendered
  nor removed, and the error is alerted.
- A certification without an expiry date keeps both spaces around the dropped
  dash, giving `issuer | issued` followed by two spaces (scripts.js:90).
- The three `replaceAll` calls run one after another, so a substituted name is
  itself rewritten by the later steps. With the pattern `f l`, the first name
  `Emily` becomes `EAnniLeey` (middle name `Ann`, last name `Lee`).

## Model

| member | source | states |
|---|---|---|
| Text.UpperLowerChangeOnlyCase | scripts.js:7-10 | upper and lower mode keep the length and change each character at most in letter case; upper mode leaves no lower-case ASCII letter, lower mode no upper-case one; other characters are unchanged |
| Text.UpperAt | scripts.js:8 | upper mode maps each character on its own |
| Text.LowerAt | scripts.js:10 | lower mode maps each character on its own |
| Text.UpperIdempotent | scripts.js:8 | upper-casing twice is upper-casing once |
| Text.LowerIdempotent | scripts.js:10 | lower-casing twice is lower-casing once |
| Text.FirstModeShape | scripts.js:11-12 | first mode gives the empty string for the empty string; otherwise the same length, the first character upper-cased and every later one lower-cased |
| Text.OtherModesUnchanged | scripts.js:15-16 | any mode other than the four named ones returns the text unchanged |
| Text.RunEnd | scripts.js:14 | `\S*` stops at the first white-space character or the end, and covers no white space |
| Text.RunStart | scripts.js:14 | the start of the non-white-space run holding a position: preceded by white space or the start, with no white space up to the position |
| Text.TitleStep | scripts.js:14 | each step of the global replace emits as many characters as it consumes and always advances |
| Text.TitleFrom | scripts.js:14 | the scan from a position emits exactly as many characters as remain |
| Text.MatchStep | scripts.js:14 | where `^\w` or `\s\w` matches, the step upper-cases the first group, lower-cases the rest of the run and resumes at the end of the run |
| Text.CopyStep | scripts.js:14 | where no match starts, the step copies one character |
| Text.StepSplit | scripts.js:14 | each step of the global replace from a reachable position ends at a reachable position, agrees with the per-character reference definition on what it covers, and is followed by the scan resumed where it ends |
| Text.TitleFromAt | scripts.js:14 | from every position the scan can reach, the scan agrees with the per-character reference definition |
| Text.TitleIsPointwise | scripts.js:14 | title mode equals the reference definition at every position: white space kept; in a run starting with a word character, the first upper-cased and the rest lower-cased; other runs kept |
| Text.TitleProperties | scripts.js:14 | title mode keeps the length and the white-space positions, upper-cases each word character that starts a run, lower-cases the rest of such runs and keeps runs that start with another character |
| Text.TitleKeepsClasses | scripts.js:14 | title mode keeps every character's white-space and word-character class |
| Text.TitleIdempotent | scripts.js:14 | applying title mode twice is applying it once |
| Text.CaseIdempotent | scripts.js:5-18 | every mode, named or not, is idempotent |
| Text.TitleExample | scripts.js:14 | `hello world` in title mode is `Hello World` |
| Text.ReplaceAllConcat | scripts.js:43 | `replaceAll` distributes over concatenation |
| Text.ReplaceAllAbsent | scripts.js:43 | a string without the target letter is unchanged, so `F`, `M` and `L` are not placeholders |
| Text.ReplaceAllChars | scripts.js:43 | every character of the result comes from the input (and is not the target) or from the replacement |
| Text.ReplaceAllChar | scripts.js:43 | on one character, `replaceAll` gives the replacement for the target and the character otherwise |
| Text.ReplaceOne | scripts.js:43 | one occurrence of the target between target-free parts is replaced by the replacement |
| Text.SequentialChain | scripts.js:43 | the three sequential replacements equal the one-pass substitution of the first name rewritten by the middle- and last-name steps, the middle name rewritten by the last-name step, and the last name |
| Text.SequentialIsOnePass | scripts.js:43 | when the first name has no `m` or `l` and the middle name no `l`, the three sequential replacements equal the one-pass placeholder substitution |
| Text.FirstNameRewritten | scripts.js:43 | with the pattern `f`, the result is the first name after the middle- and last-name replacements; with an `m` in the first name that neither later part has, it differs from the one-pass substitution |
| Text.MiddleNameRewritten | scripts.js:43 | with the pattern `m`, the result is the middle name after the last-name replacement; with an `l` in the middle name that the last name lacks, it differs from the one-pass substitution |
| Text.SequentialRewritesExample | scripts.js:43 | pattern `f l`, names `Emily`, `Ann`, `Lee` give `EAnniLeey Lee`, where the one-pass substitution gives `Emily Lee` |
| Text.SequentialOnePassChars | scripts.js:43 | the one-pass substitution of `f l` is the first name, a space and the last name |
| Text.NoPlaceholders | scripts.js:43 | a pattern with no `f`, `m` or `l` only has its case changed |
| Text.FullNameExample | scripts.js:43 | pattern `f l`, names `Jane` and `Doe`, upper mode give `JANE DOE` |
| Markup.Wrap | scripts.js:31 | the mapped items: one per item, each the item between the opening and closing markup |
| Markup.JoinAppend | scripts.js:31 | joining with the empty separator distributes over concatenation |
| Markup.WrappedItemAt | scripts.js:31 | in the joined, wrapped items, each item appears wrapped, after the items before it and before the items after it |
| Markup.BuildListItemAt | scripts.js:30-32 | a list is the opening tag, every item in order wrapped in one list-item element, and the closing tag |
| Markup.BuildListEmpty | scripts.js:30-32 | no items give `<ul></ul>` |
| Markup.BuildListSingle | scripts.js:30-32 | one item gives that item in one list-item element inside the list |
| Markup.BuildPillsEmptyIff | scripts.js:38-40 | pills are empty exactly when there are no items |
| Markup.BuildLinkRoundTrip | scripts.js:34-36 | an anchor parses back to its text and its target whenever the target has no quotation mark |
| Markup.BuildLinkNonEmpty | scripts.js:34-36 | an anchor is never empty |
| Markup.JoinSeparated | scripts.js:57 | joining a list extended by one item adds the separator and that item |
| Markup.ContactLineShape | scripts.js:52-58 | one link per provided field, in the order phone, email, website, joined by the separator; empty exactly when no field is provided |
| Template.MisspelledSelectorFindsNothing | scripts.js:24 | the selector of the subheading removal finds nothing; the correct one finds the subheading while it is there |
| Template.BuildTemplate | scripts.js:20-28 | the DOM steps in source order give exactly `Instantiate` |
| Template.InstantiateMeaning | scripts.js:20-28 | a template builds exactly when the subheading is non-empty and the entry is external or has a heading; the error names the failed lookup; a built fragment shows each non-empty value, drops each empty one, and keeps the external marker and hover colour exactly for an external entry |
| Sections.Container.Append | scripts.js:65 | appending adds one fragment at the end and keeps the section on the page |
| Sections.Container.RemoveSection | scripts.js:118 | removing the parent takes the section off the page and keeps its content |
| Sections.RenderEntries | scripts.js:60-94 | the loop appends exactly what `RunAll` says and returns its error |
| Sections.RunAllSnoc | scripts.js:61-66 | one more loop iteration appends the next entry's fragment or stops with its error |
| Sections.RunAllStops | scripts.js:61-66 | entries after the one that throws are never looked at |
| Sections.RunAllMeaning | scripts.js:60-94 | a loop appends the fragments of a prefix of the entries, each the template of its entry; no error exactly when every entry was appended; otherwise the error is that of the first entry left out |
| Sections.AllBuild | scripts.js:60-94 | when every entry builds, the loop appends one fragment per entry and reports no error |
| Sections.DescriptionMarkupEmptyIff | scripts.js:64 | the description is left out exactly when it has no item or a single empty item |
| Sections.ExperienceOutcome | scripts.js:60-67 | an experience throws exactly when its role is empty; otherwise it shows role, `company \| begin - end` and the description |
| Sections.EducationOutcome | scripts.js:69-76 | an education entry throws exactly when its field is empty; otherwise it shows field and `institution \| begin - end`, without description, external marker or hover colour |
| Sections.ProjectOutcome | scripts.js:78-85 | a project throws when it has no stack or has neither name nor link; otherwise it is external exactly when it has a link, its heading is the name (as a link when there is one), its subheading the pills |
| Sections.CertificationOutcome | scripts.js:87-94 | a certification throws exactly when its name is empty; otherwise it shows name and the issuer line, without description, external marker or hover colour |
| Sections.CertificationSubheadingShape | scripts.js:90 | with an expiry the line is `issuer \| issued - expiry`; without one it is `issuer \| issued` and two spaces |
| Page.Page.RenderFullName | scripts.js:42-46 | the heading and the document title both become the composed full name |
| Page.Page.RenderDescription | scripts.js:48-50 | the description text becomes the given string |
| Page.Page.RenderContact | scripts.js:52-58 | the pushes and the join give the contact line |
| Page.Page.Onload | scripts.js:96-162 | the name, title, description and contact are set; the sections end and the alerted error is exactly as `LoadSections` says |
| Page.RenderSection | scripts.js:106-119 | a present key renders its entries into the container; an absent key removes the section |
| Page.EmptySectionKept | scripts.js:106-116 | an empty array keeps its section on the page, unchanged, with no error |
| Page.PresentMeaning | scripts.js:106-119 | a section reports no error exactly when every entry builds, and then it is rendered or removed as its key says; otherwise the error is its first failing entry's, the section stays on the page, and it holds what it held before followed by the templates of the entries before that one |
| Page.ExperiencesBuild | scripts.js:60-67 | all experiences build exactly when each has a role |
| Page.EducationBuilds | scripts.js:69-76 | all education entries build exactly when each has a field |
| Page.ProjectsBuild | scripts.js:78-85 | all projects build exactly when each has a stack and a name or a link |
| Page.CertificationsBuild | scripts.js:87-94 | all certifications build exactly when each has a name |
| Page.LoadSectionsMeaning | scripts.js:102-161 | the handler alerts nothing exactly when every entry of every present section has what its template needs; then each section holds one fragment per entry, or is removed when its key is absent |
| Page.FailureStopsLaterSections | scripts.js:106-161 | whichever section first has an entry that does not build, the handler alerts that entry's error, that section holds the templates of the entries before it, every earlier section is rendered or removed as its key says, and every later section is left exactly as it was |

## Left out

- Fetching and parsing `content.json`: the handler receives the parsed document as a value; the fetch and parse failures of the promise chain are not modelled.
- `alert`: the alerted error is returned by `Page.Page.Onload` instead of shown.
- The dark-mode check with `matchMedia` and the class toggle it triggers: they do not touch the rendered content.
- The message of the thrown error: a failed lookup is alerted as a `TypeError` naming the property read on null (`remove` or `classList`); the model identifies the error by the selector that found nothing.
- The DOM: a fragment is a record of its four elements, a section a list of fragments and an on-page flag. Markup is not parsed and `innerText` is not distinguished from `innerHTML`.
- Locale-aware case mapping: `toLocaleUpperCase` and `toLocaleLowerCase` are modelled by the locale-independent mapping of ASCII letters, which is what every locale but Turkish, Azeri and the like applies to them (there `i` upper-cases to `İ` and `I` lower-cases to `ı`); every other character is treated as caseless.
- `$` patterns in the replacement of `replaceAll`: names are inserted verbatim, as they are when they contain no `$`.
- Malformed documents: a missing `info`, a missing name part or field (`undefined`), a description given as a bare string and non-array section values are outside the model's datatypes.
- The lookup of `#template` and of the section containers: the model assumes the page provides them.
- Text.TitleExample, Text.SequentialRewritesExample, Text.FullNameExample: stated for their literal arguments only, as concrete instances of the general lemmas.
